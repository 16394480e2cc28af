/**
 The channel-range pass: `for k := range ch { body }` becomes
 `for { k, ok := receive(ch); if !ok { break }; body }`.
 */
module ChannelRange {
  import opened LoopLanguage
  import opened LoopRegions

  /** The body of the explicit loop. */
  function ReceiveBody(key: Var, c: Var, ok: Var, body: seq<Stmt>): seq<Stmt> {
    [Recv(key, ok, c), If(Not(Read(ok)), [Break], [], false)] + body
  }

  /** `for k := range c`, or without a variable when key is blank; decls are what the body declares at its top. */
  function DeclaringRange(key: Var, c: Var, decls: seq<Var>, body: seq<Stmt>): Stmt {
    Block([key], [RangeChan(key, c, [Block(decls, body)])])
  }

  /** A body that declares the range variable again, as in `k := k`. */
  predicate Redeclares(key: Var, decls: seq<Var>) {
    key != BLANK && key in decls
  }

  /**
   The statements of the body share the block of the receive, so a second
   declaration of k there does not compile.
   */
  function DeclaringLoop(key: Var, c: Var, ok: Var, decls: seq<Var>, body: seq<Stmt>): Stmt {
    if Redeclares(key, decls) then Region([Break])
    else For(Const(1), NoPost, [Block([key, ok] + decls, ReceiveBody(key, c, ok, body))])
  }

  /** `for k = range c` assigns a variable declared outside; only ok is declared. */
  function AssigningLoop(key: Var, c: Var, ok: Var, body: seq<Stmt>): Stmt {
    Block([ok], [For(Const(1), NoPost, ReceiveBody(key, c, ok, body))])
  }

  // ----- which variables a body may write -----

  function WritesList(ss: seq<Stmt>): set<Var>
    decreases ss, 0
  {
    if ss == [] then {} else Writes(ss[0]) + WritesList(ss[1..])
  }

  function WritesClauses(cs: seq<Clause>): set<Var>
    decreases cs, 0
  {
    if cs == [] then {} else WritesList(cs[0].body) + WritesClauses(cs[1..])
  }

  function Writes(s: Stmt): set<Var>
    decreases s, 0
  {
    match s
    case Assign(x, _) => {x}
    case Recv(x, ok, _) => {x, ok}
    case Break => {}
    case Continue => {}
    case Return => {}
    case Block(decls, body) => (set x | x in decls) + WritesList(body)
    case If(_, thn, els, _) => WritesList(thn) + WritesList(els)
    case Clauses(_, cs, _) => WritesClauses(cs)
    case For(_, post, body) => (if post.Step? then {post.x} else {}) + WritesList(body)
    case Range(key, _, body) => {key} + WritesList(body)
    case RangeChan(key, _, body) => {key} + WritesList(body)
    case Region(body) => WritesList(body)
  }

  ghost predicate Untouched(st: State, r: Result, x: Var) {
    r.Done? ==> Get(r.st, x) == Get(st, x)
  }

  lemma {:induction false} ListUntouched(ss: seq<Stmt>, st: State, x: Var, fuel: nat)
    requires x !in WritesList(ss)
    ensures Untouched(st, ExecList(ss, st, fuel), x)
    decreases fuel, ss, 0, 0
  {
    if ss != [] {
      StmtUntouched(ss[0], st, x, fuel);
      var r := Exec(ss[0], st, fuel);
      if r.Done? && r.out == Normal { ListUntouched(ss[1..], r.st, x, fuel); }
    }
  }

  lemma {:induction false} ClauseUntouched(cs: seq<Clause>, i: nat)
    requires i < |cs|
    ensures WritesList(cs[i].body) <= WritesClauses(cs)
  {
    if i > 0 { ClauseUntouched(cs[1..], i - 1); }
  }

  lemma {:induction false} StmtUntouched(s: Stmt, st: State, x: Var, fuel: nat)
    requires x !in Writes(s)
    ensures Untouched(st, Exec(s, st, fuel), x)
    decreases fuel, s, 0, 0
  {
    match s
    case Block(decls, body) =>
      EnterGet(decls, st, x);
      ListUntouched(body, Enter(decls, st), x, fuel);
      var r := ExecList(body, Enter(decls, st), fuel);
      if r.Done? { LeaveGet(decls, st, r.st, x); }
    case If(_, thn, els, _) => ListUntouched(thn, st, x, fuel); ListUntouched(els, st, x, fuel);
    case Clauses(tag, cs, _) =>
      var i := Eval(tag, st);
      if 0 <= i < |cs| { ClauseUntouched(cs, i); ListUntouched(cs[i].body, st, x, fuel); }
    case For(cond, post, body) => ForUntouched(cond, post, body, st, x, fuel);
    case Range(key, bound, body) => RangeUntouched(key, 0, Eval(bound, st), body, st, x, fuel);
    case RangeChan(key, c, body) => ChanUntouched(key, Get(st, c), body, st, x, fuel);
    case Region(body) => ListUntouched(body, st, x, fuel);
    case _ =>
  }

  lemma {:induction false} ForUntouched(cond: Expr, post: Post, body: seq<Stmt>, st: State, x: Var, fuel: nat)
    requires x !in WritesList(body) && (post.Step? ==> x != post.x)
    ensures Untouched(st, Exec(For(cond, post, body), st, fuel), x)
    decreases fuel, body, 1, 0
  {
    if fuel > 0 && Eval(cond, st) != 0 {
      ListUntouched(body, st, x, fuel);
      var r := ExecList(body, st, fuel);
      if r.Done? && (r.out == Normal || r.out == Continued) {
        ForUntouched(cond, post, body, RunPost(post, r.st), x, fuel - 1);
      }
    }
  }

  lemma {:induction false} RangeUntouched(key: Var, i: int, n: int, body: seq<Stmt>, st: State, x: Var, fuel: nat)
    requires x !in WritesList(body) && x != key
    ensures Untouched(st, ExecRange(key, i, n, body, st, fuel), x)
    decreases fuel, body, 1, n - i
  {
    if i < n {
      ListUntouched(body, Set(st, key, i), x, fuel);
      var r := ExecList(body, Set(st, key, i), fuel);
      if r.Done? && (r.out == Normal || r.out == Continued) { RangeUntouched(key, i + 1, n, body, r.st, x, fuel); }
    }
  }

  lemma {:induction false} ChanUntouched(key: Var, c: int, body: seq<Stmt>, st: State, x: Var, fuel: nat)
    requires x !in WritesList(body) && x != key
    ensures Untouched(st, ExecChan(key, c, body, st, fuel), x)
    decreases fuel, body, 1, 0
  {
    if fuel > 0 && Pending(st, c) != [] {
      ListUntouched(body, Take(st, c, key), x, fuel);
      var r := ExecList(body, Take(st, c, key), fuel);
      if r.Done? && (r.out == Normal || r.out == Continued) { ChanUntouched(key, c, body, r.st, x, fuel - 1); }
    }
  }

  // ----- the simulation -----

  /** ok is fresh, and the body leaves the channel variable alone. */
  ghost predicate Rewritable(key: Var, c: Var, ok: Var, body: seq<Stmt>) {
    && ok != key && ok != c && ok != BLANK && key != c && c != BLANK
    && ListAvoids(body, {ok}) && c !in WritesList(body)
  }

  /** The variables the loop itself declares. */
  function Own(key: Var, ok: Var): set<Var> {
    {ok} + (if key == BLANK then {} else {key})
  }

  lemma RunReceiveBody(key: Var, c: Var, ok: Var, body: seq<Stmt>, st: State, fuel: nat)
    requires ok != BLANK && ok != key
    ensures var st1 := Receive(st, key, ok, Get(st, c));
            ExecList(ReceiveBody(key, c, ok, body), st, fuel) ==
            if Pending(st, Get(st, c)) == [] then Done(Broke, st1) else ExecList(body, st1, fuel)
  {
    var st1 := Receive(st, key, ok, Get(st, c));
    var check := If(Not(Read(ok)), [Break], [], false);
    RunHead(Recv(key, ok, c), [check] + body, st, fuel);
    assert ReceiveBody(key, c, ok, body) == [Recv(key, ok, c)] + ([check] + body);
    assert Get(st1, ok) == if Pending(st, Get(st, c)) == [] then 0 else 1;
    RunHead(check, body, st1, fuel);
    RunOne(Break, st1, fuel);
    assert Exec(check, st1, fuel) == if Get(st1, ok) == 0 then Done(Broke, st1) else Done(Normal, st1) by {
      assert Eval(check.cond, st1) == if Get(st1, ok) == 0 then 1 else 0;
    }
  }

  /** One received value: both bodies run on it, from states that differ in ok only. */
  lemma IterationAgrees(key: Var, c: Var, ok: Var, body: seq<Stmt>, a: State, b: State, f: set<Var>, fuel: nat)
    requires Rewritable(key, c, ok, body) && Agree(a, b, f) && ok in f && f <= {key, ok}
    requires key in f ==> key != BLANK
    requires Pending(a, Get(b, c)) != []
    ensures SameResult(ExecList(body, Take(a, Get(b, c), key), fuel),
                       ExecList(ReceiveBody(key, c, ok, body), b, fuel), {ok})
    ensures Untouched(b, ExecList(ReceiveBody(key, c, ok, body), b, fuel), c)
  {
    var id := Get(b, c);
    RunReceiveBody(key, c, ok, body, b, fuel);
    assert Pending(a, id) == Pending(b, id);
    forall x | x != ok ensures Get(Take(a, id, key), x) == Get(Receive(b, key, ok, id), x) {
      if x != key || key == BLANK { assert Get(a, x) == Get(b, x); }
    }
    ListIndependent(body, Take(a, id, key), Receive(b, key, ok, id), {ok}, fuel);
    ListUntouched(body, Receive(b, key, ok, id), c, fuel);
  }

  /** One iteration with the body in a block of its own. */
  function Nested(key: Var, c: Var, ok: Var, body: seq<Stmt>): seq<Stmt> {
    [Block([key, ok], ReceiveBody(key, c, ok, body))]
  }

  lemma EnterOwn(key: Var, c: Var, ok: Var, b: State)
    requires ok != BLANK && key != c && ok != c
    ensures var b0 := Enter([key, ok], b);
            && b0.chans == b.chans && Get(b0, c) == Get(b, c)
            && forall x :: Get(b0, x) == if x in [key, ok] && x != BLANK then 0 else Get(b, x)
  {
    var b0 := Enter([key, ok], b);
    forall x ensures Get(b0, x) == if x in [key, ok] && x != BLANK then 0 else Get(b, x) {
      EnterGet([key, ok], b, x);
    }
    EnterGet([key, ok], b, c);
  }

  lemma LeaveOwn(key: Var, c: Var, ok: Var, b: State, st: State)
    requires ok != BLANK && key != c && ok != c
    ensures var t := Leave([key, ok], b, st);
            && t.chans == st.chans && Get(t, c) == Get(st, c) && Keeps(b, t, Own(key, ok))
            && forall x :: x !in Own(key, ok) ==> Get(t, x) == Get(st, x)
  {
    forall x ensures Get(Leave([key, ok], b, st), x) == if x in [key, ok] && x != BLANK then Get(b, x) else Get(st, x) {
      LeaveGet([key, ok], b, st, x);
    }
    LeaveGet([key, ok], b, st, c);
  }

  /** The end of the stream: the loop is left and no variable has changed. */
  lemma DeclaringEnd(key: Var, c: Var, ok: Var, body: seq<Stmt>, a: State, b: State, fuel: nat)
    requires Rewritable(key, c, ok, body) && Agree(a, b, Own(key, ok)) && Pending(a, Get(b, c)) == []
    ensures var t := ExecList(Nested(key, c, ok, body), b, fuel);
            && t.Done? && t.out == Broke && Agree(a, t.st, Own(key, ok))
            && Keeps(b, t.st, Own(key, ok)) && Get(t.st, c) == Get(b, c)
  {
    var list, b0 := ReceiveBody(key, c, ok, body), Enter([key, ok], b);
    EnterOwn(key, c, ok, b);
    RunOne(Block([key, ok], list), b, fuel);
    RunReceiveBody(key, c, ok, body, b0, fuel);
    LeaveOwn(key, c, ok, b, Receive(b0, key, ok, Get(b, c)));
  }

  /** A received value: the range runs the same body on it. */
  lemma DeclaringIteration(key: Var, c: Var, ok: Var, body: seq<Stmt>, a: State, b: State, fuel: nat)
    requires Rewritable(key, c, ok, body) && Agree(a, b, Own(key, ok)) && Pending(a, Get(b, c)) != []
    ensures var t := ExecList(Nested(key, c, ok, body), b, fuel);
            && SameResult(ExecList(body, Take(a, Get(b, c), key), fuel), t, Own(key, ok))
            && (t.Done? ==> Keeps(b, t.st, Own(key, ok)) && Get(t.st, c) == Get(b, c))
  {
    var list, b0 := ReceiveBody(key, c, ok, body), Enter([key, ok], b);
    EnterOwn(key, c, ok, b);
    RunOne(Block([key, ok], list), b, fuel);
    assert Agree(a, b0, Own(key, ok));
    IterationAgrees(key, c, ok, body, a, b0, Own(key, ok), fuel);
    var t := ExecList(list, b0, fuel);
    if t.Done? { LeaveOwn(key, c, ok, b, t.st); }
  }

  lemma {:induction false} DeclaringLoops(key: Var, c: Var, ok: Var, body: seq<Stmt>, a: State, b: State, fuel: nat)
    requires Rewritable(key, c, ok, body) && Agree(a, b, Own(key, ok))
    ensures var r, t := ExecChan(key, Get(b, c), body, a, fuel), Exec(For(Const(1), NoPost, Nested(key, c, ok, body)), b, fuel);
            SameResult(r, t, Own(key, ok)) && (t.Done? ==> Keeps(b, t.st, Own(key, ok)))
    decreases fuel
  {
    if fuel > 0 {
      var id := Get(b, c);
      if Pending(a, id) == [] {
        DeclaringEnd(key, c, ok, body, a, b, fuel);
      } else {
        DeclaringIteration(key, c, ok, body, a, b, fuel);
        var r, t := ExecList(body, Take(a, id, key), fuel), ExecList(Nested(key, c, ok, body), b, fuel);
        if r.Done? && (r.out == Normal || r.out == Continued) {
          DeclaringLoops(key, c, ok, body, r.st, t.st, fuel - 1);
        }
      }
    }
  }

  // ----- the body's own declarations in the block of the receive -----

  /** One iteration as the pass writes it. */
  function Merged(key: Var, c: Var, ok: Var, decls: seq<Var>, body: seq<Stmt>): seq<Stmt> {
    [Block([key, ok] + decls, ReceiveBody(key, c, ok, body))]
  }

  /** The names of the block are different from each other, and none is the channel variable. */
  ghost predicate Separate(key: Var, c: Var, ok: Var, decls: seq<Var>) {
    && ok != BLANK && ok != key && ok != c && key != c && c != BLANK
    && ok !in decls && c !in decls && !Redeclares(key, decls)
  }

  lemma MergedEntry(key: Var, c: Var, ok: Var, decls: seq<Var>, b: State, x: Var)
    ensures Get(Enter([key, ok] + decls, b), x) == if (x == key || x == ok || x in decls) && x != BLANK then 0 else Get(b, x)
    ensures Enter([key, ok] + decls, b).chans == b.chans
  {
    EnterGet([key, ok] + decls, b, x);
  }

  /** After the receive both forms start the body alike. */
  lemma MergedStart(key: Var, c: Var, ok: Var, decls: seq<Var>, a: State, b: State, id: int)
    requires Separate(key, c, ok, decls) && Agree(a, b, {}) && Pending(a, id) != []
    ensures Agree(Receive(Enter([key, ok] + decls, a), key, ok, id),
                  Enter(decls, Receive(Enter([key, ok], b), key, ok, id)), {ok})
  {
    var b1 := Receive(Enter([key, ok], b), key, ok, id);
    EnterOwn(key, c, ok, b);
    EnterGet(decls, b1, c);
    MergedEntry(key, c, ok, decls, a, c);
    forall x | x != ok
      ensures Get(Receive(Enter([key, ok] + decls, a), key, ok, id), x) == Get(Enter(decls, b1), x)
    {
      MergedEntry(key, c, ok, decls, a, x);
      EnterGet(decls, b1, x);
    }
  }

  /** Both forms restore what the block declares. */
  lemma MergedExit(key: Var, c: Var, ok: Var, decls: seq<Var>, a: State, b: State, b1: State, r: State, t: State)
    requires Separate(key, c, ok, decls) && Agree(a, b, {}) && Agree(r, t, {ok})
    requires forall x :: x in decls && x != BLANK ==> Get(b1, x) == Get(b, x)
    ensures Agree(Leave([key, ok] + decls, a, r), Leave([key, ok], b, Leave(decls, b1, t)), {})
  {
    var inner := Leave(decls, b1, t);
    LeaveOwn(key, c, ok, b, inner);
    LeaveGet(decls, b1, t, c);
    LeaveGet([key, ok] + decls, a, r, c);
    forall x ensures Get(Leave([key, ok] + decls, a, r), x) == Get(Leave([key, ok], b, inner), x) {
      LeaveGet([key, ok] + decls, a, r, x);
      LeaveGet(decls, b1, t, x);
      LeaveGet([key, ok], b, inner, x);
    }
  }

  lemma MergedIteration(key: Var, c: Var, ok: Var, decls: seq<Var>, body: seq<Stmt>, a: State, b: State, fuel: nat)
    requires Separate(key, c, ok, decls) && ListAvoids(body, {ok}) && Agree(a, b, {})
    ensures SameResult(ExecList(Merged(key, c, ok, decls, body), a, fuel),
                       ExecList(Nested(key, c, ok, [Block(decls, body)]), b, fuel), {})
  {
    var a0, b0, id := Enter([key, ok] + decls, a), Enter([key, ok], b), Get(b, c);
    EnterOwn(key, c, ok, b);
    MergedEntry(key, c, ok, decls, a, c);
    RunOne(Block([key, ok] + decls, ReceiveBody(key, c, ok, body)), a, fuel);
    RunOne(Block([key, ok], ReceiveBody(key, c, ok, [Block(decls, body)])), b, fuel);
    RunReceiveBody(key, c, ok, body, a0, fuel);
    RunReceiveBody(key, c, ok, [Block(decls, body)], b0, fuel);
    var a1, b1 := Receive(a0, key, ok, id), Receive(b0, key, ok, id);
    if Pending(b, id) == [] {
      MergedEnd(key, c, ok, decls, a, b, id);
    } else {
      MergedStart(key, c, ok, decls, a, b, id);
      RunOne(Block(decls, body), b1, fuel);
      ListIndependent(body, a1, Enter(decls, b1), {ok}, fuel);
      var r, t := ExecList(body, a1, fuel), ExecList(body, Enter(decls, b1), fuel);
      if r.Done? { MergedExit(key, c, ok, decls, a, b, b1, r.st, t.st); }
    }
  }

  lemma MergedEnd(key: Var, c: Var, ok: Var, decls: seq<Var>, a: State, b: State, id: int)
    requires Separate(key, c, ok, decls) && Agree(a, b, {}) && Pending(b, id) == []
    ensures Agree(Leave([key, ok] + decls, a, Receive(Enter([key, ok] + decls, a), key, ok, id)),
                  Leave([key, ok], b, Receive(Enter([key, ok], b), key, ok, id)), {})
  {
    var a1, b1 := Receive(Enter([key, ok] + decls, a), key, ok, id), Receive(Enter([key, ok], b), key, ok, id);
    EnterOwn(key, c, ok, b);
    LeaveOwn(key, c, ok, b, b1);
    MergedEntry(key, c, ok, decls, a, c);
    LeaveGet([key, ok] + decls, a, a1, c);
    forall x ensures Get(Leave([key, ok] + decls, a, a1), x) == Get(Leave([key, ok], b, b1), x) {
      MergedEntry(key, c, ok, decls, a, x);
      LeaveGet([key, ok] + decls, a, a1, x);
      LeaveGet([key, ok], b, b1, x);
    }
  }

  lemma {:induction false} MergedLoops(key: Var, c: Var, ok: Var, decls: seq<Var>, body: seq<Stmt>, a: State, b: State, fuel: nat)
    requires Separate(key, c, ok, decls) && ListAvoids(body, {ok}) && Agree(a, b, {})
    ensures SameResult(Exec(For(Const(1), NoPost, Merged(key, c, ok, decls, body)), a, fuel),
                       Exec(For(Const(1), NoPost, Nested(key, c, ok, [Block(decls, body)])), b, fuel), {})
    decreases fuel
  {
    if fuel > 0 {
      MergedIteration(key, c, ok, decls, body, a, b, fuel);
      var r, t := ExecList(Merged(key, c, ok, decls, body), a, fuel), ExecList(Nested(key, c, ok, [Block(decls, body)]), b, fuel);
      if r.Done? && (r.out == Normal || r.out == Continued) {
        MergedLoops(key, c, ok, decls, body, r.st, t.st, fuel - 1);
      }
    }
  }

  // ----- the declaring form -----

  /** With the body in a block of its own. */
  lemma NestedRangePreserves(key: Var, c: Var, ok: Var, body: seq<Stmt>, st: State, fuel: nat)
    requires Rewritable(key, c, ok, body)
    ensures SameResult(Exec(Block([key], [RangeChan(key, c, body)]), st, fuel),
                       Exec(For(Const(1), NoPost, Nested(key, c, ok, body)), st, fuel), {})
  {
    var a := Enter([key], st);
    forall x ensures Get(a, x) == if x == key && x != BLANK then 0 else Get(st, x) {
      EnterGet([key], st, x);
    }
    EnterGet([key], st, c);
    DeclaringLoops(key, c, ok, body, a, st, fuel);
    RunOne(RangeChan(key, c, body), a, fuel);
    var r, t := ExecChan(key, Get(st, c), body, a, fuel), Exec(For(Const(1), NoPost, Nested(key, c, ok, body)), st, fuel);
    if r.Done? {
      forall x ensures Get(Leave([key], st, r.st), x) == Get(t.st, x) {
        LeaveGet([key], st, r.st, x);
        if x == ok { RangeKeepsOk(key, c, ok, body, a, fuel); }
      }
      LeaveGet([key], st, r.st, c);
    }
  }

  /**
   A declaring (or variable-free) range and its explicit loop take the same
   values in the same order and end alike, in states equal on every variable,
   for any body that does not declare the range variable again.
   */
  lemma DeclaringRangePreserves(key: Var, c: Var, ok: Var, decls: seq<Var>, body: seq<Stmt>, st: State, fuel: nat)
    requires Rewritable(key, c, ok, [Block(decls, body)]) && !Redeclares(key, decls)
    ensures SameResult(Exec(DeclaringRange(key, c, decls, body), st, fuel),
                       Exec(DeclaringLoop(key, c, ok, decls, body), st, fuel), {})
  {
    NestedRangePreserves(key, c, ok, [Block(decls, body)], st, fuel);
    assert Avoids(Block(decls, body), {ok});
    assert c !in Writes(Block(decls, body));
    MergedLoops(key, c, ok, decls, body, st, st, fuel);
  }

  /** A body that does declare it again no longer compiles. */
  lemma RedeclaredKeyIsStuck(key: Var, c: Var, ok: Var, decls: seq<Var>, body: seq<Stmt>, st: State, fuel: nat)
    requires Redeclares(key, decls)
    ensures Exec(DeclaringLoop(key, c, ok, decls, body), st, fuel) == Done(Stuck, st)
  {
    RunOne(Break, st, fuel);
  }

  lemma RangeKeepsOk(key: Var, c: Var, ok: Var, body: seq<Stmt>, a: State, fuel: nat)
    requires Rewritable(key, c, ok, body)
    ensures Untouched(a, ExecChan(key, Get(a, c), body, a, fuel), ok)
  {
    ChanIndependent(key, Get(a, c), body, a, a, {ok}, fuel);
  }

  // ----- the assigning form -----

  lemma AssigningIteration(key: Var, c: Var, ok: Var, body: seq<Stmt>, a: State, b: State, fuel: nat)
    requires Rewritable(key, c, ok, body) && Agree(a, b, {ok})
    ensures var t := ExecList(ReceiveBody(key, c, ok, body), b, fuel);
            && (Pending(a, Get(b, c)) == [] ==>
                  t.Done? && t.out == Broke && Agree(a, t.st, {key, ok}) && (key != BLANK ==> Get(t.st, key) == 0)
                  && (key == BLANK ==> Agree(a, t.st, {ok})))
            && (Pending(a, Get(b, c)) != [] ==>
                  SameResult(ExecList(body, Take(a, Get(b, c), key), fuel), t, {ok}) && Untouched(b, t, c))
  {
    if Pending(a, Get(b, c)) == [] {
      RunReceiveBody(key, c, ok, body, b, fuel);
    } else {
      IterationAgrees(key, c, ok, body, a, b, {ok}, fuel);
    }
  }

  /** The range ends because the channel is closed and drained. */
  ghost predicate Drains(key: Var, c: int, body: seq<Stmt>, st: State, fuel: nat)
    decreases fuel
  {
    fuel > 0 &&
    (Pending(st, c) == [] ||
     var r := ExecList(body, Take(st, c, key), fuel);
     r.Done? && (r.out == Normal || r.out == Continued) && Drains(key, c, body, r.st, fuel - 1))
  }

  /** Alike but for k, which the last, failed receive sets to zero. */
  ghost predicate EndsAlike(r: Result, t: Result, key: Var, ok: Var, drained: bool) {
    && SameResult(r, t, {key, ok}) && (drained ==> r.Done? && r.out == Normal)
    && (t.Done? && drained && key != BLANK ==> Get(t.st, key) == 0)
    && (t.Done? && (!drained || key == BLANK) ==> Agree(r.st, t.st, {ok}))
  }

  lemma {:induction false} AssigningLoops(key: Var, c: Var, ok: Var, body: seq<Stmt>, a: State, b: State, fuel: nat)
    requires Rewritable(key, c, ok, body) && Agree(a, b, {ok})
    ensures EndsAlike(ExecChan(key, Get(b, c), body, a, fuel),
                      Exec(For(Const(1), NoPost, ReceiveBody(key, c, ok, body)), b, fuel),
                      key, ok, Drains(key, Get(b, c), body, a, fuel))
    decreases fuel
  {
    if fuel > 0 {
      AssigningIteration(key, c, ok, body, a, b, fuel);
      var id := Get(b, c);
      var t := ExecList(ReceiveBody(key, c, ok, body), b, fuel);
      if Pending(a, id) != [] {
        var r := ExecList(body, Take(a, id, key), fuel);
        if r.Done? && (r.out == Normal || r.out == Continued) {
          AssigningLoops(key, c, ok, body, r.st, t.st, fuel - 1);
        }
      }
    }
  }

  /** For `k = range c` everything but k is preserved, for every body, and k too unless the channel is drained. */
  lemma AssigningRangePreservesTheRest(key: Var, c: Var, ok: Var, body: seq<Stmt>, st: State, fuel: nat)
    requires Rewritable(key, c, ok, body)
    ensures var r, t := Exec(RangeChan(key, c, body), st, fuel), Exec(AssigningLoop(key, c, ok, body), st, fuel);
            var drained := Drains(key, Get(st, c), body, st, fuel);
            && SameResult(r, t, {key}) && (drained ==> r.Done? && r.out == Normal)
            && (t.Done? && drained && key != BLANK ==> Get(t.st, key) == 0)
            && (t.Done? && (!drained || key == BLANK) ==> Agree(r.st, t.st, {}))
  {
    var loop := For(Const(1), NoPost, ReceiveBody(key, c, ok, body));
    var b := Enter([ok], st);
    forall x ensures Get(b, x) == if x == ok then 0 else Get(st, x) {
      EnterGet([ok], st, x);
    }
    EnterGet([ok], st, c);
    AssigningLoops(key, c, ok, body, st, b, fuel);
    RunOne(loop, b, fuel);
    var r, t := ExecChan(key, Get(st, c), body, st, fuel), Exec(loop, b, fuel);
    if t.Done? {
      forall x ensures Get(Leave([ok], st, t.st), x) == if x == ok then Get(st, ok) else Get(t.st, x) {
        LeaveGet([ok], st, t.st, x);
      }
      LeaveGet([ok], st, t.st, c);
      RangeKeepsOk(key, c, ok, body, st, fuel);
    }
  }

  /** For every body: k survives exactly if the range is not left by draining the channel, or k ends at zero. */
  lemma AssigningRangeExact(key: Var, c: Var, ok: Var, body: seq<Stmt>, st: State, fuel: nat)
    requires Rewritable(key, c, ok, body) && key != BLANK
    ensures var r := Exec(RangeChan(key, c, body), st, fuel);
            SameResult(r, Exec(AssigningLoop(key, c, ok, body), st, fuel), {}) <==>
            (Drains(key, Get(st, c), body, st, fuel) ==> r.Done? && Get(r.st, key) == 0)
  {
    AssigningRangePreservesTheRest(key, c, ok, body, st, fuel);
  }

  // ----- the condition before the loop -----

  /** The body does not receive. */
  predicate Quiet(ss: seq<Stmt>)
    decreases ss, 0
  {
    ss == [] || (QuietStmt(ss[0]) && Quiet(ss[1..]))
  }

  predicate QuietClauses(cs: seq<Clause>)
    decreases cs, 0
  {
    cs == [] || (Quiet(cs[0].body) && QuietClauses(cs[1..]))
  }

  predicate QuietStmt(s: Stmt)
    decreases s, 0
  {
    match s
    case Recv(_, _, _) => false
    case RangeChan(_, _, _) => false
    case Block(_, body) => Quiet(body)
    case If(_, thn, els, _) => Quiet(thn) && Quiet(els)
    case Clauses(_, cs, _) => QuietClauses(cs)
    case For(_, _, body) => Quiet(body)
    case Range(_, _, body) => Quiet(body)
    case Region(body) => Quiet(body)
    case _ => true
  }

  ghost predicate SameChans(st: State, r: Result) {
    r.Done? ==> r.st.chans == st.chans
  }

  lemma {:induction false} QuietRuns(ss: seq<Stmt>, st: State, fuel: nat)
    requires Quiet(ss)
    ensures SameChans(st, ExecList(ss, st, fuel))
    decreases fuel, ss, 0, 0
  {
    if ss != [] {
      QuietRunsStmt(ss[0], st, fuel);
      var r := Exec(ss[0], st, fuel);
      if r.Done? && r.out == Normal { QuietRuns(ss[1..], r.st, fuel); }
    }
  }

  lemma {:induction false} ClauseQuiet(cs: seq<Clause>, i: nat)
    requires i < |cs| && QuietClauses(cs)
    ensures Quiet(cs[i].body)
  {
    if i > 0 { ClauseQuiet(cs[1..], i - 1); }
  }

  lemma {:induction false} QuietRunsStmt(s: Stmt, st: State, fuel: nat)
    requires QuietStmt(s)
    ensures SameChans(st, Exec(s, st, fuel))
    decreases fuel, s, 0, 0
  {
    match s
    case Block(decls, body) =>
      EnterGet(decls, st, BLANK);
      QuietRuns(body, Enter(decls, st), fuel);
      var r := ExecList(body, Enter(decls, st), fuel);
      if r.Done? { LeaveGet(decls, st, r.st, BLANK); }
    case If(_, thn, els, _) => QuietRuns(thn, st, fuel); QuietRuns(els, st, fuel);
    case Clauses(tag, cs, _) =>
      var i := Eval(tag, st);
      if 0 <= i < |cs| { ClauseQuiet(cs, i); QuietRuns(cs[i].body, st, fuel); }
    case For(cond, post, body) => QuietFor(cond, post, body, st, fuel);
    case Range(key, bound, body) => QuietRange(key, 0, Eval(bound, st), body, st, fuel);
    case Region(body) => QuietRuns(body, st, fuel);
    case _ =>
  }

  lemma {:induction false} QuietFor(cond: Expr, post: Post, body: seq<Stmt>, st: State, fuel: nat)
    requires Quiet(body)
    ensures SameChans(st, Exec(For(cond, post, body), st, fuel))
    decreases fuel, body, 1, 0
  {
    if fuel > 0 && Eval(cond, st) != 0 {
      QuietRuns(body, st, fuel);
      var r := ExecList(body, st, fuel);
      if r.Done? && (r.out == Normal || r.out == Continued) { QuietFor(cond, post, body, RunPost(post, r.st), fuel - 1); }
    }
  }

  lemma {:induction false} QuietRange(key: Var, i: int, n: int, body: seq<Stmt>, st: State, fuel: nat)
    requires Quiet(body)
    ensures SameChans(st, ExecRange(key, i, n, body, st, fuel))
    decreases fuel, body, 1, n - i
  {
    if i < n {
      QuietRuns(body, Set(st, key, i), fuel);
      var r := ExecList(body, Set(st, key, i), fuel);
      if r.Done? && (r.out == Normal || r.out == Continued) { QuietRange(key, i + 1, n, body, r.st, fuel); }
    }
  }

  /** The value that is in k when the range has drained the channel. */
  function LastValue(st: State, key: Var, c: int): int {
    var q := Pending(st, c);
    if q == [] then Get(st, key) else q[|q| - 1]
  }

  lemma {:induction false} DrainedKey(key: Var, c: int, body: seq<Stmt>, st: State, fuel: nat)
    requires Quiet(body) && key !in WritesList(body) && key != BLANK && Drains(key, c, body, st, fuel)
    ensures var r := ExecChan(key, c, body, st, fuel); r.Done? && Get(r.st, key) == LastValue(st, key, c)
    decreases fuel
  {
    if Pending(st, c) != [] {
      var q, st1 := Pending(st, c), Take(st, c, key);
      QuietRuns(body, st1, fuel);
      ListUntouched(body, st1, key, fuel);
      var r := ExecList(body, st1, fuel);
      DrainedKey(key, c, body, r.st, fuel - 1);
      assert Pending(r.st, c) == q[1..];
    }
  }

  lemma {:induction false} SafeDrains(key: Var, c: int, body: seq<Stmt>, st: State, fuel: nat)
    requires LoopBodySafe(body)
    ensures var r := ExecChan(key, c, body, st, fuel); Drains(key, c, body, st, fuel) <==> r.Done? && r.out == Normal
    decreases fuel
  {
    if fuel > 0 && Pending(st, c) != [] {
      SafeIsContained(body);
      NoEscapeRuns(body, false, Take(st, c, key), fuel);
      var r := ExecList(body, Take(st, c, key), fuel);
      if r.Done? && r.out == Normal { SafeDrains(key, c, body, r.st, fuel - 1); }
    }
  }

  /**
   What a caller can tell before the loop: for a body without branches that
   neither assigns k nor receives, a range that comes to its end keeps k exactly
   if the last waiting value is zero (nothing waiting: if k is zero).
   */
  lemma AssigningRangeExactBefore(key: Var, c: Var, ok: Var, body: seq<Stmt>, st: State, fuel: nat)
    requires Rewritable(key, c, ok, body) && LoopBodySafe(body) && Quiet(body) && key !in WritesList(body) && key != BLANK
    ensures var r := Exec(RangeChan(key, c, body), st, fuel);
            SameResult(r, Exec(AssigningLoop(key, c, ok, body), st, fuel), {}) <==>
            (r.Done? && r.out == Normal ==> LastValue(st, key, Get(st, c)) == 0)
  {
    AssigningRangeExact(key, c, ok, body, st, fuel);
    SafeDrains(key, Get(st, c), body, st, fuel);
    if Drains(key, Get(st, c), body, st, fuel) { DrainedKey(key, Get(st, c), body, st, fuel); }
  }

  /** Assignments, blocks and choices only: such a body always comes to its end. */
  predicate Straight(ss: seq<Stmt>)
    decreases ss, 0
  {
    ss == [] || (StraightStmt(ss[0]) && Straight(ss[1..]))
  }

  predicate StraightClauses(cs: seq<Clause>)
    decreases cs, 0
  {
    cs == [] || (Straight(cs[0].body) && StraightClauses(cs[1..]))
  }

  predicate StraightStmt(s: Stmt)
    decreases s, 0
  {
    match s
    case Assign(_, _) => true
    case Block(_, body) => Straight(body)
    case If(_, thn, els, _) => Straight(thn) && Straight(els)
    case Clauses(_, cs, _) => StraightClauses(cs)
    case _ => false
  }

  ghost predicate Ends(r: Result) {
    r.Done? && r.out == Normal
  }

  lemma {:induction false} StraightRuns(ss: seq<Stmt>, st: State, fuel: nat)
    requires Straight(ss)
    ensures Ends(ExecList(ss, st, fuel)) && LoopBodySafe(ss) && Quiet(ss)
    decreases ss, 0
  {
    if ss != [] {
      StraightRunsStmt(ss[0], st, fuel);
      StraightRuns(ss[1..], Exec(ss[0], st, fuel).st, fuel);
    }
  }

  lemma {:induction false} StraightClause(cs: seq<Clause>, i: nat, st: State, fuel: nat)
    requires StraightClauses(cs)
    ensures i < |cs| ==> Ends(ExecList(cs[i].body, st, fuel))
    ensures SafeClauses(cs) && QuietClauses(cs)
    decreases cs, 0
  {
    if cs != [] {
      StraightRuns(cs[0].body, st, fuel);
      StraightClause(cs[1..], if i > 0 then i - 1 else 0, st, fuel);
    }
  }

  lemma {:induction false} StraightRunsStmt(s: Stmt, st: State, fuel: nat)
    requires StraightStmt(s)
    ensures Ends(Exec(s, st, fuel)) && SafeStmt(s) && QuietStmt(s)
    decreases s, 0
  {
    match s
    case Assign(_, _) =>
    case Block(decls, body) => StraightRuns(body, Enter(decls, st), fuel);
    case If(_, thn, els, _) => StraightRuns(thn, st, fuel); StraightRuns(els, st, fuel);
    case Clauses(tag, cs, _) => StraightClause(cs, if Eval(tag, st) > 0 then Eval(tag, st) else 0, st, fuel);
  }

  lemma {:induction false} StraightDrains(key: Var, c: int, body: seq<Stmt>, st: State, fuel: nat)
    requires Straight(body) && fuel > |Pending(st, c)|
    ensures Ends(ExecChan(key, c, body, st, fuel))
    ensures Drains(key, c, body, st, fuel) && Pending(ExecChan(key, c, body, st, fuel).st, c) == []
    decreases fuel
  {
    if Pending(st, c) != [] {
      var st1 := Take(st, c, key);
      StraightRuns(body, st1, fuel);
      QuietRuns(body, st1, fuel);
      StraightDrains(key, c, body, ExecList(body, st1, fuel).st, fuel - 1);
    }
  }

  /** With enough fuel for the waiting values nothing about the run is left in the condition. */
  lemma AssigningRangeExactStraight(key: Var, c: Var, ok: Var, body: seq<Stmt>, st: State, fuel: nat)
    requires Rewritable(key, c, ok, body) && Straight(body) && key !in WritesList(body) && key != BLANK
    requires fuel > |Pending(st, Get(st, c))|
    ensures SameResult(Exec(RangeChan(key, c, body), st, fuel), Exec(AssigningLoop(key, c, ok, body), st, fuel), {}) <==>
            LastValue(st, key, Get(st, c)) == 0
  {
    StraightRuns(body, st, fuel);
    StraightDrains(key, Get(st, c), body, st, fuel);
    AssigningRangeExactBefore(key, c, ok, body, st, fuel);
  }

  /** An empty body and one waiting 5: the range leaves 5 in k, the explicit loop 0. */
  lemma AssigningRangeClobbers(st: State, fuel: nat)
    requires Pending(st, Get(st, "c")) == [5] && fuel >= 2
    ensures !SameResult(Exec(RangeChan("k", "c", []), st, fuel), Exec(AssigningLoop("k", "c", "ok", []), st, fuel), {})
  {
    AssigningRangeExactStraight("k", "c", "ok", [], st, fuel);
  }

  // ----- a body that replaces the channel variable -----

  /** The body of the counterexample. */
  function Replace(): seq<Stmt> {
    [Assign("c", Const(0))]
  }

  /** One value is taken, then the explicit loop looks at channel 0. */
  lemma ReplacedChannelTakesOne(ok: Var, st: State, fuel: nat)
    requires ok !in {"k", "c", BLANK} && fuel >= 2
    requires Pending(st, 0) == [] && Pending(st, Get(st, "c")) != []
    ensures var t := Exec(DeclaringLoop("k", "c", ok, [], Replace()), st, fuel);
            Ends(t) && Pending(t.st, Get(st, "c")) == Pending(st, Get(st, "c"))[1..]
  {
    var id, loop := Get(st, "c"), DeclaringLoop("k", "c", ok, [], Replace());
    var t := ReplacedIteration(ok, st, id, fuel);
    assert Get(t, "c") == 0 && Pending(t, 0) == [];
    var t2 := DrainedIteration(ok, t, fuel - 1);
    assert Exec(loop, t, fuel - 1) == Done(Normal, t2);
    assert ["k", ok] + [] == ["k", ok];
  }

  /** An iteration that receives from channel id. */
  lemma ReplacedIteration(ok: Var, b: State, id: int, fuel: nat) returns (t: State)
    requires ok !in {"k", "c", BLANK} && id == Get(b, "c") && Pending(b, id) != []
    ensures ExecList(Merged("k", "c", ok, [], Replace()), b, fuel) == Done(Normal, t)
    ensures Get(t, "c") == 0 && t.chans == b.chans[id := Pending(b, id)[1..]]
  {
    var b0 := Enter(["k", ok], b);
    EnterOwn("k", "c", ok, b);
    assert ["k", ok] + [] == ["k", ok];
    RunOne(Block(["k", ok], ReceiveBody("k", "c", ok, Replace())), b, fuel);
    RunReceiveBody("k", "c", ok, Replace(), b0, fuel);
    var b1 := Receive(b0, "k", ok, id);
    RunOne(Replace()[0], b1, fuel);
    LeaveOwn("k", "c", ok, b, Set(b1, "c", 0));
    t := Leave(["k", ok], b, Set(b1, "c", 0));
  }

  /** An iteration that finds its channel drained. */
  lemma DrainedIteration(ok: Var, b: State, fuel: nat) returns (t: State)
    requires ok !in {"k", "c", BLANK} && Pending(b, Get(b, "c")) == []
    ensures ExecList(Merged("k", "c", ok, [], Replace()), b, fuel) == Done(Broke, t)
    ensures t.chans == b.chans
  {
    var b0 := Enter(["k", ok], b);
    EnterOwn("k", "c", ok, b);
    assert ["k", ok] + [] == ["k", ok];
    RunOne(Block(["k", ok], ReceiveBody("k", "c", ok, Replace())), b, fuel);
    RunReceiveBody("k", "c", ok, Replace(), b0, fuel);
    LeaveOwn("k", "c", ok, b, Receive(b0, "k", ok, Get(b, "c")));
    t := Leave(["k", ok], b, Receive(b0, "k", ok, Get(b, "c")));
  }

  /**
   The explicit loop reads the channel variable again on every iteration: with
   two or more values waiting on c and nothing on channel 0, a body that only
   replaces the channel variable takes one value where the range drains them all.
   */
  lemma ReassignedChannelDiverges(ok: Var, st: State, fuel: nat)
    requires ok !in {"k", "c", BLANK} && Pending(st, 0) == []
    requires |Pending(st, Get(st, "c"))| >= 2 && fuel > |Pending(st, Get(st, "c"))|
    ensures !SameResult(Exec(DeclaringRange("k", "c", [], Replace()), st, fuel),
                        Exec(DeclaringLoop("k", "c", ok, [], Replace()), st, fuel), {})
  {
    var id, a, body := Get(st, "c"), Enter(["k"], st), [Block([], Replace())];
    EnterGet(["k"], st, "c");
    ReplacedChannelTakesOne(ok, st, fuel);
    assert Straight(Replace()) && Straight(body);
    StraightDrains("k", id, body, a, fuel);
    RunOne(RangeChan("k", "c", body), a, fuel);
    LeaveGet(["k"], st, ExecChan("k", id, body, a, fuel).st, "c");
  }
}
