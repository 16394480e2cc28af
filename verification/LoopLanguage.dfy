/**
 The fragment of Go that the loop passes of the instrumenter look at, with a
 big-step semantics. `fuel` bounds the number of loop iterations only, and both
 sides of every theorem use the same fuel, so divergence is compared as well.
 */
module LoopLanguage {

  type Var = string

  /** The blank identifier: assignments to it are discarded. */
  const BLANK: Var := "_"

  datatype Expr =
    | Const(n: int)
    | Read(x: Var)
    | Not(e: Expr)
    | Add(l: Expr, r: Expr)
    | Less(l: Expr, r: Expr)

  /** The post statement of a classic `for`. */
  datatype Post = NoPost | Step(x: Var, e: Expr)

  /** The body of one case of a switch or select. */
  datatype Clause = Clause(body: seq<Stmt>)

  datatype Stmt =
    | Assign(x: Var, e: Expr)
      // x, ok = receive on the channel that variable c holds
    | Recv(x: Var, ok: Var, c: Var)
    | Break
    | Continue
    | Return
      // a Go block: its declarations are zeroed on entry and out of scope on exit
    | Block(decls: seq<Var>, body: seq<Stmt>)
      // chained: els is the single `else if` statement rather than an else block
    | If(cond: Expr, thn: seq<Stmt>, els: seq<Stmt>, chained: bool)
      // switch and select, or a type switch: the tag picks the clause that runs
    | Clauses(tag: Expr, clauses: seq<Clause>, typed: bool)
    | For(cond: Expr, post: Post, body: seq<Stmt>)
    | Range(key: Var, bound: Expr, body: seq<Stmt>)
    | RangeChan(key: Var, c: Var, body: seq<Stmt>)
      // trace.WithRegion(ctx, label, func() { body })
    | Region(body: seq<Stmt>)

  /** Variables, and for each channel what is still to be received before it is closed. */
  datatype State = State(vars: map<Var, int>, chans: map<int, seq<int>>)

  datatype Outcome = Normal | Broke | Continued | Returned | Stuck

  datatype Result = Timeout | Done(out: Outcome, st: State)

  function Get(st: State, x: Var): int {
    if x in st.vars then st.vars[x] else 0
  }

  function Set(st: State, x: Var, v: int): State {
    if x == BLANK then st else st.(vars := st.vars[x := v])
  }

  function Pending(st: State, c: int): seq<int> {
    if c in st.chans then st.chans[c] else []
  }

  /** A receive on a closed, drained channel yields the zero value and false. */
  function Receive(st: State, x: Var, ok: Var, c: int): State {
    var q := Pending(st, c);
    if q == [] then
      Set(Set(st, x, 0), ok, 0)
    else
      Set(Set(st.(chans := st.chans[c := q[1..]]), x, q[0]), ok, 1)
  }

  function Eval(e: Expr, st: State): int {
    match e
    case Const(n) => n
    case Read(x) => Get(st, x)
    case Not(a) => if Eval(a, st) == 0 then 1 else 0
    case Add(a, b) => Eval(a, st) + Eval(b, st)
    case Less(a, b) => if Eval(a, st) < Eval(b, st) then 1 else 0
  }

  function RunPost(p: Post, st: State): State {
    match p
    case NoPost => st
    case Step(x, e) => Set(st, x, Eval(e, st))
  }

  function Enter(decls: seq<Var>, st: State): State {
    if decls == [] then st else Enter(decls[1..], Set(st, decls[0], 0))
  }

  function Leave(decls: seq<Var>, outer: State, st: State): State {
    if decls == [] then st else Leave(decls[1..], outer, Set(st, decls[0], Get(outer, decls[0])))
  }

  function LeaveResult(decls: seq<Var>, outer: State, r: Result): Result {
    if r.Timeout? then r else Done(r.out, Leave(decls, outer, r.st))
  }

  /** An unlabelled break inside switch or select leaves only that statement. */
  function CatchBreak(r: Result): Result {
    if r.Done? && r.out == Broke then Done(Normal, r.st) else r
  }

  /** A return inside the closure ends the closure; a stray branch does not compile. */
  function CatchReturn(r: Result): Result {
    if r.Timeout? then r
    else if r.out == Returned then Done(Normal, r.st)
    else if r.out == Broke || r.out == Continued then Done(Stuck, r.st)
    else r
  }

  function ExecList(ss: seq<Stmt>, st: State, fuel: nat): Result
    decreases fuel, ss, 0, 0
  {
    if ss == [] then Done(Normal, st)
    else
      var r := Exec(ss[0], st, fuel);
      if r.Done? && r.out == Normal then ExecList(ss[1..], r.st, fuel) else r
  }

  function Exec(s: Stmt, st: State, fuel: nat): Result
    decreases fuel, s, 0, 0
  {
    match s
    case Assign(x, e) => Done(Normal, Set(st, x, Eval(e, st)))
    case Recv(x, ok, c) => Done(Normal, Receive(st, x, ok, Get(st, c)))
    case Break => Done(Broke, st)
    case Continue => Done(Continued, st)
    case Return => Done(Returned, st)
    case Block(decls, body) => LeaveResult(decls, st, ExecList(body, Enter(decls, st), fuel))
    case If(cond, thn, els, _) =>
      if Eval(cond, st) != 0 then ExecList(thn, st, fuel) else ExecList(els, st, fuel)
    case Clauses(tag, clauses, _) =>
      var i := Eval(tag, st);
      if 0 <= i < |clauses| then CatchBreak(ExecList(clauses[i].body, st, fuel)) else Done(Normal, st)
    case For(cond, post, body) =>
      if fuel == 0 then Timeout
      else if Eval(cond, st) == 0 then Done(Normal, st)
      else
        var r := ExecList(body, st, fuel);
        if r.Timeout? || r.out == Returned || r.out == Stuck then r
        else if r.out == Broke then Done(Normal, r.st)
        else Exec(s, RunPost(post, r.st), fuel - 1)
    case Range(key, bound, body) => ExecRange(key, 0, Eval(bound, st), body, st, fuel)
    case RangeChan(key, c, body) => ExecChan(key, Get(st, c), body, st, fuel)
    case Region(body) => CatchReturn(ExecList(body, st, fuel))
  }

  function ExecRange(key: Var, i: int, n: int, body: seq<Stmt>, st: State, fuel: nat): Result
    decreases fuel, body, 1, n - i
  {
    if n <= i then Done(Normal, st)
    else
      var r := ExecList(body, Set(st, key, i), fuel);
      if r.Timeout? || r.out == Returned || r.out == Stuck then r
      else if r.out == Broke then Done(Normal, r.st)
      else ExecRange(key, i + 1, n, body, r.st, fuel)
  }

  /** The channel operand is evaluated once, before the first iteration. */
  function ExecChan(key: Var, c: int, body: seq<Stmt>, st: State, fuel: nat): Result
    decreases fuel, body, 1, 0
  {
    if fuel == 0 then Timeout
    else
      var q := Pending(st, c);
      if q == [] then Done(Normal, st)
      else
        var r := ExecList(body, Set(st.(chans := st.chans[c := q[1..]]), key, q[0]), fuel);
        if r.Timeout? || r.out == Returned || r.out == Stuck then r
        else if r.out == Broke then Done(Normal, r.st)
        else ExecChan(key, c, body, r.st, fuel - 1)
  }

  // ----- fresh names -----

  predicate ExprAvoids(e: Expr, f: set<Var>) {
    match e
    case Const(_) => true
    case Read(x) => x !in f
    case Not(a) => ExprAvoids(a, f)
    case Add(a, b) => ExprAvoids(a, f) && ExprAvoids(b, f)
    case Less(a, b) => ExprAvoids(a, f) && ExprAvoids(b, f)
  }

  predicate PostAvoids(p: Post, f: set<Var>) {
    p.Step? ==> p.x !in f && ExprAvoids(p.e, f)
  }

  predicate ListAvoids(ss: seq<Stmt>, f: set<Var>)
    decreases ss, 0
  {
    ss == [] || (Avoids(ss[0], f) && ListAvoids(ss[1..], f))
  }

  predicate ClausesAvoid(cs: seq<Clause>, f: set<Var>)
    decreases cs, 0
  {
    cs == [] || (ListAvoids(cs[0].body, f) && ClausesAvoid(cs[1..], f))
  }

  /** The statement neither reads, assigns nor declares a variable of f. */
  predicate Avoids(s: Stmt, f: set<Var>)
    decreases s, 0
  {
    match s
    case Assign(x, e) => x !in f && ExprAvoids(e, f)
    case Recv(x, ok, c) => x !in f && ok !in f && c !in f
    case Break => true
    case Continue => true
    case Return => true
    case Block(decls, body) => (forall x :: x in decls ==> x !in f) && ListAvoids(body, f)
    case If(cond, thn, els, _) => ExprAvoids(cond, f) && ListAvoids(thn, f) && ListAvoids(els, f)
    case Clauses(tag, clauses, _) => ExprAvoids(tag, f) && ClausesAvoid(clauses, f)
    case For(cond, post, body) => ExprAvoids(cond, f) && PostAvoids(post, f) && ListAvoids(body, f)
    case Range(key, bound, body) => key !in f && ExprAvoids(bound, f) && ListAvoids(body, f)
    case RangeChan(key, c, body) => key !in f && c !in f && ListAvoids(body, f)
    case Region(body) => ListAvoids(body, f)
  }

  // ----- agreement of states outside a set of names -----

  /** Equal channels, and equal variables outside f. */
  ghost predicate Agree(a: State, b: State, f: set<Var>) {
    && a.chans == b.chans
    && (forall x :: x !in f ==> Get(a, x) == Get(b, x))
  }

  /** The variables of f keep their values. */
  ghost predicate Keeps(a: State, b: State, f: set<Var>) {
    forall x :: x in f ==> Get(a, x) == Get(b, x)
  }

  /** Same divergence, same outcome, agreeing states. */
  ghost predicate SameResult(r: Result, t: Result, f: set<Var>) {
    && r.Timeout? == t.Timeout?
    && (r.Done? ==> r.out == t.out && Agree(r.st, t.st, f))
  }

  ghost predicate ResultKeeps(a: State, r: Result, f: set<Var>) {
    r.Done? ==> Keeps(a, r.st, f)
  }

  lemma {:induction false} EvalAgrees(e: Expr, a: State, b: State, f: set<Var>)
    requires ExprAvoids(e, f) && Agree(a, b, f)
    ensures Eval(e, a) == Eval(e, b)
  {
    match e
    case Const(_) =>
    case Read(x) =>
    case Not(p) => EvalAgrees(p, a, b, f);
    case Add(p, q) => EvalAgrees(p, a, b, f); EvalAgrees(q, a, b, f);
    case Less(p, q) => EvalAgrees(p, a, b, f); EvalAgrees(q, a, b, f);
  }

  lemma {:induction false} EnterAgrees(decls: seq<Var>, a: State, b: State, f: set<Var>)
    requires Agree(a, b, f)
    requires forall x :: x in decls ==> x !in f
    ensures Agree(Enter(decls, a), Enter(decls, b), f)
    ensures Keeps(a, Enter(decls, a), f)
  {
    if decls != [] {
      EnterAgrees(decls[1..], Set(a, decls[0], 0), Set(b, decls[0], 0), f);
    }
  }

  lemma {:induction false} LeaveGet(decls: seq<Var>, outer: State, st: State, x: Var)
    ensures Get(Leave(decls, outer, st), x) ==
            if x in decls && x != BLANK then Get(outer, x) else Get(st, x)
    ensures Leave(decls, outer, st).chans == st.chans
  {
    if decls != [] {
      LeaveGet(decls[1..], outer, Set(st, decls[0], Get(outer, decls[0])), x);
    }
  }

  lemma {:induction false} EnterGet(decls: seq<Var>, st: State, x: Var)
    ensures Get(Enter(decls, st), x) == if x in decls && x != BLANK then 0 else Get(st, x)
    ensures Enter(decls, st).chans == st.chans
  {
    if decls != [] {
      EnterGet(decls[1..], Set(st, decls[0], 0), x);
    }
  }

  lemma {:induction false} LeaveAgrees(decls: seq<Var>, outerA: State, a: State, outerB: State, b: State, f: set<Var>)
    requires Agree(outerA, outerB, f) && Agree(a, b, f)
    requires forall x :: x in decls ==> x !in f
    ensures Agree(Leave(decls, outerA, a), Leave(decls, outerB, b), f)
    ensures Keeps(a, Leave(decls, outerA, a), f)
  {
    forall x
      ensures x !in f ==> Get(Leave(decls, outerA, a), x) == Get(Leave(decls, outerB, b), x)
      ensures x in f ==> Get(Leave(decls, outerA, a), x) == Get(a, x)
    {
      LeaveGet(decls, outerA, a, x);
      LeaveGet(decls, outerB, b, x);
    }
    LeaveGet(decls, outerA, a, BLANK);
    LeaveGet(decls, outerB, b, BLANK);
  }

  lemma {:induction false} ClauseAvoids(cs: seq<Clause>, i: nat, f: set<Var>)
    requires i < |cs| && ClausesAvoid(cs, f)
    ensures ListAvoids(cs[i].body, f)
  {
    if i > 0 {
      ClauseAvoids(cs[1..], i - 1, f);
    }
  }

  // Code that avoids f runs alike from states that agree outside f, and leaves f alone.

  lemma {:induction false} ListIndependent(ss: seq<Stmt>, a: State, b: State, f: set<Var>, fuel: nat)
    requires ListAvoids(ss, f) && Agree(a, b, f)
    ensures SameResult(ExecList(ss, a, fuel), ExecList(ss, b, fuel), f)
    ensures ResultKeeps(a, ExecList(ss, a, fuel), f)
    decreases fuel, ss, 0, 0
  {
    if ss != [] {
      Independent(ss[0], a, b, f, fuel);
      var r, t := Exec(ss[0], a, fuel), Exec(ss[0], b, fuel);
      if r.Done? && r.out == Normal {
        ListIndependent(ss[1..], r.st, t.st, f, fuel);
      }
    }
  }

  lemma {:induction false} Independent(s: Stmt, a: State, b: State, f: set<Var>, fuel: nat)
    requires Avoids(s, f) && Agree(a, b, f)
    ensures SameResult(Exec(s, a, fuel), Exec(s, b, fuel), f)
    ensures ResultKeeps(a, Exec(s, a, fuel), f)
    decreases fuel, s, 0, 0
  {
    match s
    case Assign(_, _) => LeafIndependent(s, a, b, f, fuel);
    case Recv(_, _, _) => LeafIndependent(s, a, b, f, fuel);
    case Break =>
    case Continue =>
    case Return =>
    case Block(decls, body) => BlockIndependent(decls, body, a, b, f, fuel);
    case If(cond, thn, els, _) =>
      EvalAgrees(cond, a, b, f);
      ListIndependent(thn, a, b, f, fuel);
      ListIndependent(els, a, b, f, fuel);
    case Clauses(tag, clauses, typed) => ClausesIndependent(tag, clauses, typed, a, b, f, fuel);
    case For(cond, post, body) => ForIndependent(cond, post, body, a, b, f, fuel);
    case Range(key, bound, body) =>
      EvalAgrees(bound, a, b, f);
      RangeIndependent(key, 0, Eval(bound, a), body, a, b, f, fuel);
    case RangeChan(key, c, body) => ChanIndependent(key, Get(a, c), body, a, b, f, fuel);
    case Region(body) => ListIndependent(body, a, b, f, fuel);
  }

  lemma LeafIndependent(s: Stmt, a: State, b: State, f: set<Var>, fuel: nat)
    requires (s.Assign? || s.Recv?) && Avoids(s, f) && Agree(a, b, f)
    ensures SameResult(Exec(s, a, fuel), Exec(s, b, fuel), f)
    ensures ResultKeeps(a, Exec(s, a, fuel), f)
  {
    if s.Assign? { EvalAgrees(s.e, a, b, f); }
  }

  lemma {:induction false} ClausesIndependent(tag: Expr, clauses: seq<Clause>, typed: bool, a: State, b: State, f: set<Var>, fuel: nat)
    requires ExprAvoids(tag, f) && ClausesAvoid(clauses, f) && Agree(a, b, f)
    ensures SameResult(Exec(Clauses(tag, clauses, typed), a, fuel), Exec(Clauses(tag, clauses, typed), b, fuel), f)
    ensures ResultKeeps(a, Exec(Clauses(tag, clauses, typed), a, fuel), f)
    decreases fuel, clauses, 1, 0
  {
    EvalAgrees(tag, a, b, f);
    var i := Eval(tag, a);
    if 0 <= i < |clauses| {
      ClauseAvoids(clauses, i, f);
      ListIndependent(clauses[i].body, a, b, f, fuel);
    }
  }

  lemma {:induction false} BlockIndependent(decls: seq<Var>, body: seq<Stmt>, a: State, b: State, f: set<Var>, fuel: nat)
    requires (forall x :: x in decls ==> x !in f) && ListAvoids(body, f) && Agree(a, b, f)
    ensures SameResult(Exec(Block(decls, body), a, fuel), Exec(Block(decls, body), b, fuel), f)
    ensures ResultKeeps(a, Exec(Block(decls, body), a, fuel), f)
    decreases fuel, body, 1, 0
  {
    EnterAgrees(decls, a, b, f);
    ListIndependent(body, Enter(decls, a), Enter(decls, b), f, fuel);
    var r, t := ExecList(body, Enter(decls, a), fuel), ExecList(body, Enter(decls, b), fuel);
    if r.Done? { LeaveAgrees(decls, a, r.st, b, t.st, f); }
  }

  lemma {:induction false} ForIndependent(cond: Expr, post: Post, body: seq<Stmt>,
                                          a: State, b: State, f: set<Var>, fuel: nat)
    requires ExprAvoids(cond, f) && PostAvoids(post, f) && ListAvoids(body, f) && Agree(a, b, f)
    ensures SameResult(Exec(For(cond, post, body), a, fuel), Exec(For(cond, post, body), b, fuel), f)
    ensures ResultKeeps(a, Exec(For(cond, post, body), a, fuel), f)
    decreases fuel, body, 1, 0
  {
    if fuel > 0 {
      EvalAgrees(cond, a, b, f);
      if Eval(cond, a) != 0 {
        ListIndependent(body, a, b, f, fuel);
        var r, t := ExecList(body, a, fuel), ExecList(body, b, fuel);
        if r.Done? && (r.out == Normal || r.out == Continued) {
          if post.Step? { EvalAgrees(post.e, r.st, t.st, f); }
          ForIndependent(cond, post, body, RunPost(post, r.st), RunPost(post, t.st), f, fuel - 1);
        }
      }
    }
  }

  lemma {:induction false} RangeIndependent(key: Var, i: int, n: int, body: seq<Stmt>,
                                            a: State, b: State, f: set<Var>, fuel: nat)
    requires key !in f && ListAvoids(body, f) && Agree(a, b, f)
    ensures SameResult(ExecRange(key, i, n, body, a, fuel), ExecRange(key, i, n, body, b, fuel), f)
    ensures ResultKeeps(a, ExecRange(key, i, n, body, a, fuel), f)
    decreases fuel, body, 1, n - i
  {
    if i < n {
      ListIndependent(body, Set(a, key, i), Set(b, key, i), f, fuel);
      var r, t := ExecList(body, Set(a, key, i), fuel), ExecList(body, Set(b, key, i), fuel);
      if r.Done? && (r.out == Normal || r.out == Continued) {
        RangeIndependent(key, i + 1, n, body, r.st, t.st, f, fuel);
      }
    }
  }

  function Take(st: State, c: int, key: Var): State
    requires Pending(st, c) != []
  {
    var q := Pending(st, c);
    Set(st.(chans := st.chans[c := q[1..]]), key, q[0])
  }

  lemma {:induction false} ChanIndependent(key: Var, c: int, body: seq<Stmt>,
                                           a: State, b: State, f: set<Var>, fuel: nat)
    requires key !in f && ListAvoids(body, f) && Agree(a, b, f)
    ensures SameResult(ExecChan(key, c, body, a, fuel), ExecChan(key, c, body, b, fuel), f)
    ensures ResultKeeps(a, ExecChan(key, c, body, a, fuel), f)
    decreases fuel, body, 1, 0
  {
    if fuel > 0 && Pending(a, c) != [] {
      ListIndependent(body, Take(a, c, key), Take(b, c, key), f, fuel);
      var r, t := ExecList(body, Take(a, c, key), fuel), ExecList(body, Take(b, c, key), fuel);
      if r.Done? && (r.out == Normal || r.out == Continued) {
        ChanIndependent(key, c, body, r.st, t.st, f, fuel - 1);
      }
    }
  }
}
