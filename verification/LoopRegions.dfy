/**
 The loop-region pass: a loop body is moved into a traced closure. A body free
 of branches is wrapped as it is; otherwise its own break, continue and return
 become a flag assignment and a return from the closure, and the flags are
 looked at after the call.
 */
module LoopRegions {
  import opened LoopLanguage

  /** rt is empty when a bare return is not legal in the enclosing function. */
  datatype Flags = Flags(br: Var, ct: Var, rt: Var)

  function Names(fl: Flags): set<Var> {
    {fl.br, fl.ct} + (if fl.rt == "" then {} else {fl.rt})
  }

  function Decls(fl: Flags): seq<Var> {
    [fl.br, fl.ct] + (if fl.rt == "" then [] else [fl.rt])
  }

  /** Generated names are pairwise different and are not the blank identifier. */
  predicate FreshNames(fl: Flags) {
    && fl.br != fl.ct && fl.br != fl.rt && fl.ct != fl.rt
    && fl.br != BLANK && fl.ct != BLANK && fl.rt != BLANK
  }

  // ----- the guards -----

  /** No break, continue or return anywhere, nested loops and closures included. */
  predicate LoopBodySafe(ss: seq<Stmt>)
    decreases ss, 0
  {
    ss == [] || (SafeStmt(ss[0]) && LoopBodySafe(ss[1..]))
  }

  predicate SafeClauses(cs: seq<Clause>)
    decreases cs, 0
  {
    cs == [] || (LoopBodySafe(cs[0].body) && SafeClauses(cs[1..]))
  }

  predicate SafeStmt(s: Stmt)
    decreases s, 0
  {
    match s
    case Assign(_, _) => true
    case Recv(_, _, _) => true
    case Break => false
    case Continue => false
    case Return => false
    case Block(_, body) => LoopBodySafe(body)
    case If(_, thn, els, _) => LoopBodySafe(thn) && LoopBodySafe(els)
    case Clauses(_, cs, _) => SafeClauses(cs)
    case For(_, _, body) => LoopBodySafe(body)
    case Range(_, _, body) => LoopBodySafe(body)
    case RangeChan(_, _, body) => LoopBodySafe(body)
    case Region(body) => LoopBodySafe(body)
  }

  /** Returns need allowReturn; nested loops are not inspected. */
  predicate LoopBodyForceable(ss: seq<Stmt>, allowReturn: bool)
    decreases ss, 0
  {
    ss == [] || (ForceableStmt(ss[0], allowReturn) && LoopBodyForceable(ss[1..], allowReturn))
  }

  predicate ForceableClauses(cs: seq<Clause>, allowReturn: bool)
    decreases cs, 0
  {
    cs == [] || (LoopBodyForceable(cs[0].body, allowReturn) && ForceableClauses(cs[1..], allowReturn))
  }

  predicate ForceableStmt(s: Stmt, allowReturn: bool)
    decreases s, 0
  {
    match s
    case Assign(_, _) => true
    case Recv(_, _, _) => true
    case Break => true
    case Continue => true
    case Return => allowReturn
    case Block(_, body) => LoopBodyForceable(body, allowReturn)
    case If(_, thn, els, _) => LoopBodyForceable(thn, allowReturn) && LoopBodyForceable(els, allowReturn)
    case Clauses(_, cs, _) => ForceableClauses(cs, allowReturn)
    case For(_, _, _) => true
    case Range(_, _, _) => true
    case RangeChan(_, _, _) => true
    case Region(body) => LoopBodyForceable(body, allowReturn)
  }

  /** How many branches there are, nested loops and closures included. */
  function Branches(ss: seq<Stmt>): nat
    decreases ss, 0
  {
    if ss == [] then 0 else BranchesIn(ss[0]) + Branches(ss[1..])
  }

  function ClauseBranches(cs: seq<Clause>): nat
    decreases cs, 0
  {
    if cs == [] then 0 else Branches(cs[0].body) + ClauseBranches(cs[1..])
  }

  function BranchesIn(s: Stmt): nat
    decreases s, 0
  {
    match s
    case Assign(_, _) => 0
    case Recv(_, _, _) => 0
    case Break => 1
    case Continue => 1
    case Return => 1
    case Block(_, body) => Branches(body)
    case If(_, thn, els, _) => Branches(thn) + Branches(els)
    case Clauses(_, cs, _) => ClauseBranches(cs)
    case For(_, _, body) => Branches(body)
    case Range(_, _, body) => Branches(body)
    case RangeChan(_, _, body) => Branches(body)
    case Region(body) => Branches(body)
  }

  /** The guard of plain wrapping accepts exactly the bodies without branches; forcing accepts those too. */
  lemma {:induction false} SafeExactly(ss: seq<Stmt>, allowReturn: bool)
    ensures LoopBodySafe(ss) <==> Branches(ss) == 0
    ensures LoopBodySafe(ss) ==> LoopBodyForceable(ss, allowReturn)
    decreases ss, 0
  {
    if ss != [] {
      SafeStmtExactly(ss[0], allowReturn);
      SafeExactly(ss[1..], allowReturn);
    }
  }

  lemma {:induction false} SafeClausesExactly(cs: seq<Clause>, allowReturn: bool)
    ensures SafeClauses(cs) <==> ClauseBranches(cs) == 0
    ensures SafeClauses(cs) ==> ForceableClauses(cs, allowReturn)
    decreases cs, 0
  {
    if cs != [] {
      SafeExactly(cs[0].body, allowReturn);
      SafeClausesExactly(cs[1..], allowReturn);
    }
  }

  lemma {:induction false} SafeStmtExactly(s: Stmt, allowReturn: bool)
    ensures SafeStmt(s) <==> BranchesIn(s) == 0
    ensures SafeStmt(s) ==> ForceableStmt(s, allowReturn)
    decreases s, 0
  {
    match s
    case Block(_, body) => SafeExactly(body, allowReturn);
    case If(_, thn, els, _) => SafeExactly(thn, allowReturn); SafeExactly(els, allowReturn);
    case Clauses(_, cs, _) => SafeClausesExactly(cs, allowReturn);
    case For(_, _, body) => SafeExactly(body, allowReturn);
    case Range(_, _, body) => SafeExactly(body, allowReturn);
    case RangeChan(_, _, body) => SafeExactly(body, allowReturn);
    case Region(body) => SafeExactly(body, allowReturn);
    case _ =>
  }

  /** How many returns there are outside nested loops, closures included. */
  function PlainReturns(ss: seq<Stmt>): nat
    decreases ss, 0
  {
    if ss == [] then 0 else PlainReturnsIn(ss[0]) + PlainReturns(ss[1..])
  }

  function ClauseReturns(cs: seq<Clause>): nat
    decreases cs, 0
  {
    if cs == [] then 0 else PlainReturns(cs[0].body) + ClauseReturns(cs[1..])
  }

  function PlainReturnsIn(s: Stmt): nat
    decreases s, 0
  {
    match s
    case Return => 1
    case Block(_, body) => PlainReturns(body)
    case If(_, thn, els, _) => PlainReturns(thn) + PlainReturns(els)
    case Clauses(_, cs, _) => ClauseReturns(cs)
    case Region(body) => PlainReturns(body)
    case _ => 0
  }

  /** Forcing is refused exactly for a return outside nested loops where a bare return is not legal. */
  lemma {:induction false} ForceableExactly(ss: seq<Stmt>, allowReturn: bool)
    ensures LoopBodyForceable(ss, allowReturn) <==> allowReturn || PlainReturns(ss) == 0
    decreases ss, 0
  {
    if ss != [] {
      ForceableStmtExactly(ss[0], allowReturn);
      ForceableExactly(ss[1..], allowReturn);
    }
  }

  lemma {:induction false} ForceableClausesExactly(cs: seq<Clause>, allowReturn: bool)
    ensures ForceableClauses(cs, allowReturn) <==> allowReturn || ClauseReturns(cs) == 0
    decreases cs, 0
  {
    if cs != [] {
      ForceableExactly(cs[0].body, allowReturn);
      ForceableClausesExactly(cs[1..], allowReturn);
    }
  }

  lemma {:induction false} ForceableStmtExactly(s: Stmt, allowReturn: bool)
    ensures ForceableStmt(s, allowReturn) <==> allowReturn || PlainReturnsIn(s) == 0
    decreases s, 0
  {
    match s
    case Block(_, body) => ForceableExactly(body, allowReturn);
    case If(_, thn, els, _) => ForceableExactly(thn, allowReturn); ForceableExactly(els, allowReturn);
    case Clauses(_, cs, _) => ForceableClausesExactly(cs, allowReturn);
    case Region(body) => ForceableExactly(body, allowReturn);
    case _ =>
  }

  // ----- the rewriting -----

  function Raise(flag: Var): Stmt {
    Block([], [Assign(flag, Const(1)), Return])
  }

  function RewriteBreakContinueBody(ss: seq<Stmt>, fl: Flags): (r: seq<Stmt>)
    ensures |r| == |ss|
    decreases ss, 0
  {
    if ss == [] then [] else [RewriteStmt(ss[0], fl)] + RewriteBreakContinueBody(ss[1..], fl)
  }

  function RewriteClauses(cs: seq<Clause>, fl: Flags): (r: seq<Clause>)
    ensures |r| == |cs|
    decreases cs, 0
  {
    if cs == [] then []
    else [Clause(RewriteBreakContinueBody(cs[0].body, fl))] + RewriteClauses(cs[1..], fl)
  }

  function RewriteStmt(s: Stmt, fl: Flags): Stmt
    decreases s, 0
  {
    match s
    case Break => Raise(fl.br)
    case Continue => Raise(fl.ct)
    case Return => if fl.rt != "" then Raise(fl.rt) else s
    case Block(decls, body) => Block(decls, RewriteBreakContinueBody(body, fl))
    case If(cond, thn, els, chained) =>
      // only an else block is entered
      If(cond, RewriteBreakContinueBody(thn, fl), if chained then els else RewriteBreakContinueBody(els, fl), chained)
      // a type switch is not entered
    case Clauses(tag, cs, typed) => if typed then s else Clauses(tag, RewriteClauses(cs, fl), false)
    case _ => s
  }

  function Test(flag: Var, s: Stmt): Stmt {
    If(Read(flag), [s], [], false)
  }

  function Tests(fl: Flags): seq<Stmt> {
    [Test(fl.br, Break), Test(fl.ct, Continue)] + (if fl.rt == "" then [] else [Test(fl.rt, Return)])
  }

  /** Flag declarations, the traced closure, the flag tests. */
  function ForceBody(body: seq<Stmt>, fl: Flags): seq<Stmt> {
    [Block(Decls(fl), [Region([Block([], RewriteBreakContinueBody(body, fl))])] + Tests(fl))]
  }

  function WrapBody(body: seq<Stmt>): seq<Stmt> {
    [Region([Block([], body)])]
  }

  // ----- the fragment on which the rewriting is meaning-preserving -----

  /** No return outside closures. */
  predicate NoReturn(ss: seq<Stmt>)
    decreases ss, 0
  {
    ss == [] || (NoReturnStmt(ss[0]) && NoReturn(ss[1..]))
  }

  predicate NoReturnClauses(cs: seq<Clause>)
    decreases cs, 0
  {
    cs == [] || (NoReturn(cs[0].body) && NoReturnClauses(cs[1..]))
  }

  predicate NoReturnStmt(s: Stmt)
    decreases s, 0
  {
    match s
    case Return => false
    case Block(_, body) => NoReturn(body)
    case If(_, thn, els, _) => NoReturn(thn) && NoReturn(els)
    case Clauses(_, cs, _) => NoReturnClauses(cs)
    case For(_, _, body) => NoReturn(body)
    case Range(_, _, body) => NoReturn(body)
    case RangeChan(_, _, body) => NoReturn(body)
    case _ => true
  }

  /** No branch that would leave the list; inClause: a break stays inside. */
  predicate NoEscape(ss: seq<Stmt>, inClause: bool)
    decreases ss, 0
  {
    ss == [] || (NoEscapeStmt(ss[0], inClause) && NoEscape(ss[1..], inClause))
  }

  predicate NoEscapeClauses(cs: seq<Clause>)
    decreases cs, 0
  {
    cs == [] || (NoEscape(cs[0].body, true) && NoEscapeClauses(cs[1..]))
  }

  predicate NoEscapeStmt(s: Stmt, inClause: bool)
    decreases s, 0
  {
    match s
    case Break => inClause
    case Continue => false
    case Return => false
    case Block(_, body) => NoEscape(body, inClause)
    case If(_, thn, els, _) => NoEscape(thn, inClause) && NoEscape(els, inClause)
    case Clauses(_, cs, _) => NoEscapeClauses(cs)
    case For(_, _, body) => NoReturn(body)
    case Range(_, _, body) => NoReturn(body)
    case RangeChan(_, _, body) => NoReturn(body)
    case _ => true
  }

  /**
   No break of a switch or select, no branch under `else if`, none of the loop's
   branches in a type switch, no return in a nested loop: the four places where
   the rewriter and the language disagree.
   */
  predicate Supported(ss: seq<Stmt>, inClause: bool)
    decreases ss, 0
  {
    ss == [] || (SupportedStmt(ss[0], inClause) && Supported(ss[1..], inClause))
  }

  predicate SupportedClauses(cs: seq<Clause>)
    decreases cs, 0
  {
    cs == [] || (Supported(cs[0].body, true) && SupportedClauses(cs[1..]))
  }

  predicate SupportedStmt(s: Stmt, inClause: bool)
    decreases s, 0
  {
    match s
    case Break => !inClause
    case Block(_, body) => Supported(body, inClause)
    case If(_, thn, els, chained) =>
      Supported(thn, inClause) && (if chained then NoEscape(els, false) else Supported(els, inClause))
    case Clauses(_, cs, typed) => if typed then NoEscapeClauses(cs) else SupportedClauses(cs)
    case For(_, _, body) => NoReturn(body)
    case Range(_, _, body) => NoReturn(body)
    case RangeChan(_, _, body) => NoReturn(body)
    case _ => true
  }

  // ----- outcomes that cannot happen -----

  ghost predicate NotReturned(r: Result) { r.Done? ==> r.out != Returned }

  lemma {:induction false} ClauseNoReturn(cs: seq<Clause>, i: nat)
    requires i < |cs| && NoReturnClauses(cs)
    ensures NoReturn(cs[i].body)
  {
    if i > 0 { ClauseNoReturn(cs[1..], i - 1); }
  }

  lemma {:induction false} NoReturnRuns(ss: seq<Stmt>, st: State, fuel: nat)
    requires NoReturn(ss)
    ensures NotReturned(ExecList(ss, st, fuel))
    decreases fuel, ss, 0, 0
  {
    if ss != [] {
      NoReturnRunsStmt(ss[0], st, fuel);
      var r := Exec(ss[0], st, fuel);
      if r.Done? && r.out == Normal { NoReturnRuns(ss[1..], r.st, fuel); }
    }
  }

  lemma {:induction false} NoReturnRunsStmt(s: Stmt, st: State, fuel: nat)
    requires NoReturnStmt(s)
    ensures NotReturned(Exec(s, st, fuel))
    decreases fuel, s, 0, 0
  {
    match s
    case Block(decls, body) => NoReturnRuns(body, Enter(decls, st), fuel);
    case If(_, thn, els, _) => NoReturnRuns(thn, st, fuel); NoReturnRuns(els, st, fuel);
    case Clauses(tag, cs, _) =>
      var i := Eval(tag, st);
      if 0 <= i < |cs| { ClauseNoReturn(cs, i); NoReturnRuns(cs[i].body, st, fuel); }
    case For(cond, post, body) =>
      NoReturnFor(cond, post, body, st, fuel);
    case Range(key, bound, body) => NoReturnRange(key, 0, Eval(bound, st), body, st, fuel);
    case RangeChan(key, c, body) => NoReturnChan(key, Get(st, c), body, st, fuel);
    case _ =>
  }

  lemma {:induction false} NoReturnFor(cond: Expr, post: Post, body: seq<Stmt>, st: State, fuel: nat)
    requires NoReturn(body)
    ensures NotReturned(Exec(For(cond, post, body), st, fuel))
    decreases fuel, body, 1, 0
  {
    if fuel > 0 && Eval(cond, st) != 0 {
      NoReturnRuns(body, st, fuel);
      var r := ExecList(body, st, fuel);
      if r.Done? && (r.out == Normal || r.out == Continued) {
        NoReturnFor(cond, post, body, RunPost(post, r.st), fuel - 1);
      }
    }
  }

  lemma {:induction false} NoReturnRange(key: Var, i: int, n: int, body: seq<Stmt>, st: State, fuel: nat)
    requires NoReturn(body)
    ensures NotReturned(ExecRange(key, i, n, body, st, fuel))
    decreases fuel, body, 1, n - i
  {
    if i < n {
      NoReturnRuns(body, Set(st, key, i), fuel);
      var r := ExecList(body, Set(st, key, i), fuel);
      if r.Done? && (r.out == Normal || r.out == Continued) { NoReturnRange(key, i + 1, n, body, r.st, fuel); }
    }
  }

  lemma {:induction false} NoReturnChan(key: Var, c: int, body: seq<Stmt>, st: State, fuel: nat)
    requires NoReturn(body)
    ensures NotReturned(ExecChan(key, c, body, st, fuel))
    decreases fuel, body, 1, 0
  {
    if fuel > 0 && Pending(st, c) != [] {
      NoReturnRuns(body, Take(st, c, key), fuel);
      var r := ExecList(body, Take(st, c, key), fuel);
      if r.Done? && (r.out == Normal || r.out == Continued) { NoReturnChan(key, c, body, r.st, fuel - 1); }
    }
  }

  /** A loop never hands its own break or continue to the code around it. */
  lemma {:induction false} LoopsCatch(s: Stmt, st: State, fuel: nat)
    requires s.For? || s.Range? || s.RangeChan?
    ensures var r := Exec(s, st, fuel); r.Done? ==> r.out != Broke && r.out != Continued
    decreases fuel
  {
    match s
    case For(cond, post, body) =>
      if fuel > 0 && Eval(cond, st) != 0 {
        var r := ExecList(body, st, fuel);
        if r.Done? && (r.out == Normal || r.out == Continued) {
          LoopsCatch(s, RunPost(post, r.st), fuel - 1);
        }
      }
    case Range(key, bound, body) => RangeCatches(key, 0, Eval(bound, st), body, st, fuel);
    case RangeChan(key, c, body) => ChanCatches(key, Get(st, c), body, st, fuel);
  }

  lemma {:induction false} RangeCatches(key: Var, i: int, n: int, body: seq<Stmt>, st: State, fuel: nat)
    ensures var r := ExecRange(key, i, n, body, st, fuel); r.Done? ==> r.out != Broke && r.out != Continued
    decreases n - i
  {
    if i < n {
      var r := ExecList(body, Set(st, key, i), fuel);
      if r.Done? && (r.out == Normal || r.out == Continued) { RangeCatches(key, i + 1, n, body, r.st, fuel); }
    }
  }

  lemma {:induction false} ChanCatches(key: Var, c: int, body: seq<Stmt>, st: State, fuel: nat)
    ensures var r := ExecChan(key, c, body, st, fuel); r.Done? ==> r.out != Broke && r.out != Continued
    decreases fuel
  {
    if fuel > 0 && Pending(st, c) != [] {
      var r := ExecList(body, Take(st, c, key), fuel);
      if r.Done? && (r.out == Normal || r.out == Continued) { ChanCatches(key, c, body, r.st, fuel - 1); }
    }
  }

  ghost predicate Stays(r: Result, inClause: bool) {
    r.Done? ==> r.out == Normal || r.out == Stuck || (inClause && r.out == Broke)
  }

  lemma {:induction false} ClauseNoEscape(cs: seq<Clause>, i: nat)
    requires i < |cs| && NoEscapeClauses(cs)
    ensures NoEscape(cs[i].body, true)
  {
    if i > 0 { ClauseNoEscape(cs[1..], i - 1); }
  }

  lemma {:induction false} NoEscapeRuns(ss: seq<Stmt>, inClause: bool, st: State, fuel: nat)
    requires NoEscape(ss, inClause)
    ensures Stays(ExecList(ss, st, fuel), inClause)
    decreases ss, 0
  {
    if ss != [] {
      NoEscapeRunsStmt(ss[0], inClause, st, fuel);
      var r := Exec(ss[0], st, fuel);
      if r.Done? && r.out == Normal { NoEscapeRuns(ss[1..], inClause, r.st, fuel); }
    }
  }

  lemma {:induction false} NoEscapeRunsStmt(s: Stmt, inClause: bool, st: State, fuel: nat)
    requires NoEscapeStmt(s, inClause)
    ensures Stays(Exec(s, st, fuel), inClause)
    decreases s, 0
  {
    match s
    case Block(decls, body) => NoEscapeRuns(body, inClause, Enter(decls, st), fuel);
    case If(_, thn, els, _) => NoEscapeRuns(thn, inClause, st, fuel); NoEscapeRuns(els, inClause, st, fuel);
    case Clauses(tag, cs, _) =>
      var i := Eval(tag, st);
      if 0 <= i < |cs| { ClauseNoEscape(cs, i); NoEscapeRuns(cs[i].body, true, st, fuel); }
    case For(_, _, _) => LoopsCatch(s, st, fuel); NoReturnRunsStmt(s, st, fuel);
    case Range(_, _, _) => LoopsCatch(s, st, fuel); NoReturnRunsStmt(s, st, fuel);
    case RangeChan(_, _, _) => LoopsCatch(s, st, fuel); NoReturnRunsStmt(s, st, fuel);
    case _ =>
  }

  // ----- simulation of a body by its rewriting -----

  ghost predicate FlagsAre(st: State, fl: Flags, br: int, ct: int, rt: int) {
    Get(st, fl.br) == br && Get(st, fl.ct) == ct && (fl.rt != "" ==> Get(st, fl.rt) == rt)
  }

  /** How the closure reports what the body wanted to do. */
  ghost predicate Reports(r: Result, t: Result, fl: Flags) {
    && r.Timeout? == t.Timeout?
    && (r.Done? ==>
          && Agree(r.st, t.st, Names(fl))
          && match r.out
             case Normal => t.out == Normal && FlagsAre(t.st, fl, 0, 0, 0)
             case Broke => t.out == Returned && FlagsAre(t.st, fl, 1, 0, 0)
             case Continued => t.out == Returned && FlagsAre(t.st, fl, 0, 1, 0)
             case Returned => t.out == Returned && fl.rt != "" && FlagsAre(t.st, fl, 0, 0, 1)
             case Stuck => t.out == Stuck)
  }

  ghost predicate Ready(a: State, b: State, fl: Flags) {
    FreshNames(fl) && Agree(a, b, Names(fl)) && FlagsAre(b, fl, 0, 0, 0)
  }

  lemma RaiseRuns(flag: Var, b: State, fuel: nat)
    requires flag != BLANK
    ensures Exec(Raise(flag), b, fuel) == Done(Returned, Set(b, flag, 1))
  {
    var body := [Assign(flag, Const(1)), Return];
    var b1 := Set(b, flag, 1);
    assert ExecList(body[1..], b1, fuel) == Done(Returned, b1) by { assert body[1..][0] == Return; }
    assert Exec(body[0], b, fuel) == Done(Normal, b1);
    assert ExecList(body, b, fuel) == ExecList(body[1..], b1, fuel);
  }

  lemma {:induction false} ClauseSupported(cs: seq<Clause>, i: nat, allowReturn: bool, fl: Flags)
    requires i < |cs| && SupportedClauses(cs) && ForceableClauses(cs, allowReturn) && ClausesAvoid(cs, Names(fl))
    ensures Supported(cs[i].body, true) && LoopBodyForceable(cs[i].body, allowReturn)
    ensures ListAvoids(cs[i].body, Names(fl))
    ensures RewriteClauses(cs, fl)[i].body == RewriteBreakContinueBody(cs[i].body, fl)
  {
    if i > 0 { ClauseSupported(cs[1..], i - 1, allowReturn, fl); }
  }

  /** A statement the rewriter leaves as it is, and that no branch leaves. */
  lemma UntouchedSimulates(s: Stmt, a: State, b: State, fl: Flags, fuel: nat)
    requires Avoids(s, Names(fl)) && Ready(a, b, fl)
    requires Stays(Exec(s, a, fuel), false)
    ensures Reports(Exec(s, a, fuel), Exec(s, b, fuel), fl)
  {
    Independent(s, a, b, Names(fl), fuel);
    Independent(s, b, a, Names(fl), fuel);
  }

  lemma {:induction false} BodySimulates(ss: seq<Stmt>, inClause: bool, allowReturn: bool,
                                         a: State, b: State, fl: Flags, fuel: nat)
    requires Supported(ss, inClause) && LoopBodyForceable(ss, allowReturn) && (allowReturn ==> fl.rt != "")
    requires ListAvoids(ss, Names(fl)) && Ready(a, b, fl)
    ensures Reports(ExecList(ss, a, fuel), ExecList(RewriteBreakContinueBody(ss, fl), b, fuel), fl)
    ensures inClause && ExecList(ss, a, fuel).Done? ==> ExecList(ss, a, fuel).out != Broke
    decreases ss, 0
  {
    if ss != [] {
      var tt := RewriteBreakContinueBody(ss, fl);
      assert tt[0] == RewriteStmt(ss[0], fl) && tt[1..] == RewriteBreakContinueBody(ss[1..], fl);
      StmtSimulates(ss[0], inClause, allowReturn, a, b, fl, fuel);
      var r, t := Exec(ss[0], a, fuel), Exec(tt[0], b, fuel);
      if r.Done? && r.out == Normal {
        BodySimulates(ss[1..], inClause, allowReturn, r.st, t.st, fl, fuel);
      }
    }
  }

  lemma {:induction false} StmtSimulates(s: Stmt, inClause: bool, allowReturn: bool,
                                         a: State, b: State, fl: Flags, fuel: nat)
    requires SupportedStmt(s, inClause) && ForceableStmt(s, allowReturn) && (allowReturn ==> fl.rt != "")
    requires Avoids(s, Names(fl)) && Ready(a, b, fl)
    ensures Reports(Exec(s, a, fuel), Exec(RewriteStmt(s, fl), b, fuel), fl)
    ensures inClause && Exec(s, a, fuel).Done? ==> Exec(s, a, fuel).out != Broke
    decreases s, 0
  {
    match s
    case Break => RaiseRuns(fl.br, b, fuel);
    case Continue => RaiseRuns(fl.ct, b, fuel);
    case Return => RaiseRuns(fl.rt, b, fuel);
    case Block(decls, body) => BlockSimulates(decls, body, inClause, allowReturn, a, b, fl, fuel);
    case If(cond, thn, els, chained) =>
      EvalAgrees(cond, a, b, Names(fl));
      if Eval(cond, a) != 0 {
        BodySimulates(thn, inClause, allowReturn, a, b, fl, fuel);
      } else if chained {
        NoEscapeRuns(els, false, a, fuel);
        ListIndependent(els, a, b, Names(fl), fuel);
        ListIndependent(els, b, a, Names(fl), fuel);
      } else {
        BodySimulates(els, inClause, allowReturn, a, b, fl, fuel);
      }
    case Clauses(tag, cs, typed) =>
      if typed {
        NoEscapeRunsStmt(s, false, a, fuel);
        UntouchedSimulates(s, a, b, fl, fuel);
      } else {
        ClausesSimulate(tag, cs, allowReturn, a, b, fl, fuel);
      }
    case For(_, _, _) => LoopsCatch(s, a, fuel); NoReturnRunsStmt(s, a, fuel); UntouchedSimulates(s, a, b, fl, fuel);
    case Range(_, _, _) => LoopsCatch(s, a, fuel); NoReturnRunsStmt(s, a, fuel); UntouchedSimulates(s, a, b, fl, fuel);
    case RangeChan(_, _, _) => LoopsCatch(s, a, fuel); NoReturnRunsStmt(s, a, fuel); UntouchedSimulates(s, a, b, fl, fuel);
    case Assign(_, _) => UntouchedSimulates(s, a, b, fl, fuel);
    case Recv(_, _, _) => UntouchedSimulates(s, a, b, fl, fuel);
    case Region(_) => UntouchedSimulates(s, a, b, fl, fuel);
  }

  lemma {:induction false} ClausesSimulate(tag: Expr, cs: seq<Clause>, allowReturn: bool, a: State, b: State, fl: Flags, fuel: nat)
    requires SupportedClauses(cs) && ForceableClauses(cs, allowReturn) && (allowReturn ==> fl.rt != "")
    requires Avoids(Clauses(tag, cs, false), Names(fl)) && Ready(a, b, fl)
    ensures var s := Clauses(tag, cs, false);
            && Reports(Exec(s, a, fuel), Exec(RewriteStmt(s, fl), b, fuel), fl)
            && (Exec(s, a, fuel).Done? ==> Exec(s, a, fuel).out != Broke)
    decreases cs, 1
  {
    EvalAgrees(tag, a, b, Names(fl));
    var i := Eval(tag, a);
    if 0 <= i < |cs| {
      ClauseSupported(cs, i, allowReturn, fl);
      BodySimulates(cs[i].body, true, allowReturn, a, b, fl, fuel);
    }
  }

  lemma {:induction false} BlockSimulates(decls: seq<Var>, body: seq<Stmt>, inClause: bool, allowReturn: bool,
                                          a: State, b: State, fl: Flags, fuel: nat)
    requires Supported(body, inClause) && LoopBodyForceable(body, allowReturn) && (allowReturn ==> fl.rt != "")
    requires Avoids(Block(decls, body), Names(fl)) && Ready(a, b, fl)
    ensures var s := Block(decls, body);
            && Reports(Exec(s, a, fuel), Exec(RewriteStmt(s, fl), b, fuel), fl)
            && (inClause && Exec(s, a, fuel).Done? ==> Exec(s, a, fuel).out != Broke)
    decreases body, 1
  {
    EnterAgrees(decls, a, b, Names(fl));
    EnterAgrees(decls, b, a, Names(fl));
    var a0, b0 := Enter(decls, a), Enter(decls, b);
    BodySimulates(body, inClause, allowReturn, a0, b0, fl, fuel);
    var r, t := ExecList(body, a0, fuel), ExecList(RewriteBreakContinueBody(body, fl), b0, fuel);
    if r.Done? {
      LeaveAgrees(decls, a, r.st, b, t.st, Names(fl));
      LeaveAgrees(decls, b, t.st, a, r.st, Names(fl));
    }
  }

  // ----- one iteration of a forced loop -----

  lemma RunHead(s: Stmt, rest: seq<Stmt>, st: State, fuel: nat)
    ensures var r := Exec(s, st, fuel);
            ExecList([s] + rest, st, fuel) == if r.Done? && r.out == Normal then ExecList(rest, r.st, fuel) else r
  {
    assert ([s] + rest)[1..] == rest;
  }

  lemma RunOne(s: Stmt, st: State, fuel: nat)
    ensures ExecList([s], st, fuel) == Exec(s, st, fuel)
  {
    RunHead(s, [], st, fuel);
    assert [s] + [] == [s];
  }

  lemma RunTest(flag: Var, s: Stmt, st: State, fuel: nat)
    ensures Exec(Test(flag, s), st, fuel) == if Get(st, flag) != 0 then Exec(s, st, fuel) else Done(Normal, st)
  {
    RunOne(s, st, fuel);
  }

  /** After the closure, the tests repeat the decision that the flags recorded. */
  lemma RunTests(fl: Flags, st: State, fuel: nat)
    ensures ExecList(Tests(fl), st, fuel) ==
            if Get(st, fl.br) != 0 then Done(Broke, st)
            else if Get(st, fl.ct) != 0 then Done(Continued, st)
            else if fl.rt != "" && Get(st, fl.rt) != 0 then Done(Returned, st)
            else Done(Normal, st)
  {
    var last := if fl.rt == "" then [] else [Test(fl.rt, Return)];
    RunTest(fl.br, Break, st, fuel);
    RunTest(fl.ct, Continue, st, fuel);
    RunTest(fl.rt, Return, st, fuel);
    assert Tests(fl) == [Test(fl.br, Break)] + ([Test(fl.ct, Continue)] + last);
    RunHead(Test(fl.br, Break), [Test(fl.ct, Continue)] + last, st, fuel);
    RunHead(Test(fl.ct, Continue), last, st, fuel);
    if last != [] { RunOne(Test(fl.rt, Return), st, fuel); }
  }

  lemma RunClosure(body: seq<Stmt>, st: State, fuel: nat)
    ensures Exec(Region([Block([], body)]), st, fuel) == CatchReturn(ExecList(body, st, fuel))
  {
    RunOne(Block([], body), st, fuel);
  }

  ghost predicate Applicable(body: seq<Stmt>, fl: Flags, allowReturn: bool) {
    && LoopBodyForceable(body, allowReturn) && Supported(body, false)
    && FreshNames(fl) && (fl.rt != "" <==> allowReturn) && ListAvoids(body, Names(fl))
  }

  /** A forced iteration, given what the closure does. */
  lemma ForcedOnce(body: seq<Stmt>, fl: Flags, st: State, fuel: nat)
    ensures var t := CatchReturn(ExecList(RewriteBreakContinueBody(body, fl), Enter(Decls(fl), st), fuel));
            ExecList(ForceBody(body, fl), st, fuel) ==
            LeaveResult(Decls(fl), st, if t.Done? && t.out == Normal then ExecList(Tests(fl), t.st, fuel) else t)
  {
    var inner := RewriteBreakContinueBody(body, fl);
    var closure := Region([Block([], inner)]);
    var b0 := Enter(Decls(fl), st);
    RunClosure(inner, b0, fuel);
    RunHead(closure, Tests(fl), b0, fuel);
    RunOne(Block(Decls(fl), [closure] + Tests(fl)), st, fuel);
  }

  lemma DeclsAreNames(fl: Flags)
    ensures forall x :: x in Decls(fl) <==> x in Names(fl)
  {
  }

  /** The flags start at zero and hide nothing of the program. */
  lemma ForcedStart(fl: Flags, a: State, b: State)
    requires FreshNames(fl) && Agree(a, b, {})
    ensures Ready(a, Enter(Decls(fl), b), fl)
  {
    DeclsAreNames(fl);
    FlagsStart(fl, b);
    EnterGet(Decls(fl), b, BLANK);
    forall x | x !in Names(fl) ensures Get(Enter(Decls(fl), b), x) == Get(b, x) {
      EnterGet(Decls(fl), b, x);
    }
  }

  /** The flags go out of scope and the program's variables are as the body left them. */
  lemma ForcedExit(fl: Flags, b: State, r: State, t: State)
    requires FreshNames(fl) && Agree(r, t, Names(fl)) && Keeps(b, r, Names(fl))
    ensures Agree(r, Leave(Decls(fl), b, t), {})
  {
    DeclsAreNames(fl);
    LeaveGet(Decls(fl), b, t, BLANK);
    forall x ensures Get(r, x) == Get(Leave(Decls(fl), b, t), x) {
      LeaveGet(Decls(fl), b, t, x);
    }
  }

  lemma ForcedIteration(body: seq<Stmt>, fl: Flags, allowReturn: bool, a: State, b: State, fuel: nat)
    requires Applicable(body, fl, allowReturn) && Agree(a, b, {})
    ensures SameResult(ExecList(body, a, fuel), ExecList(ForceBody(body, fl), b, fuel), {})
  {
    var b0 := Enter(Decls(fl), b);
    ForcedStart(fl, a, b);
    BodySimulates(body, false, allowReturn, a, b0, fl, fuel);
    ListIndependent(body, a, a, Names(fl), fuel);
    ForcedOnce(body, fl, b, fuel);
    var r, t := ExecList(body, a, fuel), ExecList(RewriteBreakContinueBody(body, fl), b0, fuel);
    if r.Done? {
      RunTests(fl, t.st, fuel);
      ForcedExit(fl, b, r.st, t.st);
    }
  }

  // ----- main results -----

  /** Forcing a region on a classic for loop keeps its outcome and its final state. */
  lemma {:induction false} ForcedForPreserves(cond: Expr, post: Post, body: seq<Stmt>, fl: Flags, allowReturn: bool,
                                              a: State, b: State, fuel: nat)
    requires Applicable(body, fl, allowReturn) && Agree(a, b, {})
    ensures SameResult(Exec(For(cond, post, body), a, fuel), Exec(For(cond, post, ForceBody(body, fl)), b, fuel), {})
    decreases fuel
  {
    if fuel > 0 {
      AvoidsNothingExpr(cond);
      EvalAgrees(cond, a, b, {});
      if Eval(cond, a) != 0 {
        ForcedIteration(body, fl, allowReturn, a, b, fuel);
        var r, t := ExecList(body, a, fuel), ExecList(ForceBody(body, fl), b, fuel);
        if r.Done? && (r.out == Normal || r.out == Continued) {
          if post.Step? { AvoidsNothingExpr(post.e); EvalAgrees(post.e, r.st, t.st, {}); }
          ForcedForPreserves(cond, post, body, fl, allowReturn, RunPost(post, r.st), RunPost(post, t.st), fuel - 1);
        }
      }
    }
  }

  /** The same for a range loop. */
  lemma ForcedRangePreserves(key: Var, bound: Expr, body: seq<Stmt>, fl: Flags, allowReturn: bool,
                             st: State, fuel: nat)
    requires Applicable(body, fl, allowReturn)
    ensures SameResult(Exec(Range(key, bound, body), st, fuel),
                       Exec(Range(key, bound, ForceBody(body, fl)), st, fuel), {})
  {
    ForcedRangeFrom(key, 0, Eval(bound, st), body, fl, allowReturn, st, st, fuel);
  }

  lemma {:induction false} ForcedRangeFrom(key: Var, i: int, n: int, body: seq<Stmt>, fl: Flags, allowReturn: bool,
                                           a: State, b: State, fuel: nat)
    requires Applicable(body, fl, allowReturn) && Agree(a, b, {})
    ensures SameResult(ExecRange(key, i, n, body, a, fuel), ExecRange(key, i, n, ForceBody(body, fl), b, fuel), {})
    decreases n - i
  {
    if i < n {
      ForcedIteration(body, fl, allowReturn, Set(a, key, i), Set(b, key, i), fuel);
      var r := ExecList(body, Set(a, key, i), fuel);
      var t := ExecList(ForceBody(body, fl), Set(b, key, i), fuel);
      if r.Done? && (r.out == Normal || r.out == Continued) {
        ForcedRangeFrom(key, i + 1, n, body, fl, allowReturn, r.st, t.st, fuel);
      }
    }
  }

  lemma {:induction false} AvoidsNothingExpr(e: Expr)
    ensures ExprAvoids(e, {})
  {
    match e
    case Const(_) =>
    case Read(_) =>
    case Not(p) => AvoidsNothingExpr(p);
    case Add(p, q) => AvoidsNothingExpr(p); AvoidsNothingExpr(q);
    case Less(p, q) => AvoidsNothingExpr(p); AvoidsNothingExpr(q);
  }

  // A body without branches never asks to leave, so the plain wrapping is transparent.

  lemma {:induction false} SafeIsContained(ss: seq<Stmt>)
    requires LoopBodySafe(ss)
    ensures NoEscape(ss, false) && NoEscape(ss, true) && NoReturn(ss)
    decreases ss, 0
  {
    if ss != [] {
      SafeIsContainedStmt(ss[0]);
      SafeIsContained(ss[1..]);
    }
  }

  lemma {:induction false} SafeClausesContained(cs: seq<Clause>)
    requires SafeClauses(cs)
    ensures NoEscapeClauses(cs) && NoReturnClauses(cs)
    decreases cs, 0
  {
    if cs != [] {
      SafeIsContained(cs[0].body);
      SafeClausesContained(cs[1..]);
    }
  }

  lemma {:induction false} SafeIsContainedStmt(s: Stmt)
    requires SafeStmt(s)
    ensures NoEscapeStmt(s, false) && NoEscapeStmt(s, true) && NoReturnStmt(s)
    decreases s, 0
  {
    match s
    case Block(_, body) => SafeIsContained(body);
    case If(_, thn, els, _) => SafeIsContained(thn); SafeIsContained(els);
    case Clauses(_, cs, _) => SafeClausesContained(cs);
    case For(_, _, body) => SafeIsContained(body);
    case Range(_, _, body) => SafeIsContained(body);
    case RangeChan(_, _, body) => SafeIsContained(body);
    case _ =>
  }

  /**
   The region around a body is transparent exactly if the body does not end in a
   break, a continue or a return: those are lost in the closure or do not compile.
   */
  lemma WrapPreservesExactly(body: seq<Stmt>, st: State, fuel: nat)
    ensures var r := ExecList(body, st, fuel);
            SameResult(r, ExecList(WrapBody(body), st, fuel), {}) <==>
            !(r.Done? && (r.out == Broke || r.out == Continued || r.out == Returned))
  {
    RunOne(Block([], body), st, fuel);
    RunOne(Region([Block([], body)]), st, fuel);
  }

  /** A safe body and its wrapping give exactly the same result from every state. */
  lemma SafeWrapPreserves(body: seq<Stmt>, st: State, fuel: nat)
    requires LoopBodySafe(body)
    ensures ExecList(WrapBody(body), st, fuel) == ExecList(body, st, fuel)
  {
    SafeIsContained(body);
    NoEscapeRuns(body, false, st, fuel);
    RunClosure(body, st, fuel);
    RunOne(Region([Block([], body)]), st, fuel);
  }

  // ----- outside the fragment: families of bodies the guard accepts and the pass breaks -----

  lemma RewriteHead(s: Stmt, rest: seq<Stmt>, fl: Flags)
    ensures RewriteBreakContinueBody([s] + rest, fl) == [RewriteStmt(s, fl)] + RewriteBreakContinueBody(rest, fl)
  {
    assert ([s] + rest)[1..] == rest;
  }

  lemma FlagsStart(fl: Flags, st: State)
    requires FreshNames(fl)
    ensures FlagsAre(Enter(Decls(fl), st), fl, 0, 0, 0)
  {
    EnterGet(Decls(fl), st, fl.br);
    EnterGet(Decls(fl), st, fl.ct);
    EnterGet(Decls(fl), st, fl.rt);
  }

  /** A switch whose only clause breaks. */
  function BreakingSwitch(): Stmt {
    Clauses(Const(0), [Clause([Break])], false)
  }

  /** Rewritten, the clause raises the flag of the loop's break. */
  lemma BreakRaised(fl: Flags, st: State, fuel: nat)
    requires FreshNames(fl)
    ensures var b0 := Enter(Decls(fl), st);
            Exec(RewriteStmt(BreakingSwitch(), fl), b0, fuel) == Done(Returned, Set(b0, fl.br, 1))
  {
    var b0 := Enter(Decls(fl), st);
    RewriteHead(Break, [], fl);
    assert [Break] + [] == [Break] && [Raise(fl.br)] + [] == [Raise(fl.br)];
    assert RewriteClauses([Clause([Break])], fl) == [Clause([Raise(fl.br)])];
    RaiseRuns(fl.br, b0, fuel);
    RunOne(Raise(fl.br), b0, fuel);
  }

  /** The forced body breaks at once and leaves the variables as they were. */
  lemma ForcedSwitchBreaks(rest: seq<Stmt>, fl: Flags, st: State, fuel: nat)
    requires FreshNames(fl)
    ensures var t := ExecList(ForceBody([BreakingSwitch()] + rest, fl), st, fuel);
            t.Done? && t.out == Broke && Agree(st, t.st, {})
  {
    var b0 := Enter(Decls(fl), st);
    var b1 := Set(b0, fl.br, 1);
    BreakRaised(fl, st, fuel);
    RewriteHead(BreakingSwitch(), rest, fl);
    RunHead(RewriteStmt(BreakingSwitch(), fl), RewriteBreakContinueBody(rest, fl), b0, fuel);
    ForcedOnce([BreakingSwitch()] + rest, fl, st, fuel);
    RunTests(fl, b1, fuel);
    forall x ensures Get(Leave(Decls(fl), st, b1), x) == Get(st, x) && Leave(Decls(fl), st, b1).chans == st.chans {
      LeaveGet(Decls(fl), st, b1, x);
      EnterGet(Decls(fl), st, x);
    }
  }

  /** The original body goes on with what follows the switch. */
  lemma SwitchGoesOn(rest: seq<Stmt>, allowReturn: bool, st: State, fuel: nat)
    requires LoopBodyForceable(rest, allowReturn)
    ensures LoopBodyForceable([BreakingSwitch()] + rest, allowReturn)
    ensures ExecList([BreakingSwitch()] + rest, st, fuel) == ExecList(rest, st, fuel)
  {
    assert ([BreakingSwitch()] + rest)[1..] == rest;
    assert LoopBodyForceable([Break], allowReturn) && ForceableClauses([Clause([Break])], allowReturn);
    RunOne(Break, st, fuel);
    RunHead(BreakingSwitch(), rest, st, fuel);
  }

  /**
   The break of a switch is taken for a break of the loop, so the rest of the
   body is lost: body and forced body agree exactly if the rest does nothing but
   break out of the loop itself. A rest without branches always tells them apart.
   */
  lemma SwitchBreakDiverges(rest: seq<Stmt>, fl: Flags, allowReturn: bool, st: State, fuel: nat)
    requires FreshNames(fl) && LoopBodyForceable(rest, allowReturn)
    ensures var body, r := [BreakingSwitch()] + rest, ExecList(rest, st, fuel);
            && LoopBodyForceable(body, allowReturn)
            && (SameResult(ExecList(body, st, fuel), ExecList(ForceBody(body, fl), st, fuel), {}) <==>
                r.Done? && r.out == Broke && Agree(r.st, st, {}))
            && (NoEscape(rest, false) ==>
                  !SameResult(ExecList(body, st, fuel), ExecList(ForceBody(body, fl), st, fuel), {}))
  {
    SwitchGoesOn(rest, allowReturn, st, fuel);
    ForcedSwitchBreaks(rest, fl, st, fuel);
    if NoEscape(rest, false) { NoEscapeRuns(rest, false, st, fuel); }
  }

  /** A loop that would never end is left in its first iteration: a switch that breaks, and nothing else. */
  lemma SwitchBreakEndsLoop(fl: Flags, st: State, fuel: nat)
    requires FreshNames(fl) && fuel > 0
    ensures Exec(For(Const(1), NoPost, [BreakingSwitch()]), st, fuel).Timeout?
    ensures var t := Exec(For(Const(1), NoPost, ForceBody([BreakingSwitch()], fl)), st, fuel);
            t.Done? && t.out == Normal && Agree(st, t.st, {})
  {
    SwitchSpins(st, fuel);
    ForcedSwitchBreaks([], fl, st, fuel);
    assert [BreakingSwitch()] + [] == [BreakingSwitch()];
  }

  lemma {:induction false} SwitchSpins(st: State, fuel: nat)
    ensures Exec(For(Const(1), NoPost, [BreakingSwitch()]), st, fuel).Timeout?
  {
    if fuel > 0 {
      SwitchGoesOn([], false, st, fuel);
      assert [BreakingSwitch()] + [] == [BreakingSwitch()];
      SwitchSpins(st, fuel - 1);
    }
  }

  /** A continue in a type switch stays inside the closure, where it does not compile. */
  lemma TypeSwitchContinueIsStuck(rest: seq<Stmt>, fl: Flags, allowReturn: bool, st: State, fuel: nat)
    requires FreshNames(fl) && LoopBodyForceable(rest, allowReturn)
    ensures var body := [Clauses(Const(0), [Clause([Continue])], true)] + rest;
            && LoopBodyForceable(body, allowReturn)
            && ExecList(body, st, fuel) == Done(Continued, st)
            && ExecList(ForceBody(body, fl), st, fuel).Done?
            && ExecList(ForceBody(body, fl), st, fuel).out == Stuck
  {
    var sw := Clauses(Const(0), [Clause([Continue])], true);
    var body := [sw] + rest;
    assert body[1..] == rest && LoopBodyForceable([Continue], allowReturn);
    assert ForceableClauses([Clause([Continue])], allowReturn);
    var b0 := Enter(Decls(fl), st);
    forall s: State | s == st || s == b0 ensures Exec(sw, s, fuel) == Done(Continued, s) {
      RunOne(Continue, s, fuel);
    }
    RunHead(sw, rest, st, fuel);
    RewriteHead(sw, rest, fl);
    RunHead(sw, RewriteBreakContinueBody(rest, fl), b0, fuel);
    ForcedOnce(body, fl, st, fuel);
  }

  /** A branch under `else if` stays inside the closure, where it does not compile. */
  lemma ElseIfBreakIsStuck(rest: seq<Stmt>, fl: Flags, allowReturn: bool, st: State, fuel: nat)
    requires FreshNames(fl) && LoopBodyForceable(rest, allowReturn)
    ensures var body := [If(Const(0), [], [If(Const(1), [Break], [], false)], true)] + rest;
            && LoopBodyForceable(body, allowReturn)
            && ExecList(body, st, fuel) == Done(Broke, st)
            && ExecList(ForceBody(body, fl), st, fuel).Done?
            && ExecList(ForceBody(body, fl), st, fuel).out == Stuck
  {
    var nested := If(Const(1), [Break], [], false);
    var chain := If(Const(0), [], [nested], true);
    var body := [chain] + rest;
    assert body[1..] == rest && LoopBodyForceable([Break], allowReturn);
    assert ForceableStmt(nested, allowReturn);
    assert LoopBodyForceable([nested], allowReturn);
    var b0 := Enter(Decls(fl), st);
    forall s: State | s == st || s == b0 ensures Exec(chain, s, fuel) == Done(Broke, s) {
      RunOne(Break, s, fuel);
      RunOne(nested, s, fuel);
    }
    RunHead(chain, rest, st, fuel);
    RewriteHead(chain, rest, fl);
    assert RewriteStmt(chain, fl) == chain by { assert RewriteBreakContinueBody([], fl) == []; }
    RunHead(chain, RewriteBreakContinueBody(rest, fl), b0, fuel);
    ForcedOnce(body, fl, st, fuel);
  }

  /** A return in a nested loop only ends the closure, and the outer loop goes on. */
  lemma NestedReturnIsLost(rest: seq<Stmt>, fl: Flags, allowReturn: bool, st: State, fuel: nat)
    requires FreshNames(fl) && LoopBodyForceable(rest, allowReturn) && fuel > 0
    ensures var body := [For(Const(1), NoPost, [Return])] + rest;
            && LoopBodyForceable(body, allowReturn)
            && ExecList(body, st, fuel) == Done(Returned, st)
            && ExecList(ForceBody(body, fl), st, fuel).Done?
            && ExecList(ForceBody(body, fl), st, fuel).out == Normal
  {
    var nested := For(Const(1), NoPost, [Return]);
    var body := [nested] + rest;
    assert body[1..] == rest;
    var b0 := Enter(Decls(fl), st);
    forall s: State | s == st || s == b0 ensures Exec(nested, s, fuel) == Done(Returned, s) {
      RunOne(Return, s, fuel);
    }
    RunHead(nested, rest, st, fuel);
    RewriteHead(nested, rest, fl);
    RunHead(nested, RewriteBreakContinueBody(rest, fl), b0, fuel);
    ForcedOnce(body, fl, st, fuel);
    FlagsStart(fl, st);
    RunTests(fl, b0, fuel);
  }
}
