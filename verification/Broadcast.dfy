/**
 The blocking broadcast: n clients register with a server over unbuffered
 channels, client 1 sends one message, the server hands it to every client.
 A step is one rendezvous.
 */
module Broadcast {
  import opened Shared

  /** The slots the server has for client inboxes. */
  const bcMax: nat := 10

  const hello := "Hello World"

  datatype ClientPc = Joining | AwaitReply | Sending | AwaitMessage | Exited

  datatype Client = Client(pc: ClientPc, got: seq<string>)

  datatype ServerPc =
    | Register(regs: nat)
    | Reply(to: nat, before: nat)
    | AwaitHello
    | Deliver(next: nat, msg: string)
    | ServerDone
      // the server indexed clientOut out of range
    | Panicked

  /** Slot i of clientOut holds an inbox, named by the client that owns it. */
  datatype State = State(clients: seq<Client>, server: ServerPc, clientOut: seq<Option<nat>>)

  /** A rendezvous on the shared join channel, a reply channel, clientIn, or the inbox in the server's next slot. */
  datatype Action = Join(i: nat) | Answer(i: nat) | Hello(i: nat) | Hand(i: nat)

  function Start(n: nat): State {
    State(seq(n, _ => Client(Joining, [])), if n == 0 then AwaitHello else Register(0), seq(bcMax, _ => None))
  }

  /** The state after the registration loop has counted regs clients. */
  function Registered(n: nat, regs: nat): ServerPc {
    if regs < n then Register(regs) else AwaitHello
  }

  function Delivered(n: nat, i: nat, msg: string): ServerPc {
    if i < n then Deliver(i, msg) else ServerDone
  }

  /** Client 1 goes on to send its message, the others wait for it. */
  function AfterReply(i: nat): ClientPc {
    if i == 1 then Sending else AwaitMessage
  }

  function Do(s: State, a: Action): Option<State> {
    var n := |s.clients|;
    if a.i >= n then None
    else
      var client := s.clients[a.i];
      match a
      case Join(i) =>
        if !s.server.Register? || client.pc != Joining then None
        else
          var clients := s.clients[i := client.(pc := AwaitReply)];
          if i < |s.clientOut| then Some(State(clients, Reply(i, s.server.regs), s.clientOut[i := Some(i)]))
          else Some(State(clients, Panicked, s.clientOut))
      case Answer(i) =>
        if !s.server.Reply? || s.server.to != i || client.pc != AwaitReply then None
        else Some(State(s.clients[i := client.(pc := AfterReply(i))], Registered(n, s.server.before + 1), s.clientOut))
      case Hello(i) =>
        if s.server != AwaitHello || client.pc != Sending then None
        else Some(State(s.clients[i := client.(pc := AwaitMessage)], Delivered(n, 0, hello), s.clientOut))
      case Hand(i) =>
        if !s.server.Deliver? || client.pc != AwaitMessage then None
        else if s.server.next >= |s.clientOut| then
          // clientOut is indexed before the send
          Some(s.(server := Panicked))
        else if s.clientOut[s.server.next] != Some(i) then None
        else
          Some(State(s.clients[i := Client(Exited, client.got + [s.server.msg])],
                     Delivered(n, s.server.next + 1, s.server.msg), s.clientOut))
  }

  function Run(n: nat, actions: seq<Action>): Option<State> {
    if actions == [] then Some(Start(n))
    else
      match Run(n, actions[..|actions| - 1])
      case Some(s) => Do(s, actions[|actions| - 1])
      case None => None
  }

  ghost predicate Stuck(s: State) {
    forall a :: Do(s, a).None?
  }

  /** The server is done, every client has the message once, and slot i is the inbox of client i. */
  ghost predicate Finished(s: State, n: nat) {
    && s.server == ServerDone && |s.clients| == n <= |s.clientOut|
    && (forall i :: 0 <= i < n ==> s.clients[i] == Client(Exited, ["Hello World"]))
    && (forall i :: 0 <= i < n ==> s.clientOut[i] == Some(i))
  }

  // ----- the invariant -----

  function JoiningCount(clients: seq<Client>): nat {
    if clients == [] then 0
    else JoiningCount(clients[..|clients| - 1]) + if clients[|clients| - 1].pc.Joining? then 1 else 0
  }

  lemma {:induction false} CountAfter(clients: seq<Client>, i: nat, c: Client)
    requires i < |clients|
    ensures JoiningCount(clients[i := c]) + (if clients[i].pc.Joining? then 1 else 0) ==
            JoiningCount(clients) + if c.pc.Joining? then 1 else 0
  {
    var m := |clients| - 1;
    if i < m {
      assert clients[i := c][..m] == clients[..m][i := c];
      CountAfter(clients[..m], i, c);
    } else {
      assert clients[i := c][..m] == clients[..m];
    }
  }

  lemma {:induction false} SomeoneJoins(clients: seq<Client>) returns (i: nat)
    requires JoiningCount(clients) > 0
    ensures i < |clients| && clients[i].pc.Joining?
  {
    var m := |clients| - 1;
    if clients[m].pc.Joining? { i := m; } else { i := SomeoneJoins(clients[..m]); }
  }

  lemma {:induction false} NobodyJoins(clients: seq<Client>)
    ensures JoiningCount(clients) == 0 <==> forall i :: 0 <= i < |clients| ==> !clients[i].pc.Joining?
  {
    if clients != [] {
      var m := |clients| - 1;
      NobodyJoins(clients[..m]);
      assert forall i :: 0 <= i < m ==> clients[..m][i] == clients[i];
    }
  }

  lemma {:induction false} AllJoin(n: nat)
    ensures JoiningCount(seq(n, _ => Client(Joining, []))) == n
  {
    if n > 0 {
      assert seq(n, _ => Client(Joining, []))[..n - 1] == seq(n - 1, _ => Client(Joining, []));
      AllJoin(n - 1);
    }
  }

  /** A client before the message: it waits to join, or has been answered. */
  predicate Early(c: Client, i: nat) {
    c.got == [] && (c.pc == Joining || c.pc == AfterReply(i))
  }

  /** How far the server is, and how many clients still have to join. */
  ghost predicate Phase(s: State) {
    match s.server
    case Register(regs) => regs < |s.clients| && JoiningCount(s.clients) == |s.clients| - regs
    case Reply(to, before) =>
      to < |s.clients| && before < |s.clients| && JoiningCount(s.clients) == |s.clients| - before - 1
    case AwaitHello => JoiningCount(s.clients) == 0
    case Deliver(next, msg) => next < |s.clients| && msg == hello
    case ServerDone => true
    case Panicked => true
  }

  ghost predicate ClientOk(s: State, i: nat)
    requires i < |s.clients|
  {
    match s.server
    case Register(_) => Early(s.clients[i], i)
    case Reply(to, _) => if i == to then s.clients[i] == Client(AwaitReply, []) else Early(s.clients[i], i)
    case AwaitHello => Early(s.clients[i], i)
    case Deliver(next, _) => s.clients[i] == if i < next then Client(Exited, [hello]) else Client(AwaitMessage, [])
    case ServerDone => s.clients[i] == Client(Exited, [hello])
    case Panicked => true
  }

  /** A client that has been heard has its inbox in its own slot. */
  ghost predicate SlotOk(s: State, i: nat)
    requires i < |s.clients|
  {
    s.clients[i].pc != Joining ==> i < |s.clientOut| && s.clientOut[i] == Some(i)
  }

  ghost predicate Inv(s: State, n: nat) {
    && |s.clients| == n && |s.clientOut| == bcMax && Phase(s)
    && (s.server.Panicked? ==> n > bcMax)
    && (!s.server.Panicked? ==> forall i :: 0 <= i < n ==> ClientOk(s, i) && SlotOk(s, i))
  }

  /** Steps still to come. */
  function Remaining(s: State): int {
    var n := |s.clients|;
    match s.server
    case Register(regs) => 2 * (n - regs) + 1 + n
    case Reply(_, before) => 2 * (n - before) + n
    case AwaitHello => 1 + n
    case Deliver(next, _) => n - next
    case ServerDone => 0
    case Panicked => 0
  }

  lemma StartInv(n: nat)
    ensures Inv(Start(n), n) && Remaining(Start(n)) == 3 * n + 1
  {
    AllJoin(n);
  }

  lemma JoinKeeps(s: State, n: nat, a: Action)
    requires Inv(s, n) && a.Join? && Do(s, a).Some?
    ensures Inv(Do(s, a).value, n)
  {
    CountAfter(s.clients, a.i, s.clients[a.i].(pc := AwaitReply));
    if a.i < bcMax {
      var s1 := Do(s, a).value;
      forall j | 0 <= j < n ensures ClientOk(s1, j) && SlotOk(s1, j) {
        assert ClientOk(s, j) && SlotOk(s, j);
      }
    }
  }

  lemma AnswerKeeps(s: State, n: nat, a: Action)
    requires Inv(s, n) && a.Answer? && Do(s, a).Some?
    ensures Inv(Do(s, a).value, n)
  {
    assert ClientOk(s, a.i) && SlotOk(s, a.i);
    CountAfter(s.clients, a.i, s.clients[a.i].(pc := AfterReply(a.i)));
    var s1 := Do(s, a).value;
    forall j | 0 <= j < n ensures ClientOk(s1, j) && SlotOk(s1, j) {
      assert ClientOk(s, j) && SlotOk(s, j);
    }
  }

  lemma HelloKeeps(s: State, n: nat, a: Action)
    requires Inv(s, n) && a.Hello? && Do(s, a).Some?
    ensures Inv(Do(s, a).value, n)
  {
    NobodyJoins(s.clients);
    assert ClientOk(s, a.i) && SlotOk(s, a.i);
    var s1 := Do(s, a).value;
    forall j | 0 <= j < n ensures ClientOk(s1, j) && SlotOk(s1, j) {
      assert ClientOk(s, j) && SlotOk(s, j);
    }
  }

  lemma HandKeeps(s: State, n: nat, a: Action)
    requires Inv(s, n) && a.Hand? && Do(s, a).Some?
    ensures Inv(Do(s, a).value, n)
  {
    var next := s.server.next;
    assert ClientOk(s, next) && SlotOk(s, next);
    assert a.i == next;
    var s1 := Do(s, a).value;
    forall j | 0 <= j < n ensures ClientOk(s1, j) && SlotOk(s1, j) {
      assert ClientOk(s, j) && SlotOk(s, j);
    }
  }

  lemma StepKeeps(s: State, n: nat, a: Action)
    requires Inv(s, n) && Do(s, a).Some?
    ensures Inv(Do(s, a).value, n)
    ensures !Do(s, a).value.server.Panicked? ==> Remaining(Do(s, a).value) == Remaining(s) - 1
  {
    match a
    case Join(_) => JoinKeeps(s, n, a);
    case Answer(_) => AnswerKeeps(s, n, a);
    case Hello(_) => HelloKeeps(s, n, a);
    case Hand(_) => HandKeeps(s, n, a);
  }

  lemma {:induction false} RunsKeepInv(n: nat, actions: seq<Action>)
    requires Run(n, actions).Some?
    ensures Inv(Run(n, actions).value, n)
    ensures !Run(n, actions).value.server.Panicked? ==> |actions| + Remaining(Run(n, actions).value) == 3 * n + 1
  {
    if actions == [] {
      StartInv(n);
    } else {
      var before := actions[..|actions| - 1];
      RunsKeepInv(n, before);
      StepKeeps(Run(n, before).value, n, actions[|actions| - 1]);
    }
  }

  /** With 2 to bcMax clients some rendezvous is possible until all is done. */
  lemma SomeStep(s: State, n: nat) returns (a: Action)
    requires Inv(s, n) && 2 <= n <= bcMax && !s.server.ServerDone?
    ensures Do(s, a).Some?
  {
    match s.server
    case Register(_) =>
      var i := SomeoneJoins(s.clients);
      a := Join(i);
    case Reply(to, _) =>
      assert ClientOk(s, to);
      a := Answer(to);
    case AwaitHello =>
      NobodyJoins(s.clients);
      assert ClientOk(s, 1);
      a := Hello(1);
    case Deliver(next, _) =>
      assert ClientOk(s, next) && SlotOk(s, next);
      a := Hand(next);
  }

  // ----- main results -----

  /**
   With 2 to 10 clients every run, whatever the schedule, takes at most
   3n + 1 steps, and when no further step is possible all is finished.
   */
  lemma BroadcastIsExact(n: nat, actions: seq<Action>)
    requires 2 <= n <= 10 && Run(n, actions).Some?
    ensures |actions| <= 3 * n + 1 && (Stuck(Run(n, actions).value) <==> |actions| == 3 * n + 1)
    ensures Stuck(Run(n, actions).value) ==> Finished(Run(n, actions).value, n)
  {
    var s := Run(n, actions).value;
    RunsKeepInv(n, actions);
    if s.server.ServerDone? {
      forall i | 0 <= i < n ensures s.clients[i] == Client(Exited, [hello]) && s.clientOut[i] == Some(i) {
        assert ClientOk(s, i) && SlotOk(s, i);
      }
      assert Stuck(s);
    } else {
      var a := SomeStep(s, n);
    }
  }

  /** With fewer than two clients nobody sends the message: the server waits for it for ever. */
  lemma TooFewClients(n: nat) returns (actions: seq<Action>)
    requires n < 2
    ensures Run(n, actions).Some? && Stuck(Run(n, actions).value) && Run(n, actions).value.server == AwaitHello
  {
    if n == 0 {
      actions := [];
    } else {
      actions := [Join(0), Answer(0)];
      var s1 := Do(Start(1), Join(0)).value;
      assert [Join(0)][..0] == [];
      assert Run(1, [Join(0)]) == Some(s1);
      assert actions[..1] == [Join(0)];
      assert Do(s1, Answer(0)).value.clients[0].pc == AwaitMessage;
    }
  }

  /** With more clients than slots the server can panic at its first step. */
  lemma TooManyClients(n: nat)
    requires n > 10
    ensures Run(n, [Join(10)]).Some? && Run(n, [Join(10)]).value.server.Panicked? && Stuck(Run(n, [Join(10)]).value)
  {
    assert [Join(10)][..0] == [];
  }

  /** Every maximal run finishes exactly when there are 2 to 10 clients. */
  lemma FinishesExactly(n: nat)
    ensures (forall actions :: Run(n, actions).Some? && Stuck(Run(n, actions).value) ==> Finished(Run(n, actions).value, n))
            <==> 2 <= n <= 10
  {
    if 2 <= n <= 10 {
      forall actions | Run(n, actions).Some? && Stuck(Run(n, actions).value) ensures Finished(Run(n, actions).value, n) {
        BroadcastIsExact(n, actions);
      }
    } else if n < 2 {
      var actions := TooFewClients(n);
    } else {
      TooManyClients(n);
    }
  }
}
