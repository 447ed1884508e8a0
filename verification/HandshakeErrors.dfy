/** When the client is in its error state: exactly which message of the run puts it there, and where that message came from. */
module HandshakeErrors {
  import opened Common
  import opened Filters
  import opened Handshake
  import opened HandshakeSafety

  /** A fatal error with a number; the client takes every other message without changing to the error state. */
  predicate Harmful(m: CoreMsg)
  {
    m.ErrorMsg? && m.fatal && m.number != NO_ERROR
  }

  /** The state after i steps of a run. */
  ghost function StateAt(s: State, acts: seq<Action>, i: nat): State
    requires Run(s, acts) && i <= |acts|
    decreases i
  {
    if i == 0 then s else StateAt(Step(s, acts[0]), acts[1..], i - 1)
  }

  /** The message that a step delivers to the client. */
  ghost predicate Delivers(s: State, a: Action, m: CoreMsg)
  {
    a.RxDeliver? && Enabled(s, a) && s.conns[s.client.socket.value].toClient[0] == m
  }

  ghost predicate DeliversHarm(s: State, a: Action)
  {
    exists m :: Delivers(s, a, m) && Harmful(m)
  }

  /** A thread that had found the state good for sending fails to send: it sets the state to disconnected, whatever it is by now. */
  predicate Overwrites(s: State, a: Action)
  {
    a.ApiSend? && SendFails(s, a.ok)
  }

  // ---------- one step ----------

  lemma DeliverErrors(s: State, m: CoreMsg)
    ensures Deliver(s, m).client.state.Error? <==> Harmful(m) || s.client.state.Error?
  {
  }

  lemma ErrorStep(s: State, a: Action)
    requires Inv(s) && Enabled(s, a)
    ensures Step(s, a).client.state.Error? <==> DeliversHarm(s, a) || (s.client.state.Error? && !Overwrites(s, a))
  {
    hide ConnsOk, RouterOk, FilterOk, Effective;
    if a.RxDeliver? {
      var k := s.client.socket.value;
      var m := s.conns[k].toClient[0];
      assert Delivers(s, a, m);
      DeliverErrors(s.(conns := s.conns[k := s.conns[k].(toClient := s.conns[k].toClient[1..])]), m);
    }
  }

  // ---------- whole runs ----------

  /** Step i delivers a fatal error and no later step overwrites the state. */
  ghost predicate HarmStays(s: State, acts: seq<Action>, i: int)
    requires Run(s, acts)
  {
    && 0 <= i < |acts| && DeliversHarm(StateAt(s, acts, i), acts[i])
    && NoOverwrite(s, acts, i + 1)
  }

  ghost predicate NoOverwrite(s: State, acts: seq<Action>, from: nat)
    requires Run(s, acts)
  {
    forall j: nat | from <= j < |acts| :: !Overwrites(StateAt(s, acts, j), acts[j])
  }

  lemma Shift(s: State, acts: seq<Action>, i: nat)
    requires Run(s, acts) && i < |acts|
    ensures acts != [] && Run(Step(s, acts[0]), acts[1..]) && StateAt(s, acts, i + 1) == StateAt(Step(s, acts[0]), acts[1..], i)
  {
  }

  lemma ShiftNoOverwrite(s: State, acts: seq<Action>, from: nat)
    requires Run(s, acts) && acts != []
    ensures NoOverwrite(s, acts, from + 1) <==> NoOverwrite(Step(s, acts[0]), acts[1..], from)
  {
    var s', rest := Step(s, acts[0]), acts[1..];
    if NoOverwrite(s, acts, from + 1) {
      forall j: nat | from <= j < |rest| ensures !Overwrites(StateAt(s', rest, j), rest[j]) {
        Shift(s, acts, j);
        assert !Overwrites(StateAt(s, acts, j + 1), acts[j + 1]);
      }
    }
    if NoOverwrite(s', rest, from) {
      forall j: nat | from + 1 <= j < |acts| ensures !Overwrites(StateAt(s, acts, j), acts[j]) {
        Shift(s, acts, j - 1);
        assert !Overwrites(StateAt(s', rest, j - 1), rest[j - 1]);
      }
    }
  }

  lemma ShiftHarm(s: State, acts: seq<Action>)
    requires Run(s, acts) && acts != []
    ensures var s', rest := Step(s, acts[0]), acts[1..];
      (exists i :: HarmStays(s, acts, i)) <==>
        (exists i :: HarmStays(s', rest, i)) || (DeliversHarm(s, acts[0]) && NoOverwrite(s', rest, 0))
  {
    var s', rest := Step(s, acts[0]), acts[1..];
    if i :| HarmStays(s, acts, i) {
      ShiftNoOverwrite(s, acts, i);
      if i > 0 {
        Shift(s, acts, i - 1);
        assert HarmStays(s', rest, i - 1);
      }
    }
    if i :| HarmStays(s', rest, i) {
      Shift(s, acts, i);
      ShiftNoOverwrite(s, acts, i + 1);
      assert HarmStays(s, acts, i + 1);
    }
    if DeliversHarm(s, acts[0]) && NoOverwrite(s', rest, 0) {
      ShiftNoOverwrite(s, acts, 0);
      assert HarmStays(s, acts, 0);
    }
  }

  lemma {:induction false} ErrorAfter(s: State, acts: seq<Action>)
    requires Inv(s) && Run(s, acts)
    ensures Exec(s, acts).client.state.Error? <==>
      (exists i :: HarmStays(s, acts, i)) || (s.client.state.Error? && NoOverwrite(s, acts, 0))
    decreases |acts|
  {
    if acts != [] {
      var a, s' := acts[0], Step(s, acts[0]);
      InvKept(s, a);
      ErrorStep(s, a);
      ErrorAfter(s', acts[1..]);
      ShiftHarm(s, acts);
      ShiftNoOverwrite(s, acts, 0);
      assert NoOverwrite(s, acts, 0) <==> !Overwrites(StateAt(s, acts, 0), a) && NoOverwrite(s, acts, 1);
      hide *;
    }
  }

  /**
   The error state, exactly. After every run the client is in it if and only if some step delivered a fatal error with a
   number to it and no later step was a failing send that overwrote the state.
   */
  lemma ErrorStateIff(s0: State, acts: seq<Action>)
    requires Init(s0) && Run(s0, acts)
    ensures Exec(s0, acts).client.state.Error? <==> exists i :: HarmStays(s0, acts, i)
  {
    ErrorAfter(s0, acts);
  }

  // ---------- where the message came from ----------

  ghost predicate RoutedIn(acts: seq<Action>, upTo: int, k: nat, m: CoreMsg)
  {
    exists j :: 0 <= j < upTo <= |acts| && acts[j].CoreRoute? && acts[j].k == k && acts[j].m == m
  }

  /** A step adds a harmful message to a connection only by routing it there. */
  lemma HarmComesIn(s: State, a: Action, k: nat, m: CoreMsg)
    requires Enabled(s, a) && k < |Step(s, a).conns| && m in Step(s, a).conns[k].toClient && Harmful(m)
    ensures (k < |s.conns| && m in s.conns[k].toClient) || (a.CoreRoute? && a.k == k && a.m == m)
  {
  }

  lemma {:induction false} WasRouted(s: State, acts: seq<Action>, i: nat, k: nat, m: CoreMsg)
    requires Run(s, acts) && i <= |acts|
    requires k < |StateAt(s, acts, i).conns| && m in StateAt(s, acts, i).conns[k].toClient && Harmful(m)
    ensures RoutedIn(acts, i, k, m) || (k < |s.conns| && m in s.conns[k].toClient)
    decreases i
  {
    if i > 0 {
      var rest := acts[1..];
      WasRouted(Step(s, acts[0]), rest, i - 1, k, m);
      if RoutedIn(rest, i - 1, k, m) {
        var j :| 0 <= j < i - 1 <= |rest| && rest[j].CoreRoute? && rest[j].k == k && rest[j].m == m;
        assert acts[j + 1] == rest[j];
      } else {
        HarmComesIn(s, acts[0], k, m);
      }
    }
  }

  /** A fatal error with a number that reaches the client was routed to its connection earlier in the run: the core makes none itself. */
  lemma HarmIsRouted(s0: State, acts: seq<Action>, i: nat, m: CoreMsg)
    requires Init(s0) && Run(s0, acts) && i < |acts| && Delivers(StateAt(s0, acts, i), acts[i], m) && Harmful(m)
    ensures exists j :: 0 <= j < i && acts[j].CoreRoute? && acts[j].m == m && acts[j].k == StateAt(s0, acts, i).client.socket.value
  {
    var k := StateAt(s0, acts, i).client.socket.value;
    WasRouted(s0, acts, i, k, m);
  }

  /** So a rejected registration, or anything else the core says on its own account, never puts the client into the error state. */
  lemma RejectionIsHarmless(s0: State, acts: seq<Action>)
    requires Init(s0) && Run(s0, acts)
    requires forall j | 0 <= j < |acts| && acts[j].CoreRoute? :: !Harmful(acts[j].m)
    ensures !Exec(s0, acts).client.state.Error?
  {
    ErrorStateIff(s0, acts);
    if Exec(s0, acts).client.state.Error? {
      var i :| HarmStays(s0, acts, i);
      var m :| Delivers(StateAt(s0, acts, i), acts[i], m) && Harmful(m);
      HarmIsRouted(s0, acts, i, m);
      assert false;
    }
  }

  // ---------- what the client can do about it ----------

  /** No entry asks for error messages: none is a wildcard and none names their type. */
  predicate IgnoresErrors(fs: seq<FilterEntry>)
  {
    forall i | 0 <= i < |fs| :: fs[i].msgType != WILDCARD && fs[i].msgType != ERROR_TYPE
  }

  predicate QuietMsg(m: ClientMsg)
  {
    m.SubscribeMsg? ==> IgnoresErrors(ToEntries(m.filter))
  }

  ghost predicate QuietConn(c: Conn)
  {
    forall i | 0 <= i < |c.toCore| :: QuietMsg(c.toCore[i])
  }

  ghost predicate QuietClient(c: Client)
  {
    IgnoresErrors(ToEntries(c.filter)) && (c.lock.MaySend? ==> QuietMsg(c.lock.msg))
  }

  /** Every filter stored, in flight or in effect ignores errors. */
  ghost predicate Quiet(s: State)
  {
    && QuietClient(s.client)
    && (forall k | 0 <= k < |s.conns| :: QuietConn(s.conns[k]))
    && (forall k | k in s.router :: IgnoresErrors(s.router[k]))
  }

  ghost predicate QuietStep(a: Action)
  {
    a.ApiSubscribe? ==> IgnoresErrors(ToEntries(a.filter))
  }

  lemma QuietPost(c: Conn, m: ClientMsg, confirmed: bool)
    requires QuietConn(c) && QuietMsg(m)
    ensures QuietConn(Post(c, m, confirmed))
  {
    hide QuietMsg, IsSlow;
  }

  lemma QuietSend(s: State, m: ClientMsg, ok: bool)
    requires Quiet(s) && QuietMsg(m)
    ensures Quiet(Send(s, m, ok))
  {
    if !SendFails(s, ok) {
      QuietPost(s.conns[s.client.socket.value], m, s.client.state.Registered?);
    }
    hide QuietMsg, QuietConn, IgnoresErrors, Post;
  }

  lemma QuietHandle(c: Conn, verdict: Verdict)
    requires QuietConn(c) && c.toCore != []
    ensures QuietConn(Handle(c, verdict)) && QuietMsg(c.toCore[0])
  {
    hide QuietMsg;
    assert Handle(c, verdict).toCore == c.toCore[1..];
  }

  lemma QuietClientKept(s: State, a: Action)
    requires Quiet(s) && Enabled(s, a) && QuietStep(a)
    ensures QuietClient(Step(s, a).client)
  {
    hide IgnoresErrors, ToEntries, QuietConn;
  }

  lemma QuietCoreConn(s: State, a: Action)
    requires Quiet(s) && Enabled(s, a) && IsCore(a)
    ensures a.k < |Step(s, a).conns| == |s.conns| && QuietConn(Step(s, a).conns[a.k])
    ensures forall k | 0 <= k < |s.conns| && k != a.k :: Step(s, a).conns[k] == s.conns[k]
  {
    assert QuietConn(s.conns[a.k]);
    if a.CoreHandle? {
      QuietHandle(s.conns[a.k], a.verdict);
    }
    hide QuietMsg, Handle, QuietClient, IgnoresErrors;
  }

  lemma QuietRouterKept(s: State, a: Action)
    requires Quiet(s) && Enabled(s, a) && IsCore(a)
    ensures forall k | k in Step(s, a).router :: IgnoresErrors(Step(s, a).router[k])
  {
    assert IgnoresErrors([]);
    if a.CoreHandle? {
      assert QuietConn(s.conns[a.k]);
      QuietHandle(s.conns[a.k], a.verdict);
    }
    hide IgnoresErrors, ToEntries, Handle, QuietConn, QuietClient;
  }

  lemma QuietCoreKept(s: State, a: Action)
    requires Quiet(s) && Enabled(s, a) && IsCore(a)
    ensures Quiet(Step(s, a))
  {
    QuietClientKept(s, a);
    QuietCoreConn(s, a);
    QuietRouterKept(s, a);
    hide Step, IgnoresErrors, QuietConn, QuietClient;
  }

  lemma QuietKept(s: State, a: Action)
    requires Quiet(s) && Enabled(s, a) && QuietStep(a)
    ensures Quiet(Step(s, a))
  {
    if IsCore(a) {
      QuietCoreKept(s, a);
    } else {
      QuietClientKept(s, a);
      match a
      case ApiSend(ok) => QuietSend(s, s.client.lock.msg, ok);
      case RxRegister(ok) => QuietSend(s, RegisterMsg, ok);
      case RxResubscribe(ok) => QuietSend(s, SubscribeMsg(s.client.filter), ok);
      case _ =>
        hide QuietMsg, IgnoresErrors, ToEntries;
    }
  }

  /** Such a client is never routed an error. */
  lemma QuietIsSpared(s: State, a: Action)
    requires Quiet(s) && Enabled(s, a) && a.CoreRoute?
    ensures !Harmful(a.m)
  {
    assert IgnoresErrors(s.router[a.k]);
    var i :| 0 <= i < |s.router[a.k]| && Matches(s.router[a.k][i], a.header);
  }

  lemma {:induction false} QuietRun(s: State, acts: seq<Action>)
    requires Quiet(s) && Run(s, acts) && forall j | 0 <= j < |acts| :: QuietStep(acts[j])
    ensures forall j | 0 <= j < |acts| && acts[j].CoreRoute? :: !Harmful(acts[j].m)
    decreases |acts|
  {
    if acts != [] {
      var rest := acts[1..];
      QuietKept(s, acts[0]);
      QuietRun(Step(s, acts[0]), rest);
      forall j | 0 <= j < |acts| && acts[j].CoreRoute? ensures !Harmful(acts[j].m) {
        if j == 0 {
          QuietIsSpared(s, acts[0]);
        } else {
          assert acts[j] == rest[j - 1];
        }
      }
    }
  }

  /** A client none of whose filters asks for error messages, by a wildcard or by their type, is never in the error state. */
  lemma QuietNeverErrs(s0: State, acts: seq<Action>)
    requires Init(s0) && Run(s0, acts)
    requires forall j | 0 <= j < |acts| && acts[j].ApiSubscribe? :: IgnoresErrors(ToEntries(acts[j].filter))
    ensures !Exec(s0, acts).client.state.Error?
  {
    QuietRun(s0, acts);
    RejectionIsHarmless(s0, acts);
  }

  // ---------- it does happen ----------

  /** The connection of a client that is registered and subscribed to everything, with nothing in flight. */
  ghost predicate SubscribedToAll(s: State)
  {
    && s.client.state.Registered? && s.client.rx.Recv? && s.client.lock.Free? && s.client.socket == Some(0)
    && |s.conns| == 1 && s.conns[0].toClient == []
    && 0 in s.router && s.router[0] == [FilterEntry(WILDCARD, "", 0)]
  }

  /** Another plugin's fatal error message, routed to it, puts such a client into the error state. */
  lemma ErrorReaches(s: State, number: int) returns (acts: seq<Action>)
    requires SubscribedToAll(s) && number != NO_ERROR
    ensures Run(s, acts) && Exec(s, acts).client.state.Error?
  {
    var header, m := Message(Some(ERROR_TYPE), None, 0), ErrorMsg(true, number);
    var route := CoreRoute(0, header, m);
    assert Matches(s.router[0][0], header);
    var s' := Step(s, route);
    assert s'.conns[0].toClient == [m];
    Prepend(s', RxDeliver, []);
    Prepend(s, route, [RxDeliver]);
    acts := [route] + [RxDeliver];
  }

  const ALL: ClientFilter := Some([FilterItem(Some(WILDCARD), None, 0)])

  lemma AllEntries()
    ensures ToEntries(ALL) == [FilterEntry(WILDCARD, "", 0)]
  {
    assert ALL.value[..0] == [];
    assert ItemEntries([]) == [];
  }

  lemma TwoSteps(s: State, a: Action, b: Action)
    requires Enabled(s, a) && Enabled(Step(s, a), b)
    ensures Run(s, [a, b]) && Exec(s, [a, b]) == Step(Step(s, a), b)
  {
    Prepend(Step(s, a), b, []);
    Prepend(s, a, [b]);
    assert [a] + [b] == [a, b] && [b] + [] == [b];
  }

  /** One connection, read by the core, with nothing on its way to the client or to the router. */
  ghost predicate OneConn(s: State, toCore: seq<ClientMsg>, registered: bool)
  {
    && |s.conns| == 1 && s.conns[0].phase.Live? && s.conns[0].toCore == toCore && s.conns[0].toClient == []
    && s.conns[0].registered == registered && !s.conns[0].replyDue
  }

  lemma Connects(s0: State) returns (acts: seq<Action>)
    requires Init(s0)
    ensures Run(s0, acts)
    ensures Exec(s0, acts).client == Client(Connected, ALL, Free, Recv, Some(0)) && OneConn(Exec(s0, acts), [RegisterMsg], false)
  {
    TwoSteps(s0, ApiSubscribe(ALL), ApiCheck);
    acts := [ApiSubscribe(ALL), ApiCheck];
    var s2 := Exec(s0, acts);
    TwoSteps(s2, RxConnect, RxSetConnected);
    RunsConcat(s0, acts, [RxConnect, RxSetConnected]);
    acts := acts + [RxConnect, RxSetConnected];
    var s4 := Exec(s0, acts);
    Prepend(s4, RxRegister(true), []);
    RunsConcat(s0, acts, [RxRegister(true)] + []);
    acts := acts + ([RxRegister(true)] + []);
  }

  lemma Registers(s: State) returns (acts: seq<Action>)
    requires s.client == Client(Connected, ALL, Free, Recv, Some(0)) && OneConn(s, [RegisterMsg], false)
    ensures Run(s, acts)
    ensures Exec(s, acts).client == Client(Connected, ALL, Free, ConfigCheck, Some(0)) && OneConn(Exec(s, acts), [], true)
  {
    TwoSteps(s, CoreHandle(0, Accepted), CoreReply(0, true));
    acts := [CoreHandle(0, Accepted), CoreReply(0, true)];
    var s2 := Exec(s, acts);
    assert s2.client == s.client && s2.conns[0].toClient == [ConfigMsg];
    Prepend(s2, RxDeliver, []);
    RunsConcat(s, acts, [RxDeliver] + []);
    acts := acts + ([RxDeliver] + []);
  }

  lemma Resubscribes(s: State) returns (acts: seq<Action>)
    requires s.client == Client(Connected, ALL, Free, ConfigCheck, Some(0)) && OneConn(s, [], true)
    ensures Run(s, acts) && SubscribedToAll(Exec(s, acts))
  {
    AllEntries();
    hide ToEntries;
    TwoSteps(s, RxConfigCheck, RxSetRegistered);
    acts := [RxConfigCheck, RxSetRegistered];
    var s2 := Exec(s, acts);
    TwoSteps(s2, RxResubscribe(true), CoreHandle(0, Accepted));
    RunsConcat(s, acts, [RxResubscribe(true), CoreHandle(0, Accepted)]);
    acts := acts + [RxResubscribe(true), CoreHandle(0, Accepted)];
  }

  /** The claim that no message of the core leads to the error state is false: a client that asks for everything gets there. */
  lemma RoutedErrorCounterexample(s0: State) returns (acts: seq<Action>)
    requires Init(s0)
    ensures Run(s0, acts) && Exec(s0, acts).client.state.Error?
  {
    hide Run, Exec, SubscribedToAll, OneConn, Init;
    var a := Connects(s0);
    var b := Registers(Exec(s0, a));
    RunsConcat(s0, a, b);
    var c := Resubscribes(Exec(s0, a + b));
    RunsConcat(s0, a + b, c);
    var d := ErrorReaches(Exec(s0, a + b + c), 1);
    RunsConcat(s0, a + b + c, d);
    acts := a + b + c + d;
  }
}
