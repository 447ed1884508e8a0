/** Every run of client and core: the router converges to the filter the client last set. */
module HandshakeSafety {
  import opened Common
  import opened Filters
  import opened Handshake

  // ---------- the core's side of one connection ----------

  ghost predicate AcceptedRegistration(log: seq<Handled>)
  {
    exists i | 0 <= i < |log| :: log[i].msg.RegisterMsg? && log[i].accepted
  }

  function LogMsgs(log: seq<Handled>): (ms: seq<ClientMsg>)
    ensures |ms| == |log| && forall i | 0 <= i < |log| :: ms[i] == log[i].msg
  {
    seq(|log|, i requires 0 <= i < |log| => log[i].msg)
  }

  /** Every other message is accepted exactly when an accepted registration came before it. */
  ghost predicate LogOk(log: seq<Handled>)
  {
    forall j | 0 <= j < |log| && !log[j].msg.RegisterMsg? :: log[j].accepted <==> AcceptedRegistration(log[..j])
  }

  ghost predicate RepliesOk(c: Conn)
  {
    && (forall i | 0 <= i < |c.toClient| && c.toClient[i].ConfigMsg? :: c.registered)
    && (c.replyDue ==> c.registered)
  }

  /** The messages sent to one of the two processors, in order. */
  function LaneMsgs(ms: seq<ClientMsg>, slow: bool): seq<ClientMsg>
  {
    if ms == [] then []
    else
      var last := ms[|ms| - 1];
      LaneMsgs(ms[..|ms| - 1], slow) + (if IsSlow(last) == slow then [last] else [])
  }

  /** The messages that are for the slow processor: status and event log. */
  function SlowPick(): ClientMsg -> bool
  {
    (m: ClientMsg) => m.StatusMsg? || m.EventLogMsg?
  }

  /** The messages that are for the fast processor: all others. */
  function FastPick(): ClientMsg -> bool
  {
    (m: ClientMsg) => m.RegisterMsg? || m.SubscribeMsg? || m.OtherMsg?
  }

  function Same(): ClientMsg -> ClientMsg
  {
    (m: ClientMsg) => m
  }

  /** By message: what LaneMsgs keeps. */
  lemma {:induction false} LanePicks(ms: seq<ClientMsg>)
    ensures Picks(ms, SlowPick(), Same(), LaneMsgs(ms, true)) && Picks(ms, FastPick(), Same(), LaneMsgs(ms, false))
  {
    if ms == [] {
      PicksNothing(SlowPick(), Same());
      PicksNothing(FastPick(), Same());
    } else {
      var init, m := ms[..|ms| - 1], ms[|ms| - 1];
      assert ms == init + [m];
      LanePicks(init);
      PicksMore(init, SlowPick(), Same(), LaneMsgs(init, true), m);
      PicksMore(init, FastPick(), Same(), LaneMsgs(init, false), m);
      hide Picks;
    }
  }

  lemma {:induction false} LaneKinds(ms: seq<ClientMsg>, slow: bool)
    ensures forall i | 0 <= i < |LaneMsgs(ms, slow)| :: LaneMsgs(ms, slow)[i].StatusMsg? || LaneMsgs(ms, slow)[i].EventLogMsg? <==> slow
  {
    if ms != [] {
      LaneKinds(ms[..|ms| - 1], slow);
    }
  }

  lemma LaneAppend(ms: seq<ClientMsg>, m: ClientMsg, slow: bool)
    ensures LaneMsgs(ms + [m], slow) == LaneMsgs(ms, slow) + (if IsSlow(m) == slow then [m] else [])
  {
    assert (ms + [m])[..|ms|] == ms;
  }

  /** The messages the slow processor has handled and those waiting for it. */
  function SlowMsgs(log: seq<HandledSlow>, queue: seq<Posted>): (ms: seq<ClientMsg>)
    ensures |ms| == |log| + |queue|
    ensures forall i | 0 <= i < |log| :: ms[i] == log[i].post.msg
    ensures forall i | 0 <= i < |queue| :: ms[|log| + i] == queue[i].msg
  {
    seq(|log| + |queue|, i requires 0 <= i < |log| + |queue| => if i < |log| then log[i].post.msg else queue[i - |log|].msg)
  }

  ghost predicate FastOk(c: Conn)
  {
    && LogOk(c.log)
    && (c.registered <==> AcceptedRegistration(c.log))
    && LogMsgs(c.log) <= LaneMsgs(c.sent, false)
    && (c.phase.Live? ==> LogMsgs(c.log) + c.toCore == LaneMsgs(c.sent, false))
  }

  /** A slow message was accepted if and only if the fast side had accepted a registration by then; a confirmed one always is. */
  ghost predicate SlowEntryOk(h: HandledSlow, log: seq<Handled>)
  {
    && h.after <= |log|
    && (h.accepted <==> AcceptedRegistration(log[..h.after]))
    && (h.post.confirmed ==> h.accepted)
  }

  ghost predicate SlowOk(c: Conn)
  {
    && (forall j | 0 <= j < |c.slowLog| :: SlowEntryOk(c.slowLog[j], c.log))
    && (forall i | 0 <= i < |c.toSlow| && c.toSlow[i].confirmed :: c.registered)
    && SlowMsgs(c.slowLog, []) <= LaneMsgs(c.sent, true)
    && (c.phase.Live? ==> SlowMsgs(c.slowLog, c.toSlow) == LaneMsgs(c.sent, true))
  }

  ghost predicate HistoryOk(c: Conn)
  {
    FastOk(c) && SlowOk(c)
  }

  ghost predicate ConnsOk(s: State)
  {
    forall k | 0 <= k < |s.conns| :: RepliesOk(s.conns[k]) && HistoryOk(s.conns[k])
  }

  /** Only registered connections that still exist are in the router. */
  ghost predicate RouterOk(s: State)
  {
    forall k | k in s.router :: k < |s.conns| && s.conns[k].registered && !s.conns[k].phase.Gone?
  }

  // ---------- the filter in effect once the messages in flight are handled ----------

  function Effective(ms: seq<ClientMsg>, entry: Option<seq<FilterEntry>>): Option<seq<FilterEntry>>
  {
    if ms == [] then entry
    else Effective(ms[1..], if ms[0].SubscribeMsg? then Some(ToEntries(ms[0].filter)) else entry)
  }

  lemma {:induction false} EffectiveAppend(ms: seq<ClientMsg>, m: ClientMsg, entry: Option<seq<FilterEntry>>)
    ensures Effective(ms + [m], entry) == if m.SubscribeMsg? then Some(ToEntries(m.filter)) else Effective(ms, entry)
  {
    var all := ms + [m];
    if ms == [] {
      assert all[1..] == [];
    } else {
      EffectiveAppend(ms[1..], m, if ms[0].SubscribeMsg? then Some(ToEntries(ms[0].filter)) else entry);
      assert all[1..] == ms[1..] + [m] && all[0] == ms[0];
    }
  }

  function Entry(s: State, k: nat): Option<seq<FilterEntry>>
  {
    if k in s.router then Some(s.router[k]) else None
  }

  // ---------- the client ----------

  ghost predicate SocketOk(s: State)
  {
    var c := s.client;
    && (c.socket.Some? <==> !c.rx.Outer? && !c.rx.Stopped?)
    && (c.socket.Some? ==> c.socket.value < |s.conns|)
  }

  /** The receive thread has seen a config message on the current connection. */
  predicate SawConfig(c: Client)
  {
    || c.rx.ConfigCheck? || c.rx.SetRegistered? || c.rx.Resubscribe?
    || (c.state.Registered? && c.rx.Recv?)
  }

  ghost predicate StatesOk(s: State)
  {
    var c := s.client;
    && (c.state.Error? ==> c.rx.Recv? || c.rx.ConfigCheck? || c.rx.Outer? || c.rx.Stopped?)
    && (c.state.Registered? ==> c.rx.Recv? || c.rx.ConfigCheck? || c.rx.Resubscribe?)
    && (SawConfig(c) ==> c.socket.Some? && c.socket.value < |s.conns| && s.conns[c.socket.value].registered)
  }

  /** The client is registered and back in its receive loop: it has re-subscribed on this connection. */
  predicate Resubscribed(c: Client)
  {
    c.state.Registered? && (c.rx.Recv? || c.rx.ConfigCheck?)
  }

  ghost predicate Settled(s: State)
  {
    var c := s.client;
    c.socket.Some? && c.socket.value < |s.conns| && s.conns[c.socket.value].phase.Live? ==>
      Effective(s.conns[c.socket.value].toCore, Entry(s, c.socket.value)) == Some(ToEntries(c.filter))
  }

  /** An application thread is inside `ivp_subscribe`. */
  predicate Subscribing(lock: Lock)
  {
    lock.FilterStored? || (lock.MaySend? && lock.msg.SubscribeMsg?)
  }

  ghost predicate LockOk(c: Client)
  {
    c.lock.MaySend? && c.lock.msg.SubscribeMsg? ==> c.lock.msg.filter == c.filter
  }

  ghost predicate FilterOk(s: State)
  {
    LockOk(s.client) && (Resubscribed(s.client) && !Subscribing(s.client.lock) ==> Settled(s))
  }

  ghost predicate Inv(s: State)
  {
    ConnsOk(s) && RouterOk(s) && SocketOk(s) && StatesOk(s) && FilterOk(s)
  }

  /** A step of the core on one of its connections. */
  predicate IsCore(a: Action)
  {
    a.CoreHandle? || a.CoreHandleSlow? || a.CoreReply? || a.CoreConfig? || a.CoreRoute? || a.CoreParseError? || a.CoreClose? || a.CoreUnsubscribe? || a.CoreDelete?
  }

  // ---------- preservation: one connection ----------

  lemma {:induction false} LogGrows(log: seq<Handled>, h: Handled)
    requires LogOk(log)
    requires !h.msg.RegisterMsg? ==> (h.accepted <==> AcceptedRegistration(log))
    ensures LogOk(log + [h])
    ensures AcceptedRegistration(log + [h]) <==> AcceptedRegistration(log) || (h.msg.RegisterMsg? && h.accepted)
    ensures LogMsgs(log + [h]) == LogMsgs(log) + [h.msg]
  {
    var log' := log + [h];
    assert forall j | 0 <= j <= |log| :: log'[..j] == log[..j];
    assert log'[..|log|] == log;
    if AcceptedRegistration(log) {
      var i :| 0 <= i < |log| && log[i].msg.RegisterMsg? && log[i].accepted;
      assert log'[i] == log[i];
    }
    assert log'[|log|] == h;
  }

  /** The message taken moves from the queue to the log. */
  lemma HandleKeepsOrder(c: Conn, m: ClientMsg)
    requires FastOk(c) && c.phase.Live? && c.toCore != [] && m == c.toCore[0]
    ensures LogMsgs(c.log) + [m] + c.toCore[1..] == LaneMsgs(c.sent, false)
    ensures LogMsgs(c.log) + [m] <= LaneMsgs(c.sent, false)
  {
    hide LogOk, AcceptedRegistration, LogMsgs, LaneMsgs;
    assert [m] + c.toCore[1..] == c.toCore;
    assert LogMsgs(c.log) + [m] + c.toCore[1..] == LogMsgs(c.log) + c.toCore;
  }

  lemma HandleKeeps(c: Conn, verdict: Verdict)
    requires RepliesOk(c) && HistoryOk(c) && c.phase.Live? && c.toCore != []
    ensures RepliesOk(Handle(c, verdict)) && HistoryOk(Handle(c, verdict))
  {
    var m := c.toCore[0];
    var c' := Handle(c, verdict);
    var h := c'.log[|c.log|];
    assert c'.log == c.log + [h] && h.msg == m;
    LogGrows(c.log, h);
    HandleKeepsOrder(c, m);
    SlowLogKept(c, c', h);
    hide LogOk, AcceptedRegistration, LogMsgs, LaneMsgs, SlowMsgs, SlowOk;
  }

  /** The slow side does not see the fast log grow. */
  lemma SlowLogKept(c: Conn, c': Conn, h: Handled)
    requires SlowOk(c) && c'.log == c.log + [h] && (c.registered ==> c'.registered)
    requires c'.slowLog == c.slowLog && c'.toSlow == c.toSlow && c'.sent == c.sent && c'.phase == c.phase
    ensures SlowOk(c')
  {
    hide AcceptedRegistration, LaneMsgs, SlowMsgs;
    assert forall n | 0 <= n <= |c.log| :: c'.log[..n] == c.log[..n];
    assert forall j | 0 <= j < |c.slowLog| :: SlowEntryOk(c.slowLog[j], c.log);
  }

  lemma SlowTaken(log: seq<HandledSlow>, queue: seq<Posted>, h: HandledSlow)
    requires queue != [] && h.post == queue[0]
    ensures SlowMsgs(log + [h], queue[1..]) == SlowMsgs(log, queue)
  {
    var before, after := SlowMsgs(log, queue), SlowMsgs(log + [h], queue[1..]);
    forall i | 0 <= i < |before| ensures after[i] == before[i] {
      if i > |log| {
        assert after[|log + [h]| + (i - |log| - 1)] == queue[1..][i - |log| - 1].msg && before[|log| + (i - |log|)] == queue[i - |log|].msg;
      }
    }
  }

  /** What has been handled comes before what waits. */
  lemma HandledFirst(log: seq<HandledSlow>, queue: seq<Posted>)
    ensures SlowMsgs(log, []) <= SlowMsgs(log, queue)
  {
    var short, long := SlowMsgs(log, []), SlowMsgs(log, queue);
    assert forall i | 0 <= i < |short| :: short[i] == log[i].post.msg == long[i];
  }

  lemma HandleSlowKeeps(c: Conn)
    requires RepliesOk(c) && HistoryOk(c) && c.phase.Live? && c.toSlow != []
    ensures RepliesOk(HandleSlow(c)) && HistoryOk(HandleSlow(c))
  {
    hide LogOk, LogMsgs, LaneMsgs, AcceptedRegistration, SlowMsgs;
    var c' := HandleSlow(c);
    assert c.log[..|c.log|] == c.log;
    assert SlowEntryOk(c'.slowLog[|c.slowLog|], c.log);
    SlowTaken(c.slowLog, c.toSlow, c'.slowLog[|c.slowLog|]);
    HandledFirst(c'.slowLog, c'.toSlow);
  }

  /** The message joins the messages of its processor. */
  lemma PostKeepsOrder(c: Conn, m: ClientMsg, confirmed: bool)
    requires HistoryOk(c) && c.phase.Live?
    ensures var c' := Post(c, m, confirmed);
      && LogMsgs(c'.log) + c'.toCore == LaneMsgs(c'.sent, false) && LogMsgs(c'.log) <= LaneMsgs(c'.sent, false)
      && SlowMsgs(c'.slowLog, c'.toSlow) == LaneMsgs(c'.sent, true) && SlowMsgs(c'.slowLog, []) <= LaneMsgs(c'.sent, true)
  {
    var c' := Post(c, m, confirmed);
    LaneAppend(c.sent, m, false);
    LaneAppend(c.sent, m, true);
    hide LaneMsgs, IsSlow;
    if IsSlow(m) {
      assert SlowMsgs(c'.slowLog, c'.toSlow) == SlowMsgs(c.slowLog, c.toSlow) + [m];
    } else {
      assert LogMsgs(c.log) + (c.toCore + [m]) == LogMsgs(c.log) + c.toCore + [m];
    }
  }

  lemma PostKeeps(c: Conn, m: ClientMsg, confirmed: bool)
    requires RepliesOk(c) && HistoryOk(c) && c.phase.Live? && (confirmed ==> c.registered)
    ensures RepliesOk(Post(c, m, confirmed)) && HistoryOk(Post(c, m, confirmed))
  {
    PostKeepsOrder(c, m, confirmed);
    hide LaneMsgs, SlowMsgs, LogMsgs, LogOk, SlowEntryOk, AcceptedRegistration, IsSlow;
  }

  /** The client's state tells it that its connection is registered. */
  predicate Confirms(s: State)
  {
    s.client.state.Registered? && s.client.socket.Some? && s.client.socket.value < |s.conns| ==>
      s.conns[s.client.socket.value].registered
  }

  lemma SendKeepsConns(s: State, m: ClientMsg, ok: bool)
    requires ConnsOk(s) && Confirms(s)
    ensures ConnsOk(Send(s, m, ok)) && |Send(s, m, ok).conns| == |s.conns|
    ensures forall k | 0 <= k < |s.conns| ::
      var c, c' := s.conns[k], Send(s, m, ok).conns[k];
      c'.registered == c.registered && c'.phase == c.phase
  {
    hide RepliesOk, HistoryOk;
    if !SendFails(s, ok) && s.conns[s.client.socket.value].phase.Live? {
      PostKeeps(s.conns[s.client.socket.value], m, s.client.state.Registered?);
    }
  }

  /** One connection stands in for another. */
  lemma ConnReplaced(s: State, s': State, k: nat, c: Conn)
    requires ConnsOk(s) && k < |s.conns| && s'.conns == s.conns[k := c]
    requires RepliesOk(c) && HistoryOk(c)
    ensures ConnsOk(s')
  {
  }

  lemma ReplyQueued(c: Conn, m: CoreMsg, due: bool)
    requires RepliesOk(c) && HistoryOk(c)
    requires (m.ConfigMsg? || due) ==> c.registered
    ensures var c' := c.(replyDue := due, toClient := c.toClient + [m]); RepliesOk(c') && HistoryOk(c')
  {
  }

  lemma ReplyTaken(c: Conn)
    requires RepliesOk(c) && HistoryOk(c) && c.toClient != []
    ensures var c' := c.(toClient := c.toClient[1..]); RepliesOk(c') && HistoryOk(c')
  {
  }

  lemma CoreConnKept(s: State, a: Action)
    requires ConnsOk(s) && Enabled(s, a) && IsCore(a)
    ensures ConnsOk(Step(s, a))
  {
    if a.CoreHandle? || a.CoreHandleSlow? {
      CoreHandleKept(s, a);
    } else if a.CoreClose? || a.CoreUnsubscribe? || a.CoreDelete? {
      CorePhaseKept(s, a);
    } else {
      CoreReplyKept(s, a);
    }
  }

  lemma CoreHandleKept(s: State, a: Action)
    requires ConnsOk(s) && Enabled(s, a) && (a.CoreHandle? || a.CoreHandleSlow?)
    ensures ConnsOk(Step(s, a))
  {
    var c := s.conns[a.k];
    hide RepliesOk, HistoryOk, Handle, HandleSlow;
    if a.CoreHandle? {
      HandleKeeps(c, a.verdict);
      ConnReplaced(s, Step(s, a), a.k, Handle(c, a.verdict));
    } else {
      HandleSlowKeeps(c);
      ConnReplaced(s, Step(s, a), a.k, HandleSlow(c));
    }
  }

  lemma CorePhaseKept(s: State, a: Action)
    requires ConnsOk(s) && Enabled(s, a) && (a.CoreClose? || a.CoreUnsubscribe? || a.CoreDelete?)
    ensures ConnsOk(Step(s, a))
  {
    var c := s.conns[a.k];
    hide RepliesOk, HistoryOk;
    PhaseMoves(c);
    var c' := if a.CoreClose? then c.(phase := Closing, toCore := [], toSlow := []) else c.(phase := if a.CoreUnsubscribe? then Unsubscribed else Gone);
    ConnReplaced(s, Step(s, a), a.k, c');
  }

  lemma CoreReplyKept(s: State, a: Action)
    requires ConnsOk(s) && Enabled(s, a) && (a.CoreReply? || a.CoreConfig? || a.CoreRoute? || a.CoreParseError?)
    ensures ConnsOk(Step(s, a))
  {
    var c := s.conns[a.k];
    assert RepliesOk(c);
    var m := match a
      case CoreReply(_, good) => if good then ConfigMsg else ErrorMsg(true, NO_ERROR)
      case CoreConfig(_) => ConfigMsg
      case CoreRoute(_, _, m) => m
      case _ => ErrorMsg(false, MESSAGE_PARSE);
    var due := !a.CoreReply? && c.replyDue;
    hide HistoryOk;
    ReplyQueued(c, m, due);
    hide RepliesOk;
    ConnReplaced(s, Step(s, a), a.k, c.(replyDue := due, toClient := c.toClient + [m]));
  }

  lemma PhaseMoves(c: Conn)
    requires RepliesOk(c) && HistoryOk(c)
    ensures var c' := c.(phase := Closing, toCore := [], toSlow := []); RepliesOk(c') && HistoryOk(c')
    ensures var c' := c.(phase := Unsubscribed); RepliesOk(c') && HistoryOk(c')
    ensures var c' := c.(phase := Gone); RepliesOk(c') && HistoryOk(c')
  {
  }

  lemma ConnsKept(s: State, a: Action)
    requires ConnsOk(s) && Enabled(s, a) && Confirms(s)
    ensures ConnsOk(Step(s, a))
  {
    hide LogOk, AcceptedRegistration, LogMsgs, SlowOk, FastOk;
    match a
    case ApiSend(ok) => SendKeepsConns(s, s.client.lock.msg, ok);
    case RxRegister(ok) => SendKeepsConns(s, RegisterMsg, ok);
    case RxResubscribe(ok) => SendKeepsConns(s, SubscribeMsg(s.client.filter), ok);
    case RxDeliver =>
      var k := s.client.socket.value;
      ReplyTaken(s.conns[k]);
      ConnReplaced(s, Step(s, a), k, s.conns[k].(toClient := s.conns[k].toClient[1..]));
    case RxConnect => NewConnOk();
    case _ =>
      if IsCore(a) { CoreConnKept(s, a); }
  }

  lemma NewConnOk()
    ensures RepliesOk(NEW_CONN) && HistoryOk(NEW_CONN)
  {
    assert LogMsgs([]) + [] == [] && SlowMsgs([], []) == [];
  }

  /** Flags a connection never loses, and connections are never forgotten. */
  lemma ConnsGrow(s: State, a: Action)
    requires Enabled(s, a)
    ensures |s.conns| <= |Step(s, a).conns|
    ensures forall k | 0 <= k < |s.conns| ::
      && (s.conns[k].registered ==> Step(s, a).conns[k].registered)
      && (Step(s, a).conns[k].phase.Gone? ==> s.conns[k].phase.Gone? || a == CoreDelete(k))
      && (Step(s, a).conns[k].phase.Live? ==> s.conns[k].phase.Live?)
  {
  }

  lemma RouterKept(s: State, a: Action)
    requires RouterOk(s) && Enabled(s, a)
    ensures RouterOk(Step(s, a))
  {
    ConnsGrow(s, a);
    forall k | k in Step(s, a).router
      ensures k < |Step(s, a).conns| && Step(s, a).conns[k].registered && !Step(s, a).conns[k].phase.Gone?
    {
      assert k in s.router || (a.CoreHandle? && a.k == k) || (a.CoreUnsubscribe? && a.k == k);
    }
  }

  // ---------- preservation: the client ----------

  lemma SocketKept(s: State, a: Action)
    requires SocketOk(s) && Enabled(s, a)
    ensures SocketOk(Step(s, a))
  {
    ConnsGrow(s, a);
  }

  lemma StatesKept(s: State, a: Action)
    requires ConnsOk(s) && SocketOk(s) && StatesOk(s) && Enabled(s, a)
    ensures StatesOk(Step(s, a))
  {
    ConnsGrow(s, a);
    if a.RxDeliver? {
      var c := s.conns[s.client.socket.value];
      assert RepliesOk(c);
    }
  }

  /** What a step of connection k does to that connection's filter in effect. */
  lemma EffectiveKept(s: State, a: Action, k: nat)
    requires Enabled(s, a) && ConnsOk(s) && k < |s.conns| && s.conns[k].registered
    requires IsCore(a)
    requires Step(s, a).conns[k].phase.Live?
    ensures Effective(Step(s, a).conns[k].toCore, Entry(Step(s, a), k)) == Effective(s.conns[k].toCore, Entry(s, k))
  {
    hide ConnsOk, ToEntries, Effective;
    if a.CoreHandle? && a.k == k {
      HandleEffective(s, a);
    } else {
      OthersEffective(s, a, k);
    }
  }

  lemma HandleEffective(s: State, a: Action)
    requires Enabled(s, a) && a.CoreHandle? && s.conns[a.k].registered
    ensures |Step(s, a).conns| == |s.conns|
    ensures Effective(Step(s, a).conns[a.k].toCore, Entry(Step(s, a), a.k)) == Effective(s.conns[a.k].toCore, Entry(s, a.k))
  {
    hide ToEntries;
    assert Step(s, a).conns[a.k].toCore == s.conns[a.k].toCore[1..];
  }

  lemma OthersEffective(s: State, a: Action, k: nat)
    requires Enabled(s, a) && IsCore(a) && k < |s.conns| && !(a.CoreHandle? && a.k == k)
    ensures k < |Step(s, a).conns|
    ensures Step(s, a).conns[k].phase.Live? ==> Step(s, a).conns[k].toCore == s.conns[k].toCore && Entry(Step(s, a), k) == Entry(s, k)
  {
    hide ToEntries, Handle, HandleSlow;
    if a.k == k {
      assert a.CoreHandleSlow? ==> Step(s, a).conns[k] == HandleSlow(s.conns[k]);
      SlowLeavesFast(s, a, k);
    }
  }

  lemma SlowLeavesFast(s: State, a: Action, k: nat)
    requires Enabled(s, a) && IsCore(a) && k < |s.conns| && a.k == k && !a.CoreHandle?
    ensures |Step(s, a).conns| == |s.conns| && (Step(s, a).conns[k].phase.Live? ==> Step(s, a).conns[k].toCore == s.conns[k].toCore)
  {
  }

  lemma CoreKeepsFilter(s: State, a: Action)
    requires Inv(s) && Enabled(s, a)
    requires IsCore(a)
    ensures FilterOk(Step(s, a))
  {
    ConnsGrow(s, a);
    CoreLeavesClient(s, a);
    hide Step, Effective, ConnsOk, RouterOk;
    if Resubscribed(s.client) && !Subscribing(s.client.lock) && s.client.socket.Some? && Step(s, a).conns[s.client.socket.value].phase.Live? {
      EffectiveKept(s, a, s.client.socket.value);
    }
  }

  lemma CoreLeavesClient(s: State, a: Action)
    requires Enabled(s, a) && IsCore(a)
    ensures Step(s, a).client == s.client
  {
  }

  /** A subscription that was sent settles the connection it was sent on. */
  lemma SendSettles(s: State, ok: bool)
    requires SocketOk(s) && s.client.socket.Some?
    ensures var s' := Send(s, SubscribeMsg(s.client.filter), ok); CanSend(s'.client.state) ==> Settled(s')
  {
    var k := s.client.socket.value;
    EffectiveAppend(s.conns[k].toCore, SubscribeMsg(s.client.filter), Entry(s, k));
  }

  lemma OtherSendKeepsFilter(s: State, m: ClientMsg, ok: bool)
    requires SocketOk(s) && Settled(s) && !m.SubscribeMsg?
    ensures Settled(Send(s, m, ok))
  {
    if s.client.socket.Some? {
      EffectiveAppend(s.conns[s.client.socket.value].toCore, m, Entry(s, s.client.socket.value));
    }
  }

  /** A step that sends nothing leaves the connections' queues to the core alone. */
  lemma QuietStepKeepsFilter(s: State, a: Action)
    requires Inv(s) && Enabled(s, a) && !IsCore(a) && !a.ApiSend? && !a.RxResubscribe? && !a.RxRegister?
    ensures FilterOk(Step(s, a))
  {
    hide ConnsOk, RouterOk, Effective, ToEntries;
  }

  lemma ClientKeepsFilter(s: State, a: Action)
    requires Inv(s) && Enabled(s, a)
    requires !IsCore(a)
    ensures FilterOk(Step(s, a))
  {
    hide ConnsOk, RouterOk, Effective, ToEntries;
    match a
    case ApiSend(ok) =>
      if s.client.lock.msg.SubscribeMsg? {
        if s.client.socket.Some? { SendSettles(s, ok); }
      } else if Resubscribed(s.client) {
        OtherSendKeepsFilter(s, s.client.lock.msg, ok);
      }
    case RxResubscribe(ok) => SendSettles(s, ok);
    case RxRegister(ok) =>
    case _ => QuietStepKeepsFilter(s, a);
  }

  lemma InvKept(s: State, a: Action)
    requires Inv(s) && Enabled(s, a)
    ensures Inv(Step(s, a))
  {
    ConnsKept(s, a);
    RouterKept(s, a);
    SocketKept(s, a);
    StatesKept(s, a);
    if IsCore(a) {
      CoreKeepsFilter(s, a);
    } else {
      ClientKeepsFilter(s, a);
    }
  }

  lemma {:induction false} InvAlways(s: State, acts: seq<Action>)
    requires Inv(s) && Run(s, acts)
    ensures Inv(Exec(s, acts))
    decreases |acts|
  {
    if acts != [] {
      InvKept(s, acts[0]);
      InvAlways(Step(s, acts[0]), acts[1..]);
    }
  }

  // ---------- main results ----------

  /**
   Subscription convergence. In every run, once the client is registered and back in its receive loop, no application
   thread is inside `ivp_subscribe`, the core still reads the connection and has handled everything sent on it, the
   router holds for that connection exactly the filter the client last set.
   */
  lemma SubscriptionConverges(s0: State, acts: seq<Action>)
    requires Init(s0) && Run(s0, acts)
    ensures var s := Exec(s0, acts); var c := s.client;
      c.state.Registered? && c.rx.Recv? && !Subscribing(c.lock) ==>
        && c.socket.Some? && c.socket.value < |s.conns| && s.conns[c.socket.value].registered
        && (s.conns[c.socket.value].phase.Live? && s.conns[c.socket.value].toCore == [] ==>
              && c.socket.value in s.router && s.router[c.socket.value] == ToEntries(LastSet(acts, None))
              && Represents(s.router[c.socket.value], LastSet(acts, None)))
  {
    InvAlways(s0, acts);
    FilterIsLastSet(s0, acts);
    EntriesRepresent(LastSet(acts, None));
    hide Represents, ToEntries;
  }

  /**
   End to end. Once converged, a message may be routed to the client if and only if some item of the filter it last set asks
   for it: the item has a type, the type is "*" or the message's, then the subtype is "*" or the message's, and the
   item's mask is empty or shares a bit with the message's flags.
   */
  lemma RoutedIffWanted(s0: State, acts: seq<Action>, header: Message, m: CoreMsg)
    requires Init(s0) && Run(s0, acts)
    ensures var s := Exec(s0, acts); var c := s.client;
      c.state.Registered? && c.rx.Recv? && !Subscribing(c.lock) && c.socket.Some? && c.socket.value < |s.conns|
        && s.conns[c.socket.value].phase.Live? && s.conns[c.socket.value].toCore == [] ==>
        (Enabled(s, CoreRoute(c.socket.value, header, m)) <==> CanBeRouted(header, m) && FilterWants(LastSet(acts, None), header))
  {
    hide *;
    SubscriptionConverges(s0, acts);
    var s := Exec(s0, acts);
    if s.client.socket.Some? {
      RouteEnabledIff(s, s.client.socket.value, header, m);
    }
    FilterMatchIff(LastSet(acts, None), header);
  }

  lemma RouteEnabledIff(s: State, k: nat, header: Message, m: CoreMsg)
    ensures Enabled(s, CoreRoute(k, header, m)) <==> k < |s.conns| && k in s.router && AnyMatch(s.router[k], header) && CanBeRouted(header, m)
  {
    hide AnyMatch, CanBeRouted;
  }

  lemma FilterMatchIff(f: ClientFilter, header: Message)
    ensures AnyMatch(ToEntries(f), header) <==> FilterWants(f, header)
  {
    EntriesMatchIff(if f.None? then [] else f.value, header);
    hide Wants, Matches, ItemEntries;
  }

  /** The filter of the last `ivp_subscribe` among these steps. */
  function LastSet(acts: seq<Action>, filter: ClientFilter): ClientFilter
  {
    if acts == [] then filter else LastSet(acts[1..], if acts[0].ApiSubscribe? then acts[0].filter else filter)
  }

  lemma {:induction false} FilterIsLastSet(s: State, acts: seq<Action>)
    requires Run(s, acts)
    ensures Exec(s, acts).client.filter == LastSet(acts, s.client.filter)
    decreases |acts|
  {
    if acts != [] {
      FilterIsLastSet(Step(s, acts[0]), acts[1..]);
    }
  }

  /** The core handling connection k until nothing sent on it is waiting. */
  function Drain(s: State, k: nat): (acts: seq<Action>)
    requires k < |s.conns| && s.conns[k].phase.Live?
    ensures forall i | 0 <= i < |acts| :: acts[i] == CoreReply(k, true) || acts[i] == CoreHandle(k, Accepted)
    ensures |acts| <= 2 * |s.conns[k].toCore| + 1
    decreases |s.conns[k].toCore|, s.conns[k].replyDue
  {
    if s.conns[k].replyDue then [CoreReply(k, true)] + Drain(Step(s, CoreReply(k, true)), k)
    else if s.conns[k].toCore == [] then []
    else [CoreHandle(k, Accepted)] + Drain(Step(s, CoreHandle(k, Accepted)), k)
  }

  lemma {:induction false} DrainEmpties(s: State, k: nat)
    requires k < |s.conns| && s.conns[k].phase.Live?
    ensures Run(s, Drain(s, k))
    ensures var s' := Exec(s, Drain(s, k));
      s'.client == s.client && |s'.conns| == |s.conns| && s'.conns[k].phase.Live? && s'.conns[k].toCore == []
    decreases |s.conns[k].toCore|, s.conns[k].replyDue
  {
    var acts := Drain(s, k);
    if acts != [] {
      var rest := Drain(Step(s, acts[0]), k);
      DrainEmpties(Step(s, acts[0]), k);
      assert acts[1..] == rest;
    }
  }

  /**
   Convergence is never out of reach: from every reachable state in which the client is registered, back in its receive
   loop and still read by the core, the core alone, in at most twice as many steps as messages are in flight (and one
   reply), makes the router hold the filter the client last set.
   */
  lemma InFlightSettles(s0: State, acts: seq<Action>)
    requires Init(s0) && Run(s0, acts)
    ensures var s := Exec(s0, acts); var c := s.client;
      c.state.Registered? && c.rx.Recv? && !Subscribing(c.lock) && c.socket.Some? && c.socket.value < |s.conns|
        && s.conns[c.socket.value].phase.Live? ==>
        var k := c.socket.value;
        && Run(s, Drain(s, k))
        && var s' := Exec(s, Drain(s, k));
          s'.client == c && k in s'.router && Represents(s'.router[k], LastSet(acts, None))
  {
    InvAlways(s0, acts);
    FilterIsLastSet(s0, acts);
    var s := Exec(s0, acts);
    if SocketOk(s) && s.client.state.Registered? && s.client.rx.Recv? && s.conns[s.client.socket.value].phase.Live? {
      var k := s.client.socket.value;
      DrainEmpties(s, k);
      InvAlways(s, Drain(s, k));
      EntriesRepresent(LastSet(acts, None));
    }
  }

  // ---------- acceptance ----------

  /**
   Acceptance on the fast side. On every connection in every run, closed or not, the fast processor handles its messages in the order they
   were sent, and accepts one other than a registration if and only if an accepted registration was sent before it.
   */
  lemma AcceptedAfterRegistration(s0: State, acts: seq<Action>, k: nat, j: nat)
    requires Init(s0) && Run(s0, acts) && k < |Exec(s0, acts).conns|
    requires j < |Exec(s0, acts).conns[k].log| && !Exec(s0, acts).conns[k].log[j].msg.RegisterMsg?
    ensures var c := Exec(s0, acts).conns[k];
      && (c.log[j].accepted <==> exists i | 0 <= i < j :: c.log[i].msg.RegisterMsg? && c.log[i].accepted)
      && !c.log[j].msg.StatusMsg? && !c.log[j].msg.EventLogMsg?
      && exists fast :: Picks(c.sent, FastPick(), Same(), fast) && j < |fast| && forall i | 0 <= i <= j :: fast[i] == c.log[i].msg
  {
    InvAlways(s0, acts);
    var c := Exec(s0, acts).conns[k];
    assert HistoryOk(c);
    var before := c.log[..j];
    assert forall i | 0 <= i < j :: before[i] == c.log[i];
    assert forall i | 0 <= i <= j :: LogMsgs(c.log)[i] == LaneMsgs(c.sent, false)[i];
    LanePicks(c.sent);
    LaneKinds(c.sent, false);
    hide LaneMsgs, LogMsgs, Picks;
    var fast := LaneMsgs(c.sent, false);
    assert Picks(c.sent, FastPick(), Same(), fast) && fast[j] == c.log[j].msg;
  }

  /**
   Acceptance on the slow side. Status and event log messages are handled in the order they were sent, and one is accepted
   if and only if the fast processor had accepted a registration by then; in particular always when the client had
   reached the registered state before sending it.
   */
  lemma AcceptedOnTheSlowSide(s0: State, acts: seq<Action>, k: nat, j: nat)
    requires Init(s0) && Run(s0, acts) && k < |Exec(s0, acts).conns| && j < |Exec(s0, acts).conns[k].slowLog|
    ensures var c := Exec(s0, acts).conns[k]; var h := c.slowLog[j];
      && h.after <= |c.log|
      && (h.accepted <==> exists i | 0 <= i < h.after :: c.log[i].msg.RegisterMsg? && c.log[i].accepted)
      && (h.post.confirmed ==> h.accepted)
      && (h.post.msg.StatusMsg? || h.post.msg.EventLogMsg?)
      && exists slow :: Picks(c.sent, SlowPick(), Same(), slow) && j < |slow| && forall i | 0 <= i <= j :: slow[i] == c.slowLog[i].post.msg
  {
    InvAlways(s0, acts);
    var c := Exec(s0, acts).conns[k];
    var h := c.slowLog[j];
    assert HistoryOk(c) && SlowEntryOk(h, c.log);
    var before := c.log[..h.after];
    assert forall i | 0 <= i < h.after :: before[i] == c.log[i];
    assert forall i | 0 <= i <= j :: SlowMsgs(c.slowLog, [])[i] == LaneMsgs(c.sent, true)[i];
    LanePicks(c.sent);
    LaneKinds(c.sent, true);
    hide LaneMsgs, SlowMsgs, Picks;
    var slow := LaneMsgs(c.sent, true);
    assert Picks(c.sent, SlowPick(), Same(), slow) && slow[j] == h.post.msg;
  }

  /** A connection the core has deleted has left the router. */
  lemma DeletedLeavesRouter(s0: State, acts: seq<Action>, k: nat)
    requires Init(s0) && Run(s0, acts)
    ensures var s := Exec(s0, acts); k < |s.conns| && s.conns[k].phase.Gone? ==> k !in s.router
  {
    InvAlways(s0, acts);
  }

  // ---------- concrete runs ----------

  lemma Prepend(s: State, a: Action, rest: seq<Action>)
    requires Enabled(s, a) && Run(Step(s, a), rest)
    ensures Run(s, [a] + rest) && Exec(s, [a] + rest) == Exec(Step(s, a), rest)
  {
    assert ([a] + rest)[1..] == rest;
  }

  /** Sending order does not hold across the two processors: a status message sent after the registration can be handled, and refused, before it. */
  lemma SlowCanOvertake(s0: State) returns (acts: seq<Action>)
    requires Init(s0)
    ensures Run(s0, acts)
    ensures var s := Exec(s0, acts); |s.conns| == 1 && var c := s.conns[0];
      && c.sent == [RegisterMsg, StatusMsg] && c.toCore == [RegisterMsg] && c.toClient == []
      && c.slowLog == [HandledSlow(Posted(StatusMsg, false), false, 0)]
  {
    var s3, register := RegisterSent(s0);
    var s5 := Step(Step(s3, ApiBroadcast(StatusMsg)), ApiSend(true));
    assert s5.conns[0].toSlow == [Posted(StatusMsg, false)];
    var s6 := Step(s5, CoreHandleSlow(0));
    assert s6.conns[0].slowLog == [HandledSlow(Posted(StatusMsg, false), false, 0)];
    Prepend(s5, CoreHandleSlow(0), []);
    Prepend(Step(s3, ApiBroadcast(StatusMsg)), ApiSend(true), [CoreHandleSlow(0)]);
    Prepend(s3, ApiBroadcast(StatusMsg), [ApiSend(true), CoreHandleSlow(0)]);
    acts := [ApiBroadcast(StatusMsg), ApiSend(true), CoreHandleSlow(0)];
    RunsConcat(s0, register, acts);
    acts := register + acts;
  }

  /** A client has connected and sent its registration. */
  lemma RegisterSent(s0: State) returns (s: State, acts: seq<Action>)
    requires Init(s0)
    ensures Run(s0, acts) && s == Exec(s0, acts)
    ensures s.client == Client(Connected, None, Free, Recv, Some(0)) && |s.conns| == 1
    ensures s.conns[0] == NEW_CONN.(toCore := s.conns[0].toCore, sent := s.conns[0].sent)
    ensures s.conns[0].toCore == [RegisterMsg] == s.conns[0].sent
  {
    var s1 := Step(s0, RxConnect);
    var s2 := Step(s1, RxSetConnected);
    s := Step(s2, RxRegister(true));
    Prepend(s2, RxRegister(true), []);
    Prepend(s1, RxSetConnected, [RxRegister(true)]);
    Prepend(s0, RxConnect, [RxSetConnected, RxRegister(true)]);
    acts := [RxConnect] + [RxSetConnected, RxRegister(true)];
  }

  lemma RunHead(s: State, a: seq<Action>)
    requires Run(s, a) && a != []
    ensures Enabled(s, a[0]) && Run(Step(s, a[0]), a[1..]) && Exec(s, a) == Exec(Step(s, a[0]), a[1..])
  {
    hide Enabled, Step;
  }

  lemma {:induction false} RunsConcat(s: State, a: seq<Action>, b: seq<Action>)
    requires Run(s, a) && Run(Exec(s, a), b)
    ensures Run(s, a + b) && Exec(s, a + b) == Exec(Exec(s, a), b)
    decreases |a|
  {
    if a == [] {
      assert Exec(s, a) == s && a + b == b;
    } else {
      hide Step, Enabled, Run, Exec;
      RunHead(s, a);
      RunsConcat(Step(s, a[0]), a[1..], b);
      Prepend(s, a[0], a[1..] + b);
      ConcatHead(a, b);
    }
  }
}
