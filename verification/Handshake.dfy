/**
 The client library and the core talking over FIFO connections: connect, register, config reply, registered, re-subscribe.

 Application threads may set a filter at any moment, sends may fail, either side may drop the connection, the core may
 reject a registration, and a client that lost its connection makes a new one (a new receiver in the router). The steps
 of the client's receive thread that run without the plugin's lock are separate from the locked body of `ivp_subscribe`.
 */
module Handshake {
  import opened Common
  import opened Filters
  import Connection

  // ---------- subscriptions ----------

  /** One element of the client's filter array; a missing or non-string field is None. */
  datatype FilterItem = FilterItem(msgType: Option<string>, subtype: Option<string>, flagmask: bv32)

  /** The client's filter: NULL, or an array of items. */
  type ClientFilter = Option<seq<FilterItem>>

  /** The entries the core registers for a filter: NULL gives none, an item without a type is skipped, a missing subtype is "". */
  function ToEntries(f: ClientFilter): seq<FilterEntry>
  {
    if f.None? then [] else ItemEntries(f.value)
  }

  function ItemEntries(items: seq<FilterItem>): seq<FilterEntry>
  {
    if items == [] then []
    else
      var last := items[|items| - 1];
      var rest := ItemEntries(items[..|items| - 1]);
      if last.msgType.None? then rest
      else rest + [FilterEntry(last.msgType.value, if last.subtype.Some? then last.subtype.value else "", last.flagmask)]
  }

  function HasType(): FilterItem -> bool
  {
    (item: FilterItem) => item.msgType.Some?
  }

  /** The entry that stands for an item. */
  function EntryFor(): FilterItem -> FilterEntry
  {
    (item: FilterItem) => FilterEntry(
      if item.msgType.Some? then item.msgType.value else "", if item.subtype.Some? then item.subtype.value else "", item.flagmask)
  }

  /** One entry for every item with a type, in order, with the item's type, its subtype ("" if it has none) and its mask. */
  ghost predicate Represents(entries: seq<FilterEntry>, f: ClientFilter)
  {
    Picks(if f.None? then [] else f.value, HasType(), EntryFor(), entries)
  }

  lemma {:induction false} ItemsRepresented(items: seq<FilterItem>)
    ensures Picks(items, HasType(), EntryFor(), ItemEntries(items))
  {
    if items == [] {
      PicksNothing(HasType(), EntryFor());
    } else {
      var init, last := items[..|items| - 1], items[|items| - 1];
      assert items == init + [last];
      ItemsRepresented(init);
      PicksMore(init, HasType(), EntryFor(), ItemEntries(init), last);
      hide Picks;
    }
  }

  lemma EntriesRepresent(f: ClientFilter)
    ensures Represents(ToEntries(f), f)
  {
    ItemsRepresented(if f.None? then [] else f.value);
  }

  /** What one item asks for, in its own fields. */
  ghost predicate Wants(item: FilterItem, header: Message)
  {
    && item.msgType.Some?
    && (item.flagmask == 0 || exists b :: Bit(item.flagmask, b) && Bit(header.flags, b))
    && (item.msgType.value != "*" ==>
          && header.msgType == item.msgType
          && (item.subtype != Some("*") ==> header.subtype == Some(if item.subtype.Some? then item.subtype.value else "")))
  }

  ghost predicate FilterWants(f: ClientFilter, header: Message)
  {
    f.Some? && exists i | 0 <= i < |f.value| :: Wants(f.value[i], header)
  }

  lemma WantsIsMatches(item: FilterItem, header: Message)
    ensures Wants(item, header) <==> item.msgType.Some? && Matches(EntryFor()(item), header)
  {
    MatchesIff(EntryFor()(item), header);
    hide Matches, Bit;
  }

  /** The entries of a filter let through exactly what some item of the filter asks for. */
  lemma {:induction false} EntriesMatchIff(items: seq<FilterItem>, header: Message)
    ensures AnyMatch(ItemEntries(items), header) <==> exists i | 0 <= i < |items| :: Wants(items[i], header)
  {
    if items != [] {
      var init, last := items[..|items| - 1], items[|items| - 1];
      EntriesMatchIff(init, header);
      WantsIsMatches(last, header);
      hide Wants, Matches;
      var before, all := ItemEntries(init), ItemEntries(items);
      assert all == if last.msgType.Some? then before + [EntryFor()(last)] else before;
      assert AnyMatch(all, header) <==> AnyMatch(before, header) || (last.msgType.Some? && Matches(EntryFor()(last), header)) by {
        if AnyMatch(before, header) {
          var i :| 0 <= i < |before| && Matches(before[i], header);
          assert all[i] == before[i];
        }
        if last.msgType.Some? {
          assert all[|before|] == EntryFor()(last);
        }
      }
      if i :| 0 <= i < |init| && Wants(init[i], header) {
        assert items[i] == init[i];
      }
      if i :| 0 <= i < |items| && Wants(items[i], header) {
        assert i < |init| ==> init[i] == items[i];
      }
    }
  }

  /** The loop of `processSubscribeMessage` over the payload. */
  method ReadSubscription(payload: ClientFilter) returns (filterEntries: seq<FilterEntry>)
    ensures Represents(filterEntries, payload) && filterEntries == ToEntries(payload)
  {
    EntriesRepresent(payload);
    hide Represents;
    filterEntries := [];
    var entryCount := if payload.Some? then |payload.value| else 0;
    var i := 0;
    while i < entryCount
      invariant i <= entryCount
      invariant payload.Some? ==> filterEntries == ItemEntries(payload.value[..i])
      invariant payload.None? ==> filterEntries == []
    {
      var item := payload.value[i];
      if item.msgType.Some? {
        var subtype := "";
        if item.subtype.Some? {
          subtype := item.subtype.value;
        }
        filterEntries := filterEntries + [FilterEntry(item.msgType.value, subtype, item.flagmask)];
      }
      assert payload.value[..i + 1][..i] == payload.value[..i];
      i := i + 1;
    }
    assert payload.Some? ==> payload.value[..|payload.value|] == payload.value;
  }

  // ---------- messages ----------

  datatype ClientMsg = RegisterMsg | SubscribeMsg(filter: ClientFilter) | StatusMsg | EventLogMsg | OtherMsg
  datatype CoreMsg = ConfigMsg | ErrorMsg(fatal: bool, number: int) | RoutedMsg

  /** IvpError_none and IvpError_messageParse. */
  const NO_ERROR := 0
  const MESSAGE_PARSE := 12

  /** The type of error messages. */
  const ERROR_TYPE := "__error"

  function KindOf(m: ClientMsg): Connection.Kind
  {
    match m
    case RegisterMsg => Connection.Registration
    case SubscribeMsg(_) => Connection.Subscribe
    case StatusMsg => Connection.Status
    case EventLogMsg => Connection.EventLog
    case OtherMsg => Connection.Other
  }

  /** The core's receiver hands the message to the slow processor. */
  predicate IsSlow(m: ClientMsg)
  {
    Connection.LaneOf(Connection.Msg(0, KindOf(m))).Slow?
  }

  // ---------- the core's end of one connection ----------

  /** How a registration ends: accepted; refused by registerPlugin; or its manifest is missing or invalid, and nothing is sent back. */
  datatype Verdict = Accepted | Refused | Malformed

  datatype Phase = Live | Closing | Unsubscribed | Gone

  /** A message the fast processor has handled and whether it was accepted. */
  datatype Handled = Handled(msg: ClientMsg, accepted: bool)

  /** A message for the slow processor; `confirmed`: the client was in the registered state when it sent it. */
  datatype Posted = Posted(msg: ClientMsg, confirmed: bool)

  /** A message the slow processor has handled, when `after` messages had been handled on the fast side. */
  datatype HandledSlow = HandledSlow(post: Posted, accepted: bool, after: nat)

  /**
   `toCore` and `toSlow` hold what was sent and is not handled, on the wire or queued, for each processor; `sent`, `log`
   and `slowLog` are history. `replyDue`: registration has succeeded and its reply is still to be sent.
   */
  datatype Conn = Conn(
    toCore: seq<ClientMsg>, toSlow: seq<Posted>, toClient: seq<CoreMsg>, phase: Phase, registered: bool, replyDue: bool,
    sent: seq<ClientMsg>, log: seq<Handled>, slowLog: seq<HandledSlow>)

  const NEW_CONN := Conn([], [], [], Live, false, false, [], [], [])

  // ---------- the client ----------

  datatype ClientState = Disconnected | Connected | Registered | Error

  datatype RxPc =
    | Outer          // next: socket() and connect()
    | SetConnected   // next: onStateChange(connected)
    | Register       // next: send the registration message
    | Recv           // in the receive loop
    | ConfigCheck    // a config message was applied; next: test state == connected
    | SetRegistered  // next: onStateChange(registered)
    | Resubscribe    // next: ivp_subscribe(plugin, plugin->filter)
    | Stopped        // left the outer loop in the error state

  /** The plugin's lock: free; held by a thread in `ivp_subscribe` that has stored its filter; or held by a thread that found the state good for sending. */
  datatype Lock = Free | FilterStored | MaySend(msg: ClientMsg)

  datatype Client = Client(state: ClientState, filter: ClientFilter, lock: Lock, rx: RxPc, socket: Option<nat>)

  datatype State = State(client: Client, conns: seq<Conn>, router: map<nat, seq<FilterEntry>>)

  predicate CanSend(st: ClientState) { st.Connected? || st.Registered? }

  datatype Action =
    | ApiSubscribe(filter: ClientFilter)   // lock, store the filter
    | ApiCheck                             // test the state under the lock
    | ApiBroadcast(msg: ClientMsg)         // any other message: lock, test the state
    | ApiSend(ok: bool)                    // send, unlock
    | RxConnect | RxSetConnected | RxRegister(ok: bool) | RxDeliver | RxDrop | RxLeave
    | RxConfigCheck | RxSetRegistered | RxResubscribe(ok: bool) | RxStop
    | CoreHandle(k: nat, verdict: Verdict) // the fast processor takes the next message
    | CoreHandleSlow(k: nat)               // the slow processor takes the next message
    | CoreReply(k: nat, good: bool)        // config reply, or an error if setting the status failed
    | CoreConfig(k: nat)                   // the config monitor reports a change
    | CoreRoute(k: nat, header: Message, m: CoreMsg) // a message of some plugin is routed to this one
    | CoreParseError(k: nat)
    | CoreClose(k: nat) | CoreUnsubscribe(k: nat) | CoreDelete(k: nat)

  ghost predicate Enabled(s: State, a: Action)
  {
    var c := s.client;
    match a
    case ApiSubscribe(_) => c.lock.Free?
    case ApiCheck => c.lock.FilterStored?
    case ApiSend(_) => c.lock.MaySend?
    case ApiBroadcast(m) => c.lock.Free? && (IsSlow(m) || m.OtherMsg?)
    case RxConnect => c.rx.Outer? && !c.state.Error?
    case RxStop => c.rx.Outer? && c.state.Error?
    case RxSetConnected => c.rx.SetConnected?
    case RxRegister(_) => c.rx.Register? && c.lock.Free?
    case RxDeliver => c.rx.Recv? && c.socket.Some? && c.socket.value < |s.conns| && s.conns[c.socket.value].toClient != []
    case RxDrop => c.rx.Recv? && !c.state.Error?
    case RxLeave => c.rx.Recv? && !CanSend(c.state)
    case RxConfigCheck => c.rx.ConfigCheck?
    case RxSetRegistered => c.rx.SetRegistered?
    case RxResubscribe(_) => c.rx.Resubscribe? && c.lock.Free?
    case CoreHandle(k, _) => k < |s.conns| && s.conns[k].phase.Live? && s.conns[k].toCore != [] && !s.conns[k].replyDue
    case CoreHandleSlow(k) => k < |s.conns| && s.conns[k].phase.Live? && s.conns[k].toSlow != []
    case CoreReply(k, _) => k < |s.conns| && s.conns[k].phase.Live? && s.conns[k].replyDue
    case CoreConfig(k) => k < |s.conns| && s.conns[k].registered && !s.conns[k].phase.Gone?
    case CoreRoute(k, header, m) => k < |s.conns| && k in s.router && AnyMatch(s.router[k], header) && CanBeRouted(header, m)
    case CoreParseError(k) => k < |s.conns| && s.conns[k].phase.Live?
    case CoreClose(k) => k < |s.conns| && s.conns[k].phase.Live?
    case CoreUnsubscribe(k) => k < |s.conns| && s.conns[k].phase.Closing?
    case CoreDelete(k) => k < |s.conns| && s.conns[k].phase.Unsubscribed?
  }

  /** What the fast processor routes: no config message, and an error message exactly when the type says so. */
  predicate CanBeRouted(header: Message, m: CoreMsg)
  {
    !m.ConfigMsg? && (m.ErrorMsg? <==> header.msgType == Some(ERROR_TYPE))
  }

  predicate SendFails(s: State, ok: bool)
  {
    !ok || s.client.socket.None? || s.client.socket.value >= |s.conns|
  }

  /** The message is on its way to one of the processors. */
  function Post(c: Conn, m: ClientMsg, confirmed: bool): Conn
  {
    var c' := c.(sent := c.sent + [m]);
    if IsSlow(m) then c'.(toSlow := c.toSlow + [Posted(m, confirmed)]) else c'.(toCore := c.toCore + [m])
  }

  /** A send by the client on its current socket. A failed send disconnects; a send to a core that stopped reading is lost. */
  function Send(s: State, m: ClientMsg, ok: bool): State
  {
    if SendFails(s, ok) then s.(client := s.client.(state := Disconnected))
    else
      var k := s.client.socket.value;
      if s.conns[k].phase.Live? then s.(conns := s.conns[k := Post(s.conns[k], m, s.client.state.Registered?)]) else s
  }

  function Rx(s: State, rx: RxPc): State { s.(client := s.client.(rx := rx)) }

  function Unlocked(s: State): State { s.(client := s.client.(lock := Free)) }

  /** `ivp_onMessageReceived`. */
  function Deliver(s: State, m: CoreMsg): State
  {
    match m
    case ConfigMsg => Rx(s, ConfigCheck)
    case ErrorMsg(fatal, number) =>
      if number == NO_ERROR then s else if fatal then s.(client := s.client.(state := Error)) else s
    case RoutedMsg => s
  }

  /** The fast processor handles one message of connection k. */
  function Handle(c: Conn, verdict: Verdict): Conn
    requires c.toCore != []
  {
    var m := c.toCore[0];
    var rest := c.(toCore := c.toCore[1..]);
    match m
    case RegisterMsg =>
      if verdict.Accepted? then rest.(registered := true, replyDue := true, log := c.log + [Handled(m, true)])
      else if verdict.Malformed? then rest.(log := c.log + [Handled(m, false)])
      else rest.(toClient := c.toClient + [ErrorMsg(true, NO_ERROR)], log := c.log + [Handled(m, false)])
    case _ =>
      if c.registered then rest.(log := c.log + [Handled(m, true)])
      else rest.(toClient := c.toClient + [ErrorMsg(false, NO_ERROR)], log := c.log + [Handled(m, false)])
  }

  /** The slow processor handles one message: a refusal is only logged. */
  function HandleSlow(c: Conn): Conn
    requires c.toSlow != []
  {
    c.(toSlow := c.toSlow[1..], slowLog := c.slowLog + [HandledSlow(c.toSlow[0], c.registered, |c.log|)])
  }

  function Step(s: State, a: Action): State
    requires Enabled(s, a)
  {
    var c := s.client;
    match a
    case ApiSubscribe(f) => s.(client := c.(filter := f, lock := FilterStored))
    case ApiCheck => s.(client := c.(lock := if CanSend(c.state) then MaySend(SubscribeMsg(c.filter)) else Free))
    case ApiBroadcast(m) => s.(client := c.(lock := if CanSend(c.state) then MaySend(m) else Free))
    case ApiSend(ok) => Unlocked(Send(s, c.lock.msg, ok))
    case RxConnect => State(c.(rx := SetConnected, socket := Some(|s.conns|)), s.conns + [NEW_CONN], s.router)
    case RxStop => Rx(s, Stopped)
    case RxSetConnected => s.(client := c.(rx := Register, state := Connected))
    case RxRegister(ok) => Rx(if CanSend(c.state) then Send(s, RegisterMsg, ok) else s, Recv)
    case RxDeliver =>
      var k := c.socket.value;
      Deliver(s.(conns := s.conns[k := s.conns[k].(toClient := s.conns[k].toClient[1..])]), s.conns[k].toClient[0])
    case RxDrop => s.(client := c.(state := Disconnected))
    case RxLeave => s.(client := c.(rx := Outer, socket := None))
    case RxConfigCheck => Rx(s, if c.state.Connected? then SetRegistered else Recv)
    case RxSetRegistered => s.(client := c.(rx := Resubscribe, state := Registered))
    case RxResubscribe(ok) => Rx(if CanSend(c.state) then Send(s, SubscribeMsg(c.filter), ok) else s, Recv)
    case CoreHandle(k, verdict) =>
      var m := s.conns[k].toCore[0];
      s.(conns := s.conns[k := Handle(s.conns[k], verdict)],
         router := if m.SubscribeMsg? && s.conns[k].registered then s.router[k := ToEntries(m.filter)] else s.router)
    case CoreHandleSlow(k) => s.(conns := s.conns[k := HandleSlow(s.conns[k])])
    case CoreReply(k, good) =>
      s.(conns := s.conns[k := s.conns[k].(replyDue := false,
           toClient := s.conns[k].toClient + [if good then ConfigMsg else ErrorMsg(true, NO_ERROR)])])
    case CoreConfig(k) => s.(conns := s.conns[k := s.conns[k].(toClient := s.conns[k].toClient + [ConfigMsg])])
    case CoreRoute(k, _, m) => s.(conns := s.conns[k := s.conns[k].(toClient := s.conns[k].toClient + [m])])
    case CoreParseError(k) =>
      s.(conns := s.conns[k := s.conns[k].(toClient := s.conns[k].toClient + [ErrorMsg(false, MESSAGE_PARSE)])])
    case CoreClose(k) => s.(conns := s.conns[k := s.conns[k].(phase := Closing, toCore := [], toSlow := [])])
    case CoreUnsubscribe(k) =>
      s.(conns := s.conns[k := s.conns[k].(phase := Unsubscribed)],
         router := if s.conns[k].registered then s.router[k := []] else s.router)
    case CoreDelete(k) => s.(conns := s.conns[k := s.conns[k].(phase := Gone)], router := s.router - {k})
  }

  ghost predicate Init(s: State)
  {
    s == State(Client(Disconnected, None, Free, Outer, None), [], map[])
  }

  ghost predicate Run(s: State, acts: seq<Action>)
    decreases |acts|
  {
    acts == [] || (Enabled(s, acts[0]) && Run(Step(s, acts[0]), acts[1..]))
  }

  ghost function Exec(s: State, acts: seq<Action>): State
    requires Run(s, acts)
    decreases |acts|
  {
    if acts == [] then s else Exec(Step(s, acts[0]), acts[1..])
  }
}
