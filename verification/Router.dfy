/**
 The message router as a step machine for any number of threads.

 Every lock, unlock, load and store of `broadcastMessage`, `registerReceiver` and `unregisterReceiver`
 is a step of its own, so a schedule (a list of thread numbers) is one interleaving. A receiver's callback is one
 step: it returns and does not call the router.
 */
module Router {
  import opened Common
  import opened Filters

  /** The address of a receiver; the map is ordered by it. */
  type Receiver = nat
  type Receivers = map<Receiver, seq<FilterEntry>>

  datatype Call =
    | Broadcast(sender: Option<Receiver>, msg: Message)
    | Register(receiver: Receiver, filters: seq<FilterEntry>)
    | Unregister(receiver: Receiver)

  datatype Pc =
    | Start                                      // next: lock mMapLock
    | HoldMap                                    // next: lock mActiveBroadcastsLock
    | HoldBoth                                   // next: load the counter
    | Loaded(reg: int)                           // next: store reg + 1
    | Counted                                    // next: unlock mActiveBroadcastsLock
    | CountedHoldMap                             // next: unlock mMapLock
    | Begin                                      // next: iterator to begin()
    | At(it: Option<Receiver>, entry: nat)       // next: look at one filter entry, or at end()
    | LeaveLock                                  // next: lock mActiveBroadcastsLock
    | LeaveLoad                                  // next: load the counter
    | LeaveStore(reg: int)                       // next: store reg - 1
    | LeaveUnlock                                // next: unlock mActiveBroadcastsLock and return
    | Spin                                       // next: read the counter without its lock
    | Write                                      // next: change the map
    | WriteUnlock                                // next: unlock mMapLock and return
    | Dangling                                   // the iterator's element was erased under it

  /**
   `snap` and `seen` are history: the map, and how many writes had been made to it, at the moment the thread's count was
   stored. `reached` lists the receivers called back.
   */
  datatype Thread = Thread(todo: seq<Call>, pc: Pc, snap: Receivers, seen: nat, reached: seq<Receiver>)

  /** A finished broadcast of a thread. */
  datatype Delivery = Delivery(thread: nat, sender: Option<Receiver>, msg: Message, snap: Receivers, upTo: nat, reached: seq<Receiver>)

  /** A call whose change to the map a thread has made. */
  datatype Written = Written(thread: nat, call: Call)

  datatype State = State(
    threads: seq<Thread>,
    mapOwner: Option<nat>,
    countOwner: Option<nat>,
    active: int,
    receivers: Receivers,
    writes: seq<Written>,
    log: seq<Delivery>)

  // ---------- iteration over the ordered map ----------

  /** The first key not below `from`: `begin()` is KeyFrom(m, 0) and `++` at k is KeyFrom(m, k + 1). */
  ghost function KeyFrom(m: Receivers, from: nat): (r: Option<Receiver>)
    ensures r.None? ==> forall k | k in m :: k < from
    ensures r.Some? ==> r.value in m && r.value >= from && forall k | k in m && k >= from :: r.value <= k
  {
    var s := set k | k in m && k >= from;
    if s == {} then
      assert forall k | k in m && k >= from :: k in s;
      None
    else
      var x :| x in s;
      LeastExists(s, x);
      var k :| k in s && forall j | j in s :: k <= j;
      assert forall j | j in m && j >= from :: j in s;
      Some(k)
  }

  // ---------- steps ----------

  predicate HoldsMap(pc: Pc)
  {
    pc.HoldMap? || pc.HoldBoth? || pc.Loaded? || pc.Counted? || pc.CountedHoldMap? || pc.Spin? || pc.Write? || pc.WriteUnlock?
  }

  predicate HoldsCount(pc: Pc)
  {
    pc.HoldBoth? || pc.Loaded? || pc.Counted? || pc.LeaveLoad? || pc.LeaveStore? || pc.LeaveUnlock?
  }

  /** Between the store of the increment and the store of the decrement. */
  predicate IsCounted(pc: Pc)
  {
    pc.Counted? || pc.CountedHoldMap? || pc.Begin? || pc.At? || pc.LeaveLock? || pc.LeaveLoad? || pc.LeaveStore?
  }

  predicate InBroadcast(pc: Pc)
  {
    IsCounted(pc) || pc.HoldMap? || pc.HoldBoth? || pc.Loaded? || pc.LeaveUnlock?
  }

  /** The thread can run: it has a call left, and a mutex it is about to take is free. */
  predicate Enabled(s: State, t: nat)
  {
    && t < |s.threads|
    && s.threads[t].todo != []
    && !s.threads[t].pc.Dangling?
    && (s.threads[t].pc.Start? ==> s.mapOwner.None?)
    && (s.threads[t].pc.HoldMap? || s.threads[t].pc.LeaveLock? ==> s.countOwner.None?)
  }

  /** A step that only goes round `while (mActiveBroadcasts > 0)`. */
  predicate Spinning(s: State, t: nat)
    requires t < |s.threads|
  {
    s.threads[t].pc.Spin? && s.active > 0
  }

  ghost function Goto(s: State, t: nat, pc: Pc): State
    requires t < |s.threads|
  {
    s.(threads := s.threads[t := s.threads[t].(pc := pc)])
  }

  /** One look at the filter list of the receiver under the iterator. */
  ghost function Visit(s: State, t: nat, sender: Option<Receiver>, msg: Message): State
    requires t < |s.threads| && s.threads[t].pc.At?
  {
    var pc := s.threads[t].pc;
    if pc.it.None? then Goto(s, t, LeaveLock)
    else
      var r := pc.it.value;
      if r !in s.receivers then Goto(s, t, Dangling)
      else if sender == Some(r) || pc.entry >= |s.receivers[r]| then Goto(s, t, At(KeyFrom(s.receivers, r + 1), 0))
      else if Matches(s.receivers[r][pc.entry], msg) then
        var th := s.threads[t].(pc := At(KeyFrom(s.receivers, r + 1), 0), reached := s.threads[t].reached + [r]);
        s.(threads := s.threads[t := th])
      else Goto(s, t, At(pc.it, pc.entry + 1))
  }

  ghost function Update(m: Receivers, c: Call): Receivers
  {
    match c
    case Broadcast(_, _) => m
    case Register(r, fs) => m[r := fs]
    case Unregister(r) => m - {r}
  }

  ghost function Step(s: State, t: nat): State
    requires Enabled(s, t)
  {
    var th := s.threads[t];
    var call := th.todo[0];
    match th.pc
    case Start => Goto(s, t, if call.Broadcast? then HoldMap else Spin).(mapOwner := Some(t))
    case HoldMap => Goto(s, t, HoldBoth).(countOwner := Some(t))
    case HoldBoth => Goto(s, t, Loaded(s.active))
    case Loaded(reg) =>
      s.(active := reg + 1, threads := s.threads[t := th.(pc := Counted, snap := s.receivers, seen := |s.writes|, reached := [])])
    case Counted => Goto(s, t, CountedHoldMap).(countOwner := None)
    case CountedHoldMap => Goto(s, t, Begin).(mapOwner := None)
    case Begin => Goto(s, t, At(KeyFrom(s.receivers, 0), 0))
    case At(_, _) => if call.Broadcast? then Visit(s, t, call.sender, call.msg) else s
    case LeaveLock => Goto(s, t, LeaveLoad).(countOwner := Some(t))
    case LeaveLoad => Goto(s, t, LeaveStore(s.active))
    case LeaveStore(reg) => Goto(s, t, LeaveUnlock).(active := reg - 1)
    case LeaveUnlock =>
      s.(countOwner := None,
         threads := s.threads[t := th.(pc := Start, todo := th.todo[1..])],
         log := if call.Broadcast? then s.log + [Delivery(t, call.sender, call.msg, th.snap, th.seen, th.reached)] else s.log)
    case Spin => if s.active > 0 then s else Goto(s, t, Write)
    case Write => Goto(s, t, WriteUnlock).(receivers := Update(s.receivers, call), writes := s.writes + [Written(t, call)])
    case WriteUnlock =>
      s.(mapOwner := None, threads := s.threads[t := th.(pc := Start, todo := th.todo[1..])])
    case Dangling => s
  }

  ghost predicate Init(s: State)
  {
    && s.mapOwner.None? && s.countOwner.None? && s.active == 0 && s.writes == [] && s.log == []
    && forall t | 0 <= t < |s.threads| :: s.threads[t].pc.Start?
  }

  /** A schedule that only picks threads that can run. */
  ghost predicate Schedule(s: State, ts: seq<nat>)
    decreases |ts|
  {
    ts == [] || (Enabled(s, ts[0]) && Schedule(Step(s, ts[0]), ts[1..]))
  }

  ghost function Exec(s: State, ts: seq<nat>): State
    requires Schedule(s, ts)
    decreases |ts|
  {
    if ts == [] then s else Exec(Step(s, ts[0]), ts[1..])
  }
}
