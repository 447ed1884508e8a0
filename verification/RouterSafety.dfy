/** What holds in every state of every interleaving of router calls: mutual exclusion, an exact count, exact delivery. */
module RouterSafety {
  import opened Common
  import opened Filters
  import opened Router

  // ---------- the count ----------

  ghost function CountWeights(ths: seq<Thread>): (w: seq<nat>)
    ensures |w| == |ths|
    ensures forall i | 0 <= i < |ths| :: w[i] == if IsCounted(ths[i].pc) then 1 else 0
  {
    seq(|ths|, i requires 0 <= i < |ths| => if IsCounted(ths[i].pc) then 1 else 0)
  }

  /** The number of threads between the increment and the decrement. */
  ghost function CountedThreads(s: State): nat
  {
    Sum(CountWeights(s.threads))
  }

  lemma CountChange(ths: seq<Thread>, t: nat, th: Thread)
    requires t < |ths|
    ensures Sum(CountWeights(ths[t := th])) + (if IsCounted(ths[t].pc) then 1 else 0)
         == Sum(CountWeights(ths)) + (if IsCounted(th.pc) then 1 else 0)
  {
    var w := CountWeights(ths);
    var v := if IsCounted(th.pc) then 1 else 0;
    SumUpdate(w, t, v);
    assert CountWeights(ths[t := th]) == w[t := v];
  }

  lemma CountedMember(s: State, t: nat)
    requires t < |s.threads| && IsCounted(s.threads[t].pc)
    ensures CountedThreads(s) >= 1
  {
    SumMember(CountWeights(s.threads), t);
  }

  // ---------- invariants ----------

  ghost predicate Locks(s: State)
  {
    && (s.mapOwner.Some? ==> s.mapOwner.value < |s.threads|)
    && (s.countOwner.Some? ==> s.countOwner.value < |s.threads|)
    && (forall t | 0 <= t < |s.threads| :: HoldsMap(s.threads[t].pc) <==> s.mapOwner == Some(t))
    && (forall t | 0 <= t < |s.threads| :: HoldsCount(s.threads[t].pc) <==> s.countOwner == Some(t))
  }

  ghost predicate Shape(s: State)
  {
    forall t | 0 <= t < |s.threads| :: ThreadShape(s.threads[t])
  }

  ghost predicate ThreadShape(th: Thread)
  {
    && !th.pc.Dangling?
    && (!th.pc.Start? ==> th.todo != [] && (InBroadcast(th.pc) <==> th.todo[0].Broadcast?))
  }

  ghost predicate Counting(s: State)
  {
    && s.active == CountedThreads(s)
    && forall t | 0 <= t < |s.threads| :: Registers(s, s.threads[t].pc)
  }

  ghost predicate Registers(s: State, pc: Pc)
  {
    && (pc.Loaded? ==> pc.reg == s.active)
    && (pc.LeaveStore? ==> pc.reg == s.active)
    && (pc.Write? ==> s.active == 0)
  }

  /** The map a counted thread iterates over is the one it saw when it was counted. */
  ghost predicate Snapshots(s: State)
  {
    forall t | 0 <= t < |s.threads| && IsCounted(s.threads[t].pc) :: s.threads[t].snap == s.receivers
  }

  ghost predicate Increasing(rs: seq<Receiver>)
  {
    forall i, j | 0 <= i < j < |rs| :: rs[i] < rs[j]
  }

  ghost predicate Wanted(snap: Receivers, sender: Option<Receiver>, msg: Message, r: Receiver)
  {
    r in snap && Some(r) != sender && AnyMatch(snap[r], msg)
  }

  ghost predicate Before(r: Receiver, it: Option<Receiver>)
  {
    it.None? || r < it.value
  }

  /** Exactly the wanted receivers up to the iterator have been called, each once. */
  ghost predicate ReachedUpTo(snap: Receivers, sender: Option<Receiver>, msg: Message, reached: seq<Receiver>, it: Option<Receiver>)
  {
    && Increasing(reached)
    && forall r: Receiver :: r in reached <==> Wanted(snap, sender, msg, r) && Before(r, it)
  }

  ghost predicate Exact(d: Delivery)
  {
    ReachedUpTo(d.snap, d.sender, d.msg, d.reached, None)
  }

  ghost predicate CursorOk(th: Thread)
  {
    th.todo != [] && th.todo[0].Broadcast? ==>
      && (th.pc.Counted? || th.pc.CountedHoldMap? || th.pc.Begin? ==> th.reached == [])
      && (th.pc.At? ==>
        && ReachedUpTo(th.snap, th.todo[0].sender, th.todo[0].msg, th.reached, th.pc.it)
        && (th.pc.it.Some? ==>
          && th.pc.it.value in th.snap
          && forall i | 0 <= i < th.pc.entry && i < |th.snap[th.pc.it.value]| :: !Matches(th.snap[th.pc.it.value][i], th.todo[0].msg)))
      && (th.pc.LeaveLock? || th.pc.LeaveLoad? || th.pc.LeaveStore? || th.pc.LeaveUnlock? ==>
        ReachedUpTo(th.snap, th.todo[0].sender, th.todo[0].msg, th.reached, None))
  }

  ghost predicate Cursors(s: State)
  {
    forall t | 0 <= t < |s.threads| :: CursorOk(s.threads[t])
  }

  ghost predicate LogExact(s: State)
  {
    forall i | 0 <= i < |s.log| :: Exact(s.log[i])
  }

  ghost predicate Inv(s: State)
  {
    Locks(s) && Shape(s) && Counting(s) && Snapshots(s) && Cursors(s) && LogExact(s)
  }

  // ---------- one step keeps each part ----------

  /** A step changes only the thread that takes it. */
  lemma OthersUnchanged(s: State, t: nat)
    requires Enabled(s, t)
    ensures |Step(s, t).threads| == |s.threads|
    ensures forall u | 0 <= u < |s.threads| && u != t :: Step(s, t).threads[u] == s.threads[u]
    ensures Step(s, t).threads == s.threads[t := Step(s, t).threads[t]]
  {
  }

  /** A step takes a free mutex, or leaves it alone, or gives up its own. */
  lemma LockSteps(s: State, t: nat)
    requires Locks(s) && Shape(s) && Enabled(s, t)
    ensures var s' := Step(s, t);
      && t < |s'.threads|
      && (s'.mapOwner == s.mapOwner || s.mapOwner == None || s.mapOwner == Some(t))
      && (s'.mapOwner == s.mapOwner || s'.mapOwner == None || s'.mapOwner == Some(t))
      && (HoldsMap(s'.threads[t].pc) <==> s'.mapOwner == Some(t))
      && (s'.countOwner == s.countOwner || s.countOwner == None || s.countOwner == Some(t))
      && (s'.countOwner == s.countOwner || s'.countOwner == None || s'.countOwner == Some(t))
      && (HoldsCount(s'.threads[t].pc) <==> s'.countOwner == Some(t))
  {
    assert ThreadShape(s.threads[t]);
    assert HoldsMap(s.threads[t].pc) <==> s.mapOwner == Some(t);
    assert HoldsCount(s.threads[t].pc) <==> s.countOwner == Some(t);
  }

  lemma LocksKept(s: State, t: nat)
    requires Locks(s) && Shape(s) && Enabled(s, t)
    ensures Locks(Step(s, t))
  {
    OthersUnchanged(s, t);
    LockSteps(s, t);
    var s' := Step(s, t);
    forall u | 0 <= u < |s.threads|
      ensures HoldsMap(s'.threads[u].pc) <==> s'.mapOwner == Some(u)
      ensures HoldsCount(s'.threads[u].pc) <==> s'.countOwner == Some(u)
    {
      assert u != t ==> s'.threads[u] == s.threads[u];
    }
  }

  lemma ShapeKept(s: State, t: nat)
    requires Shape(s) && Snapshots(s) && Cursors(s) && Enabled(s, t)
    ensures Shape(Step(s, t))
  {
    OthersUnchanged(s, t);
    assert ThreadShape(s.threads[t]) && CursorOk(s.threads[t]);
  }

  /** What a step does to the counter and to its own thread's part in the count. */
  lemma CounterStep(s: State, t: nat)
    requires Shape(s) && Counting(s) && Enabled(s, t) && Shape(Step(s, t))
    ensures var s' := Step(s, t); var pc := s.threads[t].pc;
      && t < |s'.threads|
      && s'.active == (if pc.Loaded? then s.active + 1 else if pc.LeaveStore? then s.active - 1 else s.active)
      && (pc.Loaded? ==> !IsCounted(pc) && IsCounted(s'.threads[t].pc))
      && (pc.LeaveStore? ==> IsCounted(pc) && !IsCounted(s'.threads[t].pc))
      && (!pc.Loaded? && !pc.LeaveStore? ==> (IsCounted(pc) <==> IsCounted(s'.threads[t].pc)))
      && (s'.threads[t].pc.Loaded? || s'.threads[t].pc.LeaveStore? ==> s'.threads[t].pc.reg == s'.active)
      && (s'.threads[t].pc.Write? ==> s'.active <= 0)
  {
    assert ThreadShape(s.threads[t]) && ThreadShape(Step(s, t).threads[t]) && Registers(s, s.threads[t].pc);
  }

  /** The stored value moves with the number of counted threads. */
  lemma CountStep(s: State, t: nat)
    requires Shape(s) && Counting(s) && Enabled(s, t) && Shape(Step(s, t))
    ensures Step(s, t).active == CountedThreads(Step(s, t))
  {
    OthersUnchanged(s, t);
    CounterStep(s, t);
    CountChange(s.threads, t, Step(s, t).threads[t]);
    hide Step, Shape, IsCounted;
  }

  lemma CountingKept(s: State, t: nat)
    requires Locks(s) && Shape(s) && Counting(s) && Enabled(s, t) && Shape(Step(s, t))
    ensures Counting(Step(s, t))
  {
    OthersUnchanged(s, t);
    var s' := Step(s, t);
    CountStep(s, t);
    CounterStep(s, t);
    LocksKept(s, t);
    hide Step, Shape;
    forall u | 0 <= u < |s.threads| ensures Registers(s', s'.threads[u].pc) {
      assert Registers(s, s.threads[u].pc);
      if u != t && s.threads[t].pc.LeaveStore? && s.threads[u].pc.Write? {
        CountedMember(s, t);
      }
    }
  }

  lemma SnapshotsKept(s: State, t: nat)
    requires Locks(s) && Shape(s) && Counting(s) && Snapshots(s) && Enabled(s, t)
    ensures Snapshots(Step(s, t))
  {
    OthersUnchanged(s, t);
    SnapshotStep(s, t);
    var s' := Step(s, t);
    hide Step, Locks, Shape;
    forall u | 0 <= u < |s.threads| && IsCounted(s'.threads[u].pc) ensures s'.threads[u].snap == s'.receivers {
      if s.threads[t].pc.Write? {
        assert Registers(s, s.threads[t].pc);
        if IsCounted(s.threads[u].pc) {
          CountedMember(s, u);
        }
      }
    }
  }

  /** Only a write changes the map, and a thread becomes counted with a fresh snapshot. */
  lemma SnapshotStep(s: State, t: nat)
    requires Enabled(s, t)
    ensures var s' := Step(s, t);
      && t < |s'.threads|
      && (s'.receivers == s.receivers || s.threads[t].pc.Write?)
      && (s.threads[t].pc.Write? ==> !IsCounted(s'.threads[t].pc))
      && (IsCounted(s'.threads[t].pc) ==> s'.threads[t].snap == s.receivers || (IsCounted(s.threads[t].pc) && s'.threads[t].snap == s.threads[t].snap))
  {
    var th := s.threads[t];
    if th.pc.At? && th.todo[0].Broadcast? {
      VisitLeaves(s, t, th.todo[0].sender, th.todo[0].msg);
      hide Visit;
    }
  }

  /** A look at one entry leaves the map and the snapshot alone. */
  lemma VisitLeaves(s: State, t: nat, sender: Option<Receiver>, msg: Message)
    requires t < |s.threads| && s.threads[t].pc.At?
    ensures var s' := Visit(s, t, sender, msg);
      && t < |s'.threads| && s'.receivers == s.receivers && s'.writes == s.writes && s'.log == s.log
      && s'.threads[t].snap == s.threads[t].snap && s'.threads[t].seen == s.threads[t].seen
  {
  }

  /** Moving the iterator past r adds r alone to the receivers that count as done. */
  lemma Advance(snap: Receivers, sender: Option<Receiver>, msg: Message, reached: seq<Receiver>, r: Receiver)
    requires r in snap && ReachedUpTo(snap, sender, msg, reached, Some(r))
    ensures Wanted(snap, sender, msg, r) ==> ReachedUpTo(snap, sender, msg, reached + [r], KeyFrom(snap, r + 1))
    ensures !Wanted(snap, sender, msg, r) ==> ReachedUpTo(snap, sender, msg, reached, KeyFrom(snap, r + 1))
  {
    var it := KeyFrom(snap, r + 1);
    forall k | k in snap ensures Before(k, it) <==> k <= r {
    }
    forall i | 0 <= i < |reached| ensures reached[i] < r {
      assert reached[i] in reached;
      assert Before(reached[i], Some(r));
    }
    assert forall k: Receiver :: k in reached + [r] <==> k in reached || k == r;
  }

  /** A look at one entry keeps the iterator's claim. */
  lemma VisitStep(s: State, t: nat, call: Call)
    requires t < |s.threads| && s.threads[t].pc.At? && call.Broadcast?
    requires s.threads[t].todo != [] && s.threads[t].todo[0] == call
    requires s.threads[t].snap == s.receivers && CursorOk(s.threads[t])
    ensures CursorOk(Visit(s, t, call.sender, call.msg).threads[t])
  {
    var th := s.threads[t];
    if th.pc.it.Some? {
      var r := th.pc.it.value;
      Advance(th.snap, call.sender, call.msg, th.reached, r);
      if call.sender == Some(r) || th.pc.entry >= |th.snap[r]| {
        assert !Wanted(th.snap, call.sender, call.msg, r);
      } else if Matches(th.snap[r][th.pc.entry], call.msg) {
        assert Wanted(th.snap, call.sender, call.msg, r);
      }
    }
  }

  lemma CursorStep(s: State, t: nat)
    requires Shape(s) && Snapshots(s) && Cursors(s) && Enabled(s, t)
    ensures CursorOk(Step(s, t).threads[t])
  {
    var th := s.threads[t];
    assert ThreadShape(th) && CursorOk(th);
    match th.pc
    case At(_, _) => VisitStep(s, t, th.todo[0]);
    case Begin =>
      var th' := Step(s, t).threads[t];
      assert th'.snap == s.receivers && th'.pc == At(KeyFrom(s.receivers, 0), 0) && th'.reached == [];
    case _ =>
  }

  lemma CursorsKept(s: State, t: nat)
    requires Shape(s) && Snapshots(s) && Cursors(s) && Enabled(s, t)
    ensures Cursors(Step(s, t))
  {
    OthersUnchanged(s, t);
    CursorStep(s, t);
  }

  lemma LogKept(s: State, t: nat)
    requires Shape(s) && Cursors(s) && LogExact(s) && Enabled(s, t)
    ensures LogExact(Step(s, t))
  {
    assert ThreadShape(s.threads[t]) && CursorOk(s.threads[t]);
  }

  lemma InvKept(s: State, t: nat)
    requires Inv(s) && Enabled(s, t)
    ensures Inv(Step(s, t))
  {
    LocksKept(s, t);
    ShapeKept(s, t);
    CountingKept(s, t);
    SnapshotsKept(s, t);
    CursorsKept(s, t);
    LogKept(s, t);
  }

  lemma InvInit(s: State)
    requires Init(s)
    ensures Inv(s)
  {
    SumZero(CountWeights(s.threads));
  }

  lemma {:induction false} InvAlways(s: State, ts: seq<nat>)
    requires Inv(s) && Schedule(s, ts)
    ensures Inv(Exec(s, ts))
    decreases |ts|
  {
    if ts != [] {
      InvKept(s, ts[0]);
      InvAlways(Step(s, ts[0]), ts[1..]);
    }
  }

  // ---------- main results ----------

  /**
   Reader/writer exclusion. In every state of every schedule of any number of threads, the counter is the number of
   threads inside a broadcast, a thread about to write the map finds nobody inside, the mutexes have one holder, and no
   iterator dangles.
   */
  lemma ExclusionInEveryRun(s0: State, ts: seq<nat>, t: nat)
    requires Init(s0) && Schedule(s0, ts) && t < |s0.threads|
    ensures var s := Exec(s0, ts);
      && s.active == CountedThreads(s)
      && t < |s.threads| && !s.threads[t].pc.Dangling?
      && (s.threads[t].pc.Write? ==> forall u | 0 <= u < |s.threads| :: !IsCounted(s.threads[u].pc))
      && (HoldsMap(s.threads[t].pc) ==> forall u | 0 <= u < |s.threads| && u != t :: !HoldsMap(s.threads[u].pc))
  {
    InvInit(s0);
    InvAlways(s0, ts);
    SameThreads(s0, ts);
    var s := Exec(s0, ts);
    assert ThreadShape(s.threads[t]) && Registers(s, s.threads[t].pc);
    if s.threads[t].pc.Write? {
      forall u | 0 <= u < |s.threads| ensures !IsCounted(s.threads[u].pc) {
        if IsCounted(s.threads[u].pc) {
          CountedMember(s, u);
        }
      }
    }
  }

  lemma {:induction false} SameThreads(s: State, ts: seq<nat>)
    requires Schedule(s, ts)
    ensures |Exec(s, ts).threads| == |s.threads|
    decreases |ts|
  {
    if ts != [] {
      OthersUnchanged(s, ts[0]);
      SameThreads(Step(s, ts[0]), ts[1..]);
    }
  }

  /**
   Snapshot delivery. Whatever registrations interleave with it, a finished broadcast called back exactly the receivers
   of the map as it stood when the broadcast was counted, other than the sender, with a matching entry, each once.
   */
  lemma DeliveryIsASnapshot(s0: State, ts: seq<nat>, i: nat)
    requires Init(s0) && Schedule(s0, ts) && i < |Exec(s0, ts).log|
    ensures var d := Exec(s0, ts).log[i];
      && (forall r: Receiver :: r in d.reached <==>
            r in d.snap && Some(r) != d.sender && exists k | 0 <= k < |d.snap[r]| :: Matches(d.snap[r][k], d.msg))
      && (forall j, k | 0 <= j < k < |d.reached| :: d.reached[j] != d.reached[k])
  {
    InvInit(s0);
    InvAlways(s0, ts);
    var d := Exec(s0, ts).log[i];
    assert Exact(d);
    forall r: Receiver ensures r in d.reached <==>
      r in d.snap && Some(r) != d.sender && exists k | 0 <= k < |d.snap[r]| :: Matches(d.snap[r][k], d.msg)
    {
      assert Wanted(d.snap, d.sender, d.msg, r) <==>
        r in d.snap && Some(r) != d.sender && AnyMatch(d.snap[r], d.msg);
    }
  }

  /** The snapshot is real: for as long as a broadcast is counted, the live map is the one it was counted under. */
  lemma SnapshotIsLive(s0: State, ts: seq<nat>, t: nat)
    requires Init(s0) && Schedule(s0, ts) && t < |Exec(s0, ts).threads| && IsCounted(Exec(s0, ts).threads[t].pc)
    ensures Exec(s0, ts).threads[t].snap == Exec(s0, ts).receivers
  {
    InvInit(s0);
    InvAlways(s0, ts);
  }

  // ---------- the snapshot was the map at one moment of the run ----------

  /** The map was `m` after some part of the schedule. */
  ghost predicate Seen(s0: State, ts: seq<nat>, m: Receivers)
  {
    exists n :: 0 <= n <= |ts| && Schedule(s0, ts[..n]) && Exec(s0, ts[..n]).receivers == m
  }

  lemma {:induction false} LastStep(s: State, ts: seq<nat>, t: nat)
    requires Schedule(s, ts + [t])
    ensures Schedule(s, ts) && Enabled(Exec(s, ts), t) && Exec(s, ts + [t]) == Step(Exec(s, ts), t)
    decreases |ts|
  {
    var all := ts + [t];
    if ts == [] {
      assert all[1..] == [];
    } else {
      assert all[0] == ts[0] && all[1..] == ts[1..] + [t];
      LastStep(Step(s, ts[0]), ts[1..], t);
    }
  }

  lemma SeenLater(s0: State, ts: seq<nat>, t: nat, m: Receivers)
    requires Seen(s0, ts, m)
    ensures Seen(s0, ts + [t], m)
  {
    var n :| 0 <= n <= |ts| && Schedule(s0, ts[..n]) && Exec(s0, ts[..n]).receivers == m;
    assert (ts + [t])[..n] == ts[..n];
  }

  predicate HasSnap(pc: Pc)
  {
    IsCounted(pc) || pc.LeaveUnlock?
  }

  ghost predicate SnapsSeen(s0: State, ts: seq<nat>, s: State)
  {
    && (forall t | 0 <= t < |s.threads| && HasSnap(s.threads[t].pc) :: Seen(s0, ts, s.threads[t].snap))
    && (forall i | 0 <= i < |s.log| :: Seen(s0, ts, s.log[i].snap))
  }

  /** A step takes the live map as snapshot or keeps the one it has; only a thread with a snapshot logs it. */
  lemma SnapHistoryStep(s: State, t: nat)
    requires Shape(s) && Enabled(s, t)
    ensures var s', th := Step(s, t), s.threads[t];
      && t < |s'.threads|
      && (HasSnap(s'.threads[t].pc) ==> s'.threads[t].snap == s.receivers || (HasSnap(th.pc) && s'.threads[t].snap == th.snap))
      && |s.log| <= |s'.log| <= |s.log| + 1
      && (forall i | 0 <= i < |s.log| :: s'.log[i] == s.log[i])
      && (|s'.log| == |s.log| + 1 ==> HasSnap(th.pc) && s'.log[|s.log|].snap == th.snap)
  {
    var th := s.threads[t];
    assert ThreadShape(th);
    if th.pc.At? && th.todo[0].Broadcast? {
      VisitLeaves(s, t, th.todo[0].sender, th.todo[0].msg);
      hide Visit;
    }
  }

  lemma SnapsSeenStep(s0: State, ts: seq<nat>, s: State, t: nat)
    requires Schedule(s0, ts) && s == Exec(s0, ts) && Shape(s) && Enabled(s, t) && SnapsSeen(s0, ts, s)
    ensures SnapsSeen(s0, ts + [t], Step(s, t))
  {
    var s' := Step(s, t);
    SnapHistoryStep(s, t);
    OthersUnchanged(s, t);
    assert ts[..|ts|] == ts;
    assert Seen(s0, ts, s.receivers);
    hide Step, Shape, HasSnap, Seen;
    forall u | 0 <= u < |s'.threads| && HasSnap(s'.threads[u].pc) ensures Seen(s0, ts + [t], s'.threads[u].snap) {
      assert Seen(s0, ts, s'.threads[u].snap);
      SeenLater(s0, ts, t, s'.threads[u].snap);
    }
    forall i | 0 <= i < |s'.log| ensures Seen(s0, ts + [t], s'.log[i].snap) {
      assert Seen(s0, ts, s'.log[i].snap);
      SeenLater(s0, ts, t, s'.log[i].snap);
    }
  }

  lemma {:induction false} SnapsAlwaysSeen(s0: State, ts: seq<nat>)
    requires Init(s0) && Schedule(s0, ts)
    ensures SnapsSeen(s0, ts, Exec(s0, ts))
    decreases |ts|
  {
    if ts != [] {
      var init, t := ts[..|ts| - 1], ts[|ts| - 1];
      assert ts == init + [t];
      LastStep(s0, init, t);
      SnapsAlwaysSeen(s0, init);
      InvInit(s0);
      InvAlways(s0, init);
      SnapsSeenStep(s0, init, Exec(s0, init), t);
    }
  }

  /** Every delivery's snapshot is the map as it was after some part of the same schedule. */
  lemma SnapshotExisted(s0: State, ts: seq<nat>, i: nat)
    requires Init(s0) && Schedule(s0, ts) && i < |Exec(s0, ts).log|
    ensures exists n :: 0 <= n <= |ts| && Schedule(s0, ts[..n]) && Exec(s0, ts[..n]).receivers == Exec(s0, ts).log[i].snap
  {
    SnapsAlwaysSeen(s0, ts);
    assert Seen(s0, ts, Exec(s0, ts).log[i].snap);
  }
}
