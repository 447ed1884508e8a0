/** Progress of the router: no deadlock, a decreasing measure, and a schedule that finishes every call. */
module RouterProgress {
  import opened Common
  import opened Filters
  import opened Router
  import opened RouterSafety

  ghost function Rank(pc: Pc): (r: nat)
    ensures r < 20
  {
    match pc
    case Start => 0
    case HoldMap => 1
    case HoldBoth => 2
    case Loaded(_) => 3
    case Counted => 4
    case CountedHoldMap => 5
    case Begin => 6
    case At(_, _) => 7
    case LeaveLock => 8
    case LeaveLoad => 9
    case LeaveStore(_) => 10
    case LeaveUnlock => 11
    case Spin => 12
    case Write => 13
    case WriteUnlock => 14
    case Dangling => 15
  }

  // ---------- three weights per thread ----------

  /** Program points left in the thread's calls. */
  ghost function PointsLeft(th: Thread): nat
  {
    if th.todo == [] then 0 else 20 * |th.todo| - Rank(th.pc)
  }

  ghost function KeysAfter(m: Receivers, it: Option<Receiver>): set<Receiver>
  {
    if it.Some? then set k | k in m && k >= it.value else {}
  }

  /** Receivers left for the iterator. */
  ghost function KeysLeft(m: Receivers, th: Thread): nat
  {
    if th.pc.At? then |KeysAfter(m, th.pc.it)| else 0
  }

  /** Filter entries left at the iterator. */
  ghost function EntriesLeft(m: Receivers, th: Thread): nat
  {
    if th.pc.At? && th.pc.it.Some? && th.pc.it.value in m && th.pc.entry < |m[th.pc.it.value]|
    then |m[th.pc.it.value]| - th.pc.entry else 0
  }

  ghost function PointsFn(): Thread -> nat { th => PointsLeft(th) }
  ghost function KeysFn(m: Receivers): Thread -> nat { th => KeysLeft(m, th) }
  ghost function EntriesFn(m: Receivers): Thread -> nat { th => EntriesLeft(m, th) }

  ghost function Weights(ths: seq<Thread>, f: Thread -> nat): (w: seq<nat>)
    ensures |w| == |ths| && forall i | 0 <= i < |ths| :: w[i] == f(ths[i])
  {
    seq(|ths|, i requires 0 <= i < |ths| => f(ths[i]))
  }

  lemma WeightChange(ths: seq<Thread>, t: nat, th: Thread, f: Thread -> nat)
    requires t < |ths|
    ensures Sum(Weights(ths[t := th], f)) + f(ths[t]) == Sum(Weights(ths, f)) + f(th)
  {
    SumUpdate(Weights(ths, f), t, f(th));
    assert Weights(ths[t := th], f) == Weights(ths, f)[t := f(th)];
  }

  ghost function Points(s: State): nat { Sum(Weights(s.threads, PointsFn())) }
  ghost function Keys(s: State): nat { Sum(Weights(s.threads, KeysFn(s.receivers))) }
  ghost function Entries(s: State): nat { Sum(Weights(s.threads, EntriesFn(s.receivers))) }

  /** The lexicographic order on (points, keys, entries). */
  ghost predicate Smaller(a: State, b: State)
  {
    || Points(a) < Points(b)
    || (Points(a) == Points(b) && Keys(a) < Keys(b))
    || (Points(a) == Points(b) && Keys(a) == Keys(b) && Entries(a) < Entries(b))
  }

  // ---------- a step that does not spin makes the measure smaller ----------

  /** Moving to the next key leaves fewer keys. */
  lemma FewerKeys(m: Receivers, r: Receiver)
    requires r in m
    ensures |KeysAfter(m, KeyFrom(m, r + 1))| < |KeysAfter(m, Some(r))|
  {
    var here, next := KeysAfter(m, Some(r)), KeysAfter(m, KeyFrom(m, r + 1));
    assert r in here && next <= here - {r};
    SubsetSmaller(next, here - {r});
  }

  lemma {:induction false} SubsetSmaller(a: set<Receiver>, b: set<Receiver>)
    requires a <= b
    ensures |a| <= |b|
  {
    if a != {} {
      var x :| x in a;
      SubsetSmaller(a - {x}, b - {x});
    }
  }

  /** Every step outside the iteration that does not spin moves the program counter on. */
  lemma PointsShrink(s: State, t: nat)
    requires Shape(s) && Enabled(s, t) && !Spinning(s, t)
    requires !s.threads[t].pc.At?
    ensures PointsLeft(Step(s, t).threads[t]) < PointsLeft(s.threads[t])
  {
    assert ThreadShape(s.threads[t]);
  }

  ghost predicate Closer(m: Receivers, a: Thread, b: Thread)
  {
    || PointsLeft(a) < PointsLeft(b)
    || (PointsLeft(a) == PointsLeft(b) && KeysLeft(m, a) < KeysLeft(m, b))
    || (PointsLeft(a) == PointsLeft(b) && KeysLeft(m, a) == KeysLeft(m, b) && EntriesLeft(m, a) < EntriesLeft(m, b))
  }

  /** A look at one entry leaves the iteration, passes a key or passes an entry. */
  lemma VisitsShrink(s: State, t: nat, call: Call)
    requires t < |s.threads| && s.threads[t].pc.At? && call.Broadcast? && s.threads[t].todo != []
    requires s.threads[t].pc.it.Some? ==> s.threads[t].pc.it.value in s.receivers
    ensures Closer(s.receivers, Visit(s, t, call.sender, call.msg).threads[t], s.threads[t])
  {
    if s.threads[t].pc.it.Some? {
      FewerKeys(s.receivers, s.threads[t].pc.it.value);
    }
  }

  lemma OwnThreadCloser(s: State, t: nat)
    requires Inv(s) && Enabled(s, t) && !Spinning(s, t)
    ensures t < |Step(s, t).threads| && Closer(s.receivers, Step(s, t).threads[t], s.threads[t])
    ensures PointsLeft(Step(s, t).threads[t]) < PointsLeft(s.threads[t]) || Step(s, t).receivers == s.receivers
  {
    var th := s.threads[t];
    assert ThreadShape(th) && CursorOk(th);
    if th.pc.At? {
      VisitsShrink(s, t, th.todo[0]);
    } else {
      PointsShrink(s, t);
    }
  }

  lemma StepsShrink(s: State, t: nat)
    requires Inv(s) && Enabled(s, t) && !Spinning(s, t)
    ensures Smaller(Step(s, t), s)
  {
    var s' := Step(s, t);
    OthersUnchanged(s, t);
    OwnThreadCloser(s, t);
    var th' := s'.threads[t];
    WeightChange(s.threads, t, th', PointsFn());
    WeightChange(s.threads, t, th', KeysFn(s.receivers));
    WeightChange(s.threads, t, th', EntriesFn(s.receivers));
    hide Step, Inv, PointsLeft, KeysLeft, EntriesLeft, Weights, Sum;
  }

  // ---------- some thread can always make such a step ----------

  ghost predicate CanMove(s: State, t: nat)
  {
    Enabled(s, t) && !Spinning(s, t)
  }

  ghost predicate AllDone(s: State)
  {
    forall t | 0 <= t < |s.threads| :: s.threads[t].todo == []
  }

  /**
   No deadlock: while a call is unfinished, some thread can take a step that is not a spin. The holder of the counter's
   mutex can; failing that the holder of the map's mutex can, or a counted thread it waits for can; failing that any
   unfinished thread can.
   */
  lemma SomeoneCanMove(s: State) returns (t: nat)
    requires Inv(s) && !AllDone(s)
    ensures CanMove(s, t)
  {
    if s.countOwner.Some? {
      t := s.countOwner.value;
      assert HoldsCount(s.threads[t].pc) && ThreadShape(s.threads[t]);
    } else if s.mapOwner.Some? {
      var w := s.mapOwner.value;
      assert HoldsMap(s.threads[w].pc) && ThreadShape(s.threads[w]);
      if Spinning(s, w) {
        t := SumPositive(CountWeights(s.threads));
        assert ThreadShape(s.threads[t]);
      } else {
        t := w;
      }
    } else {
      t :| 0 <= t < |s.threads| && s.threads[t].todo != [];
      assert ThreadShape(s.threads[t]);
      assert !HoldsMap(s.threads[t].pc) && !HoldsCount(s.threads[t].pc);
    }
  }

  /** From every reachable state there is a schedule that finishes every call. */
  lemma {:induction false} EveryCallCanFinish(s: State) returns (ts: seq<nat>)
    requires Inv(s)
    ensures Schedule(s, ts) && AllDone(Exec(s, ts))
    decreases Points(s), Keys(s), Entries(s)
  {
    if AllDone(s) {
      ts := [];
    } else {
      var t := SomeoneCanMove(s);
      InvKept(s, t);
      StepsShrink(s, t);
      var rest := EveryCallCanFinish(Step(s, t));
      ts := [t] + rest;
      assert ts[1..] == rest;
    }
  }

  /** Progress over whole runs: after any schedule from the start, either everything has returned or someone can move,
      and whoever moves without spinning makes the measure smaller. */
  lemma ProgressInEveryRun(s0: State, ts: seq<nat>)
    requires Init(s0) && Schedule(s0, ts)
    ensures var s := Exec(s0, ts);
      && (AllDone(s) || exists t :: CanMove(s, t))
      && (forall t | CanMove(s, t) :: Smaller(Step(s, t), s))
      && (forall t | Enabled(s, t) && Spinning(s, t) :: Step(s, t) == s)
  {
    InvInit(s0);
    InvAlways(s0, ts);
    var s := Exec(s0, ts);
    if !AllDone(s) {
      var t := SomeoneCanMove(s);
    }
    forall t | CanMove(s, t) ensures Smaller(Step(s, t), s) {
      StepsShrink(s, t);
    }
  }
}
