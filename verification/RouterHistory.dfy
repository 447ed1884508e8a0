/** What the router's map holds and whom a broadcast reaches, told by the calls alone: the last register or unregister counts. */
module RouterHistory {
  import opened Common
  import opened Filters
  import opened Router
  import opened RouterSafety

  predicate Touches(c: Call, r: Receiver)
  {
    (c.Register? || c.Unregister?) && c.receiver == r
  }

  /** Write j is the last one about receiver r. */
  ghost predicate LastTouch(ws: seq<Written>, j: int, r: Receiver)
  {
    0 <= j < |ws| && Touches(ws[j].call, r) && forall i | j < i < |ws| :: !Touches(ws[i].call, r)
  }

  ghost predicate Untouched(ws: seq<Written>, r: Receiver)
  {
    forall j | 0 <= j < |ws| :: !Touches(ws[j].call, r)
  }

  /** What receiver r has subscribed to after these writes: the filters of its last register, nothing after an unregister, and what it had at the start if it was never written. */
  ghost predicate Subscribed(m0: Receivers, ws: seq<Written>, r: Receiver, fs: seq<FilterEntry>)
  {
    || (exists j :: LastTouch(ws, j, r) && ws[j].call == Register(r, fs))
    || (Untouched(ws, r) && r in m0 && m0[r] == fs)
  }

  /** The map is exactly that. */
  ghost predicate MapIs(m0: Receivers, ws: seq<Written>, m: Receivers)
  {
    forall r: Receiver, fs :: (r in m && m[r] == fs) <==> Subscribed(m0, ws, r, fs)
  }

  lemma NothingWritten(m: Receivers)
    ensures MapIs(m, [], m)
  {
    forall r: Receiver, fs ensures (r in m && m[r] == fs) <==> Subscribed(m, [], r, fs) {
      assert Untouched([], r);
    }
  }

  /** One more write changes what its own receiver has subscribed to, and nobody else. */
  lemma SubscribedMore(m0: Receivers, ws: seq<Written>, w: Written, r: Receiver, fs: seq<FilterEntry>)
    ensures Subscribed(m0, ws + [w], r, fs) <==> if Touches(w.call, r) then w.call == Register(r, fs) else Subscribed(m0, ws, r, fs)
  {
    var all := ws + [w];
    assert all[|ws|] == w && forall j | 0 <= j < |ws| :: all[j] == ws[j];
    if Touches(w.call, r) {
      assert LastTouch(all, |ws|, r);
    } else {
      assert forall j :: LastTouch(all, j, r) <==> LastTouch(ws, j, r);
    }
  }

  lemma MapMore(m0: Receivers, ws: seq<Written>, m: Receivers, w: Written)
    requires MapIs(m0, ws, m) && !w.call.Broadcast?
    ensures MapIs(m0, ws + [w], Update(m, w.call))
  {
    var m' := Update(m, w.call);
    forall r: Receiver, fs ensures (r in m' && m'[r] == fs) <==> Subscribed(m0, ws + [w], r, fs) {
      SubscribedMore(m0, ws, w, r, fs);
      hide Subscribed;
      assert (r in m && m[r] == fs) <==> Subscribed(m0, ws, r, fs);
    }
  }

  // ---------- every run ----------

  /** A snapshot taken after the first n writes is the map as those writes left it. */
  ghost predicate SnapIs(m0: Receivers, ws: seq<Written>, snap: Receivers, n: nat)
  {
    n <= |ws| && MapIs(m0, ws[..n], snap)
  }

  ghost predicate History(m0: Receivers, s: State)
  {
    && MapIs(m0, s.writes, s.receivers)
    && (forall t | 0 <= t < |s.threads| && HasSnap(s.threads[t].pc) :: SnapIs(m0, s.writes, s.threads[t].snap, s.threads[t].seen))
    && (forall i | 0 <= i < |s.log| :: SnapIs(m0, s.writes, s.log[i].snap, s.log[i].upTo))
  }

  /** What a step does to the writes. */
  lemma WriteStep(s: State, t: nat)
    requires Shape(s) && Enabled(s, t)
    ensures var s', th := Step(s, t), s.threads[t];
      if th.pc.Write? then !th.todo[0].Broadcast? && s'.writes == s.writes + [Written(t, th.todo[0])] && s'.receivers == Update(s.receivers, th.todo[0])
      else s'.writes == s.writes && s'.receivers == s.receivers
  {
    assert ThreadShape(s.threads[t]);
    hide Update, KeyFrom;
  }

  /** What a step does to its own snapshot. */
  lemma SnapStep(s: State, t: nat)
    requires Enabled(s, t)
    ensures var s', th := Step(s, t), s.threads[t];
      && t < |s'.threads|
      && (HasSnap(s'.threads[t].pc) ==>
            || (s'.threads[t].snap == s.receivers && s'.threads[t].seen == |s.writes| && s'.writes == s.writes)
            || (HasSnap(th.pc) && s'.threads[t].snap == th.snap && s'.threads[t].seen == th.seen))
  {
    var th := s.threads[t];
    if th.pc.At? && th.todo[0].Broadcast? {
      VisitLeaves(s, t, th.todo[0].sender, th.todo[0].msg);
      hide Visit;
    }
    hide Update, KeyFrom;
  }

  /** What a step does to the log. */
  lemma LogStep(s: State, t: nat)
    requires Enabled(s, t)
    ensures var s', th := Step(s, t), s.threads[t];
      && |s.log| <= |s'.log| <= |s.log| + 1
      && (forall i | 0 <= i < |s.log| :: s'.log[i] == s.log[i])
      && (|s'.log| == |s.log| + 1 ==> HasSnap(th.pc) && s'.log[|s.log|].snap == th.snap && s'.log[|s.log|].upTo == th.seen)
  {
    hide Update, KeyFrom;
  }

  lemma SnapStays(m0: Receivers, ws: seq<Written>, ws': seq<Written>, snap: Receivers, n: nat)
    requires SnapIs(m0, ws, snap, n) && ws <= ws'
    ensures SnapIs(m0, ws', snap, n)
  {
    assert ws'[..n] == ws[..n];
  }

  lemma HistoryKept(m0: Receivers, s: State, t: nat)
    requires History(m0, s) && Shape(s) && Enabled(s, t)
    ensures History(m0, Step(s, t))
  {
    var s' := Step(s, t);
    WriteStep(s, t);
    SnapStep(s, t);
    LogStep(s, t);
    OthersUnchanged(s, t);
    if s.threads[t].pc.Write? {
      MapMore(m0, s.writes, s.receivers, Written(t, s.threads[t].todo[0]));
    }
    assert s.writes[..|s.writes|] == s.writes;
    assert SnapIs(m0, s.writes, s.receivers, |s.writes|);
    hide Step, Shape, MapIs, HasSnap, SnapIs, Update;
    forall snap, n: nat | SnapIs(m0, s.writes, snap, n) ensures SnapIs(m0, s'.writes, snap, n) {
      SnapStays(m0, s.writes, s'.writes, snap, n);
    }
  }

  lemma {:induction false} HistoryAlways(m0: Receivers, s: State, ts: seq<nat>)
    requires History(m0, s) && Inv(s) && Schedule(s, ts)
    ensures History(m0, Exec(s, ts))
    decreases |ts|
  {
    if ts != [] {
      HistoryKept(m0, s, ts[0]);
      InvKept(s, ts[0]);
      HistoryAlways(m0, Step(s, ts[0]), ts[1..]);
    }
  }

  /**
   The map, by the calls. In every schedule a receiver is in the map with certain filters if and only if the last register or
   unregister written about it was a register with exactly these filters, or nothing was ever written about it and the
   router started out with them.
   */
  lemma MapIsLastWrites(s0: State, ts: seq<nat>, r: Receiver, fs: seq<FilterEntry>)
    requires Init(s0) && Schedule(s0, ts)
    ensures var s := Exec(s0, ts);
      (r in s.receivers && s.receivers[r] == fs) <==>
        || (exists j :: LastTouch(s.writes, j, r) && s.writes[j].call == Register(r, fs))
        || (Untouched(s.writes, r) && r in s0.receivers && s0.receivers[r] == fs)
  {
    NothingWritten(s0.receivers);
    InvInit(s0);
    HistoryAlways(s0.receivers, s0, ts);
    var s := Exec(s0, ts);
    assert (r in s.receivers && s.receivers[r] == fs) <==> Subscribed(s0.receivers, s.writes, r, fs);
  }

  /**
   Delivery, by the calls. A finished broadcast called back a receiver, once, if and only if it is not the sender and what it
   had subscribed to by the writes made before the broadcast was counted has an entry that lets the message through.
   */
  lemma DeliveryFollowsWrites(s0: State, ts: seq<nat>, i: nat)
    requires Init(s0) && Schedule(s0, ts) && i < |Exec(s0, ts).log|
    ensures var s := Exec(s0, ts); var d := s.log[i];
      && d.upTo <= |s.writes|
      && (forall r: Receiver :: r in d.reached <==>
            Some(r) != d.sender && exists fs :: Subscribed(s0.receivers, s.writes[..d.upTo], r, fs) && AnyMatch(fs, d.msg))
      && (forall j, k | 0 <= j < k < |d.reached| :: d.reached[j] != d.reached[k])
  {
    NothingWritten(s0.receivers);
    InvInit(s0);
    HistoryAlways(s0.receivers, s0, ts);
    DeliveryIsASnapshot(s0, ts, i);
    var s := Exec(s0, ts);
    var d := s.log[i];
    assert SnapIs(s0.receivers, s.writes, d.snap, d.upTo);
    hide Subscribed, Exec, Schedule, Inv, History;
    forall r: Receiver ensures r in d.reached <==>
      Some(r) != d.sender && exists fs :: Subscribed(s0.receivers, s.writes[..d.upTo], r, fs) && AnyMatch(fs, d.msg)
    {
      ReachedIff(s0.receivers, s.writes[..d.upTo], d.snap, r, d.msg);
    }
  }

  lemma ReachedIff(m0: Receivers, ws: seq<Written>, m: Receivers, r: Receiver, msg: Message)
    requires MapIs(m0, ws, m)
    ensures (r in m && AnyMatch(m[r], msg)) <==> exists fs :: Subscribed(m0, ws, r, fs) && AnyMatch(fs, msg)
  {
    hide Subscribed, AnyMatch;
    if r in m {
      assert Subscribed(m0, ws, r, m[r]);
    }
  }

  // ---------- every call takes effect exactly once ----------

  /** The calls whose change thread t has made, in order. */
  function WrittenBy(ws: seq<Written>, t: nat): seq<Call>
  {
    if ws == [] then []
    else WrittenBy(ws[..|ws| - 1], t) + (if ws[|ws| - 1].thread == t then [ws[|ws| - 1].call] else [])
  }

  /** The broadcasts thread t has finished, in order. */
  function SentBy(log: seq<Delivery>, t: nat): seq<Call>
  {
    if log == [] then []
    else
      var d := log[|log| - 1];
      SentBy(log[..|log| - 1], t) + (if d.thread == t then [Broadcast(d.sender, d.msg)] else [])
  }

  /** The calls that change the map, or those that do not. */
  function Only(calls: seq<Call>, broadcasts: bool): seq<Call>
  {
    if calls == [] then []
    else Only(calls[..|calls| - 1], broadcasts) + (if calls[|calls| - 1].Broadcast? == broadcasts then [calls[|calls| - 1]] else [])
  }

  lemma OnlyMore(calls: seq<Call>, n: nat, broadcasts: bool)
    requires n < |calls|
    ensures Only(calls[..n + 1], broadcasts) == Only(calls[..n], broadcasts) + (if calls[n].Broadcast? == broadcasts then [calls[n]] else [])
  {
    assert calls[..n + 1][..n] == calls[..n];
  }

  lemma WrittenMore(ws: seq<Written>, w: Written, t: nat)
    ensures WrittenBy(ws + [w], t) == WrittenBy(ws, t) + (if w.thread == t then [w.call] else [])
  {
    assert (ws + [w])[..|ws|] == ws;
  }

  lemma SentMore(log: seq<Delivery>, d: Delivery, t: nat)
    ensures SentBy(log + [d], t) == SentBy(log, t) + (if d.thread == t then [Broadcast(d.sender, d.msg)] else [])
  {
    assert (log + [d])[..|log|] == log;
  }

  /** Thread t has done its first `done` calls, each once: its changes are made, its broadcasts delivered; a change it has just made belongs to the call it is about to return from. */
  ghost predicate Effects(calls: seq<Call>, th: Thread, writes: seq<Written>, log: seq<Delivery>, t: nat)
  {
    && |th.todo| <= |calls|
    && var done := |calls| - |th.todo|;
    && th.todo == calls[done..]
    && WrittenBy(writes, t) == Only(calls[..done], false) + (if th.pc.WriteUnlock? && th.todo != [] then [th.todo[0]] else [])
    && SentBy(log, t) == Only(calls[..done], true)
  }

  /** The part of a step that Effects is about. */
  lemma EffectStep(s: State, t: nat)
    requires Shape(s) && Enabled(s, t)
    ensures var s', th := Step(s, t), s.threads[t];
      && t < |s'.threads|
      && (th.pc.Write? ==>
            && !th.todo[0].Broadcast? && s'.threads[t].pc.WriteUnlock? && s'.threads[t].todo == th.todo
            && s'.writes == s.writes + [Written(t, th.todo[0])] && s'.log == s.log)
      && (th.pc.WriteUnlock? ==>
            && !th.todo[0].Broadcast? && s'.threads[t].pc.Start? && s'.threads[t].todo == th.todo[1..]
            && s'.writes == s.writes && s'.log == s.log)
      && (th.pc.LeaveUnlock? ==>
            && th.todo[0].Broadcast? && s'.threads[t].pc.Start? && s'.threads[t].todo == th.todo[1..] && s'.writes == s.writes
            && s'.log == s.log + [Delivery(t, th.todo[0].sender, th.todo[0].msg, th.snap, th.seen, th.reached)])
      && (!th.pc.Write? && !th.pc.WriteUnlock? && !th.pc.LeaveUnlock? ==>
            !s'.threads[t].pc.WriteUnlock? && s'.threads[t].todo == th.todo && s'.writes == s.writes && s'.log == s.log)
  {
    assert ThreadShape(s.threads[t]);
  }

  lemma EffectsOwn(s: State, t: nat, calls: seq<Call>)
    requires Shape(s) && Enabled(s, t) && Effects(calls, s.threads[t], s.writes, s.log, t)
    ensures t < |Step(s, t).threads| && Effects(calls, Step(s, t).threads[t], Step(s, t).writes, Step(s, t).log, t)
  {
    EffectStep(s, t);
    var th, s' := s.threads[t], Step(s, t);
    var done := |calls| - |th.todo|;
    hide Step, Shape, WrittenBy, SentBy, Only;
    assert calls[done..][0] == calls[done] && calls[done..][1..] == calls[done + 1..];
    OnlyMore(calls, done, true);
    OnlyMore(calls, done, false);
    if th.pc.Write? {
      WrittenMore(s.writes, Written(t, th.todo[0]), t);
    } else if th.pc.LeaveUnlock? {
      SentMore(s.log, Delivery(t, th.todo[0].sender, th.todo[0].msg, th.snap, th.seen, th.reached), t);
    }
  }

  lemma EffectsOther(s: State, u: nat, t: nat, calls: seq<Call>)
    requires Shape(s) && Enabled(s, u) && t < |s.threads| && t != u && Effects(calls, s.threads[t], s.writes, s.log, t)
    ensures t < |Step(s, u).threads| && Effects(calls, Step(s, u).threads[t], Step(s, u).writes, Step(s, u).log, t)
  {
    EffectStep(s, u);
    OthersUnchanged(s, u);
    var th := s.threads[u];
    hide Step, Shape, WrittenBy, SentBy, Only;
    if th.pc.Write? {
      WrittenMore(s.writes, Written(u, th.todo[0]), t);
    } else if th.pc.LeaveUnlock? {
      SentMore(s.log, Delivery(u, th.todo[0].sender, th.todo[0].msg, th.snap, th.seen, th.reached), t);
    }
  }

  lemma {:induction false} EffectsAlways(s: State, ts: seq<nat>, t: nat, calls: seq<Call>)
    requires Inv(s) && Schedule(s, ts) && t < |s.threads| && Effects(calls, s.threads[t], s.writes, s.log, t)
    ensures var s' := Exec(s, ts); t < |s'.threads| && Effects(calls, s'.threads[t], s'.writes, s'.log, t)
    decreases |ts|
  {
    if ts != [] {
      if ts[0] == t {
        EffectsOwn(s, t, calls);
      } else {
        EffectsOther(s, ts[0], t, calls);
      }
      InvKept(s, ts[0]);
      EffectsAlways(Step(s, ts[0]), ts[1..], t, calls);
    }
  }

  /**
   Every call takes effect exactly once. In every schedule, the registers and unregisters a thread has returned from are the
   ones it has written, in its order, and the broadcasts it has returned from are the ones it has delivered; when all
   calls are over, that is every call it was given.
   */
  lemma EveryCallOnce(s0: State, ts: seq<nat>, t: nat)
    requires Init(s0) && Schedule(s0, ts) && t < |s0.threads|
    ensures var s := Exec(s0, ts); var calls := s0.threads[t].todo;
      && t < |s.threads| && Effects(calls, s.threads[t], s.writes, s.log, t)
      && (s.threads[t].todo == [] ==> WrittenBy(s.writes, t) == Only(calls, false) && SentBy(s.log, t) == Only(calls, true))
  {
    var calls := s0.threads[t].todo;
    assert calls[0..] == calls && calls[..0] == [] && calls[..|calls|] == calls;
    InvInit(s0);
    EffectsAlways(s0, ts, t, calls);
  }
}
