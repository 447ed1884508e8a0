/** The supervisor over whole runs: what it does to one running plugin between its start and the discovery of its death. */
module SupervisorRuns {
  import opened Common
  import opened Supervisor
  import PathGuard

  /** A pass that got past the database query. */
  predicate Completed(ev: Event)
  {
    ev.Turn? && ev.input.enabled.Some?
  }

  function CompletedCount(evs: seq<Event>): nat
  {
    if evs == [] then 0
    else CompletedCount(evs[..|evs| - 1]) + (if Completed(evs[|evs| - 1]) then 1 else 0)
  }

  /** No completed pass finds the entry's process dead. */
  ghost predicate Survives(evs: seq<Event>, e: nat)
  {
    forall k | 0 <= k < |evs| && Completed(evs[k]) :: e !in evs[k].input.dead
  }

  /** One pass keeps a surviving entry, its process and its record, merges its messages and moves its kill state. */
  lemma TurnKeeps(m: Mon, i: PassInput, e: nat)
    requires e in m.running && (i.enabled.Some? ==> e !in i.dead)
    ensures var m' := AfterPass(m, i);
      var old', merged := m.running[e], MergedEntry(m.running, m.messages, e);
      && e in m'.running && m'.messages == map[]
      && m'.running[e] == merged.(kill :=
           if i.enabled.Some? then NextKill(e, merged, i.enabled.value, i.maxStartup, i.now).0 else old'.kill)
  {
  }

  lemma SignalSent(m: Mon, i: PassInput, e: nat)
    requires e in m.running && i.enabled.Some? && e !in i.dead
    ensures var next := NextKill(e, MergedEntry(m.running, m.messages, e), i.enabled.value, i.maxStartup, i.now).1;
      && (next.Some? <==> e in PassSignals(m, i))
      && (next.Some? ==> PassSignals(m, i)[e] == next.value)
  {
  }

  // ---------- one pass, in full ----------

  /** The entry keeps its place in the table through the pass. */
  predicate Stays(m: Mon, i: PassInput, e: nat)
  {
    e in m.running && (i.enabled.Some? ==> e !in i.dead)
  }

  lemma StartedTable(running: Running, enabled: map<nat, Entry>, launched: map<nat, Launch>, e: nat)
    ensures var after := Started(running, enabled, launched); var starts := e in enabled && Startable(enabled[e]) && e in launched;
      && (e in after <==> e in running || starts)
      && (e in running ==> after[e] == running[e])
      && (e !in running && starts ==> after[e] == Monitoring(enabled[e], launched[e].pid, launched[e].time, 0, Alive))
  {
    hide Startable;
  }

  /**
   The table after a pass. An entry runs then if and only if it ran before and was not found dead by a pass that got through,
   or such a pass started it: it was enabled, its executable name has components that never climb above the directory and
   end below it, and its process came up. A survivor keeps its process and its record's origin; a started entry has a
   fresh record with no message, and has been sent no signal.
   */
  lemma PassTable(m: Mon, i: PassInput, e: nat)
    ensures var after := AfterPass(m, i).running;
      var starts := i.enabled.Some? && e in i.enabled.value && e in i.launched
        && PathGuard.Tokens(i.enabled.value[e].exeName) != [] && PathGuard.Accepts(PathGuard.Tokens(i.enabled.value[e].exeName));
      && AfterPass(m, i).messages == map[]
      && (e in after <==> Stays(m, i, e) || starts)
      && (Stays(m, i, e) ==>
            after[e].entry == m.running[e].entry && after[e].pid == m.running[e].pid && after[e].startTime == m.running[e].startTime)
      && (!Stays(m, i, e) && starts ==>
            after[e].entry == i.enabled.value[e] && after[e].pid == i.launched[e].pid && after[e].startTime == i.launched[e].time
            && after[e].lastReceived == 0 && after[e].kill == Alive)
  {
    if i.enabled.Some? {
      StartedTable(Laddered(Merged(m.running, m.messages) - i.dead, i.enabled.value, i.maxStartup, i.now), i.enabled.value, i.launched, e);
    }
    hide Started, MergedEntry, NextKill, PathGuard.Tokens, PathGuard.Accepts;
    MergedOrigin(m, e);
  }

  lemma MergedOrigin(m: Mon, e: nat)
    ensures e in Merged(m.running, m.messages) <==> e in m.running
    ensures e in m.running ==>
      var after := Merged(m.running, m.messages)[e];
      after.entry == m.running[e].entry && after.pid == m.running[e].pid && after.startTime == m.running[e].startTime && after.kill == m.running[e].kill
  {
    hide IsFirst;
  }

  /** The time of the latest message on record after the merge: the batch's, if the plugin is in it and no running entry of its id comes before this one. */
  ghost function LastHeard(m: Mon, e: nat): nat
    requires e in m.running
  {
    var id := m.running[e].entry.pluginId;
    if id in m.messages && (forall x | x in m.running && m.running[x].entry.pluginId == id :: e <= x) then m.messages[id].lastReceived
    else m.running[e].lastReceived
  }

  /**
   The checks of a pass, exactly. A survivor that has been sent no signal gets SIGTERM if and only if it is not enabled, or
   nothing was heard from it and its startup time is over, or something was heard, its recorded interval is not 0 and the
   interval now in force has passed since; otherwise it gets nothing and stays as it is.
   */
  lemma CondemnedIff(m: Mon, i: PassInput, e: nat)
    requires e in m.running && m.running[e].kill == Alive && i.enabled.Some? && e !in i.dead
    ensures var r, last := m.running[e], LastHeard(m, e);
      var condemned :=
        || e !in i.enabled.value
        || (last == 0 && r.startTime + i.maxStartup <= i.now)
        || (last != 0 && r.entry.maxMessageInterval != 0 && last + i.enabled.value[e].maxMessageInterval <= i.now);
      && (e in PassSignals(m, i) <==> condemned)
      && (condemned ==> PassSignals(m, i)[e] == SIGTERM)
      && e in AfterPass(m, i).running && AfterPass(m, i).running[e].kill == (if condemned then TermSent else Alive)
      && AfterPass(m, i).running[e].lastReceived == last
  {
    TurnKeeps(m, i, e);
    SignalSent(m, i, e);
    hide AfterPass, PassSignals;
  }

  // ---------- the kill ladder ----------

  function Rung(k: KillState): nat
  {
    match k case Alive => 0 case TermSent => 1 case IntSent => 2 case KillSent => 3
  }

  function Min(a: int, b: int): int { if a < b then a else b }

  /** What one pass does to the kill state and to the identity of a surviving process. */
  lemma TurnClimbs(m: Mon, i: PassInput, e: nat)
    requires e in m.running && (i.enabled.Some? ==> e !in i.dead)
    ensures var m' := AfterPass(m, i);
      && e in m'.running && m'.running[e].pid == m.running[e].pid
      && m'.running[e].entry == m.running[e].entry && m'.running[e].startTime == m.running[e].startTime
      && (i.enabled.None? ==> m'.running[e].kill == m.running[e].kill)
      && Rung(m.running[e].kill) <= Rung(m'.running[e].kill) <= Rung(m.running[e].kill) + 1
      && (i.enabled.Some? && m.running[e].kill != Alive ==> Rung(m'.running[e].kill) == Min(3, Rung(m.running[e].kill) + 1))
  {
    TurnKeeps(m, i, e);
    hide AfterPass, IsFirst, Overdue;
  }

  /** Within one process's life the kill state never goes back and climbs at most one rung per completed pass. */
  lemma {:induction false} LadderOnlyClimbs(m: Mon, evs: seq<Event>, e: nat)
    requires e in m.running && Survives(evs, e)
    ensures var m' := AfterAll(m, evs);
      && e in m'.running && m'.running[e].pid == m.running[e].pid
      && m'.running[e].entry == m.running[e].entry && m'.running[e].startTime == m.running[e].startTime
      && Rung(m.running[e].kill) <= Rung(m'.running[e].kill) <= Rung(m.running[e].kill) + CompletedCount(evs)
  {
    if evs != [] {
      var init, ev := evs[..|evs| - 1], evs[|evs| - 1];
      assert Survives(init, e);
      LadderOnlyClimbs(m, init, e);
      assert AfterAll(m, evs) == After(AfterAll(m, init), ev);
      if ev.Turn? {
        TurnClimbs(AfterAll(m, init), ev.input, e);
      }
      hide AfterAll, AfterPass, Survives, Rung;
    }
  }

  /** One event takes a condemned survivor up one rung if it is a completed pass, and leaves it where it is otherwise. */
  lemma CondemnedStep(m: Mon, ev: Event, e: nat)
    requires e in m.running && m.running[e].kill != Alive && (Completed(ev) ==> e !in ev.input.dead)
    ensures e in After(m, ev).running && After(m, ev).running[e].kill != Alive
    ensures Rung(After(m, ev).running[e].kill) == Min(3, Rung(m.running[e].kill) + (if Completed(ev) then 1 else 0))
  {
    if ev.Turn? {
      TurnClimbs(m, ev.input, e);
      hide AfterPass;
    }
  }

  lemma {:induction false} StaysCondemned(m: Mon, evs: seq<Event>, e: nat)
    requires e in m.running && m.running[e].kill != Alive && Survives(evs, e)
    ensures e in AfterAll(m, evs).running && AfterAll(m, evs).running[e].kill != Alive
    ensures Rung(AfterAll(m, evs).running[e].kill) == Min(3, Rung(m.running[e].kill) + CompletedCount(evs))
  {
    if evs == [] {
      assert Rung(m.running[e].kill) <= 3;
    } else {
      var init, ev := evs[..|evs| - 1], evs[|evs| - 1];
      assert Survives(init, e) && (Completed(ev) ==> e !in ev.input.dead);
      assert AfterAll(m, evs) == After(AfterAll(m, init), ev);
      assert CompletedCount(evs) == CompletedCount(init) + (if Completed(ev) then 1 else 0);
      hide AfterAll, After, Survives, Rung, Completed, CompletedCount;
      StaysCondemned(m, init, e);
      CondemnedStep(AfterAll(m, init), ev, e);
    }
  }

  /** A condemned process that stays alive climbs exactly one rung per completed pass, to the top and no further. */
  lemma CondemnedClimbs(m: Mon, evs: seq<Event>, e: nat)
    requires e in m.running && m.running[e].kill != Alive && Survives(evs, e)
    ensures var m' := AfterAll(m, evs);
      e in m'.running && Rung(m'.running[e].kill) == Min(3, Rung(m.running[e].kill) + CompletedCount(evs))
  {
    StaysCondemned(m, evs, e);
  }

  /** SIGKILL goes out in the second completed pass after the condemning one, whatever messages and failed passes lie between. */
  lemma KilledTwoPassesLater(m: Mon, evs: seq<Event>, i: PassInput, e: nat)
    requires e in m.running && m.running[e].kill == TermSent && Survives(evs, e) && CompletedCount(evs) == 1
    requires i.enabled.Some? && e !in i.dead
    ensures var before := AfterAll(m, evs);
      && e in PassSignals(before, i) && PassSignals(before, i)[e] == SIGKILL
      && e in AfterPass(before, i).running && AfterPass(before, i).running[e].kill == KillSent
  {
    CondemnedClimbs(m, evs, e);
    TurnKeeps(AfterAll(m, evs), i, e);
    SignalSent(AfterAll(m, evs), i, e);
  }

  /** The signals, in the order in which they are sent up the ladder. */
  const LADDER := [SIGTERM, SIGINT, SIGKILL]

  /** The signals a run sends to one entry's process. */
  ghost function SignalsTo(m: Mon, evs: seq<Event>, e: nat): seq<Signal>
  {
    if evs == [] then []
    else
      var init, ev := evs[..|evs| - 1], evs[|evs| - 1];
      SignalsTo(m, init, e)
        + (if ev.Turn? && e in PassSignals(AfterAll(m, init), ev.input) then [PassSignals(AfterAll(m, init), ev.input)[e]] else [])
  }

  /** A pass sends a signal exactly when it moves the process up, and then the signal of that rung. */
  lemma TurnSignals(m: Mon, i: PassInput, e: nat)
    requires e in m.running && (i.enabled.Some? ==> e !in i.dead)
    ensures var m', from := AfterPass(m, i), Rung(m.running[e].kill);
      && e in m'.running
      && (e in PassSignals(m, i) <==> Rung(m'.running[e].kill) == from + 1)
      && (e in PassSignals(m, i) ==> from < 3 && PassSignals(m, i)[e] == LADDER[from])
  {
    TurnKeeps(m, i, e);
    if i.enabled.Some? {
      SignalSent(m, i, e);
    }
    hide AfterPass, IsFirst, Overdue, SignalsOf;
  }

  /** Over any run in which a process survives, the signals it gets are exactly the rungs of the ladder from its old kill state to its new one, in order. */
  lemma {:induction false} SignalsFollowLadder(m: Mon, evs: seq<Event>, e: nat)
    requires e in m.running && Survives(evs, e)
    ensures var m' := AfterAll(m, evs);
      && e in m'.running && Rung(m.running[e].kill) <= Rung(m'.running[e].kill) <= 3
      && SignalsTo(m, evs, e) == LADDER[Rung(m.running[e].kill)..Rung(m'.running[e].kill)]
  {
    LadderOnlyClimbs(m, evs, e);
    if evs != [] {
      var init, ev := evs[..|evs| - 1], evs[|evs| - 1];
      assert Survives(init, e);
      SignalsFollowLadder(m, init, e);
      assert AfterAll(m, evs) == After(AfterAll(m, init), ev);
      var before, from := AfterAll(m, init), Rung(m.running[e].kill);
      hide AfterAll, AfterPass, PassSignals, Survives, Rung;
      if ev.Turn? {
        TurnSignals(before, ev.input, e);
        TurnClimbs(before, ev.input, e);
        var k := Rung(before.running[e].kill);
        if k < 3 {
          SliceMore(LADDER, from, k);
        }
      }
    }
  }

  // ---------- a plugin that is no longer enabled ----------

  /** No completed pass finds the entry enabled. */
  ghost predicate StaysDisabled(evs: seq<Event>, e: nat)
  {
    forall k | 0 <= k < |evs| && Completed(evs[k]) :: e !in evs[k].input.enabled.value
  }

  lemma DisabledStep(m: Mon, ev: Event, e: nat)
    requires e in m.running && (Completed(ev) ==> e !in ev.input.dead && e !in ev.input.enabled.value)
    ensures e in After(m, ev).running
    ensures Rung(After(m, ev).running[e].kill) == Min(3, Rung(m.running[e].kill) + (if Completed(ev) then 1 else 0))
  {
    if m.running[e].kill != Alive {
      CondemnedStep(m, ev, e);
    } else if ev.Turn? {
      TurnKeeps(m, ev.input, e);
      if ev.input.enabled.Some? {
        CondemnedIff(m, ev.input, e);
      }
      hide AfterPass;
    }
  }

  lemma {:induction false} DisabledClimbs(m: Mon, evs: seq<Event>, e: nat)
    requires e in m.running && Survives(evs, e) && StaysDisabled(evs, e)
    ensures e in AfterAll(m, evs).running
    ensures Rung(AfterAll(m, evs).running[e].kill) == Min(3, Rung(m.running[e].kill) + CompletedCount(evs))
  {
    if evs == [] {
      assert Rung(m.running[e].kill) <= 3;
    } else {
      var init, ev := evs[..|evs| - 1], evs[|evs| - 1];
      assert Survives(init, e) && StaysDisabled(init, e);
      assert Completed(ev) ==> e !in ev.input.dead && e !in ev.input.enabled.value;
      assert AfterAll(m, evs) == After(AfterAll(m, init), ev);
      assert CompletedCount(evs) == CompletedCount(init) + (if Completed(ev) then 1 else 0);
      hide AfterAll, After, Survives, StaysDisabled, Rung, CompletedCount;
      DisabledClimbs(m, init, e);
      DisabledStep(AfterAll(m, init), ev, e);
    }
  }

  /** A running plugin that is disabled or removed gets SIGTERM, SIGINT and SIGKILL in its next three completed passes, for as long as it survives and whatever it sends. */
  lemma DisabledIsKilled(m: Mon, evs: seq<Event>, e: nat)
    requires e in m.running && m.running[e].kill == Alive && Survives(evs, e) && StaysDisabled(evs, e)
    ensures SignalsTo(m, evs, e) == [SIGTERM, SIGINT, SIGKILL][..Min(3, CompletedCount(evs))]
  {
    SignalsFollowLadder(m, evs, e);
    DisabledClimbs(m, evs, e);
    hide AfterAll, SignalsTo, CompletedCount;
  }

  // ---------- the batch ----------

  ghost predicate From(evs: seq<Event>, j: int, src: nat)
  {
    0 <= j < |evs| && evs[j].Message? && evs[j].sourceId == src
  }

  /** What one more message does to the batch, seen from one source. */
  lemma BatchedAt(batch: Messages, sourceId: nat, rxTime: nat, src: nat)
    ensures var batch' := Batched(batch, sourceId, rxTime);
      && (src in batch' <==> src in batch || (sourceId == src && src != 0))
      && (src in batch && (sourceId != src || src == 0) ==> batch'[src] == batch[src])
      && (sourceId == src && src != 0 ==>
            batch'[src].lastReceived == rxTime && batch'[src].firstReceived == if src in batch then batch[src].firstReceived else rxTime)
  {
  }

  ghost predicate OnlyMessages(evs: seq<Event>)
  {
    forall j | 0 <= j < |evs| :: evs[j].Message?
  }

  /** The batch after one more message. */
  lemma BatchGrows(m: Mon, evs: seq<Event>, src: nat)
    requires OnlyMessages(evs) && evs != []
    ensures var init, last := evs[..|evs| - 1], evs[|evs| - 1];
      var batch, batch' := AfterAll(m, init).messages, AfterAll(m, evs).messages;
      && OnlyMessages(init) && last.Message?
      && (src in batch' <==> src in batch || (last.sourceId == src && src != 0))
      && (src in batch && (last.sourceId != src || src == 0) ==> batch'[src] == batch[src])
      && (last.sourceId == src && src != 0 ==>
            batch'[src].lastReceived == last.rxTime && batch'[src].firstReceived == if src in batch then batch[src].firstReceived else last.rxTime)
  {
    var init, last := evs[..|evs| - 1], evs[|evs| - 1];
    BatchedAt(AfterAll(m, init).messages, last.sourceId, last.rxTime, src);
    hide Batched;
  }

  lemma {:induction false} BatchMembers(m: Mon, evs: seq<Event>, src: nat)
    requires m.messages == map[] && OnlyMessages(evs)
    ensures src in AfterAll(m, evs).messages <==> src != 0 && exists j :: From(evs, j, src)
  {
    if evs != [] {
      var init, n := evs[..|evs| - 1], |evs| - 1;
      BatchGrows(m, evs, src);
      hide AfterAll, OnlyMessages;
      BatchMembers(m, init, src);
      if j :| From(init, j, src) {
        assert From(evs, j, src);
      }
      if j :| From(evs, j, src) {
        assert j == n || From(init, j, src);
      }
      assert evs[n].sourceId == src ==> From(evs, n, src);
    }
  }

  lemma {:induction false} BatchFirst(m: Mon, evs: seq<Event>, src: nat, j: nat)
    requires m.messages == map[] && OnlyMessages(evs) && src != 0 && From(evs, j, src) && forall i | 0 <= i < j :: !From(evs, i, src)
    ensures src in AfterAll(m, evs).messages && AfterAll(m, evs).messages[src].firstReceived == evs[j].rxTime
  {
    var init, n := evs[..|evs| - 1], |evs| - 1;
    BatchGrows(m, evs, src);
    BatchMembers(m, init, src);
    hide AfterAll, OnlyMessages;
    assert forall i | From(init, i, src) :: From(evs, i, src) && i < n;
    if j < n {
      assert From(init, j, src);
      BatchFirst(m, init, src, j);
    }
  }

  lemma {:induction false} BatchLast(m: Mon, evs: seq<Event>, src: nat, j: nat)
    requires m.messages == map[] && OnlyMessages(evs) && src != 0 && From(evs, j, src) && forall i | j < i < |evs| :: !From(evs, i, src)
    ensures src in AfterAll(m, evs).messages && AfterAll(m, evs).messages[src].lastReceived == evs[j].rxTime
  {
    var init, n := evs[..|evs| - 1], |evs| - 1;
    BatchGrows(m, evs, src);
    hide AfterAll, OnlyMessages;
    if j < n {
      assert From(init, j, src) && !From(evs, n, src) && forall i | j < i < n :: From(init, i, src) ==> From(evs, i, src);
      BatchLast(m, init, src, j);
    }
  }

  /** Between two passes the batch holds exactly the sources that sent something, other than 0, with the times of the first and of the last message of each. */
  lemma BatchIsFirstAndLast(m: Mon, evs: seq<Event>, src: nat)
    requires m.messages == map[] && forall j | 0 <= j < |evs| :: evs[j].Message?
    ensures var batch := AfterAll(m, evs).messages;
      && (src in batch <==> src != 0 && exists j :: From(evs, j, src))
      && (forall j | src != 0 && From(evs, j, src) && (forall i | 0 <= i < j :: !From(evs, i, src)) :: batch[src].firstReceived == evs[j].rxTime)
      && (forall j | src != 0 && From(evs, j, src) && (forall i | j < i < |evs| :: !From(evs, i, src)) :: batch[src].lastReceived == evs[j].rxTime)
  {
    hide AfterAll;
    BatchMembers(m, evs, src);
    var batch := AfterAll(m, evs).messages;
    forall j | src != 0 && From(evs, j, src) && (forall i | 0 <= i < j :: !From(evs, i, src)) ensures batch[src].firstReceived == evs[j].rxTime {
      BatchFirst(m, evs, src, j);
    }
    forall j | src != 0 && From(evs, j, src) && (forall i | j < i < |evs| :: !From(evs, i, src)) ensures batch[src].lastReceived == evs[j].rxTime {
      BatchLast(m, evs, src, j);
    }
  }

  // ---------- message times ----------

  /** What a plugin's own messages amount to: the time last merged, and the time waiting in the batch. */
  datatype Ear = Ear(last: nat, batch: Option<nat>)

  /** A pass empties the batch; the entry takes the time from it only when it is the first running entry of its plugin id. */
  function Hear(ear: Ear, ev: Event, src: nat, first: bool): Ear
  {
    match ev
    case Message(s, t) => if s == src then ear.(batch := Some(t)) else ear
    case Turn(_) => Ear(AfterMerge(ear, first), None)
  }

  function AfterMerge(ear: Ear, first: bool): nat
  {
    if first && ear.batch.Some? then ear.batch.value else ear.last
  }

  /** What has been heard after the first k events. */
  function HearTo(ear: Ear, evs: seq<Event>, src: nat, firsts: seq<bool>, k: nat): Ear
    requires k <= |evs| == |firsts|
  {
    if k == 0 then ear else Hear(HearTo(ear, evs, src, firsts, k - 1), evs[k - 1], src, firsts[k - 1])
  }

  ghost function EarOf(m: Mon, e: nat): Ear
    requires e in m.running
  {
    var id := m.running[e].entry.pluginId;
    Ear(m.running[e].lastReceived, if id in m.messages then Some(m.messages[id].lastReceived) else None)
  }

  /** For every event of a run, whether the entry is then the first running one of its plugin id. */
  ghost function Firsts(m: Mon, evs: seq<Event>, e: nat): (firsts: seq<bool>)
    ensures |firsts| == |evs| && forall k | 0 <= k < |evs| :: firsts[k] == IsFirst(AfterAll(m, evs[..k]).running, e)
  {
    seq(|evs|, k requires 0 <= k < |evs| => IsFirst(AfterAll(m, evs[..k]).running, e))
  }

  /** The record of a running entry is a function of its own messages and of when it was first of its id: the latest message batched, once merged. */
  lemma {:induction false} TracksLatest(m: Mon, evs: seq<Event>, e: nat, k: nat)
    requires e in m.running && Survives(evs, e) && m.running[e].entry.pluginId != 0 && k <= |evs|
    ensures e in AfterAll(m, evs[..k]).running
    ensures EarOf(AfterAll(m, evs[..k]), e) == HearTo(EarOf(m, e), evs, m.running[e].entry.pluginId, Firsts(m, evs, e), k)
  {
    assert Survives(evs[..k], e);
    LadderOnlyClimbs(m, evs[..k], e);
    if k > 0 {
      TracksLatest(m, evs, e, k - 1);
      assert evs[..k][..k - 1] == evs[..k - 1];
      assert Survives(evs[..k - 1], e);
      LadderOnlyClimbs(m, evs[..k - 1], e);
      var before, ev := AfterAll(m, evs[..k - 1]), evs[k - 1];
      assert AfterAll(m, evs[..k]) == After(before, ev);
      if ev.Turn? {
        TurnKeeps(before, ev.input, e);
      }
      hide AfterAll, Survives, AfterPass;
    }
  }

  // ---------- never condemned ----------

  /** No pass lies strictly between two events. */
  ghost predicate NoTurnBetween(evs: seq<Event>, j: int, t: int)
  {
    forall i | 0 <= i < |evs| && j < i < t :: !evs[i].Turn?
  }

  /** Message j is merged into the record by the pass at t: it is the next pass, and the entry is then first of its id. */
  ghost predicate Reaches(evs: seq<Event>, firsts: seq<bool>, j: int, t: int, src: nat)
    requires |firsts| == |evs|
  {
    From(evs, j, src) && j < t < |evs| && evs[t].Turn? && firsts[t] && NoTurnBetween(evs, j, t)
  }

  /** The clock does not run backwards between messages of one plugin, and is never 0. */
  ghost predicate InOrder(ear: Ear, evs: seq<Event>, src: nat)
  {
    && (forall j | From(evs, j, src) :: evs[j].rxTime > 0 && ear.last <= evs[j].rxTime)
    && (forall j | From(evs, j, src) :: ear.batch.Some? ==> ear.batch.value <= evs[j].rxTime)
    && (ear.batch.Some? ==> ear.last <= ear.batch.value)
    && (forall i, j | From(evs, i, src) && From(evs, j, src) && i < j :: evs[i].rxTime <= evs[j].rxTime)
  }

  /** What has been heard is never later than what is still to come. */
  lemma {:induction false} HeardBefore(ear: Ear, evs: seq<Event>, src: nat, firsts: seq<bool>, k: nat)
    requires k <= |evs| == |firsts| && InOrder(ear, evs, src)
    ensures var h := HearTo(ear, evs, src, firsts, k);
      && (h.batch.Some? ==> h.last <= h.batch.value)
      && forall j | From(evs, j, src) && k <= j :: h.last <= evs[j].rxTime && (h.batch.Some? ==> h.batch.value <= evs[j].rxTime)
  {
    if k > 0 {
      HeardBefore(ear, evs, src, firsts, k - 1);
      if evs[k - 1].Message? && evs[k - 1].sourceId == src {
        assert From(evs, k - 1, src);
      }
    }
  }

  /** A message since the last pass is in the batch, or a later one is. */
  lemma {:induction false} Batches(ear: Ear, evs: seq<Event>, src: nat, firsts: seq<bool>, k: nat, j: nat)
    requires k <= |evs| == |firsts| && InOrder(ear, evs, src) && From(evs, j, src) && j < k && NoTurnBetween(evs, j, k)
    ensures var h := HearTo(ear, evs, src, firsts, k); h.batch.Some? && evs[j].rxTime <= h.batch.value
  {
    if j < k - 1 {
      Batches(ear, evs, src, firsts, k - 1, j);
      if evs[k - 1].Message? && evs[k - 1].sourceId == src {
        assert From(evs, k - 1, src);
      }
    }
  }

  /** Once merged, a message stays a lower bound of the record. */
  lemma {:induction false} ReachedStays(ear: Ear, evs: seq<Event>, src: nat, firsts: seq<bool>, j: nat, t: nat, k: nat)
    requires t <= k < |evs| == |firsts| && InOrder(ear, evs, src) && Reaches(evs, firsts, j, t, src)
    ensures evs[j].rxTime <= AfterMerge(HearTo(ear, evs, src, firsts, k), firsts[k])
    decreases k
  {
    if t == k {
      Batches(ear, evs, src, firsts, k, j);
    } else {
      ReachedStays(ear, evs, src, firsts, j, t, k - 1);
      HeardBefore(ear, evs, src, firsts, k);
      if evs[k - 1].Message? {
        HeardBefore(ear, evs, src, firsts, k - 1);
        StillThere(ear, evs, src, firsts, j, t, k);
      }
    }
  }

  /** The time last merged does not go back. */
  lemma {:induction false} StillThere(ear: Ear, evs: seq<Event>, src: nat, firsts: seq<bool>, j: nat, t: nat, k: nat)
    requires t < k <= |evs| == |firsts| && InOrder(ear, evs, src) && Reaches(evs, firsts, j, t, src)
    ensures evs[j].rxTime <= HearTo(ear, evs, src, firsts, k).last
    decreases k
  {
    if t == k - 1 {
      Batches(ear, evs, src, firsts, k - 1, j);
    } else {
      StillThere(ear, evs, src, firsts, j, t, k - 1);
      HeardBefore(ear, evs, src, firsts, k - 1);
    }
  }

  /** What is in the batch came after the last pass. */
  lemma {:induction false} BatchOrigin(evs: seq<Event>, src: nat, firsts: seq<bool>, k: nat)
    requires k <= |evs| == |firsts| && HearTo(Ear(0, None), evs, src, firsts, k).batch.Some?
    ensures exists j :: From(evs, j, src) && j < k && NoTurnBetween(evs, j, k)
  {
    if evs[k - 1].Message? && evs[k - 1].sourceId == src {
      assert From(evs, k - 1, src);
    } else {
      BatchOrigin(evs, src, firsts, k - 1);
      var j :| From(evs, j, src) && j < k - 1 && NoTurnBetween(evs, j, k - 1);
      assert NoTurnBetween(evs, j, k);
    }
  }

  /** The pass at k merges nothing unless a message reaches it. */
  lemma MergesReached(evs: seq<Event>, src: nat, firsts: seq<bool>, k: nat)
    requires k < |evs| == |firsts| && evs[k].Turn?
    ensures var h := HearTo(Ear(0, None), evs, src, firsts, k);
      AfterMerge(h, firsts[k]) == h.last || exists j :: Reaches(evs, firsts, j, k, src)
  {
    if firsts[k] && HearTo(Ear(0, None), evs, src, firsts, k).batch.Some? {
      BatchOrigin(evs, src, firsts, k);
      var j :| From(evs, j, src) && j < k && NoTurnBetween(evs, j, k);
      assert Reaches(evs, firsts, j, k, src);
    }
  }

  lemma {:induction false} NothingReached(evs: seq<Event>, src: nat, firsts: seq<bool>, k: nat)
    requires k <= |evs| == |firsts| && forall j, t | Reaches(evs, firsts, j, t, src) :: t >= k
    ensures HearTo(Ear(0, None), evs, src, firsts, k).last == 0
  {
    if k > 0 {
      NothingReached(evs, src, firsts, k - 1);
      if evs[k - 1].Turn? {
        MergesReached(evs, src, firsts, k - 1);
      }
    }
  }

  /** At every completed pass the plugin is enabled with its recorded non-zero interval. */
  ghost predicate StaysEnabled(evs: seq<Event>, e: nat, interval: nat)
  {
    forall k | 0 <= k < |evs| && Completed(evs[k]) ::
      e in evs[k].input.enabled.value && evs[k].input.enabled.value[e].maxMessageInterval == interval
  }

  /** A message counts: any does when there is no interval, else one sent at most `gap` before the swap, checked at most `delay` after it. */
  predicate InTime(interval: nat, sent: nat, swap: nat, now: nat, gap: nat, delay: nat)
  {
    interval == 0 || (swap <= sent + gap && now <= swap + delay)
  }

  /**
   At every completed pass, with the batch swapped at time swap[k] and the check made at most `delay` later, a message sent
   at most `gap` before the swap has been merged, or any message at all if the interval is 0; or none has been merged yet
   and the startup time is not over.
   */
  ghost predicate Talks(m: Mon, evs: seq<Event>, e: nat, swap: seq<nat>, gap: nat, delay: nat)
    requires e in m.running && |swap| == |evs|
  {
    forall k | 0 <= k < |evs| && Completed(evs[k]) ::
      var i := evs[k].input; var src := m.running[e].entry.pluginId;
      || (exists j, t :: Reaches(evs, Firsts(m, evs, e), j, t, src) && t <= k
            && InTime(m.running[e].entry.maxMessageInterval, evs[j].rxTime, swap[k], i.now, gap, delay))
      || ((forall j, t | Reaches(evs, Firsts(m, evs, e), j, t, src) :: t > k) && i.now < m.running[e].startTime + i.maxStartup)
  }

  /** A talking plugin is never condemned. */
  lemma {:induction false} TalkingIsNeverCondemned(m: Mon, evs: seq<Event>, e: nat, swap: seq<nat>, gap: nat, delay: nat, n: nat)
    requires e in m.running && m.running[e].kill == Alive && m.running[e].entry.pluginId != 0
    requires EarOf(m, e) == Ear(0, None) && Survives(evs, e)
    requires StaysEnabled(evs, e, m.running[e].entry.maxMessageInterval)
    requires InOrder(EarOf(m, e), evs, m.running[e].entry.pluginId)
    requires |swap| == |evs| && Talks(m, evs, e, swap, gap, delay)
    requires m.running[e].entry.maxMessageInterval == 0 || gap + delay < m.running[e].entry.maxMessageInterval
    requires n <= |evs|
    ensures e in AfterAll(m, evs[..n]).running && AfterAll(m, evs[..n]).running[e].kill == Alive
  {
    if n > 0 {
      TalkingIsNeverCondemned(m, evs, e, swap, gap, delay, n - 1);
      var before := AfterAll(m, evs[..n - 1]);
      assert evs[..n][..n - 1] == evs[..n - 1];
      LadderOnlyClimbs(m, evs[..n - 1], e);
      if evs[n - 1].Turn? {
        TurnKeeps(before, evs[n - 1].input, e);
        if Completed(evs[n - 1]) {
          NotOverdue(m, evs, e, swap, gap, delay, n - 1);
        }
      }
    }
  }

  /** The check of one completed pass of a talking plugin. */
  lemma NotOverdue(m: Mon, evs: seq<Event>, e: nat, swap: seq<nat>, gap: nat, delay: nat, k: nat)
    requires e in m.running && m.running[e].entry.pluginId != 0 && EarOf(m, e) == Ear(0, None)
    requires Survives(evs, e) && StaysEnabled(evs, e, m.running[e].entry.maxMessageInterval)
    requires InOrder(EarOf(m, e), evs, m.running[e].entry.pluginId)
    requires |swap| == |evs| && Talks(m, evs, e, swap, gap, delay)
    requires m.running[e].entry.maxMessageInterval == 0 || gap + delay < m.running[e].entry.maxMessageInterval
    requires k < |evs| && Completed(evs[k])
    ensures var before := AfterAll(m, evs[..k]); var i := evs[k].input;
      e in before.running && !Overdue(e, MergedEntry(before.running, before.messages, e), i.enabled.value, i.maxStartup, i.now)
  {
    var src, i, firsts := m.running[e].entry.pluginId, evs[k].input, Firsts(m, evs, e);
    MergedTime(m, evs, e, k);
    hide AfterAll, MergedEntry, HearTo, Survives;
    var interval := m.running[e].entry.maxMessageInterval;
    if j, t :| Reaches(evs, firsts, j, t, src) && t <= k && InTime(interval, evs[j].rxTime, swap[k], i.now, gap, delay) {
      ReachedStays(EarOf(m, e), evs, src, firsts, j, t, k);
      assert From(evs, j, src);
    } else {
      NothingReached(evs, src, firsts, k);
      MergesReached(evs, src, firsts, k);
    }
  }

  /** The record at the check of pass k. */
  lemma MergedTime(m: Mon, evs: seq<Event>, e: nat, k: nat)
    requires e in m.running && m.running[e].entry.pluginId != 0 && Survives(evs, e) && k < |evs|
    ensures e in AfterAll(m, evs[..k]).running
    ensures var before := AfterAll(m, evs[..k]);
      var h := HearTo(EarOf(m, e), evs, m.running[e].entry.pluginId, Firsts(m, evs, e), k);
      var merged := MergedEntry(before.running, before.messages, e);
      && merged.lastReceived == AfterMerge(h, Firsts(m, evs, e)[k])
      && merged.entry == m.running[e].entry && merged.startTime == m.running[e].startTime
  {
    assert Survives(evs[..k], e);
    TracksLatest(m, evs, e, k);
    LadderOnlyClimbs(m, evs[..k], e);
  }

  // ---------- silence ----------

  /** At no pass does the entry take a time from the batch: nothing from its plugin is in it, or another entry is first of that id. */
  ghost predicate Unheard(m: Mon, evs: seq<Event>, e: nat)
    requires e in m.running
  {
    forall k | 0 <= k < |evs| && evs[k].Turn? :: Deaf(AfterAll(m, evs[..k]), e, m.running[e].entry.pluginId)
  }

  ghost predicate Deaf(m: Mon, e: nat, src: nat)
  {
    src !in m.messages || !IsFirst(m.running, e)
  }

  ghost predicate Silent(evs: seq<Event>, src: nat)
  {
    forall j | 0 <= j < |evs| :: evs[j].Message? ==> evs[j].sourceId != src
  }

  /** When an unheard plugin is due: after its startup time, or its interval after the last message; never if it was heard and has no interval. */
  function Deadline(m: Monitoring, maxStartup: nat): Option<nat>
  {
    if m.lastReceived == 0 then Some(m.startTime + maxStartup)
    else if m.entry.maxMessageInterval == 0 then None
    else Some(m.lastReceived + m.entry.maxMessageInterval)
  }

  predicate DueAt(m: Monitoring, i: PassInput)
  {
    var deadline := Deadline(m, i.maxStartup);
    deadline.Some? && deadline.value <= i.now
  }

  /** Every completed pass checks before the deadline. */
  ghost predicate NotDueIn(evs: seq<Event>, m: Monitoring)
  {
    forall k | 0 <= k < |evs| && Completed(evs[k]) :: !DueAt(m, evs[k].input)
  }

  lemma UnheardPrefix(m: Mon, evs: seq<Event>, e: nat, n: nat)
    requires e in m.running && Unheard(m, evs, e) && n <= |evs|
    ensures Unheard(m, evs[..n], e)
  {
    forall k | 0 <= k < n && evs[..n][k].Turn? ensures Deaf(AfterAll(m, evs[..n][..k]), e, m.running[e].entry.pluginId) {
      assert evs[..n][..k] == evs[..k];
    }
  }

  /** An unheard plugin is left alone by every completed pass before its deadline. */
  lemma {:induction false} UnheardBeforeDeadline(m: Mon, evs: seq<Event>, e: nat)
    requires e in m.running && m.running[e].kill == Alive && Survives(evs, e) && Unheard(m, evs, e)
    requires StaysEnabled(evs, e, m.running[e].entry.maxMessageInterval)
    requires NotDueIn(evs, m.running[e])
    ensures e in AfterAll(m, evs).running && AfterAll(m, evs).running[e] == m.running[e]
  {
    if evs != [] {
      var init, ev := evs[..|evs| - 1], evs[|evs| - 1];
      UnheardPrefix(m, evs, e, |evs| - 1);
      UnheardBeforeDeadline(m, init, e);
      if ev.Turn? {
        assert Deaf(AfterAll(m, init), e, m.running[e].entry.pluginId);
        TurnKeeps(AfterAll(m, init), ev.input, e);
        hide AfterPass, IsFirst;
      }
    }
  }

  /** And is condemned, with SIGTERM, by the first completed pass at or after it. */
  lemma UnheardIsCondemned(m: Mon, evs: seq<Event>, i: PassInput, e: nat)
    requires e in m.running && m.running[e].kill == Alive && Survives(evs, e)
    requires Unheard(m, evs, e) && Deaf(AfterAll(m, evs), e, m.running[e].entry.pluginId)
    requires StaysEnabled(evs, e, m.running[e].entry.maxMessageInterval)
    requires NotDueIn(evs, m.running[e])
    requires i.enabled.Some? && e !in i.dead && e in i.enabled.value
    requires i.enabled.value[e].maxMessageInterval == m.running[e].entry.maxMessageInterval && DueAt(m.running[e], i)
    ensures var before := AfterAll(m, evs);
      && e in AfterPass(before, i).running && AfterPass(before, i).running[e].kill == TermSent
      && e in PassSignals(before, i) && PassSignals(before, i)[e] == SIGTERM
  {
    UnheardBeforeDeadline(m, evs, e);
    TurnKeeps(AfterAll(m, evs), i, e);
    SignalSent(AfterAll(m, evs), i, e);
    hide AfterAll, AfterPass, PassSignals, IsFirst, Survives;
  }

  /** A plugin without an interval that has been heard once is left alone for good, however silent it is from then on. */
  lemma HeardOnceIsEnough(m: Mon, evs: seq<Event>, e: nat)
    requires e in m.running && m.running[e].kill == Alive && Survives(evs, e) && Unheard(m, evs, e)
    requires m.running[e].lastReceived != 0 && m.running[e].entry.maxMessageInterval == 0 && StaysEnabled(evs, e, 0)
    ensures e in AfterAll(m, evs).running && AfterAll(m, evs).running[e] == m.running[e]
  {
    UnheardBeforeDeadline(m, evs, e);
  }

  /** A plugin that sends nothing is unheard. */
  lemma {:induction false} SilentIsUnheard(m: Mon, evs: seq<Event>, e: nat)
    requires e in m.running && m.running[e].entry.pluginId !in m.messages && Silent(evs, m.running[e].entry.pluginId)
    ensures Unheard(m, evs, e) && m.running[e].entry.pluginId !in AfterAll(m, evs).messages
  {
    if evs != [] {
      var init := evs[..|evs| - 1];
      SilentIsUnheard(m, init, e);
      forall k | 0 <= k < |evs| && evs[k].Turn? ensures Deaf(AfterAll(m, evs[..k]), e, m.running[e].entry.pluginId) {
        if k < |init| {
          assert evs[k] == init[k] && evs[..k] == init[..k];
        } else {
          assert evs[..k] == init;
        }
      }
    }
  }

  /** A silent plugin is left alone before its deadline. */
  lemma SilentBeforeDeadline(m: Mon, evs: seq<Event>, e: nat)
    requires e in m.running && m.running[e].kill == Alive && m.running[e].entry.pluginId !in m.messages
    requires Survives(evs, e) && Silent(evs, m.running[e].entry.pluginId)
    requires StaysEnabled(evs, e, m.running[e].entry.maxMessageInterval)
    requires NotDueIn(evs, m.running[e])
    ensures e in AfterAll(m, evs).running && AfterAll(m, evs).running[e] == m.running[e]
  {
    SilentIsUnheard(m, evs, e);
    UnheardBeforeDeadline(m, evs, e);
  }

  /** And condemned by the first completed pass at or after it. */
  lemma SilentIsCondemned(m: Mon, evs: seq<Event>, i: PassInput, e: nat)
    requires e in m.running && m.running[e].kill == Alive && m.running[e].entry.pluginId !in m.messages
    requires Survives(evs, e) && Silent(evs, m.running[e].entry.pluginId)
    requires StaysEnabled(evs, e, m.running[e].entry.maxMessageInterval)
    requires NotDueIn(evs, m.running[e])
    requires i.enabled.Some? && e !in i.dead && e in i.enabled.value
    requires i.enabled.value[e].maxMessageInterval == m.running[e].entry.maxMessageInterval && DueAt(m.running[e], i)
    ensures var before := AfterAll(m, evs);
      && e in AfterPass(before, i).running && AfterPass(before, i).running[e].kill == TermSent
      && e in PassSignals(before, i) && PassSignals(before, i)[e] == SIGTERM
  {
    SilentIsUnheard(m, evs, e);
    UnheardIsCondemned(m, evs, i, e);
  }

  /**
   An entry that shares its plugin id with a running entry before it is as good as silent: however much the plugin sends, it
   is condemned at its deadline.
   */
  lemma ShadowedIsCondemned(m: Mon, evs: seq<Event>, i: PassInput, e: nat, other: nat)
    requires e in m.running && m.running[e].kill == Alive && Survives(evs, e)
    requires other < e && other in m.running && Survives(evs, other) && m.running[other].entry.pluginId == m.running[e].entry.pluginId
    requires StaysEnabled(evs, e, m.running[e].entry.maxMessageInterval)
    requires NotDueIn(evs, m.running[e])
    requires i.enabled.Some? && e !in i.dead && e in i.enabled.value
    requires i.enabled.value[e].maxMessageInterval == m.running[e].entry.maxMessageInterval && DueAt(m.running[e], i)
    ensures var before := AfterAll(m, evs);
      && e in AfterPass(before, i).running && AfterPass(before, i).running[e].kill == TermSent
      && e in PassSignals(before, i) && PassSignals(before, i)[e] == SIGTERM
  {
    forall k | 0 <= k <= |evs| ensures Deaf(AfterAll(m, evs[..k]), e, m.running[e].entry.pluginId) {
      NeverFirst(m, evs, e, other, k);
    }
    assert evs[..|evs|] == evs;
    UnheardIsCondemned(m, evs, i, e);
  }

  lemma NeverFirst(m: Mon, evs: seq<Event>, e: nat, other: nat, k: nat)
    requires e in m.running && other < e && other in m.running && m.running[other].entry.pluginId == m.running[e].entry.pluginId
    requires Survives(evs, e) && Survives(evs, other) && k <= |evs|
    ensures !IsFirst(AfterAll(m, evs[..k]).running, e)
  {
    assert Survives(evs[..k], e) && Survives(evs[..k], other);
    LadderOnlyClimbs(m, evs[..k], e);
    LadderOnlyClimbs(m, evs[..k], other);
    hide AfterAll;
  }
}
