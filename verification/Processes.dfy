/** The supervisor's passes and the processes they watch: every pass is a run of the process table's steps. */
module Processes {
  import opened Common
  import Supervisor
  import Instances

  type Os = Instances.State

  ghost function Pids(running: Supervisor.Running): map<nat, nat>
  {
    map e | e in running :: running[e].pid
  }

  // ---------- the sweep ----------

  ghost function EndedOf(os: Os, todo: set<nat>): set<nat>
  {
    set e | e in todo && Instances.Ended(os, e)
  }

  /** The table after the sweep of some entries: ended processes are collected and forgotten. */
  ghost function Swept(os: Os, todo: set<nat>): Os
  {
    var ended := EndedOf(os, todo);
    Instances.State(os.running - ended, os.procs - (set e | e in ended && e in os.running :: os.running[e]))
  }

  lemma SweepOne(os: Os, e: nat)
    requires Instances.Owned(os) && e in os.running
    ensures Instances.Step(Instances.Step(os, Instances.Wait(e)), Instances.Check(e)) == Swept(os, {e})
    ensures Instances.Owned(Swept(os, {e}))
  {
    var s, t := Instances.Step(Instances.Step(os, Instances.Wait(e)), Instances.Check(e)), Swept(os, {e});
    assert EndedOf(os, {e}) == if Instances.Ended(os, e) then {e} else {};
    assert s.running == t.running && s.procs == t.procs;
  }

  lemma SweepMore(os: Os, e: nat, todo: set<nat>)
    requires Instances.Owned(os) && e in os.running && e in todo && todo <= os.running.Keys
    ensures Swept(Swept(os, {e}), todo - {e}) == Swept(os, todo)
    ensures todo - {e} <= Swept(os, {e}).running.Keys
  {
    var mid := Swept(os, {e});
    assert forall x | x in todo - {e} :: mid.running[x] == os.running[x] != os.running[e];
    assert forall x | x in todo - {e} :: Instances.Ended(mid, x) <==> Instances.Ended(os, x);
    assert EndedOf(os, todo) == EndedOf(os, {e}) + EndedOf(mid, todo - {e});
    var a, b := Swept(mid, todo - {e}), Swept(os, todo);
    assert a.running == b.running && a.procs == b.procs;
  }

  /** The calls of a sweep: no process is started meanwhile. */
  ghost predicate Sweeps(acts: seq<Instances.Action>)
  {
    forall k | 0 <= k < |acts| :: !acts[k].Start?
  }

  lemma {:induction false} SweepRun(os: Os, todo: set<nat>) returns (acts: seq<Instances.Action>)
    requires Instances.Owned(os) && todo <= os.running.Keys
    ensures Instances.Run(os, acts) && Sweeps(acts) && Instances.Exec(os, acts) == Swept(os, todo)
    decreases |todo|
  {
    if todo == {} {
      acts := [];
      assert Swept(os, todo) == os;
    } else {
      var e :| e in todo;
      SweepOne(os, e);
      SweepMore(os, e, todo);
      hide Instances.Owned, Swept;
      var rest := SweepRun(Swept(os, {e}), todo - {e});
      Instances.Prepend(Instances.Step(os, Instances.Wait(e)), Instances.Check(e), rest);
      Instances.Prepend(os, Instances.Wait(e), [Instances.Check(e)] + rest);
      acts := [Instances.Wait(e)] + ([Instances.Check(e)] + rest);
    }
  }

  // ---------- the starts ----------

  ghost predicate Fresh(os: Os, launches: map<nat, nat>)
  {
    && (forall e | e in launches :: e !in os.running && launches[e] !in os.procs)
    && (forall e, f | e in launches && f in launches && launches[e] == launches[f] :: e == f)
  }

  /** What the table is after these entries were started: their pids are live processes of theirs, and nothing else has changed. */
  ghost predicate Born(os: Os, launches: map<nat, nat>, os': Os)
  {
    && os'.running == os.running + launches
    && (forall p :: p in os'.procs <==> p in os.procs || exists e :: e in launches && launches[e] == p)
    && (forall p | p in os.procs :: p in os'.procs && os'.procs[p] == os.procs[p])
    && (forall e | e in launches :: launches[e] in os'.procs && os'.procs[launches[e]] == Instances.Proc(Some(e), false))
  }

  /** The calls that follow a sweep: nothing is collected or forgotten meanwhile. */
  ghost predicate Starts(acts: seq<Instances.Action>)
  {
    forall k | 0 <= k < |acts| :: !acts[k].Wait? && !acts[k].Check?
  }

  lemma BornOne(os: Os, launches: map<nat, nat>, e: nat)
    requires Fresh(os, launches) && e in launches
    ensures Instances.Enabled(os, Instances.Start(e, launches[e]))
    ensures Fresh(Instances.Step(os, Instances.Start(e, launches[e])), launches - {e})
  {
    var less := launches - {e};
    assert forall x | x in less :: x in launches && x != e && less[x] == launches[x] != launches[e];
  }

  lemma BornMore(os: Os, launches: map<nat, nat>, e: nat, os': Os)
    requires Fresh(os, launches) && e in launches
    requires Born(Instances.State(os.running[e := launches[e]], os.procs[launches[e] := Instances.Proc(Some(e), false)]), launches - {e}, os')
    ensures Born(os, launches, os')
  {
    hide Born, Fresh;
    BornTable(os, launches, e, os');
    BornMembers(os, launches, e, os');
    BornKeeps(os, launches, e, os');
    BornFrom(os, launches, os');
  }

  lemma BornFrom(os: Os, launches: map<nat, nat>, os': Os)
    requires os'.running == os.running + launches
    requires forall p :: p in os'.procs <==> p in os.procs || exists e :: e in launches && launches[e] == p
    requires forall p | p in os.procs :: p in os'.procs && os'.procs[p] == os.procs[p]
    requires forall e | e in launches :: launches[e] in os'.procs && os'.procs[launches[e]] == Instances.Proc(Some(e), false)
    ensures Born(os, launches, os')
  {
  }

  lemma BornTable(os: Os, launches: map<nat, nat>, e: nat, os': Os)
    requires e in launches
    requires Born(Instances.State(os.running[e := launches[e]], os.procs[launches[e] := Instances.Proc(Some(e), false)]), launches - {e}, os')
    ensures os'.running == os.running + launches
  {
    var less := launches - {e};
    assert os'.running == os.running[e := launches[e]] + less;
    hide Born;
    assert forall x | x in less :: x in launches && less[x] == launches[x];
    assert forall x | x in launches :: x == e || x in less;
  }

  lemma BornMembers(os: Os, launches: map<nat, nat>, e: nat, os': Os)
    requires e in launches
    requires Born(Instances.State(os.running[e := launches[e]], os.procs[launches[e] := Instances.Proc(Some(e), false)]), launches - {e}, os')
    ensures forall p :: p in os'.procs <==> p in os.procs || exists x :: x in launches && launches[x] == p
  {
    var less := launches - {e};
    forall p ensures p in os'.procs <==> p in os.procs || exists x :: x in launches && launches[x] == p {
      if x :| x in launches && launches[x] == p {
        assert x == e || (x in less && less[x] == p);
      }
    }
  }

  lemma BornKeeps(os: Os, launches: map<nat, nat>, e: nat, os': Os)
    requires Fresh(os, launches) && e in launches
    requires Born(Instances.State(os.running[e := launches[e]], os.procs[launches[e] := Instances.Proc(Some(e), false)]), launches - {e}, os')
    ensures forall p | p in os.procs :: p in os'.procs && os'.procs[p] == os.procs[p]
    ensures forall x | x in launches :: launches[x] in os'.procs && os'.procs[launches[x]] == Instances.Proc(Some(x), false)
  {
    var less, pid := launches - {e}, launches[e];
    forall x | x in launches ensures launches[x] in os'.procs && os'.procs[launches[x]] == Instances.Proc(Some(x), false) {
      if x != e {
        assert x in less && less[x] == launches[x];
      }
    }
  }

  lemma {:induction false} StartRun(os: Os, launches: map<nat, nat>) returns (acts: seq<Instances.Action>)
    requires Fresh(os, launches)
    ensures Instances.Run(os, acts) && Starts(acts) && Born(os, launches, Instances.Exec(os, acts))
    decreases |launches.Keys|
  {
    if launches.Keys == {} {
      acts := [];
      BornNothing(os, launches);
    } else {
      hide Fresh, Born, Starts, Instances.Run, Instances.Exec;
      var e :| e in launches;
      BornOne(os, launches, e);
      OneFewer(launches, e);
      var mid := Instances.State(os.running[e := launches[e]], os.procs[launches[e] := Instances.Proc(Some(e), false)]);
      assert Instances.Step(os, Instances.Start(e, launches[e])) == mid;
      var rest := StartRun(mid, launches - {e});
      Instances.Prepend(os, Instances.Start(e, launches[e]), rest);
      StartsMore(Instances.Start(e, launches[e]), rest);
      acts := [Instances.Start(e, launches[e])] + rest;
      BornMore(os, launches, e, Instances.Exec(os, acts));
    }
  }

  lemma StartsMore(a: Instances.Action, rest: seq<Instances.Action>)
    requires Starts(rest) && !a.Wait? && !a.Check?
    ensures Starts([a] + rest)
  {
  }

  lemma OneFewer(launches: map<nat, nat>, e: nat)
    requires e in launches
    ensures |(launches - {e}).Keys| < |launches.Keys|
  {
    assert launches.Keys == (launches - {e}).Keys + {e};
  }

  lemma BornNothing(os: Os, launches: map<nat, nat>)
    requires launches.Keys == {}
    ensures Born(os, launches, os)
  {
    assert os.running + launches == os.running;
  }

  // ---------- a pass ----------

  ghost function Added(before: Supervisor.Running, dead: set<nat>, after: Supervisor.Running): map<nat, nat>
  {
    map e | e in after && (e !in before || e in dead) :: after[e].pid
  }

  /** The entries a pass starts, with their pids: they run afterwards, and before it they did not or were found dead. */
  ghost function Launches(m: Supervisor.Mon, i: Supervisor.PassInput): map<nat, nat>
  {
    Added(m.running, i.dead, Supervisor.AfterPass(m, i).running)
  }

  /** What the pass learns is the truth about the processes: it finds dead exactly the entries whose process has ended, and the system gives out fresh pids. */
  ghost predicate Truthful(m: Supervisor.Mon, i: Supervisor.PassInput, os: Os)
  {
    i.enabled.Some? ==>
      && i.dead * m.running.Keys == EndedOf(os, os.running.Keys)
      && Fresh(Swept(os, os.running.Keys), Launches(m, i))
  }

  lemma PidKept(m: Supervisor.Mon, i: Supervisor.PassInput, e: nat)
    requires e in m.running && (i.enabled.Some? ==> e !in i.dead)
    ensures var after := Supervisor.AfterPass(m, i).running; e in after && after[e].pid == m.running[e].pid
  {
    hide Supervisor.IsFirst, Supervisor.NextKill, Supervisor.Startable;
  }

  lemma FailedPassKeys(m: Supervisor.Mon, i: Supervisor.PassInput)
    requires i.enabled.None?
    ensures Supervisor.AfterPass(m, i).running.Keys == m.running.Keys
  {
    hide Supervisor.MergedEntry;
  }

  lemma SplitPids(before: Supervisor.Running, dead: set<nat>, after: Supervisor.Running)
    requires forall e | e in before && e !in dead :: e in after && after[e].pid == before[e].pid
    ensures Pids(after) == (Pids(before) - dead) + Added(before, dead, after)
  {
    var left, right := Pids(after), (Pids(before) - dead) + Added(before, dead, after);
    assert forall e :: e in left <==> e in right;
    assert forall e | e in left :: left[e] == right[e];
  }

  lemma PassPids(m: Supervisor.Mon, i: Supervisor.PassInput)
    requires i.enabled.Some?
    ensures Pids(Supervisor.AfterPass(m, i).running) == (Pids(m.running) - i.dead) + Launches(m, i)
  {
    var after := Supervisor.AfterPass(m, i).running;
    forall e | e in m.running && e !in i.dead ensures e in after && after[e].pid == m.running[e].pid {
      PidKept(m, i, e);
    }
    hide Supervisor.AfterPass, Pids, Added;
    SplitPids(m.running, i.dead, after);
  }

  lemma FailedPassPids(m: Supervisor.Mon, i: Supervisor.PassInput)
    requires i.enabled.None?
    ensures Pids(Supervisor.AfterPass(m, i).running) == Pids(m.running)
  {
    FailedPassKeys(m, i);
    forall e | e in m.running ensures e in Supervisor.AfterPass(m, i).running && Supervisor.AfterPass(m, i).running[e].pid == m.running[e].pid {
      PidKept(m, i, e);
    }
    hide Supervisor.AfterPass;
    assert Pids(Supervisor.AfterPass(m, i).running).Keys == Pids(m.running).Keys;
  }

  /**
   A pass that goes through on a table `os` and leaves `os'`: a sweep that forgets exactly the entries the pass takes for dead,
   then starts of exactly the entries it adds. Processes may exit and pids may be given away at any point in between.
   */
  ghost predicate PassRun(m: Supervisor.Mon, i: Supervisor.PassInput, os: Os, sweep: seq<Instances.Action>, start: seq<Instances.Action>, os': Os)
  {
    && Instances.Run(os, sweep) && Sweeps(sweep)
    && var mid := Instances.Exec(os, sweep);
      && mid.running == os.running - i.dead
      && Instances.Run(mid, start) && Starts(start) && Instances.Exec(mid, start) == os'
      && os'.running == mid.running + Launches(m, i)
  }

  /** Undisturbed, on a table that names only its own processes, a pass that finds dead exactly the ended ones and gets fresh pids is such a run: the two calls for every running entry, then the starts. */
  lemma PassIsARun(m: Supervisor.Mon, i: Supervisor.PassInput, os: Os) returns (sweep: seq<Instances.Action>, start: seq<Instances.Action>, os': Os)
    requires Instances.Owned(os) && os.running == Pids(m.running) && Truthful(m, i, os) && i.enabled.Some?
    ensures PassRun(m, i, os, sweep, start, os')
    ensures os'.running == Pids(Supervisor.AfterPass(m, i).running)
    ensures Instances.Exec(os, sweep) == Swept(os, os.running.Keys) && Born(Swept(os, os.running.Keys), Launches(m, i), os')
  {
    hide Instances.Owned, Fresh, Born, Launches, Swept;
    PassPids(m, i);
    sweep := SweepRun(os, os.running.Keys);
    var mid := Swept(os, os.running.Keys);
    start := StartRun(mid, Launches(m, i));
    os' := Instances.Exec(mid, start);
    SweptPids(m, i, os);
    BornRunning(mid, Launches(m, i), os');
  }

  lemma SweptPids(m: Supervisor.Mon, i: Supervisor.PassInput, os: Os)
    requires os.running == Pids(m.running) && Truthful(m, i, os) && i.enabled.Some?
    ensures Swept(os, os.running.Keys).running == Pids(m.running) - i.dead
  {
    hide Fresh, Launches;
    assert os.running - EndedOf(os, os.running.Keys) == os.running - i.dead;
  }

  lemma BornRunning(os: Os, launches: map<nat, nat>, os': Os)
    requires Born(os, launches, os')
    ensures os'.running == os.running + launches
  {
  }

  // ---------- whole runs of the supervisor with its processes ----------

  datatype World = World(mon: Supervisor.Mon, os: Os)

  datatype Event =
    | System(a: Instances.Action)                // a process exits, appears or fails to start
    | Receive(sourceId: nat, rxTime: nat)        // the supervisor sees a message
    | Pass(i: Supervisor.PassInput, sweep: seq<Instances.Action>, start: seq<Instances.Action>)

  ghost predicate Next(w: World, ev: Event, w': World)
  {
    match ev
    case System(a) =>
      && (a.Exit? || a.Foreign? || a.StartFails?) && Instances.Enabled(w.os, a)
      && w' == World(w.mon, Instances.Step(w.os, a))
    case Receive(src, t) => w' == World(Supervisor.After(w.mon, Supervisor.Message(src, t)), w.os)
    case Pass(i, sweep, start) =>
      && w'.mon == Supervisor.After(w.mon, Supervisor.Turn(i))
      && (if i.enabled.None? then w'.os == w.os else PassRun(w.mon, i, w.os, sweep, start, w'.os))
  }

  ghost predicate Behaviour(ws: seq<World>, evs: seq<Event>)
  {
    |ws| == |evs| + 1 && forall k | 0 <= k < |evs| :: Next(ws[k], evs[k], ws[k + 1])
  }

  ghost predicate Sound(w: World)
  {
    Instances.Inv(w.os) && w.os.running == Pids(w.mon.running)
  }

  lemma SoundKept(w: World, ev: Event, w': World)
    requires Sound(w) && Next(w, ev, w')
    ensures Sound(w')
  {
    match ev
    case System(a) => Instances.InvKept(w.os, a);
    case Receive(src, t) =>
    case Pass(i, sweep, start) =>
      hide Instances.Inv, Launches;
      if i.enabled.None? {
        FailedPassPids(w.mon, i);
      } else {
        PassPids(w.mon, i);
        Instances.InvAlways(w.os, sweep);
        Instances.InvAlways(Instances.Exec(w.os, sweep), start);
      }
  }

  lemma {:induction false} SoundAlways(ws: seq<World>, evs: seq<Event>, k: nat)
    requires Behaviour(ws, evs) && Sound(ws[0]) && k <= |evs|
    ensures Sound(ws[k])
  {
    if k > 0 {
      SoundAlways(ws, evs, k - 1);
      SoundKept(ws[k - 1], evs[k - 1], ws[k]);
    }
  }

  /**
   Single instance. In every run of the supervisor with its processes from an empty table, whatever exits and whatever pids are
   given away in the middle of a pass, an installed plugin has at most one live process, that process is the one on
   record, and a pass starts an entry only when the sweep has left it none.
   */
  lemma OneInstanceInEveryRun(ws: seq<World>, evs: seq<Event>, k: nat)
    requires Behaviour(ws, evs) && k <= |evs|
    requires ws[0].mon.running == map[] && ws[0].os.running == map[] && forall p | p in ws[0].os.procs :: ws[0].os.procs[p].owner.None?
    ensures var w := ws[k];
      && (forall p, q, e | Instances.LiveFor(w.os, p, e) && Instances.LiveFor(w.os, q, e) :: p == q)
      && (forall p, e | Instances.LiveFor(w.os, p, e) :: e in w.mon.running && w.mon.running[e].pid == p)
      && (k < |evs| && evs[k].Pass? && evs[k].i.enabled.Some? ==>
            && Instances.Run(w.os, evs[k].sweep)
            && forall e, p | e in Launches(w.mon, evs[k].i) :: !Instances.LiveFor(Instances.Exec(w.os, evs[k].sweep), p, e))
  {
    assert Sound(ws[0]);
    SoundAlways(ws, evs, k);
    if k < |evs| && evs[k].Pass? && evs[k].i.enabled.Some? {
      assert Next(ws[k], evs[k], ws[k + 1]);
      NoneLeft(ws[k], evs[k].i, evs[k].sweep);
    }
  }

  lemma NoneLeft(w: World, i: Supervisor.PassInput, sweep: seq<Instances.Action>)
    requires Sound(w) && Instances.Run(w.os, sweep) && Instances.Exec(w.os, sweep).running == w.os.running - i.dead
    ensures forall e, p | e in Launches(w.mon, i) :: !Instances.LiveFor(Instances.Exec(w.os, sweep), p, e)
  {
    Instances.InvAlways(w.os, sweep);
    var mid := Instances.Exec(w.os, sweep);
    assert forall e | e in Launches(w.mon, i) :: e !in mid.running;
  }
}
