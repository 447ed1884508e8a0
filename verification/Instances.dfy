/**
 Processes and the supervisor's table, step by step: at most one live process per installed plugin.
 A child that exits stays a zombie, and keeps its pid, until `waitpid` collects it; `kill(pid, 0)` succeeds while the pid exists.
 */
module Instances {
  import opened Common

  /** A process: the installed plugin it was started for, or None if it is not the supervisor's. */
  datatype Proc = Proc(owner: Option<nat>, zombie: bool)

  datatype State = State(running: map<nat, nat>, procs: map<nat, Proc>)

  datatype Action =
    | Exit(pid: nat)               // a process ends: a child becomes a zombie, anything else disappears
    | Foreign(pid: nat)            // the system gives a free pid to a process of its own
    | Wait(e: nat)                 // waitpid for one running entry: collect its pid if that is a zombie child
    | Check(e: nat)                // kill(pid, 0) for one running entry: forget it if the pid is gone
    | Start(e: nat, pid: nat)      // start an entry that is not running; the system picks a free pid
    | StartFails(e: nat, pid: nat) // the child could not execute the program: it exits, nothing is recorded

  predicate Enabled(s: State, a: Action)
  {
    match a
    case Exit(p) => p in s.procs && !s.procs[p].zombie
    case Foreign(p) => p !in s.procs
    case Wait(e) => e in s.running
    case Check(e) => e in s.running
    case Start(e, p) => e !in s.running && p !in s.procs
    case StartFails(e, p) => e !in s.running && p !in s.procs
  }

  /** `waitpid(pid, NULL, WNOHANG)`. */
  function Collect(procs: map<nat, Proc>, pid: nat): map<nat, Proc>
  {
    if pid in procs && procs[pid].zombie && procs[pid].owner.Some? then procs - {pid} else procs
  }

  function Step(s: State, a: Action): State
    requires Enabled(s, a)
  {
    match a
    case Exit(p) => s.(procs := if s.procs[p].owner.Some? then s.procs[p := s.procs[p].(zombie := true)] else s.procs - {p})
    case Foreign(p) => s.(procs := s.procs[p := Proc(None, false)])
    case Wait(e) => s.(procs := Collect(s.procs, s.running[e]))
    case Check(e) => if s.running[e] in s.procs then s else s.(running := s.running - {e})
    case Start(e, p) => State(s.running[e := p], s.procs[p := Proc(Some(e), false)])
    case StartFails(e, p) => s.(procs := s.procs[p := Proc(Some(e), true)])
  }

  ghost predicate Run(s: State, acts: seq<Action>)
    decreases |acts|
  {
    acts == [] || (Enabled(s, acts[0]) && Run(Step(s, acts[0]), acts[1..]))
  }

  ghost function Exec(s: State, acts: seq<Action>): State
    requires Run(s, acts)
    decreases |acts|
  {
    if acts == [] then s else Exec(Step(s, acts[0]), acts[1..])
  }

  ghost predicate LiveFor(s: State, p: nat, e: nat)
  {
    p in s.procs && s.procs[p] == Proc(Some(e), false)
  }

  /** Every live process of an entry is the one in the table. */
  ghost predicate Inv(s: State)
  {
    forall p, e | LiveFor(s, p, e) :: e in s.running && s.running[e] == p
  }

  /** The pid in the table is that entry's, alive or not: what the pass takes for granted. */
  ghost predicate Owned(s: State)
  {
    forall e | e in s.running :: s.running[e] in s.procs && s.procs[s.running[e]].owner == Some(e)
  }

  lemma InvKept(s: State, a: Action)
    requires Inv(s) && Enabled(s, a)
    ensures Inv(Step(s, a))
  {
    var s' := Step(s, a);
    forall p, e | LiveFor(s', p, e) ensures e in s'.running && s'.running[e] == p {
      assert LiveFor(s, p, e) || a == Start(e, p);
    }
  }

  lemma {:induction false} InvAlways(s: State, acts: seq<Action>)
    requires Inv(s) && Run(s, acts)
    ensures Inv(Exec(s, acts))
    decreases |acts|
  {
    if acts != [] {
      InvKept(s, acts[0]);
      InvAlways(Step(s, acts[0]), acts[1..]);
    }
  }

  /** In every run from an empty table, an installed plugin has at most one live process, and a start finds none. */
  lemma AtMostOneInstance(s0: State, acts: seq<Action>)
    requires s0.running == map[] && (forall p | p in s0.procs :: s0.procs[p].owner.None?) && Run(s0, acts)
    ensures forall p, q, e | LiveFor(Exec(s0, acts), p, e) && LiveFor(Exec(s0, acts), q, e) :: p == q
    ensures forall e, pid, p | Enabled(Exec(s0, acts), Start(e, pid)) :: !LiveFor(Exec(s0, acts), p, e)
  {
    InvAlways(s0, acts);
    assert Inv(Exec(s0, acts));
  }

  // ---------- a pid given away between the two calls ----------

  /** The entry's process has ended and its pid has not been collected. */
  ghost predicate Ended(s: State, e: nat)
  {
    e in s.running && s.running[e] in s.procs && s.procs[s.running[e]].zombie && s.procs[s.running[e]].owner.Some?
  }

  predicate Takes(a: Action, pid: nat)
  {
    a == Foreign(pid) || (a.Start? && a.pid == pid) || (a.StartFails? && a.pid == pid)
  }

  lemma {:induction false} TakenOnlyByTaking(s: State, acts: seq<Action>, e: nat)
    requires Run(s, acts) && e in s.running && s.running[e] !in s.procs && Check(e) !in acts
    ensures e in Exec(s, acts).running && Exec(s, acts).running[e] == s.running[e]
    ensures s.running[e] in Exec(s, acts).procs ==> exists j :: 0 <= j < |acts| && Takes(acts[j], s.running[e])
    decreases |acts|
  {
    if acts != [] {
      var rest, pid := acts[1..], s.running[e];
      var s' := Step(s, acts[0]);
      assert acts[0] in acts && forall a | a in rest :: a in acts;
      if Takes(acts[0], pid) {
        EntryStays(s', rest, e);
      } else {
        TakenOnlyByTaking(s', rest, e);
        if j :| 0 <= j < |rest| && Takes(rest[j], pid) {
          assert acts[j + 1] == rest[j];
        }
      }
    }
  }

  lemma {:induction false} EntryStays(s: State, acts: seq<Action>, e: nat)
    requires Run(s, acts) && e in s.running && Check(e) !in acts
    ensures e in Exec(s, acts).running && Exec(s, acts).running[e] == s.running[e]
    decreases |acts|
  {
    if acts != [] {
      assert acts[0] in acts && forall a | a in acts[1..] :: a in acts;
      EntryStays(Step(s, acts[0]), acts[1..], e);
    }
  }

  /**
   An entry whose process has ended is forgotten by its check if and only if its pid is free by then. Whatever happens between
   the two calls, the pid is in use only if it was given to another process in between.
   */
  lemma DeadEntryStaysIff(s: State, e: nat, between: seq<Action>)
    requires Ended(s, e) && Run(Step(s, Wait(e)), between) && Check(e) !in between
    ensures var mid := Exec(Step(s, Wait(e)), between); var pid := s.running[e];
      && e in mid.running && mid.running[e] == pid
      && (e in Step(mid, Check(e)).running <==> pid in mid.procs)
      && (pid in mid.procs ==> exists j :: 0 <= j < |between| && Takes(between[j], pid))
  {
    TakenOnlyByTaking(Step(s, Wait(e)), between, e);
  }

  lemma Prepend(s: State, a: Action, rest: seq<Action>)
    requires Enabled(s, a) && Run(Step(s, a), rest)
    ensures Run(s, [a] + rest) && Exec(s, [a] + rest) == Exec(Step(s, a), rest)
  {
    assert ([a] + rest)[1..] == rest;
  }

  /** And it can happen: the system gives the pid away between the calls, and the table goes on naming a process that is not the supervisor's. */
  lemma StaleEntryCounterexample(s0: State, e: nat, pid: nat) returns (acts: seq<Action>)
    requires s0 == State(map[], map[])
    ensures Run(s0, acts) && Exec(s0, acts) == State(map[e := pid], map[pid := Proc(None, false)])
  {
    var s1 := State(map[e := pid], map[pid := Proc(Some(e), false)]);
    var s2 := State(map[e := pid], map[pid := Proc(Some(e), true)]);
    var s3 := State(map[e := pid], map[]);
    var s4 := State(map[e := pid], map[pid := Proc(None, false)]);
    assert Step(s0, Start(e, pid)) == s1 && Step(s1, Exit(pid)) == s2;
    assert s2.procs - {pid} == map[];
    assert Step(s2, Wait(e)) == s3 && Step(s3, Foreign(pid)) == s4 && Step(s4, Check(e)) == s4;
    Prepend(s4, Check(e), []);
    Prepend(s3, Foreign(pid), [Check(e)] + []);
    Prepend(s2, Wait(e), [Foreign(pid)] + ([Check(e)] + []));
    Prepend(s1, Exit(pid), [Wait(e)] + ([Foreign(pid)] + ([Check(e)] + [])));
    Prepend(s0, Start(e, pid), [Exit(pid)] + ([Wait(e)] + ([Foreign(pid)] + ([Check(e)] + []))));
    acts := [Start(e, pid)] + ([Exit(pid)] + ([Wait(e)] + ([Foreign(pid)] + ([Check(e)] + []))));
  }
}
