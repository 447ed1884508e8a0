/**
 The plugin supervisor: message times are batched as messages pass by, and a periodic pass merges the batch, forgets dead
 processes, walks condemned ones up the kill ladder and starts what is enabled and not running.
 Times are milliseconds without wrap-around; the operating system and the database are inputs of a pass.
 */
module Supervisor {
  import opened Common
  import PathGuard

  /** An installed plugin; its identity is its id alone. */
  datatype Entry = Entry(pluginId: nat, path: string, exeName: string, maxMessageInterval: nat)

  datatype KillState = Alive | TermSent | IntSent | KillSent
  datatype Signal = SIGTERM | SIGINT | SIGKILL

  datatype MessageData = MessageData(firstReceived: nat, lastReceived: nat)

  /** What is kept for a running plugin; `entry` is the database entry as it was when the process was started. */
  datatype Monitoring = Monitoring(entry: Entry, pid: nat, startTime: nat, lastReceived: nat, kill: KillState)

  type Running = map<nat, Monitoring>
  type Messages = map<nat, MessageData>

  /** A started process. */
  datatype Launch = Launch(pid: nat, time: nat)

  /**
   What one pass learns from outside: the enabled plugins (None when the query failed), which running entries were found
   dead, the time read for the checks, the startup limit in force, and the processes that started successfully.
   */
  datatype PassInput = PassInput(
    enabled: Option<map<nat, Entry>>, dead: set<nat>, now: nat, maxStartup: nat, launched: map<nat, Launch>)

  // ---------- what each part of a pass computes ----------

  function Batched(messages: Messages, sourceId: nat, rxTime: nat): Messages
  {
    if sourceId == 0 then messages
    else if sourceId in messages then messages[sourceId := messages[sourceId].(lastReceived := rxTime)]
    else messages[sourceId := MessageData(rxTime, rxTime)]
  }

  /** The first running entry, in map order, of its plugin id. */
  ghost predicate IsFirst(running: Running, e: nat)
  {
    e in running && forall x | x in running && running[x].entry.pluginId == running[e].entry.pluginId :: e <= x
  }

  ghost function MergedEntry(running: Running, messages: Messages, e: nat): Monitoring
    requires e in running
  {
    var m := running[e];
    if m.entry.pluginId in messages && IsFirst(running, e)
    then m.(lastReceived := messages[m.entry.pluginId].lastReceived) else m
  }

  ghost function Merged(running: Running, messages: Messages): Running
  {
    map e | e in running :: MergedEntry(running, messages, e)
  }

  predicate Overdue(e: nat, m: Monitoring, enabled: map<nat, Entry>, maxStartup: nat, now: nat)
  {
    if e !in enabled then true
    else if m.lastReceived == 0 then m.startTime + maxStartup <= now
    else m.entry.maxMessageInterval != 0 && enabled[e].maxMessageInterval + m.lastReceived <= now
  }

  function NextKill(e: nat, m: Monitoring, enabled: map<nat, Entry>, maxStartup: nat, now: nat): (KillState, Option<Signal>)
  {
    match m.kill
    case TermSent => (IntSent, Some(SIGINT))
    case IntSent => (KillSent, Some(SIGKILL))
    case KillSent => (KillSent, None)
    case Alive => if Overdue(e, m, enabled, maxStartup, now) then (TermSent, Some(SIGTERM)) else (Alive, None)
  }

  function Laddered(running: Running, enabled: map<nat, Entry>, maxStartup: nat, now: nat): Running
  {
    map e | e in running :: running[e].(kill := NextKill(e, running[e], enabled, maxStartup, now).0)
  }

  function SignalsOf(running: Running, enabled: map<nat, Entry>, maxStartup: nat, now: nat): map<nat, Signal>
  {
    map e | e in running && NextKill(e, running[e], enabled, maxStartup, now).1.Some? ::
      NextKill(e, running[e], enabled, maxStartup, now).1.value
  }

  /** The executable name is not empty and passes the lexical check. */
  ghost predicate Startable(entry: Entry)
  {
    var tokens := PathGuard.Tokens(entry.exeName);
    tokens != [] && PathGuard.Accepts(tokens)
  }

  ghost function Started(running: Running, enabled: map<nat, Entry>, launched: map<nat, Launch>): Running
  {
    map e | e in running.Keys + enabled.Keys && (e in running || (Startable(enabled[e]) && e in launched)) ::
      if e in running then running[e] else Monitoring(enabled[e], launched[e].pid, launched[e].time, 0, Alive)
  }

  lemma SameFirsts(a: Running, b: Running)
    requires a.Keys == b.Keys && forall e | e in a :: a[e].entry == b[e].entry
    ensures forall e :: IsFirst(a, e) <==> IsFirst(b, e)
  {
  }

  // ---------- the monitor object ----------

  /** The first running entry of a plugin id: the inner loop over the ordered map, left at the first match. */
  method FirstRunning(running: Running, id: nat) returns (r: Option<nat>)
    ensures r.Some? ==> IsFirst(running, r.value) && running[r.value].entry.pluginId == id
    ensures r.None? ==> forall x | x in running :: running[x].entry.pluginId != id
  {
    var left := running.Keys;
    while left != {}
      invariant left <= running.Keys
      invariant forall x | x in running && x !in left :: running[x].entry.pluginId != id
    {
      var some :| some in left;
      LeastExists(left, some);
      var e :| e in left && forall x | x in left :: e <= x;
      if running[e].entry.pluginId == id {
        return Some(e);
      }
      left := left - {e};
    }
    r := None;
  }

  class PluginMonitor {
    var mMessages: Messages
    var mRunningPlugins: Running

    constructor ()
      ensures mMessages == map[] && mRunningPlugins == map[]
    {
      mMessages, mRunningPlugins := map[], map[];
    }

    method OnMessageReceived(sourceId: nat, rxTime: nat)
      modifies this
      ensures mMessages == Batched(old(mMessages), sourceId, rxTime) && mRunningPlugins == old(mRunningPlugins)
    {
      if sourceId == 0 {
        return;
      }
      if sourceId !in mMessages {
        mMessages := mMessages[sourceId := MessageData(rxTime, rxTime)];
      } else {
        mMessages := mMessages[sourceId := mMessages[sourceId].(lastReceived := rxTime)];
      }
    }

    /** Merge the batch into the running plugins and clear it. */
    method MergeBatch()
      modifies this
      ensures mMessages == map[] && mRunningPlugins == Merged(old(mRunningPlugins), old(mMessages))
    {
      ghost var before := mRunningPlugins;
      var todo := mMessages.Keys;
      while todo != {}
        invariant mMessages == old(mMessages) && todo <= mMessages.Keys
        invariant mRunningPlugins.Keys == before.Keys
        invariant forall e | e in before :: mRunningPlugins[e].entry == before[e].entry
        invariant forall e | e in before ::
          mRunningPlugins[e] == if before[e].entry.pluginId in todo then before[e] else MergedEntry(before, old(mMessages), e)
      {
        var id :| id in todo;
        var hit := FirstRunning(mRunningPlugins, id);
        SameFirsts(before, mRunningPlugins);
        hide IsFirst;
        if hit.Some? {
          mRunningPlugins := mRunningPlugins[hit.value := mRunningPlugins[hit.value].(lastReceived := mMessages[id].lastReceived)];
        }
        todo := todo - {id};
      }
      mMessages := map[];
    }

    /** Collect the entries whose process no longer exists, then erase them one by one. */
    method RemoveDead(dead: set<nat>)
      modifies this`mRunningPlugins
      ensures mRunningPlugins == old(mRunningPlugins) - dead
    {
      var running := mRunningPlugins;
      var deadPlugins: seq<nat> := [];
      var todo := running.Keys;
      while todo != {}
        invariant todo <= running.Keys
        invariant forall e :: e in deadPlugins <==> e in running && e !in todo && e in dead
      {
        var e :| e in todo;
        if e in dead {
          deadPlugins := deadPlugins + [e];
        }
        todo := todo - {e};
      }
      var i := 0;
      while i < |deadPlugins|
        invariant i <= |deadPlugins|
        invariant forall e :: e in mRunningPlugins <==> e in running && e !in deadPlugins[..i]
        invariant forall e | e in mRunningPlugins :: mRunningPlugins[e] == running[e]
      {
        mRunningPlugins := mRunningPlugins - {deadPlugins[i]};
        assert deadPlugins[..i + 1] == deadPlugins[..i] + [deadPlugins[i]];
        i := i + 1;
      }
      assert deadPlugins[..i] == deadPlugins;
      assert mRunningPlugins == running - dead;
    }

    /** One entry: past its first signal it only climbs; before it, the checks decide. */
    method Climb(e: nat, m: Monitoring, enabled: map<nat, Entry>, maxStartup: nat, now: nat) returns (kill: KillState, sent: Option<Signal>)
      ensures (kill, sent) == NextKill(e, m, enabled, maxStartup, now)
    {
      kill, sent := m.kill, None;
      match m.kill {
        case TermSent =>
          sent := Some(SIGINT);
          kill := IntSent;
        case IntSent =>
          sent := Some(SIGKILL);
          kill := KillSent;
        case KillSent =>
        case Alive =>
          var killIt := false;
          if e !in enabled {
            killIt := true;
          } else if m.lastReceived == 0 {
            if m.startTime + maxStartup <= now {
              killIt := true;
            }
          } else if m.entry.maxMessageInterval != 0 && enabled[e].maxMessageInterval + m.lastReceived <= now {
            killIt := true;
          }
          if killIt {
            sent := Some(SIGTERM);
            kill := TermSent;
          }
      }
    }

    /** One rung of the kill ladder for every running entry; returns the signal sent to each. */
    method ClimbLadder(enabled: map<nat, Entry>, maxStartup: nat, now: nat) returns (signals: map<nat, Signal>)
      modifies this`mRunningPlugins
      ensures mRunningPlugins == Laddered(old(mRunningPlugins), enabled, maxStartup, now)
      ensures signals == SignalsOf(old(mRunningPlugins), enabled, maxStartup, now)
    {
      hide NextKill;
      ghost var before := mRunningPlugins;
      signals := map[];
      var todo := mRunningPlugins.Keys;
      while todo != {}
        invariant todo <= before.Keys && mRunningPlugins.Keys == before.Keys
        invariant forall e | e in before ::
          mRunningPlugins[e] == if e in todo then before[e] else before[e].(kill := NextKill(e, before[e], enabled, maxStartup, now).0)
        invariant forall e :: e in signals <==> e in before && e !in todo && NextKill(e, before[e], enabled, maxStartup, now).1.Some?
        invariant forall e | e in signals :: signals[e] == NextKill(e, before[e], enabled, maxStartup, now).1.value
      {
        var e :| e in todo;
        var m := mRunningPlugins[e];
        var kill, sent := Climb(e, m, enabled, maxStartup, now);
        mRunningPlugins := mRunningPlugins[e := m.(kill := kill)];
        if sent.Some? {
          signals := signals[e := sent.value];
        }
        todo := todo - {e};
      }
    }

    /** The tokens of the executable are checked before a process is started. */
    method MayStart(entry: Entry) returns (startable: bool)
      ensures startable <==> Startable(entry)
    {
      var exeTokens := PathGuard.Tokenize(entry.exeName);
      var pathTokens := PathGuard.Tokenize(entry.path);
      if |exeTokens| == 0 {
        return false;
      }
      var accepted, fullpath := PathGuard.CheckExecutable(pathTokens, exeTokens);
      return accepted;
    }

    /** Start every enabled entry that is not running and whose executable passes the check. */
    method StartMissing(enabled: map<nat, Entry>, launched: map<nat, Launch>)
      modifies this`mRunningPlugins
      ensures mRunningPlugins == Started(old(mRunningPlugins), enabled, launched)
    {
      hide Startable;
      ghost var before := mRunningPlugins;
      var todo := enabled.Keys;
      while todo != {}
        invariant todo <= enabled.Keys
        invariant forall e :: e in mRunningPlugins <==>
          e in before || (e in enabled && e !in todo && Startable(enabled[e]) && e in launched)
        invariant forall e | e in mRunningPlugins ::
          mRunningPlugins[e] == if e in before then before[e] else Monitoring(enabled[e], launched[e].pid, launched[e].time, 0, Alive)
      {
        var e :| e in todo;
        todo := todo - {e};
        if e !in mRunningPlugins {
          var startable := MayStart(enabled[e]);
          if startable && e in launched {
            mRunningPlugins := mRunningPlugins[e := Monitoring(enabled[e], launched[e].pid, launched[e].time, 0, Alive)];
          }
        }
      }
    }

    /** One turn of the monitor thread; a failed query leaves it after the merge. */
    method Pass(input: PassInput) returns (signals: map<nat, Signal>)
      modifies this
      ensures Mon(mMessages, mRunningPlugins) == AfterPass(Mon(old(mMessages), old(mRunningPlugins)), input)
      ensures signals == PassSignals(Mon(old(mMessages), old(mRunningPlugins)), input)
    {
      MergeBatch();
      signals := map[];
      if input.enabled.None? {
        return;
      }
      RemoveDead(input.dead);
      signals := ClimbLadder(input.enabled.value, input.maxStartup, input.now);
      StartMissing(input.enabled.value, input.launched);
    }
  }

  // ---------- the monitor as a value, for whole runs ----------

  datatype Mon = Mon(messages: Messages, running: Running)

  ghost function AfterPass(m: Mon, i: PassInput): Mon
  {
    var merged := Merged(m.running, m.messages);
    if i.enabled.None? then Mon(map[], merged)
    else Mon(map[], Started(Laddered(merged - i.dead, i.enabled.value, i.maxStartup, i.now), i.enabled.value, i.launched))
  }

  ghost function PassSignals(m: Mon, i: PassInput): map<nat, Signal>
  {
    if i.enabled.None? then map[]
    else SignalsOf(Merged(m.running, m.messages) - i.dead, i.enabled.value, i.maxStartup, i.now)
  }

  datatype Event = Message(sourceId: nat, rxTime: nat) | Turn(input: PassInput)

  ghost function After(m: Mon, ev: Event): Mon
  {
    match ev
    case Message(src, t) => m.(messages := Batched(m.messages, src, t))
    case Turn(i) => AfterPass(m, i)
  }

  ghost function AfterAll(m: Mon, evs: seq<Event>): Mon
  {
    if evs == [] then m else After(AfterAll(m, evs[..|evs| - 1]), evs[|evs| - 1])
  }
}
