/** A plugin's cached configuration, polled from the database, and the change notifications it sends. */
module ConfigCache {
  import opened Common

  /** A configuration parameter; the map key is the parameter's key. */
  datatype Parameter = Parameter(value: string, defaultValue: string, description: string)

  type Config = map<string, Parameter>

  /** One call of onConfigChanged. */
  datatype Change = Change(key: string, value: string)

  /** The keys whose database value the cache does not have. */
  function ChangedKeys(cache: Config, db: Config): set<string>
  {
    set k | k in db && (k !in cache || cache[k].value != db[k].value)
  }

  /** The cache after a poll: changed and new keys from the database, everything else as it was. */
  function Polled(cache: Config, db: Config): Config
  {
    map k | k in cache.Keys + db.Keys :: if k in ChangedKeys(cache, db) then db[k] else cache[k]
  }

  /** Each of the keys is notified exactly once, with its database value, and nothing else is. */
  ghost predicate NotifiesExactly(changes: seq<Change>, keys: set<string>, db: Config)
  {
    && (forall i | 0 <= i < |changes| :: changes[i].key in keys && changes[i].key in db && changes[i].value == db[changes[i].key].value)
    && (forall i, j | 0 <= i < j < |changes| :: changes[i].key != changes[j].key)
    && (forall k | k in keys :: exists i | 0 <= i < |changes| :: changes[i].key == k)
  }

  lemma NotifyOneMore(changes: seq<Change>, keys: set<string>, db: Config, k: string)
    requires NotifiesExactly(changes, keys, db) && k in db && k !in keys
    ensures NotifiesExactly(changes + [Change(k, db[k].value)], keys + {k}, db)
  {
    var more := changes + [Change(k, db[k].value)];
    forall x | x in keys + {k} ensures exists i | 0 <= i < |more| :: more[i].key == x {
      if x == k {
        assert more[|changes|].key == k;
      } else {
        var i :| 0 <= i < |changes| && changes[i].key == x;
        assert more[i].key == x;
      }
    }
  }

  /** The changed keys are the changed known ones and all new ones. */
  lemma SplitChanged(cache: Config, db: Config)
    ensures ChangedKeys(cache, db) == ChangedKeys(cache, db) * cache.Keys + (db - cache.Keys).Keys
    ensures Polled(cache, db).Keys == cache.Keys + (db - cache.Keys).Keys
    ensures forall k | k in db - cache.Keys :: Polled(cache, db)[k] == db[k]
  {
  }

  /** A key is notified, with its database value, exactly when the cache does not have that value. */
  lemma NotifiedIff(changes: seq<Change>, cache: Config, db: Config)
    requires NotifiesExactly(changes, ChangedKeys(cache, db), db)
    ensures forall k ::
      (exists i :: 0 <= i < |changes| && changes[i] == Change(k, if k in db then db[k].value else "")) <==>
        k in db && (k !in cache || cache[k].value != db[k].value)
  {
    forall k ensures (exists i :: 0 <= i < |changes| && changes[i] == Change(k, if k in db then db[k].value else "")) <==>
      k in db && (k !in cache || cache[k].value != db[k].value)
    {
      if k in ChangedKeys(cache, db) {
        var i :| 0 <= i < |changes| && changes[i].key == k;
        assert changes[i] == Change(k, db[k].value);
      }
    }
  }

  class Plugin {
    var mConfigValues: Config

    constructor (configMap: Config)
      ensures mConfigValues == configMap
    {
      mConfigValues := configMap;
    }

    /** One turn of the config monitor; `db` is None when the query failed. Returns the notifications in order. */
    method Poll(db: Option<Config>) returns (changes: seq<Change>)
      modifies this
      ensures db.None? ==> mConfigValues == old(mConfigValues) && changes == []
      ensures db.Some? ==>
        && mConfigValues == Polled(old(mConfigValues), db.value)
        && NotifiesExactly(changes, ChangedKeys(old(mConfigValues), db.value), db.value)
      ensures db.Some? ==> forall k ::
        (exists i :: 0 <= i < |changes| && changes[i] == Change(k, if k in db.value then db.value[k].value else "")) <==>
          k in db.value && (k !in old(mConfigValues) || old(mConfigValues)[k].value != db.value[k].value)
    {
      changes := [];
      if db.None? {
        return;
      }
      var configMap := db.value;
      changes, configMap := UpdateKnown(configMap);
      changes := AddNew(configMap, old(mConfigValues), db.value, changes);
      NotifiedIff(changes, old(mConfigValues), db.value);
    }

    /** The first loop: compare every cached key with the database and take it out of the local copy. */
    method UpdateKnown(db: Config) returns (changes: seq<Change>, configMap: Config)
      modifies this
      ensures mConfigValues.Keys == old(mConfigValues).Keys
      ensures forall k | k in mConfigValues :: mConfigValues[k] == Polled(old(mConfigValues), db)[k]
      ensures configMap == db - old(mConfigValues).Keys
      ensures NotifiesExactly(changes, ChangedKeys(old(mConfigValues), db) * old(mConfigValues).Keys, db)
    {
      ghost var cache := mConfigValues;
      ghost var changed := ChangedKeys(cache, db);
      changes, configMap := [], db;
      assert NotifiesExactly(changes, {}, db);
      hide NotifiesExactly;
      var todo := mConfigValues.Keys;
      assert changed * (cache.Keys - todo) == {};
      while todo != {}
        invariant todo <= cache.Keys && mConfigValues.Keys == cache.Keys
        invariant forall k | k in cache :: mConfigValues[k] == if k !in todo && k in changed then db[k] else cache[k]
        invariant configMap == db - (cache.Keys - todo)
        invariant NotifiesExactly(changes, changed * (cache.Keys - todo), db)
      {
        var k :| k in todo;
        if k in configMap {
          if configMap[k].value != mConfigValues[k].value {
            NotifyOneMore(changes, changed * (cache.Keys - todo), db, k);
            mConfigValues := mConfigValues[k := configMap[k]];
            changes := changes + [Change(k, configMap[k].value)];
            assert changed * (cache.Keys - (todo - {k})) == changed * (cache.Keys - todo) + {k};
          } else {
            assert changed * (cache.Keys - (todo - {k})) == changed * (cache.Keys - todo);
          }
          configMap := configMap - {k};
        } else {
          assert changed * (cache.Keys - (todo - {k})) == changed * (cache.Keys - todo);
        }
        todo := todo - {k};
      }
      assert cache.Keys - todo == cache.Keys;
    }

    /** The second loop: what is left in the local copy is new. */
    method AddNew(configMap: Config, ghost cache: Config, ghost db: Config, soFar: seq<Change>) returns (changes: seq<Change>)
      requires configMap == db - cache.Keys && mConfigValues.Keys == cache.Keys
      requires forall k | k in cache :: mConfigValues[k] == Polled(cache, db)[k]
      requires NotifiesExactly(soFar, ChangedKeys(cache, db) * cache.Keys, db)
      modifies this
      ensures mConfigValues == Polled(cache, db)
      ensures NotifiesExactly(changes, ChangedKeys(cache, db), db)
    {
      ghost var known := ChangedKeys(cache, db) * cache.Keys;
      SplitChanged(cache, db);
      hide NotifiesExactly, ChangedKeys, Polled;
      changes := soFar;
      var todo := configMap.Keys;
      assert known + (configMap.Keys - todo) == known;
      while todo != {}
        invariant todo <= configMap.Keys
        invariant mConfigValues.Keys == cache.Keys + (configMap.Keys - todo)
        invariant forall k | k in mConfigValues :: mConfigValues[k] == Polled(cache, db)[k]
        invariant NotifiesExactly(changes, known + (configMap.Keys - todo), db)
      {
        var k :| k in todo;
        NotifyOneMore(changes, known + (configMap.Keys - todo), db, k);
        mConfigValues := mConfigValues[k := configMap[k]];
        changes := changes + [Change(k, configMap[k].value)];
        assert known + (configMap.Keys - (todo - {k})) == known + (configMap.Keys - todo) + {k};
        todo := todo - {k};
      }
      assert known + (configMap.Keys - todo) == ChangedKeys(cache, db);
      assert mConfigValues == Polled(cache, db);
    }
  }

  // ---------- coherence ----------

  function Values(c: Config): map<string, string>
  {
    map k | k in c :: c[k].value
  }

  /**
   After a poll the cache has the database's value for every database key and its old entry for every other. A key that is
   new or whose value changed takes the whole parameter, default and description included; one whose value did not change
   keeps its old parameter. The same database polled again changes nothing.
   */
  lemma PollIsCoherent(cache: Config, db: Config)
    ensures forall k | k in db :: k in Polled(cache, db) && Polled(cache, db)[k].value == db[k].value
    ensures forall k | k in cache && k !in db :: k in Polled(cache, db) && Polled(cache, db)[k] == cache[k]
    ensures forall k | k in db && (k !in cache || cache[k].value != db[k].value) :: Polled(cache, db)[k] == db[k]
    ensures forall k | k in db && k in cache && cache[k].value == db[k].value :: Polled(cache, db)[k] == cache[k]
    ensures Polled(cache, db).Keys == cache.Keys + db.Keys
    ensures ChangedKeys(Polled(cache, db), db) == {} && Polled(Polled(cache, db), db) == Polled(cache, db)
  {
  }

  /** As many notifications as changed keys; none when nothing changed. */
  lemma {:induction false} NotificationCount(changes: seq<Change>, keys: set<string>, db: Config)
    requires NotifiesExactly(changes, keys, db)
    ensures |changes| == |keys|
  {
    if changes == [] {
      assert keys == {};
    } else {
      var init, last := changes[..|changes| - 1], changes[|changes| - 1].key;
      forall k | k in keys - {last} ensures exists i | 0 <= i < |init| :: init[i].key == k {
        var i :| 0 <= i < |changes| && changes[i].key == k;
        assert init[i].key == k;
      }
      NotificationCount(init, keys - {last}, db);
      assert keys == (keys - {last}) + {last};
    }
  }

  // ---------- the notifications are enough ----------

  /** A subscriber that writes down what it is told. */
  function Replay(mirror: map<string, string>, changes: seq<Change>): map<string, string>
  {
    if changes == [] then mirror
    else Replay(mirror, changes[..|changes| - 1])[changes[|changes| - 1].key := changes[|changes| - 1].value]
  }

  lemma {:induction false} ReplayAt(mirror: map<string, string>, changes: seq<Change>, k: string)
    requires forall i, j | 0 <= i < j < |changes| :: changes[i].key != changes[j].key
    ensures k in Replay(mirror, changes) <==> k in mirror || exists i | 0 <= i < |changes| :: changes[i].key == k
    ensures forall i | 0 <= i < |changes| && changes[i].key == k :: Replay(mirror, changes)[k] == changes[i].value
    ensures (forall i | 0 <= i < |changes| :: changes[i].key != k) && k in mirror ==> Replay(mirror, changes)[k] == mirror[k]
  {
    if changes != [] {
      var init := changes[..|changes| - 1];
      ReplayAt(mirror, init, k);
      if i :| 0 <= i < |init| && init[i].key == k {
        assert changes[i].key == k;
      }
    }
  }

  lemma MirrorOnePoll(cache: Config, db: Config, changes: seq<Change>)
    requires NotifiesExactly(changes, ChangedKeys(cache, db), db)
    ensures Replay(Values(cache), changes) == Values(Polled(cache, db))
  {
    var mirror, after := Replay(Values(cache), changes), Values(Polled(cache, db));
    forall k ensures k in mirror <==> k in after {
      ReplayAt(Values(cache), changes, k);
    }
    forall k | k in after ensures mirror[k] == after[k] {
      ReplayAt(Values(cache), changes, k);
      if k in ChangedKeys(cache, db) {
        var i :| 0 <= i < |changes| && changes[i].key == k;
      }
    }
  }

  /** One poll of a run: the database read, if it could be read, and the notifications sent. */
  datatype Turn = Turn(db: Option<Config>, changes: seq<Change>)

  ghost predicate TurnOk(cache: Config, t: Turn)
  {
    if t.db.None? then t.changes == [] else NotifiesExactly(t.changes, ChangedKeys(cache, t.db.value), t.db.value)
  }

  function AfterTurn(cache: Config, t: Turn): Config
  {
    if t.db.None? then cache else Polled(cache, t.db.value)
  }

  ghost predicate RunOk(cache: Config, turns: seq<Turn>)
    decreases |turns|
  {
    turns == [] || (TurnOk(cache, turns[0]) && RunOk(AfterTurn(cache, turns[0]), turns[1..]))
  }

  function AfterRun(cache: Config, turns: seq<Turn>): Config
    decreases |turns|
  {
    if turns == [] then cache else AfterRun(AfterTurn(cache, turns[0]), turns[1..])
  }

  function ReplayRun(mirror: map<string, string>, turns: seq<Turn>): map<string, string>
    decreases |turns|
  {
    if turns == [] then mirror else ReplayRun(Replay(mirror, turns[0].changes), turns[1..])
  }

  /** Over any run of polls of any databases, a subscriber that replays the notifications always has exactly the cached values. */
  lemma {:induction false} NotificationsSuffice(cache: Config, turns: seq<Turn>)
    requires RunOk(cache, turns)
    ensures ReplayRun(Values(cache), turns) == Values(AfterRun(cache, turns))
    decreases |turns|
  {
    if turns != [] {
      var t := turns[0];
      if t.db.Some? {
        MirrorOnePoll(cache, t.db.value, t.changes);
      }
      NotificationsSuffice(AfterTurn(cache, t), turns[1..]);
    }
  }
}
