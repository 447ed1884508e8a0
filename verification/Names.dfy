/** Plugin names: the global set of names in use, under every interleaving of registrations and destructions. */
module Names {
  import opened Common

  /**
   One plugin object. `name` and `registered` are its own fields; `claim` is the name it has reserved while the database part
   of its registration is still running; `destroyed` once its destructor has released its name.
   */
  datatype Plugin = Plugin(name: string, registered: bool, claim: Option<string>, destroyed: bool)

  datatype State = State(clientNames: set<string>, plugins: seq<Plugin>)

  datatype Action =
    | New                              // a plugin object is constructed
    | Reserve(p: nat, name: string)    // the locked find-and-insert of registerPlugin, or its early rejection
    | DatabaseOk(p: nat)               // the database accepts: the object takes the name and is registered
    | DatabaseFails(p: nat)            // DbException: the registration is abandoned
    | Destroy(p: nat)                  // the locked erase of the destructor

  predicate Enabled(s: State, a: Action)
  {
    match a
    case New => true
    case Reserve(p, _) => p < |s.plugins| && !s.plugins[p].destroyed && s.plugins[p].claim.None?
    case DatabaseOk(p) => p < |s.plugins| && !s.plugins[p].destroyed && s.plugins[p].claim.Some?
    case DatabaseFails(p) => p < |s.plugins| && !s.plugins[p].destroyed && s.plugins[p].claim.Some?
    case Destroy(p) => p < |s.plugins| && !s.plugins[p].destroyed && s.plugins[p].claim.None?
  }

  /** Whether registerPlugin gets past the two name checks. */
  predicate Reserves(s: State, name: string)
  {
    name != "" && name !in s.clientNames
  }

  function Step(s: State, a: Action): State
    requires Enabled(s, a)
  {
    match a
    case New => s.(plugins := s.plugins + [Plugin("", false, None, false)])
    case Reserve(p, name) =>
      if Reserves(s, name) then
        State(s.clientNames + {name}, s.plugins[p := s.plugins[p].(claim := Some(name))])
      else s
    case DatabaseOk(p) =>
      s.(plugins := s.plugins[p := s.plugins[p].(name := s.plugins[p].claim.value, registered := true, claim := None)])
    case DatabaseFails(p) => s.(plugins := s.plugins[p := s.plugins[p].(claim := None)])
    case Destroy(p) =>
      State(s.clientNames - {s.plugins[p].name}, s.plugins[p := s.plugins[p].(destroyed := true)])
  }

  ghost predicate Init(s: State)
  {
    s == State({}, [])
  }

  ghost predicate Run(s: State, acts: seq<Action>)
    decreases |acts|
  {
    acts == [] || (Enabled(s, acts[0]) && Run(Step(s, acts[0]), acts[1..]))
  }

  ghost function Exec(s: State, acts: seq<Action>): State
    requires Run(s, acts)
    decreases |acts|
  {
    if acts == [] then s else Exec(Step(s, acts[0]), acts[1..])
  }

  /** The plugin goes by this name or has reserved it. */
  ghost predicate Holds(s: State, p: nat, name: string)
  {
    && p < |s.plugins| && !s.plugins[p].destroyed
    && ((s.plugins[p].registered && s.plugins[p].name == name) || s.plugins[p].claim == Some(name))
  }

  ghost predicate Inv(s: State)
  {
    && "" !in s.clientNames
    && (forall p | 0 <= p < |s.plugins| && !s.plugins[p].registered :: s.plugins[p].name == "")
    && (forall p: nat, n | Holds(s, p, n) :: n in s.clientNames)
    && (forall p: nat, q: nat, n | Holds(s, p, n) && Holds(s, q, n) :: p == q)
    && (forall p | 0 <= p < |s.plugins| && !s.plugins[p].destroyed && s.plugins[p].registered :: s.plugins[p].claim != Some(s.plugins[p].name))
  }

  lemma HoldsStep(s: State, a: Action, p: nat, n: string)
    requires Enabled(s, a) && Holds(Step(s, a), p, n)
    ensures Holds(s, p, n) || (a == Reserve(p, n) && Reserves(s, n))
  {
  }

  lemma InvKept(s: State, a: Action)
    requires Inv(s) && Enabled(s, a)
    ensures Inv(Step(s, a))
  {
    var s' := Step(s, a);
    forall p: nat, n | Holds(s', p, n) ensures n in s'.clientNames {
      HoldsStep(s, a, p, n);
      if a.Destroy? && n == s.plugins[a.p].name {
        assert s.plugins[a.p].registered;
        assert Holds(s, a.p, n);
      }
    }
    forall p: nat, q: nat, n | Holds(s', p, n) && Holds(s', q, n) ensures p == q {
      HoldsStep(s, a, p, n);
      HoldsStep(s, a, q, n);
    }
    forall p | 0 <= p < |s'.plugins| && !s'.plugins[p].destroyed && s'.plugins[p].registered
      ensures s'.plugins[p].claim != Some(s'.plugins[p].name)
    {
      if p < |s.plugins| && s.plugins[p].registered {
        assert Holds(s, p, s.plugins[p].name);
      }
    }
  }

  lemma {:induction false} InvAlways(s: State, acts: seq<Action>)
    requires Inv(s) && Run(s, acts)
    ensures Inv(Exec(s, acts))
    decreases |acts|
  {
    if acts != [] {
      InvKept(s, acts[0]);
      InvAlways(Step(s, acts[0]), acts[1..]);
    }
  }

  // ---------- main results ----------

  /**
   Name uniqueness. In every interleaving, no two registered plugins that have not released their names share one, and a
   destructor leaves every other plugin's name, registered or only reserved, in the set.
   */
  lemma NamesAreUnique(s0: State, acts: seq<Action>)
    requires Init(s0) && Run(s0, acts)
    ensures var s := Exec(s0, acts);
      && (forall p, q | 0 <= p < q < |s.plugins| && s.plugins[p].registered && s.plugins[q].registered
            && !s.plugins[p].destroyed && !s.plugins[q].destroyed :: s.plugins[p].name != s.plugins[q].name)
      && (forall p: nat, q: nat, n | Enabled(s, Destroy(p)) && q != p && Holds(s, q, n) :: n in Step(s, Destroy(p)).clientNames)
  {
    InvAlways(s0, acts);
    var s := Exec(s0, acts);
    forall p, q | 0 <= p < q < |s.plugins| && s.plugins[p].registered && s.plugins[q].registered
      && !s.plugins[p].destroyed && !s.plugins[q].destroyed ensures s.plugins[p].name != s.plugins[q].name
    {
      assert Holds(s, p, s.plugins[p].name) && Holds(s, q, s.plugins[q].name);
    }
    forall p: nat, q: nat, n | Enabled(s, Destroy(p)) && q != p && Holds(s, q, n) ensures n in Step(s, Destroy(p)).clientNames {
      InvKept(s, Destroy(p));
      assert Holds(Step(s, Destroy(p)), q, n);
    }
  }

  /** A name in the set that no plugin holds. */
  ghost predicate Lost(s: State, name: string)
  {
    name in s.clientNames && forall p: nat :: !Holds(s, p, name)
  }

  /** A step loses a name exactly when it abandons a reservation or registers its holder under another name. */
  lemma LostExactlyWhen(s: State, a: Action, name: string)
    requires Inv(s) && Enabled(s, a) && !Lost(s, name)
    ensures Lost(Step(s, a), name) <==>
      || (a.DatabaseFails? && s.plugins[a.p].claim == Some(name))
      || (a.DatabaseOk? && s.plugins[a.p].registered && s.plugins[a.p].name == name)
  {
    var s' := Step(s, a);
    forall p: nat | p < |s.plugins| && !(a.New?) && p != a.p ensures Holds(s', p, name) <==> Holds(s, p, name) {
    }
    if (a.DatabaseFails? && s.plugins[a.p].claim == Some(name)) || (a.DatabaseOk? && s.plugins[a.p].registered && s.plugins[a.p].name == name) {
      assert Holds(s, a.p, name);
      assert !Holds(s', a.p, name);
    } else if p: nat :| Holds(s, p, name) {
      assert Holds(s', p, name) || name !in s'.clientNames;
    } else if a.Reserve? && a.name == name && Reserves(s, name) {
      assert Holds(s', a.p, name);
    }
  }

  /** A lost name stays lost: no later registration under it ever gets past the name check. */
  lemma {:induction false} LostForever(s: State, acts: seq<Action>, name: string)
    requires Inv(s) && Run(s, acts) && Lost(s, name)
    ensures Lost(Exec(s, acts), name) && !Reserves(Exec(s, acts), name)
    decreases |acts|
  {
    if acts != [] {
      var a := acts[0];
      InvKept(s, a);
      forall p: nat | Holds(Step(s, a), p, name) ensures false {
        HoldsStep(s, a, p, name);
      }
      if a.Destroy? && s.plugins[a.p].name == name {
        assert Holds(s, a.p, name);
      }
      LostForever(Step(s, a), acts[1..], name);
    }
  }

  /** A registration is let through exactly for a name that is not empty and not in use; then only its own reservation changes, else nothing does. */
  lemma ReservedIff(s: State, p: nat, name: string)
    requires Enabled(s, Reserve(p, name))
    ensures var s' := Step(s, Reserve(p, name));
      && |s'.plugins| == |s.plugins|
      && (s'.plugins[p].claim == Some(name) <==> name != "" && name !in s.clientNames)
      && (name != "" && name !in s.clientNames ==> s' == State(s.clientNames + {name}, s.plugins[p := s.plugins[p].(claim := Some(name))]))
      && (name == "" || name in s.clientNames ==> s' == s)
  {
  }

  predicate RegisteredAs(s: State, p: nat, name: string)
  {
    p < |s.plugins| && s.plugins[p].registered && !s.plugins[p].destroyed && s.plugins[p].name == name && name in s.clientNames
  }

  /**
   Whoever asks for a free name gets it. In every run, a registration under a name that is not empty, that no plugin holds and
   that is not lost is let through, and once the database accepts it the plugin is registered under that name; a
   registration under any other name is refused and changes nothing.
   */
  lemma FreeNameIsGiven(s0: State, acts: seq<Action>, p: nat, name: string)
    requires Init(s0) && Run(s0, acts) && Enabled(Exec(s0, acts), Reserve(p, name))
    ensures var s := Exec(s0, acts); var s' := Step(s, Reserve(p, name));
      var free := name != "" && !Lost(s, name) && forall q: nat :: !Holds(s, q, name);
      && (free ==> Enabled(s', DatabaseOk(p)) && RegisteredAs(Step(s', DatabaseOk(p)), p, name))
      && (!free ==> s' == s)
  {
    InvAlways(s0, acts);
    var s := Exec(s0, acts);
    ReservedIff(s, p, name);
    assert name in s.clientNames <==> Lost(s, name) || exists q: nat :: Holds(s, q, name);
  }
}
