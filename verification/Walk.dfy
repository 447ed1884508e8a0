/** The web client's walk over a plugin's JSON tree: an explicit stack instead of recursion. */
module Walk {

  /** A parsed JSON value without nulls; arrays are objects keyed by index. Keys are in `Object.keys` order. */
  datatype Json = Leaf(value: string) | Object(items: seq<Item>)
  datatype Item = Item(key: string, value: Json)

  /** One call of updateListObject or updateStateObject. */
  datatype Report = Report(path: string, value: string)

  const ARROW := "->"

  // ---------- the reference: a recursive walk ----------

  /** All leaves in depth-first key order, each under its arrow-joined path. */
  function Leaves(items: seq<Item>, prefix: string): seq<Report>
  {
    if items == [] then []
    else
      match items[0].value
      case Leaf(v) => [Report(prefix + items[0].key, v)] + Leaves(items[1..], prefix)
      case Object(sub) => Leaves(sub, prefix + items[0].key + ARROW) + Leaves(items[1..], prefix)
  }

  // ---------- what the loop computes ----------

  /** The pattern of `new RegExp(items[i] + "->")` once i has run past the last key: items[i] is undefined. */
  const PATTERN := "undefined->"

  ghost predicate OccursAt(s: string, i: int)
  {
    0 <= i && i + 11 <= |s| && s[i..i + 11] == PATTERN
  }

  ghost predicate Contains(s: string)
  {
    exists i :: OccursAt(s, i)
  }

  /** `s.replace(pattern, "")`: the first occurrence is removed. */
  function Scrub(s: string): string
  {
    if |s| < 11 then s
    else if s[..11] == PATTERN then s[11..]
    else [s[0]] + Scrub(s[1..])
  }

  /** As Leaves, but coming back from a child scrubs the prefix. */
  function Reported(items: seq<Item>, prefix: string): seq<Report>
  {
    if items == [] then []
    else
      match items[0].value
      case Leaf(v) => [Report(prefix + items[0].key, v)] + Reported(items[1..], prefix)
      case Object(sub) => Reported(sub, prefix + items[0].key + ARROW) + Reported(items[1..], Scrub(prefix))
  }

  // ---------- the loop ----------

  /** A saved position. `path` identifies the object: its position in the parsed tree. */
  datatype Frame = Frame(obj: Json, path: seq<nat>, pos: nat, prefix: string)

  /** The node at a position of the tree. */
  ghost function NodeAt(j: Json, path: seq<nat>): Json
  {
    if path == [] then j
    else
      var up := NodeAt(j, path[..|path| - 1]);
      if up.Object? && path[|path| - 1] < |up.items| then up.items[path[|path| - 1]].value else Leaf("")
  }

  ghost function Later(stack: seq<Frame>): seq<Report>
    requires forall k | 0 <= k < |stack| :: stack[k].obj.Object? && stack[k].pos <= |stack[k].obj.items|
  {
    if stack == [] then []
    else
      var f := stack[|stack| - 1];
      Reported(f.obj.items[f.pos..], Scrub(f.prefix)) + Later(stack[..|stack| - 1])
  }

  ghost function Size(items: seq<Item>): nat
  {
    if items == [] then 0
    else 1 + (if items[0].value.Object? then Size(items[0].value.items) else 0) + Size(items[1..])
  }

  ghost function SizeLater(stack: seq<Frame>): nat
    requires forall k | 0 <= k < |stack| :: stack[k].obj.Object? && stack[k].pos <= |stack[k].obj.items|
  {
    if stack == [] then 0
    else
      var f := stack[|stack| - 1];
      Size(f.obj.items[f.pos..]) + SizeLater(stack[..|stack| - 1])
  }

  /** The stack is the chain of ancestors of the current object, so the object is the root exactly when the stack is empty. */
  ghost predicate StackOk(root: Json, stack: seq<Frame>)
  {
    && (forall k | 0 <= k < |stack| :: stack[k].obj.Object? && stack[k].pos <= |stack[k].obj.items|)
    && (forall k | 0 <= k < |stack| :: |stack[k].path| == k && NodeAt(root, stack[k].path) == stack[k].obj)
  }

  lemma ChildAt(root: Json, path: seq<nat>, i: nat)
    requires NodeAt(root, path).Object? && i < |NodeAt(root, path).items|
    ensures NodeAt(root, path + [i]) == NodeAt(root, path).items[i].value
  {
    assert (path + [i])[..|path|] == path;
  }

  lemma PushFrame(stack: seq<Frame>, f: Frame)
    requires forall k | 0 <= k < |stack| :: stack[k].obj.Object? && stack[k].pos <= |stack[k].obj.items|
    requires f.obj.Object? && f.pos <= |f.obj.items|
    ensures Later(stack + [f]) == Reported(f.obj.items[f.pos..], Scrub(f.prefix)) + Later(stack)
    ensures SizeLater(stack + [f]) == Size(f.obj.items[f.pos..]) + SizeLater(stack)
  {
    assert (stack + [f])[..|stack|] == stack;
  }

  lemma NextItem(items: seq<Item>, i: nat, prefix: string)
    requires i < |items|
    ensures items[i].value.Leaf? ==>
      Reported(items[i..], prefix) == [Report(prefix + items[i].key, items[i].value.value)] + Reported(items[i + 1..], prefix)
    ensures items[i].value.Object? ==>
      Reported(items[i..], prefix) == Reported(items[i].value.items, prefix + items[i].key + ARROW) + Reported(items[i + 1..], Scrub(prefix))
    ensures Size(items[i..]) == 1 + (if items[i].value.Object? then Size(items[i].value.items) else 0) + Size(items[i + 1..])
  {
    var rest := items[i..];
    assert rest[0] == items[i] && rest[1..] == items[i + 1..];
  }

  /** The inner `for`: report leaves until a child object or the end. */
  method Scan(items: seq<Item>, pos: nat, prefix: string) returns (i: nat, out: seq<Report>)
    requires pos <= |items|
    ensures pos <= i <= |items| && (i < |items| ==> items[i].value.Object?)
    ensures Reported(items[pos..], prefix) == out + Reported(items[i..], prefix)
    ensures Size(items[i..]) <= Size(items[pos..])
  {
    i, out := pos, [];
    hide Reported, Size;
    while i < |items|
      invariant pos <= i <= |items|
      invariant Reported(items[pos..], prefix) == out + Reported(items[i..], prefix)
      invariant Size(items[i..]) <= Size(items[pos..])
    {
      NextItem(items, i, prefix);
      if items[i].value.Object? {
        break;
      }
      assert out + ([Report(prefix + items[i].key, items[i].value.value)] + Reported(items[i + 1..], prefix))
        == out + [Report(prefix + items[i].key, items[i].value.value)] + Reported(items[i + 1..], prefix);
      out := out + [Report(prefix + items[i].key, items[i].value.value)];
      i := i + 1;
    }
  }

  /** What is still to be reported, and the work left, from a position inside the tree. */
  ghost predicate OnTrack(root: Json, reports: seq<Report>, obj: Json, path: seq<nat>, pos: nat, prefix: string, stack: seq<Frame>)
  {
    && root.Object? && obj.Object? && pos <= |obj.items|
    && StackOk(root, stack) && |path| == |stack| && NodeAt(root, path) == obj
    && reports + (Reported(obj.items[pos..], prefix) + Later(stack)) == Reported(root.items, "")
  }

  ghost function Work(obj: Json, pos: nat, stack: seq<Frame>): nat
    requires obj.Object? && pos <= |obj.items|
    requires forall k | 0 <= k < |stack| :: stack[k].obj.Object? && stack[k].pos <= |stack[k].obj.items|
  {
    2 * (Size(obj.items[pos..]) + SizeLater(stack)) + |stack|
  }

  lemma Scanned(root: Json, reports: seq<Report>, obj: Json, path: seq<nat>, pos: nat, prefix: string, stack: seq<Frame>, i: nat, out: seq<Report>)
    requires OnTrack(root, reports, obj, path, pos, prefix, stack) && pos <= i <= |obj.items|
    requires Reported(obj.items[pos..], prefix) == out + Reported(obj.items[i..], prefix)
    ensures OnTrack(root, reports + out, obj, path, i, prefix, stack)
  {
    hide Reported, Later;
    var here, later := Reported(obj.items[i..], prefix), Later(stack);
    assert reports + (out + here + later) == (reports + out) + (here + later);
  }

  lemma Descend(root: Json, reports: seq<Report>, obj: Json, path: seq<nat>, i: nat, prefix: string, stack: seq<Frame>)
    requires OnTrack(root, reports, obj, path, i, prefix, stack) && i < |obj.items| && obj.items[i].value.Object?
    ensures var child := obj.items[i].value;
      && OnTrack(root, reports, child, path + [i], 0, prefix + obj.items[i].key + ARROW, stack + [Frame(obj, path, i + 1, prefix)])
      && Work(child, 0, stack + [Frame(obj, path, i + 1, prefix)]) < Work(obj, i, stack)
  {
    hide Reported, Later, Size, SizeLater, Scrub;
    var f := Frame(obj, path, i + 1, prefix);
    var child := obj.items[i].value;
    NextItem(obj.items, i, prefix);
    PushFrame(stack, f);
    assert child.items[0..] == child.items;
    ChildAt(root, path, i);
    var inner, siblings, later := Reported(child.items, prefix + obj.items[i].key + ARROW), Reported(obj.items[i + 1..], Scrub(prefix)), Later(stack);
    assert inner + siblings + later == inner + (siblings + later);
  }

  lemma Ascend(root: Json, reports: seq<Report>, obj: Json, path: seq<nat>, prefix: string, stack: seq<Frame>)
    requires obj.Object? && OnTrack(root, reports, obj, path, |obj.items|, prefix, stack) && stack != []
    ensures var f := stack[|stack| - 1];
      && OnTrack(root, reports, f.obj, f.path, f.pos, Scrub(f.prefix), stack[..|stack| - 1])
      && Work(f.obj, f.pos, stack[..|stack| - 1]) < Work(obj, |obj.items|, stack)
  {
    assert Reported(obj.items[|obj.items|..], prefix) + Later(stack) == Later(stack);
  }

  /** The outer `while` over one plugin's data; `object == root` compares positions. It terminates on every tree. */
  method WalkTree(root: Json) returns (reports: seq<Report>)
    ensures reports == if root.Object? then Reported(root.items, "") else []
  {
    reports := [];
    var obj, pos, prefix := root, 0, "";
    var path: seq<nat> := [];
    var stack: seq<Frame> := [];
    assert root.Object? ==> root.items[0..] == root.items;
    while obj.Object?
      invariant root.Object? ==> OnTrack(root, reports, obj, path, pos, prefix, stack)
      invariant root.Leaf? ==> obj == root && reports == []
      decreases if root.Object? then Work(obj, pos, stack) else 0
    {
      hide OnTrack, StackOk, Reported, Later, Size, SizeLater;
      var i, out := Scan(obj.items, pos, prefix);
      Scanned(root, reports, obj, path, pos, prefix, stack, i, out);
      reports := reports + out;
      if i < |obj.items| {
        Descend(root, reports, obj, path, i, prefix, stack);
        stack := stack + [Frame(obj, path, i + 1, prefix)];
        prefix := prefix + obj.items[i].key + ARROW;
        obj, path := obj.items[i].value, path + [i];
        pos, i := 0, 0;
      }
      if path == [] {
        Finished(root, reports, obj, path, prefix, stack, i);
        return;
      }
      if i >= |obj.items| {
        NotRoot(root, reports, obj, path, i, prefix, stack);
        Ascend(root, reports, obj, path, prefix, stack);
        var infoArray := stack[|stack| - 1];
        stack := stack[..|stack| - 1];
        obj, path, pos := infoArray.obj, infoArray.path, infoArray.pos;
        prefix := Scrub(infoArray.prefix);
      }
    }
  }

  lemma Finished(root: Json, reports: seq<Report>, obj: Json, path: seq<nat>, prefix: string, stack: seq<Frame>, i: nat)
    requires OnTrack(root, reports, obj, path, i, prefix, stack) && path == [] && obj.Object? && i == |obj.items|
    ensures reports == Reported(root.items, "")
  {
    assert reports + (Reported(obj.items[i..], prefix) + Later(stack)) == reports;
  }

  /** Away from the root the stack is not empty, so the pop is safe. */
  lemma NotRoot(root: Json, reports: seq<Report>, obj: Json, path: seq<nat>, i: nat, prefix: string, stack: seq<Frame>)
    requires OnTrack(root, reports, obj, path, i, prefix, stack)
    ensures path == [] <==> stack == []
    ensures path == [] ==> obj == root
  {
  }

  // ---------- when the loop agrees with the recursive walk ----------

  lemma OccursInTail(s: string, i: nat)
    requires s != []
    ensures OccursAt(s[1..], i) <==> OccursAt(s, i + 1)
  {
    if i + 12 <= |s| {
      assert s[1..][i..i + 11] == s[i + 1..i + 12];
    }
  }

  /** The pattern occurs at the front or in the tail. */
  lemma ContainsUnfold(s: string)
    requires |s| >= 11
    ensures Contains(s) <==> s[..11] == PATTERN || Contains(s[1..])
  {
    if Contains(s) {
      var i :| OccursAt(s, i);
      if i > 0 {
        OccursInTail(s, i - 1);
      }
    }
    if s[..11] == PATTERN {
      assert OccursAt(s, 0);
    } else if Contains(s[1..]) {
      var i :| OccursAt(s[1..], i);
      OccursInTail(s, i);
    }
  }

  lemma ScrubShort(s: string)
    requires |s| < 11
    ensures !Contains(s) && Scrub(s) == s
  {
  }

  lemma ScrubHead(s: string)
    requires |s| >= 11
    ensures Scrub(s) == if s[..11] == PATTERN then s[11..] else [s[0]] + Scrub(s[1..])
  {
  }

  lemma {:induction false} ScrubEffect(s: string)
    ensures Contains(s) ==> |Scrub(s)| == |s| - 11
    ensures !Contains(s) ==> Scrub(s) == s
  {
    if |s| < 11 {
      ScrubShort(s);
    } else {
      hide Contains, Scrub;
      ScrubHead(s);
      ContainsUnfold(s);
      if s[..11] != PATTERN {
        ScrubEffect(s[1..]);
        assert s == [s[0]] + s[1..];
      }
    }
  }

  /** The number of leaves. */
  ghost function Count(items: seq<Item>): nat
  {
    if items == [] then 0
    else (if items[0].value.Object? then Count(items[0].value.items) else 1) + Count(items[1..])
  }

  lemma {:induction false} Lengths(items: seq<Item>, p: string)
    ensures |Reported(items, p)| == |Leaves(items, p)| == Count(items)
    decreases items
  {
    if items != [] {
      if items[0].value.Object? {
        Lengths(items[0].value.items, p + items[0].key + ARROW);
        Lengths(items[1..], Scrub(p));
      }
      Lengths(items[1..], p);
    }
  }

  /** A scrubbed path is never longer than the true one. */
  lemma {:induction false} NeverLonger(items: seq<Item>, p: string)
    requires Count(items) > 0
    ensures |Reported(items, p)| > 0 && |Leaves(items, p)| > 0
    ensures |Reported(items, p)[0].path| <= |Leaves(items, p)[0].path|
    decreases items
  {
    Lengths(items, p);
    if items[0].value.Object? {
      var sub, q := items[0].value.items, p + items[0].key + ARROW;
      Lengths(sub, q);
      if Count(sub) > 0 {
        NeverLonger(sub, q);
      } else {
        Lengths(items[1..], Scrub(p));
        Lengths(items[1..], p);
        NeverLonger(items[1..], Scrub(p));
        ScrubEffect(p);
        SamePrefixShift(items[1..], Scrub(p), p);
      }
    }
  }

  /** Changing the prefix changes the first path's length by the same amount. */
  lemma {:induction false} SamePrefixShift(items: seq<Item>, p: string, q: string)
    requires Count(items) > 0
    ensures |Leaves(items, p)| > 0 && |Leaves(items, q)| > 0
    ensures |Leaves(items, p)[0].path| + |q| == |Leaves(items, q)[0].path| + |p|
    decreases items
  {
    Lengths(items, p);
    Lengths(items, q);
    if items[0].value.Object? {
      var sub, key := items[0].value.items, items[0].key;
      Lengths(sub, p + key + ARROW);
      Lengths(sub, q + key + ARROW);
      if Count(sub) > 0 {
        SamePrefixShift(sub, p + key + ARROW, q + key + ARROW);
      } else {
        SamePrefixShift(items[1..], p, q);
      }
    }
  }

  /**
   No leaf comes after a child object inside an object whose path contains "undefined->". A caller can check this on the
   tree: the prefix only contains the pattern when a key on the path ends in "undefined" or contains "undefined->".
   */
  ghost predicate Undamaged(items: seq<Item>, prefix: string)
  {
    items != [] ==>
    match items[0].value
    case Leaf(_) => Undamaged(items[1..], prefix)
    case Object(sub) =>
      && Undamaged(sub, prefix + items[0].key + ARROW)
      && if Contains(prefix) then Count(items[1..]) == 0 else Undamaged(items[1..], prefix)
  }

  lemma SplitEqual(a: seq<Report>, b: seq<Report>, c: seq<Report>, d: seq<Report>)
    requires |a| == |c|
    ensures a + b == c + d <==> a == c && b == d
  {
    if a + b == c + d {
      assert a == (a + b)[..|a|] && c == (c + d)[..|c|];
      assert b == (a + b)[|a|..] && d == (c + d)[|c|..];
    }
  }

  /** The loop reports exactly what the recursive walk reports if and only if the tree is undamaged. */
  lemma {:induction false} WalkIsRecursionIff(items: seq<Item>, prefix: string)
    ensures Reported(items, prefix) == Leaves(items, prefix) <==> Undamaged(items, prefix)
    decreases items
  {
    if items != [] {
      match items[0].value
      case Leaf(v) =>
        WalkIsRecursionIff(items[1..], prefix);
        var r := [Report(prefix + items[0].key, v)];
        SplitEqual(r, Reported(items[1..], prefix), r, Leaves(items[1..], prefix));
      case Object(sub) =>
        var q, rest := prefix + items[0].key + ARROW, items[1..];
        WalkIsRecursionIff(sub, q);
        Lengths(sub, q);
        SplitEqual(Reported(sub, q), Reported(rest, Scrub(prefix)), Leaves(sub, q), Leaves(rest, prefix));
        AfterChild(rest, prefix);
        if !Contains(prefix) {
          WalkIsRecursionIff(rest, prefix);
        }
    }
  }

  lemma AfterChild(rest: seq<Item>, prefix: string)
    ensures !Contains(prefix) ==> Scrub(prefix) == prefix
    ensures Contains(prefix) ==> (Reported(rest, Scrub(prefix)) == Leaves(rest, prefix) <==> Count(rest) == 0)
  {
    ScrubEffect(prefix);
    Lengths(rest, Scrub(prefix));
    Lengths(rest, prefix);
    if Contains(prefix) && Count(rest) > 0 {
      NeverLonger(rest, Scrub(prefix));
      SamePrefixShift(rest, Scrub(prefix), prefix);
    }
  }

  // ---------- a condition on the keys alone ----------

  ghost predicate SafeKeys(items: seq<Item>)
  {
    items != [] ==>
    && !Contains(items[0].key + ARROW)
    && (items[0].value.Object? ==> SafeKeys(items[0].value.items))
    && SafeKeys(items[1..])
  }

  ghost predicate CleanPrefix(p: string)
  {
    !Contains(p) && (p == [] || p[|p| - 1] == '>')
  }

  /** An occurrence cannot straddle a prefix that ends in '>': the pattern has '>' only at its end. */
  lemma WhereItOccurs(p: string, t: string, i: nat)
    requires OccursAt(p + t, i) && (p == [] || p[|p| - 1] == '>')
    ensures OccursAt(p, i) || OccursAt(t, i - |p|)
  {
    var w := (p + t)[i..i + 11];
    assert forall k | 0 <= k < 10 :: PATTERN[k] != '>';
    assert forall j | i <= j < i + 10 :: (p + t)[j] == w[j - i] != '>';
    assert p != [] ==> (p + t)[|p| - 1] == '>';
    assert i + 11 <= |p| ==> p[i..i + 11] == w;
    assert i >= |p| ==> t[i - |p|..i - |p| + 11] == w;
  }

  lemma PrefixStaysClean(p: string, key: string)
    requires CleanPrefix(p) && !Contains(key + ARROW)
    ensures CleanPrefix(p + key + ARROW)
  {
    var s := p + key + ARROW;
    assert s == p + (key + ARROW);
    forall i | OccursAt(s, i) ensures false {
      WhereItOccurs(p, key + ARROW, i);
    }
  }

  lemma {:induction false} SafeKeysUndamaged(items: seq<Item>, p: string)
    requires SafeKeys(items) && CleanPrefix(p)
    ensures Undamaged(items, p)
    decreases items
  {
    if items != [] {
      if items[0].value.Object? {
        PrefixStaysClean(p, items[0].key);
        SafeKeysUndamaged(items[0].value.items, p + items[0].key + ARROW);
      }
      SafeKeysUndamaged(items[1..], p);
    }
  }

  /** For every tree whose keys neither end in "undefined" nor contain "undefined->", the loop is the recursive walk. */
  lemma WalkRefinesRecursion(root: Json)
    requires root.Object? && SafeKeys(root.items)
    ensures Reported(root.items, "") == Leaves(root.items, "")
  {
    SafeKeysUndamaged(root.items, "");
    WalkIsRecursionIff(root.items, "");
  }

  /** The unconditional claim is false: a key "undefined" with a child object followed by a leaf is reported under the wrong path. */
  lemma UndefinedKeyCounterexample()
    ensures var inner := Object([Item("a", Object([])), Item("b", Leaf("1"))]);
      var items := [Item("undefined", inner)];
      && Leaves(items, "") == [Report("undefined->b", "1")]
      && Reported(items, "") == [Report("b", "1")]
  {
    var inner := [Item("a", Object([])), Item("b", Leaf("1"))];
    var last := [Item("b", Leaf("1"))];
    assert inner[1..] == last && last[1..] == [];
    assert Scrub(PATTERN) == "";
    assert Leaves(last, PATTERN) == [Report(PATTERN + "b", "1")] && PATTERN + "b" == "undefined->b";
    assert Reported(last, "") == [Report("" + "b", "1")] && "" + "b" == "b";
    assert Leaves(inner, PATTERN) == Leaves([], PATTERN + "a" + ARROW) + Leaves(last, PATTERN);
    assert Reported(inner, PATTERN) == Reported([], PATTERN + "a" + ARROW) + Reported(last, "");
    assert "" + "undefined" + ARROW == PATTERN;
  }

  // ---------- what the recursive walk lists ----------

  /** A position that holds a leaf. */
  predicate LeafAt(items: seq<Item>, path: seq<nat>)
    decreases |path|
  {
    && path != [] && path[0] < |items|
    && if |path| == 1 then items[path[0]].value.Leaf? else items[path[0]].value.Object? && LeafAt(items[path[0]].value.items, path[1..])
  }

  /** Its keys joined by arrows, after the prefix, with its value. */
  function ReportAt(items: seq<Item>, path: seq<nat>, prefix: string): Report
    requires LeafAt(items, path)
    decreases |path|
  {
    var item := items[path[0]];
    if |path| == 1 then Report(prefix + item.key, item.value.value)
    else ReportAt(item.value.items, path[1..], prefix + item.key + "->")
  }

  /** The position comes first: at the first difference it takes the earlier key. */
  predicate Earlier(p: seq<nat>, q: seq<nat>)
    decreases |p|
  {
    p != [] && q != [] && (p[0] < q[0] || (p[0] == q[0] && Earlier(p[1..], q[1..])))
  }

  /** Where the walk lists it: after all leaves at earlier keys. */
  ghost function Index(items: seq<Item>, path: seq<nat>): nat
    requires LeafAt(items, path)
    decreases |path|
  {
    Count(items[..path[0]]) + (if |path| == 1 then 0 else Index(items[path[0]].value.items, path[1..]))
  }

  lemma {:induction false} LeavesAppend(a: seq<Item>, b: seq<Item>, prefix: string)
    ensures Leaves(a + b, prefix) == Leaves(a, prefix) + Leaves(b, prefix)
    ensures Count(a + b) == Count(a) + Count(b)
    decreases |a|
  {
    if a == [] {
      assert a + b == b && Leaves(a, prefix) == [];
    } else {
      LeavesAppend(a[1..], b, prefix);
      assert (a + b)[0] == a[0] && (a + b)[1..] == a[1..] + b;
      LeavesHead(a + b, prefix);
      LeavesHead(a, prefix);
      hide Leaves, Count;
    }
  }

  lemma LeavesHead(items: seq<Item>, prefix: string)
    requires items != []
    ensures Leaves(items, prefix) == Own(items[0], prefix) + Leaves(items[1..], prefix)
    ensures Count(items) == (if items[0].value.Object? then Count(items[0].value.items) else 1) + Count(items[1..])
  {
  }

  /** The leaves of one item and how many there are. */
  ghost function Own(item: Item, prefix: string): seq<Report>
  {
    if item.value.Leaf? then [Report(prefix + item.key, item.value.value)] else Leaves(item.value.items, prefix + item.key + ARROW)
  }

  lemma LeavesAround(items: seq<Item>, i: nat, prefix: string)
    requires i < |items|
    ensures Leaves(items, prefix) == Leaves(items[..i], prefix) + Own(items[i], prefix) + Leaves(items[i + 1..], prefix)
    ensures |Leaves(items[..i], prefix)| == Count(items[..i])
    ensures Count(items[..i + 1]) == Count(items[..i]) + |Own(items[i], prefix)|
  {
    assert items == items[..i] + items[i..] && items[i..] == [items[i]] + items[i + 1..];
    LeavesAppend(items[..i], items[i..], prefix);
    Lengths(items[..i], prefix);
    assert items[..i + 1] == items[..i] + [items[i]];
    LeavesAppend(items[..i], [items[i]], prefix);
    assert items[i..][1..] == items[i + 1..] && [items[i]][1..] == [];
    if items[i].value.Object? {
      Lengths(items[i].value.items, prefix + items[i].key + ARROW);
    }
  }

  /** Every leaf is listed at its index, under its joined path. */
  lemma {:induction false} ListedAt(items: seq<Item>, path: seq<nat>, prefix: string)
    requires LeafAt(items, path)
    ensures Index(items, path) < |Leaves(items, prefix)| && Leaves(items, prefix)[Index(items, path)] == ReportAt(items, path, prefix)
    decreases |path|
  {
    var i := path[0];
    LeavesAround(items, i, prefix);
    if |path| > 1 {
      ListedAt(items[i].value.items, path[1..], prefix + items[i].key + ARROW);
    }
    hide Leaves, Count;
  }

  lemma CountGrows(items: seq<Item>, i: nat, j: nat)
    requires i <= j <= |items|
    ensures Count(items[..i]) <= Count(items[..j])
  {
    assert items[..j] == items[..i] + items[i..j];
    LeavesAppend(items[..i], items[i..j], "");
  }

  /** Leaves at earlier positions are listed earlier. */
  lemma {:induction false} ListedInOrder(items: seq<Item>, p: seq<nat>, q: seq<nat>)
    requires LeafAt(items, p) && LeafAt(items, q) && Earlier(p, q)
    ensures Index(items, p) < Index(items, q)
    decreases |p|
  {
    var i := p[0];
    if i < q[0] {
      LeavesAround(items, i, "");
      if |p| > 1 {
        ListedAt(items[i].value.items, p[1..], items[i].key + ARROW);
        assert "" + items[i].key + ARROW == items[i].key + ARROW;
      }
      CountGrows(items, i + 1, q[0]);
      hide Leaves, Count;
    } else {
      assert |p| > 1 && |q| > 1;
      ListedInOrder(items[i].value.items, p[1..], q[1..]);
    }
  }

  /** Nothing else is listed: every place in the list is the index of a leaf. */
  lemma {:induction false} ListedIsLeaf(items: seq<Item>, n: nat, prefix: string) returns (path: seq<nat>)
    requires n < |Leaves(items, prefix)|
    ensures LeafAt(items, path) && Index(items, path) == n
    decreases items
  {
    var item, rest := items[0], items[1..];
    LeavesAround(items, 0, prefix);
    assert items[..0] == [];
    var own := |Own(item, prefix)|;
    if n < own {
      if item.value.Leaf? {
        path := [0];
      } else {
        var sub := ListedIsLeaf(item.value.items, n, prefix + item.key + ARROW);
        path := [0] + sub;
        assert path[1..] == sub;
      }
    } else {
      var sub := ListedIsLeaf(rest, n - own, prefix);
      path := [sub[0] + 1] + sub[1..];
      assert path[1..] == sub[1..] && rest[sub[0]] == items[sub[0] + 1];
      assert items[..sub[0] + 1] == [item] + rest[..sub[0]];
      LeavesAppend([item], rest[..sub[0]], prefix);
      assert items[..1] == [item];
    }
  }

  ghost predicate IsIndex(items: seq<Item>, n: nat)
  {
    exists path :: LeafAt(items, path) && Index(items, path) == n
  }

  /**
   The recursive walk lists exactly the leaves: each at its index under its keys joined by "->", leaves at earlier positions
   at earlier indices, and nothing else.
   */
  lemma LeavesExactly(items: seq<Item>, prefix: string)
    ensures forall path | LeafAt(items, path) ::
      Index(items, path) < |Leaves(items, prefix)| && Leaves(items, prefix)[Index(items, path)] == ReportAt(items, path, prefix)
    ensures forall p, q | LeafAt(items, p) && LeafAt(items, q) && Earlier(p, q) :: Index(items, p) < Index(items, q)
    ensures forall n: nat | n < |Leaves(items, prefix)| :: IsIndex(items, n)
  {
    forall path | LeafAt(items, path)
      ensures Index(items, path) < |Leaves(items, prefix)| && Leaves(items, prefix)[Index(items, path)] == ReportAt(items, path, prefix)
    {
      ListedAt(items, path, prefix);
    }
    forall p, q | LeafAt(items, p) && LeafAt(items, q) && Earlier(p, q) ensures Index(items, p) < Index(items, q) {
      ListedInOrder(items, p, q);
    }
    forall n: nat | n < |Leaves(items, prefix)| ensures IsIndex(items, n) {
      var path := ListedIsLeaf(items, n, prefix);
    }
  }
}
