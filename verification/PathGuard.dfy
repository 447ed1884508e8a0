/** The lexical check that keeps a plugin's executable inside its working directory, and the tokenizer that feeds it. */
module PathGuard {
  import opened Common

  const DOT := "."
  const DOTDOT := ".."

  // ---------- walking a path ----------

  /** The directory reached from `dir` by the components `ts`: "." and empty components stay, ".." goes up (or stays at the root). */
  function Resolve(dir: seq<string>, ts: seq<string>): seq<string>
  {
    if ts == [] then dir
    else
      var here := Resolve(dir, ts[..|ts| - 1]);
      var t := ts[|ts| - 1];
      if t == DOT || t == "" then here
      else if t == DOTDOT then (if here == [] then [] else here[..|here| - 1])
      else here + [t]
  }

  /** At no point above `dir`, and in the end strictly below it. */
  ghost predicate StaysBelow(dir: seq<string>, ts: seq<string>)
  {
    && (forall n | 0 <= n <= |ts| :: dir <= Resolve(dir, ts[..n]))
    && Resolve(dir, ts) != dir
  }

  // ---------- the depth counter ----------

  function Depth(ts: seq<string>): int
  {
    if ts == [] then 0
    else
      var t := ts[|ts| - 1];
      Depth(ts[..|ts| - 1]) + (if t == DOT then 0 else if t == DOTDOT then -1 else 1)
  }

  ghost predicate NeverBelow(ts: seq<string>, least: int)
  {
    forall n | 0 <= n <= |ts| :: Depth(ts[..n]) >= least
  }

  /** `!(exeDepth < 1 || outOfRoot)`. */
  ghost predicate Accepts(ts: seq<string>)
  {
    NeverBelow(ts, 0) && Depth(ts) >= 1
  }

  function WithoutDots(ts: seq<string>): seq<string>
  {
    if ts == [] then []
    else if ts[|ts| - 1] == DOT then WithoutDots(ts[..|ts| - 1])
    else WithoutDots(ts[..|ts| - 1]) + [ts[|ts| - 1]]
  }

  lemma TokenDone(ts: seq<string>, i: nat)
    requires i < |ts|
    ensures Depth(ts[..i + 1]) == Depth(ts[..i]) + (if ts[i] == DOT then 0 else if ts[i] == DOTDOT then -1 else 1)
    ensures WithoutDots(ts[..i + 1]) == WithoutDots(ts[..i]) + (if ts[i] == DOT then [] else [ts[i]])
  {
    assert ts[..i + 1][..i] == ts[..i];
  }

  /** The loop over the executable's tokens; `components` stands for the path stream, one "/" before each component. */
  method CheckExecutable(pathTokens: seq<string>, exeTokens: seq<string>) returns (accepted: bool, components: seq<string>)
    ensures accepted <==> Accepts(exeTokens)
    ensures components == pathTokens + WithoutDots(exeTokens)
  {
    components := pathTokens;
    var exeDepth, outOfRoot, i := 0, false, 0;
    assert Depth([]) == 0 && WithoutDots([]) == [] && exeTokens[..0] == [];
    hide Depth, WithoutDots;
    while i < |exeTokens|
      invariant 0 <= i <= |exeTokens|
      invariant exeDepth == Depth(exeTokens[..i])
      invariant outOfRoot <==> exists n | 0 <= n <= i :: Depth(exeTokens[..n]) < 0
      invariant components == pathTokens + WithoutDots(exeTokens[..i])
    {
      var t := exeTokens[i];
      TokenDone(exeTokens, i);
      if t != DOT {
        components := components + [t];
        if t == DOTDOT {
          exeDepth := exeDepth - 1;
        } else {
          exeDepth := exeDepth + 1;
        }
      }
      if exeDepth < 0 {
        outOfRoot := true;
      }
      i := i + 1;
    }
    assert exeTokens[..|exeTokens|] == exeTokens;
    accepted := !(exeDepth < 1 || outOfRoot);
  }

  // ---------- what acceptance means ----------

  ghost predicate NoEmpty(ts: seq<string>)
  {
    forall i | 0 <= i < |ts| :: ts[i] != ""
  }

  lemma {:induction false} ResolveAppend(dir: seq<string>, a: seq<string>, b: seq<string>)
    ensures Resolve(dir, a + b) == Resolve(Resolve(dir, a), b)
  {
    if b == [] {
      assert a + b == a;
    } else {
      ResolveAppend(dir, a, b[..|b| - 1]);
      assert (a + b)[..|a + b| - 1] == a + b[..|b| - 1];
    }
  }

  lemma {:induction false} DotsDoNotMatter(dir: seq<string>, ts: seq<string>)
    ensures Resolve(dir, WithoutDots(ts)) == Resolve(dir, ts)
  {
    if ts != [] {
      var init, t := ts[..|ts| - 1], ts[|ts| - 1];
      DotsDoNotMatter(dir, init);
      if t != DOT {
        assert WithoutDots(ts)[..|WithoutDots(ts)| - 1] == WithoutDots(init);
      }
    }
  }

  lemma NeverBelowPrefix(ts: seq<string>, least: int, k: nat)
    requires NeverBelow(ts, least) && k <= |ts|
    ensures NeverBelow(ts[..k], least) && Depth(ts[..k]) >= least
  {
    hide Depth;
    forall n | 0 <= n <= k ensures Depth(ts[..k][..n]) >= least {
      assert ts[..k][..n] == ts[..n];
    }
  }

  /** While the counter has not gone negative, it is the number of components below the directory. */
  lemma {:induction false} DepthIsPosition(dir: seq<string>, ts: seq<string>)
    requires NoEmpty(ts) && NeverBelow(ts, 0)
    ensures dir <= Resolve(dir, ts) && |Resolve(dir, ts)| == |dir| + Depth(ts)
  {
    if ts != [] {
      NeverBelowPrefix(ts, 0, |ts| - 1);
      NeverBelowPrefix(ts, 0, |ts|);
      assert ts[..|ts|] == ts;
      DepthIsPosition(dir, ts[..|ts| - 1]);
    }
  }

  /** Soundness: an accepted full path lies strictly below the normalised working directory, whatever that is. */
  lemma AcceptedIsBelow(pathTokens: seq<string>, exeTokens: seq<string>)
    requires NoEmpty(exeTokens) && Accepts(exeTokens)
    ensures var dir := Resolve([], pathTokens);
      && StaysBelow(dir, exeTokens)
      && Resolve([], pathTokens + WithoutDots(exeTokens)) == Resolve(dir, exeTokens)
      && dir < Resolve([], pathTokens + WithoutDots(exeTokens))
  {
    var dir := Resolve([], pathTokens);
    ResolveAppend([], pathTokens, WithoutDots(exeTokens));
    DotsDoNotMatter(dir, exeTokens);
    DepthIsPosition(dir, exeTokens);
    forall n | 0 <= n <= |exeTokens| ensures dir <= Resolve(dir, exeTokens[..n]) {
      NeverBelowPrefix(exeTokens, 0, n);
      DepthIsPosition(dir, exeTokens[..n]);
    }
  }

  /** The first step below zero leaves the directory. */
  lemma {:induction false} LeavesWhenNegative(dir: seq<string>, ts: seq<string>)
    requires NoEmpty(ts) && dir != [] && !NeverBelow(ts, 0)
    ensures exists n :: 0 <= n <= |ts| && !(dir <= Resolve(dir, ts[..n]))
  {
    var init, t := ts[..|ts| - 1], ts[|ts| - 1];
    assert forall n | 0 <= n < |ts| :: init[..n] == ts[..n];
    if NeverBelow(init, 0) {
      DepthIsPosition(dir, init);
      assert ts[..|ts|] == ts && Depth(ts) < 0;
      assert init[..|init|] == init && Depth(init) >= 0;
      assert |Resolve(dir, ts)| < |dir|;
    } else {
      LeavesWhenNegative(dir, init);
      var n :| 0 <= n <= |init| && !(dir <= Resolve(dir, init[..n]));
      assert ts[..n] == init[..n];
    }
  }

  /** Soundness and completeness: below any directory other than the root, the counter accepts exactly the paths that stay below it. */
  lemma AcceptsIffBelow(dir: seq<string>, ts: seq<string>)
    requires NoEmpty(ts) && dir != []
    ensures Accepts(ts) <==> StaysBelow(dir, ts)
  {
    if NeverBelow(ts, 0) {
      DepthIsPosition(dir, ts);
      forall n | 0 <= n <= |ts| ensures dir <= Resolve(dir, ts[..n]) {
        NeverBelowPrefix(ts, 0, n);
        DepthIsPosition(dir, ts[..n]);
      }
      assert ts[..|ts|] == ts && Depth(ts) >= 0;
    } else {
      LeavesWhenNegative(dir, ts);
    }
  }

  /** At the root ".." stays put, and the counter is stricter than the walk. */
  lemma RootIsStricter()
    ensures StaysBelow([], [DOTDOT, "x"]) && !Accepts([DOTDOT, "x"])
  {
    var ts := [DOTDOT, "x"];
    assert ts[..0] == [] && ts[..1] == [DOTDOT] && ts[..2] == ts && [DOTDOT][..0] == [];
    assert Depth([]) == 0 && Resolve([], [DOTDOT]) == [];
    assert Resolve([], ts) == ["x"];
    assert Depth(ts[..1]) == -1 by {
      hide Depth;
      TokenDone(ts, 0);
    }
  }

  // ---------- the tokenizer ----------

  /** The text after the last separator. */
  function Open(s: string): string
  {
    if s == [] || s[|s| - 1] == '/' then [] else Open(s[..|s| - 1]) + [s[|s| - 1]]
  }

  /** The pieces that a separator ends. */
  function Closed(s: string): seq<string>
  {
    if s == [] then []
    else if s[|s| - 1] == '/' then Closed(s[..|s| - 1]) + [Open(s[..|s| - 1])]
    else Closed(s[..|s| - 1])
  }

  /** The pieces between separators; a trailing empty piece is not pushed. */
  function RawTokens(s: string): seq<string>
  {
    if Open(s) == [] then Closed(s) else Closed(s) + [Open(s)]
  }

  function NonEmptyOnly(ts: seq<string>): seq<string>
  {
    if ts == [] then []
    else if ts[0] == "" then NonEmptyOnly(ts[1..])
    else [ts[0]] + NonEmptyOnly(ts[1..])
  }

  /** The first token as it is, the rest without empty ones. */
  function KeepFirst(ts: seq<string>): seq<string>
  {
    if ts == [] then [] else [ts[0]] + NonEmptyOnly(ts[1..])
  }

  /** What `removeEmpty` leaves: at most one leading empty token is removed, and the token after it is never looked at. */
  function Cleaned(ts: seq<string>): seq<string>
  {
    if ts != [] && ts[0] == "" then KeepFirst(ts[1..]) else KeepFirst(ts)
  }

  lemma CharDone(str: string, i: nat)
    requires i < |str|
    ensures Open(str[..i + 1]) == if str[i] == '/' then [] else Open(str[..i]) + [str[i]]
    ensures Closed(str[..i + 1]) == Closed(str[..i]) + (if str[i] == '/' then [Open(str[..i])] else [])
  {
    assert str[..i + 1][..i] == str[..i];
  }

  method Tokenize(str: string) returns (results: seq<string>)
    ensures results == Cleaned(RawTokens(str))
  {
    results := [];
    var startPosition, i := 0, 0;
    SplitNothing(str);
    hide SplitTo, Cleaned, RawTokens;
    while i < |str|
      invariant 0 <= startPosition <= i <= |str|
      invariant SplitTo(str, i, results, startPosition)
    {
      SplitMore(str, i, results, startPosition);
      if str[i] == '/' {
        results := results + [str[startPosition..i]];
        startPosition := i + 1;
      }
      i := i + 1;
    }
    SplitAll(str, results, startPosition);
    if i != startPosition {
      results := results + [str[startPosition..i]];
    }
    results := RemoveEmpty(results);
  }

  /** The first i characters have been split: these are the pieces ended by a separator, and the last piece begins here. */
  ghost predicate SplitTo(str: string, i: nat, results: seq<string>, startPosition: nat)
  {
    startPosition <= i <= |str| && results == Closed(str[..i]) && str[startPosition..i] == Open(str[..i])
  }

  lemma SplitNothing(str: string)
    ensures SplitTo(str, 0, [], 0)
  {
    assert str[..0] == [];
  }

  lemma SplitMore(str: string, i: nat, results: seq<string>, startPosition: nat)
    requires SplitTo(str, i, results, startPosition) && i < |str|
    ensures str[i] == '/' ==> SplitTo(str, i + 1, results + [str[startPosition..i]], i + 1)
    ensures str[i] != '/' ==> SplitTo(str, i + 1, results, startPosition)
  {
    hide Closed, Open;
    CharDone(str, i);
    assert str[startPosition..i + 1] == str[startPosition..i] + [str[i]];
  }

  lemma SplitAll(str: string, results: seq<string>, startPosition: nat)
    requires SplitTo(str, |str|, results, startPosition)
    ensures RawTokens(str) == if startPosition == |str| then results else results + [str[startPosition..|str|]]
  {
    hide Closed, Open;
    assert str[..|str|] == str;
  }

  /** The first look at the first token. */
  lemma FirstToken(raw: seq<string>)
    ensures raw == [] ==> Cleaned(raw) == []
    ensures raw != [] ==> Cleaned(raw) == if raw[0] == "" then KeepFirst(raw[1..]) else KeepFirst(raw)
    ensures KeepFirst([]) == []
  {
  }

  /** The erase loop: after an erase the iterator restarts at begin() and is then advanced, so position 0 is tested only once. */
  method RemoveEmpty(raw: seq<string>) returns (results: seq<string>)
    ensures results == Cleaned(raw)
  {
    results := raw;
    var itr := 0;
    FirstToken(raw);
    hide Cleaned, KeepFirst;
    while itr != |results| && |results| > 0
      invariant itr <= |results| || (itr == 1 && results == [])
      invariant itr == 0 ==> results == raw
      invariant itr >= 1 ==> KeepFirst(results) == Cleaned(raw)
      invariant forall j | 1 <= j < itr && j < |results| :: results[j] != ""
      decreases |results|, |results| - itr
    {
      if results[itr] == "" {
        if itr >= 1 {
          EraseKeeps(results, itr);
        } else {
          assert results[..0] + results[1..] == raw[1..];
        }
        results := results[..itr] + results[itr + 1..];
        itr := 0;
      }
      itr := itr + 1;
    }
    AllKept(results);
    assert results == Cleaned(raw);
  }

  lemma {:induction false} NonEmptyErase(ts: seq<string>, j: nat)
    requires j < |ts| && ts[j] == ""
    ensures NonEmptyOnly(ts[..j] + ts[j + 1..]) == NonEmptyOnly(ts)
  {
    var cut := ts[..j] + ts[j + 1..];
    if j == 0 {
      assert cut == ts[1..];
    } else {
      NonEmptyErase(ts[1..], j - 1);
      assert cut[1..] == ts[1..][..j - 1] + ts[1..][j..];
    }
  }

  lemma EraseKeeps(ts: seq<string>, j: nat)
    requires 1 <= j < |ts| && ts[j] == ""
    ensures KeepFirst(ts[..j] + ts[j + 1..]) == KeepFirst(ts)
  {
    NonEmptyErase(ts[1..], j - 1);
    assert (ts[..j] + ts[j + 1..])[1..] == ts[1..][..j - 1] + ts[1..][j..];
  }

  lemma {:induction false} NonEmptyFixed(ts: seq<string>)
    requires NoEmpty(ts)
    ensures NonEmptyOnly(ts) == ts
  {
    if ts != [] {
      NonEmptyFixed(ts[1..]);
    }
  }

  lemma AllKept(ts: seq<string>)
    ensures (forall j | 1 <= j < |ts| :: ts[j] != "") ==> KeepFirst(ts) == ts
  {
    if ts != [] && forall j | 1 <= j < |ts| :: ts[j] != "" {
      NonEmptyFixed(ts[1..]);
    }
  }

  // ---------- the guard on executable names ----------

  predicate TwoSlashes(s: string)
  {
    |s| >= 2 && s[0] == '/' && s[1] == '/'
  }

  lemma {:induction false} FirstPieces(s: string)
    ensures var closed, open := Closed(s), Open(s);
      && (|closed| == 0 ==> open == s && '/' !in s)
      && (|closed| == 1 ==> |closed[0]| + 1 + |open| == |s|)
      && (|closed| >= 1 ==> |s| >= 1 && (closed[0] == [] <==> s[0] == '/'))
      && (|closed| >= 2 ==> |s| >= 2 && (closed[0] == [] && closed[1] == [] <==> TwoSlashes(s)))
      && (TwoSlashes(s) ==> |closed| >= 2)
  {
    if s != [] {
      var init, c := s[..|s| - 1], s[|s| - 1];
      assert s == init + [c];
      assert Closed(s) == if c == '/' then Closed(init) + [Open(init)] else Closed(init);
      assert Open(s) == if c == '/' then [] else Open(init) + [c];
      hide Closed, Open;
      FirstPieces(init);
    }
  }

  lemma {:induction false} NonEmptyIsNonEmpty(ts: seq<string>)
    ensures NoEmpty(NonEmptyOnly(ts))
  {
    if ts != [] {
      NonEmptyIsNonEmpty(ts[1..]);
    }
  }

  function Tokens(s: string): seq<string>
  {
    Cleaned(RawTokens(s))
  }

  lemma RawStart(s: string)
    ensures |RawTokens(s)| >= 2 && RawTokens(s)[0] == "" && RawTokens(s)[1] == "" <==> TwoSlashes(s)
  {
    FirstPieces(s);
    hide Closed, Open;
  }

  lemma KeepFirstEmpty(ts: seq<string>)
    ensures NoEmpty(KeepFirst(ts)) <==> ts == [] || ts[0] != ""
    ensures ts != [] ==> KeepFirst(ts) != [] && KeepFirst(ts)[0] == ts[0] && NoEmpty(KeepFirst(ts)[1..])
  {
    if ts != [] {
      NonEmptyIsNonEmpty(ts[1..]);
      assert KeepFirst(ts)[0] == ts[0] && KeepFirst(ts)[1..] == NonEmptyOnly(ts[1..]);
      forall i | 1 <= i < |KeepFirst(ts)| ensures KeepFirst(ts)[i] != "" {
        assert KeepFirst(ts)[i] == NonEmptyOnly(ts[1..])[i - 1];
      }
    }
  }

  /** Removing empty tokens fails for exactly the names that start with two slashes, and then only the first token is empty. */
  lemma EmptyTokenIff(s: string)
    ensures NoEmpty(Tokens(s)) <==> !TwoSlashes(s)
    ensures TwoSlashes(s) ==> Tokens(s) != [] && Tokens(s)[0] == "" && NoEmpty(Tokens(s)[1..])
  {
    RawStart(s);
    var raw := RawTokens(s);
    KeepFirstEmpty(raw);
    if raw != [] {
      KeepFirstEmpty(raw[1..]);
    }
    hide RawTokens, KeepFirst;
  }

  lemma {:induction false} EmptyFirst(dir: seq<string>, ts: seq<string>)
    ensures Depth([""] + ts) == 1 + Depth(ts) && Resolve(dir, [""] + ts) == Resolve(dir, ts)
  {
    if ts != [] {
      EmptyFirst(dir, ts[..|ts| - 1]);
      assert ([""] + ts)[..|ts|] == [""] + ts[..|ts| - 1];
    } else {
      assert [""] + ts == [""] && [""][..0] == [];
    }
  }

  lemma EmptyFirstAccepts(ts: seq<string>)
    ensures Accepts([""] + ts) <==> NeverBelow(ts, -1) && Depth(ts) >= 0
  {
    var all := [""] + ts;
    EmptyFirst([], ts);
    forall n | 0 <= n <= |ts| ensures Depth(all[..n + 1]) == 1 + Depth(ts[..n]) {
      EmptyFirst([], ts[..n]);
      assert all[..n + 1] == [""] + ts[..n];
    }
    assert all[..0] == [];
    if NeverBelow(all, 0) {
      forall n | 0 <= n <= |ts| ensures Depth(ts[..n]) >= -1 {
        assert Depth(all[..n + 1]) >= 0;
      }
    }
    if NeverBelow(ts, -1) {
      forall m | 0 <= m <= |all| ensures Depth(all[..m]) >= 0 {
        if m > 0 {
          assert Depth(all[..(m - 1) + 1]) == 1 + Depth(ts[..m - 1]);
        }
      }
    }
  }

  lemma EmptyFirstStays(dir: seq<string>, ts: seq<string>)
    ensures StaysBelow(dir, [""] + ts) <==> StaysBelow(dir, ts)
  {
    var all := [""] + ts;
    EmptyFirst(dir, ts);
    forall n | 0 <= n <= |ts| ensures Resolve(dir, all[..n + 1]) == Resolve(dir, ts[..n]) {
      EmptyFirst(dir, ts[..n]);
      assert all[..n + 1] == [""] + ts[..n];
    }
    assert all[..0] == [];
    if StaysBelow(dir, all) {
      forall n | 0 <= n <= |ts| ensures dir <= Resolve(dir, ts[..n]) {
        assert dir <= Resolve(dir, all[..n + 1]);
      }
    }
    if StaysBelow(dir, ts) {
      forall m | 0 <= m <= |all| ensures dir <= Resolve(dir, all[..m]) {
        if m > 0 {
          assert Resolve(dir, all[..(m - 1) + 1]) == Resolve(dir, ts[..m - 1]);
        }
      }
    }
  }

  /** The tokens after a leading empty one miss the criterion by the one level that the empty token was counted for. */
  ghost predicate OneLevelShort(ts: seq<string>)
  {
    NeverBelow(ts, -1) && Depth(ts) >= 0 && !Accepts(ts)
  }

  /**
   On executable names: below any directory other than the root, the guard accepts exactly the names that stay below it,
   except for names that start with two slashes and are one level short, where it accepts and the name does not.
   */
  lemma GuardExactIff(dir: seq<string>, exeName: string)
    requires dir != []
    ensures (Accepts(Tokens(exeName)) <==> StaysBelow(dir, Tokens(exeName))) <==>
      !(TwoSlashes(exeName) && Tokens(exeName) != [] && OneLevelShort(Tokens(exeName)[1..]))
  {
    EmptyTokenIff(exeName);
    var ts := Tokens(exeName);
    if TwoSlashes(exeName) {
      assert ts == [""] + ts[1..];
      EmptyFirstAccepts(ts[1..]);
      EmptyFirstStays(dir, ts[1..]);
      AcceptsIffBelow(dir, ts[1..]);
      AcceptsMeansNearly(ts[1..]);
    } else {
      AcceptsIffBelow(dir, ts);
    }
  }

  lemma AcceptsMeansNearly(ts: seq<string>)
    ensures Accepts(ts) ==> NeverBelow(ts, -1) && Depth(ts) >= 0
  {
  }

  /** The smallest such name: "//" yields one empty token, which the counter takes for a component. */
  lemma TwoSlashesCounterexample(dir: seq<string>)
    ensures Tokens("//") == [""] && Accepts([""]) && Resolve(dir, [""]) == dir
  {
    TwoSlashesTokens();
    hide Tokens;
    assert [""][..0] == [] && [""][..1] == [""];
  }

  lemma TwoSlashesTokens()
    ensures Tokens("//") == [""]
  {
    assert Closed("//") == ["", ""] && Open("//") == "" by {
      var s := "//";
      assert s[..1] == "/" && s[..1][..0] == "";
      assert Closed("/") == [""] && Open("/") == "";
    }
    hide Closed, Open;
  }

  /** And a name that leaves the directory: from "/d", "//../x" is accepted and leads to "/x". */
  lemma EscapeCounterexample()
    ensures Tokens("//../x") == ["", DOTDOT, "x"] && Accepts(Tokens("//../x"))
    ensures Resolve(["d"], Tokens("//../x")) == ["x"] && !(["d"] <= ["x"])
  {
    EscapeTokens();
    EscapeAccepted();
    EscapeResolves();
    hide Tokens, Accepts, Resolve;
    assert ["d"][0] != ["x"][0];
  }

  lemma EscapeTokens()
    ensures Tokens("//../x") == ["", DOTDOT, "x"]
  {
    var s := "//../x";
    EscapePieces();
    hide Closed, Open;
    assert RawTokens(s) == ["", "", DOTDOT, "x"];
    var rest := ["", DOTDOT, "x"];
    assert RawTokens(s)[1..] == rest && rest[1..] == [DOTDOT, "x"] && [DOTDOT, "x"][1..] == ["x"] && ["x"][1..] == [];
    assert NonEmptyOnly(["x"]) == ["x"];
    assert NonEmptyOnly([DOTDOT, "x"]) == [DOTDOT, "x"];
  }

  const ESCAPE := "//../x"

  lemma EscapeSlashes()
    ensures Closed(ESCAPE[..2]) == ["", ""] && Open(ESCAPE[..2]) == ""
  {
    assert Closed(ESCAPE[..0]) == [] && Open(ESCAPE[..0]) == [];
    hide Closed, Open;
    CharDone(ESCAPE, 0);
    CharDone(ESCAPE, 1);
  }

  lemma EscapeDots()
    ensures Closed(ESCAPE[..4]) == ["", ""] && Open(ESCAPE[..4]) == DOTDOT
  {
    EscapeSlashes();
    hide Closed, Open;
    CharDone(ESCAPE, 2);
    CharDone(ESCAPE, 3);
  }

  lemma EscapePieces()
    ensures Closed("//../x") == ["", "", DOTDOT] && Open("//../x") == "x"
  {
    EscapeDots();
    hide Closed, Open;
    CharDone(ESCAPE, 4);
    CharDone(ESCAPE, 5);
    assert ESCAPE[..6] == ESCAPE;
  }

  lemma EscapeAccepted()
    ensures Accepts(["", DOTDOT, "x"])
  {
    var ts := ["", DOTDOT, "x"];
    assert Depth([]) == 0 && ts[..0] == [] && ts[..3] == ts;
    hide Depth, WithoutDots;
    TokenDone(ts, 0);
    TokenDone(ts, 1);
    TokenDone(ts, 2);
  }

  lemma EscapeResolves()
    ensures Resolve(["d"], ["", DOTDOT, "x"]) == ["x"]
  {
    var ts := ["", DOTDOT, "x"];
    assert ts[..2] == ["", DOTDOT] && ts[..2][..1] == [""] && ts[..1][..0] == [];
    assert Resolve(["d"], [""]) == ["d"];
    assert Resolve(["d"], ["", DOTDOT]) == [];
  }

  // ---------- the tokens, by the pieces ----------

  /** All pieces between separators, the last one included. */
  function Pieces(s: string): seq<string>
  {
    Closed(s) + [Open(s)]
  }

  function JoinSlash(pieces: seq<string>): string
    requires pieces != []
  {
    if |pieces| == 1 then pieces[0] else JoinSlash(pieces[..|pieces| - 1]) + "/" + pieces[|pieces| - 1]
  }

  lemma JoinEmptyPiece(pieces: seq<string>, last: string)
    ensures JoinSlash(pieces + [last] + [""]) == JoinSlash(pieces + [last]) + "/"
  {
    var all := pieces + [last] + [""];
    assert all[..|all| - 1] == pieces + [last];
  }

  lemma JoinLonger(pieces: seq<string>, last: string, c: char)
    ensures JoinSlash(pieces + [last + [c]]) == JoinSlash(pieces + [last]) + [c]
  {
    assert (pieces + [last + [c]])[..|pieces|] == pieces && (pieces + [last])[..|pieces|] == pieces;
    if pieces != [] {
      assert JoinSlash(pieces) + "/" + (last + [c]) == JoinSlash(pieces) + "/" + last + [c];
    }
  }

  /** What makes them the pieces: none contains a separator, and joined with it they are the text. */
  lemma {:induction false} PiecesAreASplit(s: string)
    ensures JoinSlash(Pieces(s)) == s && forall i | 0 <= i < |Pieces(s)| :: '/' !in Pieces(s)[i]
  {
    if s == [] {
      assert Pieces(s) == [""];
    } else {
      var init, c := s[..|s| - 1], s[|s| - 1];
      PiecesAreASplit(init);
      assert s == init + [c];
      var closed, open := Closed(init), Open(init);
      assert Pieces(s) == if c == '/' then closed + [open] + [""] else closed + [open + [c]];
      assert Pieces(init)[|closed|] == open && forall i | 0 <= i < |closed| :: Pieces(init)[i] == closed[i];
      hide JoinSlash, Closed, Open;
      if c == '/' {
        JoinEmptyPiece(closed, open);
      } else {
        JoinLonger(closed, open, c);
      }
    }
  }

  function NotEmpty(): string -> bool
  {
    (piece: string) => piece != ""
  }

  function SamePiece(): string -> string
  {
    (piece: string) => piece
  }

  lemma {:induction false} NonEmptyMore(ts: seq<string>, t: string)
    ensures NonEmptyOnly(ts + [t]) == NonEmptyOnly(ts) + (if t == "" then [] else [t])
  {
    var all := ts + [t];
    if ts == [] {
      assert all[1..] == [];
    } else {
      NonEmptyMore(ts[1..], t);
      assert all[0] == ts[0] && all[1..] == ts[1..] + [t];
    }
  }

  lemma {:induction false} NonEmptyPicks(ts: seq<string>)
    ensures Picks(ts, NotEmpty(), SamePiece(), NonEmptyOnly(ts))
  {
    if ts == [] {
      PicksNothing(NotEmpty(), SamePiece());
    } else {
      var init, last := ts[..|ts| - 1], ts[|ts| - 1];
      assert ts == init + [last];
      NonEmptyPicks(init);
      NonEmptyMore(init, last);
      PicksMore(init, NotEmpty(), SamePiece(), NonEmptyOnly(init), last);
      hide Picks, NonEmptyOnly;
    }
  }

  /** What the erase loop leaves, by the non-empty tokens: all of them, after one empty token when there were two at the front. */
  lemma CleanedIs(raw: seq<string>)
    ensures Cleaned(raw) == (if |raw| >= 2 && raw[0] == "" && raw[1] == "" then [""] else []) + NonEmptyOnly(raw)
  {
    if raw != [] && raw[0] == "" {
      var rest := raw[1..];
      assert NonEmptyOnly(raw) == NonEmptyOnly(rest);
      if rest != [] {
        assert rest[0] == raw[1] && rest[1..] == raw[2..];
      }
    }
  }

  /**
   The tokens of a name are exactly the non-empty pieces between its separators, in order; a name that starts with two
   separators has one empty token in front of them.
   */
  lemma TokensAre(s: string)
    ensures Tokens(s) == (if TwoSlashes(s) then [""] else []) + NonEmptyOnly(Pieces(s))
    ensures Picks(Pieces(s), NotEmpty(), SamePiece(), NonEmptyOnly(Pieces(s)))
  {
    NonEmptyPicks(Pieces(s));
    NonEmptyMore(Closed(s), Open(s));
    CleanedIs(RawTokens(s));
    RawStart(s);
    hide NonEmptyOnly, Cleaned, Closed, Open, Picks, TwoSlashes;
  }
}
