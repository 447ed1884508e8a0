/** The message profiler: per-key counts and a sliding window of receive times, in a map ordered by a string form of the key. */
module Profiler {
  import opened Common

  /** Who sent it and what it is. */
  datatype Key = Key(pluginId: nat, msgType: string, subtype: string)

  // ---------- the string form of a key ----------

  function Decimal(n: nat): string
  {
    if n < 10 then ['0' + n as char] else Decimal(n / 10) + ['0' + (n % 10) as char]
  }

  const BARS := "||"

  /** The text the ordering compares. */
  function KeyText(k: Key): string
  {
    Decimal(k.pluginId) + BARS + k.msgType + BARS + k.subtype
  }

  /** std::string's operator<. */
  predicate Less(a: string, b: string)
  {
    b != [] && (a == [] || a[0] < b[0] || (a[0] == b[0] && Less(a[1..], b[1..])))
  }

  /** A strict total order: the map treats two keys as the same exactly when their texts are equal. */
  lemma {:induction false} LessIsTotal(a: string, b: string)
    ensures !(Less(a, b) && Less(b, a))
    ensures !Less(a, b) && !Less(b, a) <==> a == b
  {
    if a != [] && b != [] {
      LessIsTotal(a[1..], b[1..]);
      assert a == [a[0]] + a[1..] && b == [b[0]] + b[1..];
    }
  }

  lemma {:induction false} LessIsTransitive(a: string, b: string, c: string)
    requires Less(a, b) && Less(b, c)
    ensures Less(a, c)
  {
    if a != [] && a[0] == b[0] == c[0] {
      LessIsTransitive(a[1..], b[1..], c[1..]);
    }
  }

  lemma {:induction false} DecimalDigits(n: nat)
    ensures Decimal(n) != [] && '|' !in Decimal(n)
  {
    if n >= 10 {
      DecimalDigits(n / 10);
    }
  }

  lemma {:induction false} DecimalInjective(m: nat, n: nat)
    requires Decimal(m) == Decimal(n)
    ensures m == n
  {
    var dm, dn := Decimal(m), Decimal(n);
    DecimalDigits(m / 10);
    DecimalDigits(n / 10);
    assert dm[|dm| - 1] == '0' + (m % 10) as char && dn[|dn| - 1] == '0' + (n % 10) as char;
    if m >= 10 && n >= 10 {
      assert dm[..|dm| - 1] == Decimal(m / 10) && dn[..|dn| - 1] == Decimal(n / 10);
      DecimalInjective(m / 10, n / 10);
    } else {
      assert |dm| == 1 <==> m < 10;
      assert |dn| == 1 <==> n < 10;
    }
  }

  /** Texts without a bar in front of a bar can be read off. */
  lemma FrontUnique(a: string, x: string, b: string, y: string)
    requires '|' !in a && '|' !in b && a + BARS + x == b + BARS + y
    ensures a == b && x == y
  {
    var left, right := a + BARS + x, b + BARS + y;
    assert forall i | 0 <= i < |a| :: left[i] == a[i] && a[i] in a;
    assert forall i | 0 <= i < |b| :: right[i] == b[i] && b[i] in b;
    assert left[|a|] == '|' && right[|b|] == '|';
    assert |a| == |b|;
    assert left[..|a|] == a && right[..|b|] == b;
    assert left[|a| + 2..] == x && right[|b| + 2..] == y;
  }

  /** A type that cannot be confused with a shorter type and a longer subtype. */
  predicate Unambiguous(t: string)
  {
    (t != [] ==> t[|t| - 1] != '|') && forall i | 0 <= i < |t| - 1 :: !(t[i] == '|' && t[i + 1] == '|')
  }

  /** With the longer type unambiguous, the two texts after the id are equal only for equal type and subtype. */
  lemma TypeUnique(t1: string, s1: string, t2: string, s2: string)
    requires |t1| <= |t2| && Unambiguous(t2) && t1 + BARS + s1 == t2 + BARS + s2
    ensures t1 == t2 && s1 == s2
  {
    var left, right := t1 + BARS + s1, t2 + BARS + s2;
    assert forall i | 0 <= i < |t2| :: right[i] == t2[i];
    assert left[|t1|] == '|' && left[|t1| + 1] == '|';
    assert |t1| == |t2|;
    assert left[..|t1|] == t1;
    assert left[|t1| + 2..] == s1 && right[|t2| + 2..] == s2;
  }

  /** For unambiguous types the map behaves as one keyed by id, type and subtype. */
  lemma KeyTextInjective(k: Key, l: Key)
    requires Unambiguous(k.msgType) && Unambiguous(l.msgType)
    ensures KeyText(k) == KeyText(l) <==> k == l
  {
    if KeyText(k) == KeyText(l) {
      DecimalDigits(k.pluginId);
      DecimalDigits(l.pluginId);
      var restK, restL := k.msgType + BARS + k.subtype, l.msgType + BARS + l.subtype;
      assert KeyText(k) == Decimal(k.pluginId) + BARS + restK && KeyText(l) == Decimal(l.pluginId) + BARS + restL;
      FrontUnique(Decimal(k.pluginId), restK, Decimal(l.pluginId), restL);
      DecimalInjective(k.pluginId, l.pluginId);
      if |k.msgType| <= |l.msgType| {
        TypeUnique(k.msgType, k.subtype, l.msgType, l.subtype);
      } else {
        TypeUnique(l.msgType, l.subtype, k.msgType, k.subtype);
      }
    }
  }

  /** And the condition is exact: an ambiguous type shares its text with a shorter one, whatever the id and subtype. */
  lemma AmbiguousCollides(k: Key) returns (l: Key)
    requires !Unambiguous(k.msgType)
    ensures l != k && |l.msgType| < |k.msgType| && KeyText(l) == KeyText(k)
  {
    var t := k.msgType;
    if t != [] && t[|t| - 1] == '|' {
      l := Key(k.pluginId, t[..|t| - 1], "|" + k.subtype);
      SameAtTheEnd(t, k.subtype);
    } else {
      var i :| 0 <= i < |t| - 1 && t[i] == '|' && t[i + 1] == '|';
      l := Key(k.pluginId, t[..i], t[i + 2..] + BARS + k.subtype);
      SameInTheMiddle(t, i, k.subtype);
    }
    hide Decimal, Unambiguous;
    TextFromRest(k);
    TextFromRest(l);
  }

  lemma TextFromRest(k: Key)
    ensures KeyText(k) == Decimal(k.pluginId) + BARS + (k.msgType + BARS + k.subtype)
  {
    hide Decimal;
  }

  lemma SameAtTheEnd(t: string, subtype: string)
    requires t != [] && t[|t| - 1] == '|'
    ensures t[..|t| - 1] + BARS + ("|" + subtype) == t + BARS + subtype
  {
  }

  lemma SameInTheMiddle(t: string, i: nat, subtype: string)
    requires i + 1 < |t| && t[i] == '|' && t[i + 1] == '|'
    ensures t[..i] + BARS + (t[i + 2..] + BARS + subtype) == t + BARS + subtype
  {
    assert t == t[..i] + BARS + t[i + 2..];
  }

  // ---------- history and window ----------

  datatype Receipt = Receipt(key: Key, time: nat)

  /** The receive times recorded under one text, in order. */
  function TimesOf(history: seq<Receipt>, text: string): seq<nat>
  {
    if history == [] then []
    else
      var r := history[|history| - 1];
      if KeyText(r.key) == text then TimesOf(history[..|history| - 1], text) + [r.time]
      else TimesOf(history[..|history| - 1], text)
  }

  /** The same by key. */
  function TimesOfKey(history: seq<Receipt>, k: Key): seq<nat>
  {
    if history == [] then []
    else
      var r := history[|history| - 1];
      if r.key == k then TimesOfKey(history[..|history| - 1], k) + [r.time]
      else TimesOfKey(history[..|history| - 1], k)
  }

  /** The times still inside the averaging window. */
  function Recent(times: seq<nat>, window: nat, now: nat): seq<nat>
  {
    if times == [] then []
    else if window + times[|times| - 1] < now then Recent(times[..|times| - 1], window, now)
    else Recent(times[..|times| - 1], window, now) + [times[|times| - 1]]
  }

  function Under(text: string): Receipt -> bool
  {
    (r: Receipt) => KeyText(r.key) == text
  }

  function TimeOf(): Receipt -> nat
  {
    (r: Receipt) => r.time
  }

  function Inside(window: nat, now: nat): nat -> bool
  {
    (t: nat) => t + window >= now
  }

  function SameTime(): nat -> nat
  {
    (t: nat) => t
  }

  /** The times under a text are the times of exactly the receipts whose key has that text, in order. */
  lemma {:induction false} TimesPick(history: seq<Receipt>, text: string)
    ensures Picks(history, Under(text), TimeOf(), TimesOf(history, text))
  {
    if history == [] {
      PicksNothing(Under(text), TimeOf());
    } else {
      var init, last := history[..|history| - 1], history[|history| - 1];
      assert history == init + [last];
      TimesPick(init, text);
      PicksMore(init, Under(text), TimeOf(), TimesOf(init, text), last);
      hide Picks, KeyText;
    }
  }

  /** The recent times are exactly those t with t + window >= now, in order. */
  lemma {:induction false} RecentPicks(times: seq<nat>, window: nat, now: nat)
    ensures Picks(times, Inside(window, now), SameTime(), Recent(times, window, now))
  {
    if times == [] {
      PicksNothing(Inside(window, now), SameTime());
    } else {
      var init, t := times[..|times| - 1], times[|times| - 1];
      assert times == init + [t];
      RecentPicks(init, window, now);
      PicksMore(init, Inside(window, now), SameTime(), Recent(init, window, now), t);
      hide Picks;
    }
  }

  /** Purging at an earlier time first makes no difference. */
  lemma {:induction false} PurgeTwice(times: seq<nat>, window: nat, earlier: nat, now: nat)
    requires earlier <= now
    ensures Recent(Recent(times, window, earlier), window, now) == Recent(times, window, now)
  {
    if times != [] {
      var init, t := times[..|times| - 1], times[|times| - 1];
      PurgeTwice(init, window, earlier, now);
      if window + t >= earlier {
        RecentOneMore(Recent(init, window, earlier), t, window, now);
      }
    }
  }

  lemma RecentOneMore(times: seq<nat>, t: nat, window: nat, now: nat)
    ensures Recent(times + [t], window, now) == Recent(times, window, now) + (if window + t < now then [] else [t])
  {
    assert (times + [t])[..|times|] == times;
  }

  lemma {:induction false} RecentAppend(a: seq<nat>, b: seq<nat>, window: nat, now: nat)
    ensures Recent(a + b, window, now) == Recent(a, window, now) + Recent(b, window, now)
  {
    if b == [] {
      assert a + b == a;
    } else {
      RecentAppend(a, b[..|b| - 1], window, now);
      RecentOneMore(a + b[..|b| - 1], b[|b| - 1], window, now);
      assert a + b == a + b[..|b| - 1] + [b[|b| - 1]];
    }
  }

  /** For unambiguous types, the history under a text is the history of the key. */
  lemma {:induction false} TextHistoryIsKeyHistory(history: seq<Receipt>, k: Key)
    requires Unambiguous(k.msgType) && forall i | 0 <= i < |history| :: Unambiguous(history[i].key.msgType)
    ensures TimesOf(history, KeyText(k)) == TimesOfKey(history, k)
  {
    if history != [] {
      TextHistoryIsKeyHistory(history[..|history| - 1], k);
      KeyTextInjective(history[|history| - 1].key, k);
    }
  }

  // ---------- the profiler object ----------

  const UINT_RANGE := 0x1_0000_0000

  datatype ProfileData = ProfileData(messageCounts: nat, lastReceivedTime: nat, receiveTimes: seq<nat>)

  /** One row written to the database: the count, the last time in seconds, and the average interval. */
  datatype Activity = Activity(count: nat, lastReceivedSeconds: nat, averageInterval: nat)

  /** The erase loop over the vector of receive times. */
  method Purge(receiveTimes: seq<nat>, purgeWindow: nat, currentTime: nat) returns (kept: seq<nat>)
    ensures Picks(receiveTimes, Inside(purgeWindow, currentTime), SameTime(), kept)
    ensures kept == Recent(receiveTimes, purgeWindow, currentTime)
  {
    RecentPicks(receiveTimes, purgeWindow, currentTime);
    hide Picks;
    kept := receiveTimes;
    var i := 0;
    assert kept[..0] == [];
    while i < |kept|
      invariant 0 <= i <= |kept|
      invariant Recent(kept[..i], purgeWindow, currentTime) == kept[..i]
      invariant Recent(kept, purgeWindow, currentTime) == Recent(receiveTimes, purgeWindow, currentTime)
      decreases |kept| - i
    {
      RecentOneMore(kept[..i], kept[i], purgeWindow, currentTime);
      if purgeWindow + kept[i] < currentTime {
        EraseOld(kept, i, purgeWindow, currentTime);
        ghost var before := kept[..i];
        kept := kept[..i] + kept[i + 1..];
        assert kept[..i] == before;
      } else {
        assert kept[..i + 1] == kept[..i] + [kept[i]];
        i := i + 1;
      }
    }
    assert kept[..|kept|] == kept;
  }

  lemma EraseOld(times: seq<nat>, i: nat, window: nat, now: nat)
    requires i < |times| && window + times[i] < now
    ensures Recent(times[..i] + times[i + 1..], window, now) == Recent(times, window, now)
  {
    var a, t, b := times[..i], times[i], times[i + 1..];
    assert times == a + [t] + b;
    hide Recent;
    RecentAppend(a, b, window, now);
    RecentOneMore(a, t, window, now);
    RecentAppend(a + [t], b, window, now);
  }

  /** What holds of one entry: its count, its last time, and that purging it now or later gives what purging its whole history would. */
  ghost predicate Faithful(d: ProfileData, times: seq<nat>, window: nat, lastRefresh: nat)
  {
    && times != []
    && d.messageCounts == |times| % UINT_RANGE && d.lastReceivedTime == times[|times| - 1]
    && forall now: nat | now >= lastRefresh :: Recent(d.receiveTimes, window, now) == Recent(times, window, now)
  }

  lemma TimesMore(history: seq<Receipt>, r: Receipt, text: string)
    ensures TimesOf(history + [r], text) == TimesOf(history, text) + (if text == KeyText(r.key) then [r.time] else [])
  {
    assert (history + [r])[..|history|] == history;
  }

  lemma FirstReceipt(window: nat, lastRefresh: nat, t: nat)
    ensures Faithful(ProfileData(1, t, [t]), [t], window, lastRefresh)
  {
  }

  class MessageProfiler {
    const purgeWindow: nat
    var mProfileData: map<string, ProfileData>
    ghost var history: seq<Receipt>
    ghost var lastRefresh: nat

    ghost predicate Valid()
      reads this
    {
      && (forall text :: text in mProfileData <==> TimesOf(history, text) != [])
      && (forall text | text in mProfileData :: Faithful(mProfileData[text], TimesOf(history, text), purgeWindow, lastRefresh))
    }

    /** `window` is the configured averaging window; 0 stands for the default of 6000 ms. */
    constructor (window: nat)
      ensures Valid() && history == [] && lastRefresh == 0
      ensures purgeWindow == if window == 0 then 6000 else window
    {
      purgeWindow := if window == 0 then 6000 else window;
      mProfileData, history, lastRefresh := map[], [], 0;
    }

    method OnMessageReceived(key: Key, rxTime: nat)
      requires Valid()
      modifies this`mProfileData, this`history
      ensures Valid() && history == old(history) + [Receipt(key, rxTime)]
    {
      hide KeyText, TimesOf, Faithful;
      var text := KeyText(key);
      ghost var before := TimesOf(history, text);
      if text in mProfileData {
        var entry := mProfileData[text];
        var entry' := ProfileData((entry.messageCounts + 1) % UINT_RANGE, rxTime, entry.receiveTimes + [rxTime]);
        OneMoreReceipt(entry, before, purgeWindow, lastRefresh, rxTime);
        mProfileData := mProfileData[text := entry'];
      } else {
        FirstReceipt(purgeWindow, lastRefresh, rxTime);
        mProfileData := mProfileData[text := ProfileData(1, rxTime, [rxTime])];
      }
      history := history + [Receipt(key, rxTime)];
      assert [] + [rxTime] == [rxTime];
      forall other ensures TimesOf(history, other) == if other == text then before + [rxTime] else TimesOf(old(history), other) {
        TimesMore(old(history), Receipt(key, rxTime), other);
      }
    }

    /** The purge and summary part of one refresh. */
    method Refresh(currentTime: nat) returns (activity: map<string, Activity>)
      requires Valid() && lastRefresh <= currentTime
      modifies this`mProfileData, this`lastRefresh
      ensures Valid() && lastRefresh == currentTime
      ensures mProfileData.Keys == old(mProfileData).Keys == activity.Keys
      ensures forall text | text in mProfileData :: mProfileData[text].receiveTimes == Recent(TimesOf(history, text), purgeWindow, currentTime)
      ensures forall text | text in activity :: Reports(activity[text], TimesOf(history, text), purgeWindow, currentTime)
    {
      hide KeyText, TimesOf, Faithful, Recent, Summary;
      activity := map[];
      var todo := mProfileData.Keys;
      while todo != {}
        invariant todo <= mProfileData.Keys && mProfileData.Keys == old(mProfileData).Keys && activity.Keys == mProfileData.Keys - todo
        invariant lastRefresh == old(lastRefresh)
        invariant forall text | text in todo :: Faithful(mProfileData[text], TimesOf(history, text), purgeWindow, lastRefresh)
        invariant forall text | text in activity ::
          && Faithful(mProfileData[text], TimesOf(history, text), purgeWindow, currentTime)
          && mProfileData[text].receiveTimes == Recent(TimesOf(history, text), purgeWindow, currentTime)
          && activity[text] == Summary(mProfileData[text], purgeWindow)
      {
        var text :| text in todo;
        var entry := mProfileData[text];
        var kept := Purge(entry.receiveTimes, purgeWindow, currentTime);
        PurgeKeepsFaithful(entry, TimesOf(history, text), purgeWindow, lastRefresh, currentTime);
        mProfileData := mProfileData[text := entry.(receiveTimes := kept)];
        activity := activity[text := Summary(entry.(receiveTimes := kept), purgeWindow)];
        todo := todo - {text};
      }
      lastRefresh := currentTime;
      forall text | text in activity ensures Reports(activity[text], TimesOf(history, text), purgeWindow, currentTime) {
        SummaryReports(mProfileData[text], TimesOf(history, text), purgeWindow, currentTime);
      }
    }
  }

  /** A row says of a history: how many receipts there were (as a 32-bit count), when the last was, and the window divided by the number of recent ones. */
  predicate Reports(a: Activity, all: seq<nat>, window: nat, now: nat)
  {
    && all != []
    && a.count == |all| % UINT_RANGE && a.lastReceivedSeconds == all[|all| - 1] / 1000
    && a.averageInterval == if Recent(all, window, now) == [] then 0 else window / |Recent(all, window, now)|
  }

  lemma SummaryReports(d: ProfileData, times: seq<nat>, window: nat, now: nat)
    requires Faithful(d, times, window, now) && d.receiveTimes == Recent(times, window, now)
    ensures Reports(Summary(d, window), times, window, now)
  {
  }

  function Summary(d: ProfileData, purgeWindow: nat): Activity
  {
    Activity(d.messageCounts, d.lastReceivedTime / 1000, if |d.receiveTimes| == 0 then 0 else purgeWindow / |d.receiveTimes|)
  }

  lemma OneMoreReceipt(d: ProfileData, times: seq<nat>, window: nat, lastRefresh: nat, t: nat)
    requires Faithful(d, times, window, lastRefresh)
    ensures Faithful(ProfileData((d.messageCounts + 1) % UINT_RANGE, t, d.receiveTimes + [t]), times + [t], window, lastRefresh)
  {
    forall now: nat | now >= lastRefresh
      ensures Recent(d.receiveTimes + [t], window, now) == Recent(times + [t], window, now)
    {
      RecentOneMore(d.receiveTimes, t, window, now);
      RecentOneMore(times, t, window, now);
    }
  }

  lemma PurgeKeepsFaithful(d: ProfileData, times: seq<nat>, window: nat, lastRefresh: nat, now: nat)
    requires Faithful(d, times, window, lastRefresh) && lastRefresh <= now
    ensures Recent(d.receiveTimes, window, now) == Recent(times, window, now)
    ensures Faithful(d.(receiveTimes := Recent(d.receiveTimes, window, now)), times, window, now)
  {
    forall later: nat | later >= now
      ensures Recent(Recent(d.receiveTimes, window, now), window, later) == Recent(times, window, later)
    {
      PurgeTwice(times, window, now, later);
    }
  }
}
