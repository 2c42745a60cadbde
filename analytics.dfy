/**
 * The analytics panel (src/components/Analytics.tsx): totals of page views and
 * button clicks, the per-button click counts tallied client-side and sorted in
 * descending order, and the ten most recent events. The four queries run
 * against one snapshot of the `analytics` table; a query that yields no data
 * is in `failed`, and an exception anywhere is `throws`.
 */
module Analytics {
  import opened Wrappers
  import opened UseAnalytics

  datatype ButtonStat = ButtonStat(buttonTitle: string, clickCount: nat)

  /** The columns the recent-activity query selects: `event_type, event_data, created_at`. */
  datatype RecentEvent = RecentEvent(eventType: EventType, eventData: EventData, createdAt: nat)

  datatype AnalyticsData = AnalyticsData(totalViews: nat, totalClicks: nat,
                                         buttonStats: seq<ButtonStat>, recentActivity: seq<RecentEvent>)

  // ---------------------------------------------------------------- the tally's specification

  /** `event_data?.button_title` when it is truthy: present and non-empty. */
  function CountedTitle(d: EventData): (t: Option<string>)
    ensures t.Some? ==> t.value != "" && d.buttonTitle == t
    ensures t.None? ==> d.buttonTitle.None? || d.buttonTitle.value == ""
  {
    if d.buttonTitle.Some? && d.buttonTitle.value != "" then d.buttonTitle else None
  }

  /** How many payloads carry title `t`. */
  function Occurrences(clicks: seq<EventData>, t: string): nat
    decreases |clicks|
  {
    if clicks == [] then 0
    else Occurrences(clicks[..|clicks| - 1], t) + if CountedTitle(clicks[|clicks| - 1]) == Some(t) then 1 else 0
  }

  /** How many payloads carry a title at all. */
  function TitledCount(clicks: seq<EventData>): nat
    decreases |clicks|
  {
    if clicks == [] then 0
    else TitledCount(clicks[..|clicks| - 1]) + if CountedTitle(clicks[|clicks| - 1]).Some? then 1 else 0
  }

  /** A payload without a title, anywhere among the clicks, is never counted: removing it
      changes neither any title's count nor the number of titled payloads. */
  lemma {:induction false} UntitledNotCounted(before: seq<EventData>, d: EventData, after: seq<EventData>, t: string)
    requires CountedTitle(d).None?
    ensures Occurrences(before + [d] + after, t) == Occurrences(before + after, t)
    ensures TitledCount(before + [d] + after) == TitledCount(before + after)
    decreases |after|
  {
    if after == [] {
      assert before + [d] + after == before + [d];
      assert before + after == before;
      OccurrencesAppend(before, d, t);
      TitledCountAppend(before, d);
    } else {
      var init, x := after[..|after| - 1], after[|after| - 1];
      UntitledNotCounted(before, d, init, t);
      assert before + [d] + after == (before + [d] + init) + [x];
      assert before + after == (before + init) + [x];
      OccurrencesAppend(before + [d] + init, x, t);
      OccurrencesAppend(before + init, x, t);
      TitledCountAppend(before + [d] + init, x);
      TitledCountAppend(before + init, x);
    }
  }

  /** The empty title, and a title no payload carries, have no count. */
  lemma {:induction false} UnseenTitleNotCounted(clicks: seq<EventData>, t: string)
    requires t == "" || forall i :: 0 <= i < |clicks| ==> CountedTitle(clicks[i]) != Some(t)
    ensures Occurrences(clicks, t) == 0
    decreases |clicks|
  {
    if clicks != [] {
      UnseenTitleNotCounted(clicks[..|clicks| - 1], t);
    }
  }

  /** At most every payload carries a title, and all of them do exactly when the count is the length. */
  lemma {:induction false} TitledCountBound(clicks: seq<EventData>)
    ensures TitledCount(clicks) <= |clicks|
    ensures TitledCount(clicks) == |clicks| <==> forall i :: 0 <= i < |clicks| ==> CountedTitle(clicks[i]).Some?
    decreases |clicks|
  {
    if clicks != [] {
      var init := clicks[..|clicks| - 1];
      TitledCountBound(init);
      if TitledCount(clicks) == |clicks| {
        forall i | 0 <= i < |clicks| ensures CountedTitle(clicks[i]).Some? {
          if i < |clicks| - 1 { assert clicks[i] == init[i]; }
        }
      }
      if forall i :: 0 <= i < |clicks| ==> CountedTitle(clicks[i]).Some? {
        assert forall i :: 0 <= i < |init| ==> CountedTitle(init[i]).Some? by {
          forall i | 0 <= i < |init| ensures CountedTitle(init[i]).Some? { assert init[i] == clicks[i]; }
        }
      }
    }
  }

  lemma OccurrencesAppend(clicks: seq<EventData>, d: EventData, t: string)
    ensures Occurrences(clicks + [d], t) == Occurrences(clicks, t) + if CountedTitle(d) == Some(t) then 1 else 0
  {
    assert (clicks + [d])[..|clicks|] == clicks;
  }

  // ---------------------------------------------------------------- the tally loop

  predicate Distinct<T(==)>(s: seq<T>) {
    forall i, j :: 0 <= i < j < |s| ==> s[i] != s[j]
  }

  /** The sum of the counts of `keys`. */
  function SumOver(counts: map<string, nat>, keys: seq<string>): nat
    requires forall k :: k in keys ==> k in counts
    decreases |keys|
  {
    if keys == [] then 0 else SumOver(counts, keys[..|keys| - 1]) + counts[keys[|keys| - 1]]
  }

  lemma {:induction false} SumOverOther(counts: map<string, nat>, keys: seq<string>, t: string, v: nat)
    requires forall k :: k in keys ==> k in counts
    requires t !in keys
    ensures SumOver(counts[t := v], keys) == SumOver(counts, keys)
    decreases |keys|
  {
    if keys != [] {
      SumOverOther(counts, keys[..|keys| - 1], t, v);
    }
  }

  lemma {:induction false} SumOverIncrement(counts: map<string, nat>, keys: seq<string>, t: string)
    requires forall k :: k in keys ==> k in counts
    requires t in keys && Distinct(keys)
    ensures SumOver(counts[t := counts[t] + 1], keys) == SumOver(counts, keys) + 1
    decreases |keys|
  {
    var init := keys[..|keys| - 1];
    if keys[|keys| - 1] == t {
      assert t !in init;
      SumOverOther(counts, init, t, counts[t] + 1);
    } else {
      assert t in init;
      SumOverIncrement(counts, init, t);
    }
  }

  /** `counts` and `order` are the tally of `prefix`: the keys are exactly the titles that
      occur, each with its number of occurrences, listed once each in `order`. */
  ghost predicate TallyOf(prefix: seq<EventData>, counts: map<string, nat>, order: seq<string>) {
    && (forall t :: t in counts <==> Occurrences(prefix, t) > 0)
    && (forall t :: t in counts ==> counts[t] == Occurrences(prefix, t))
    && (forall t :: t in order <==> t in counts)
    && Distinct(order)
    && SumOver(counts, order) == TitledCount(prefix)
  }

  lemma TitledCountAppend(prefix: seq<EventData>, d: EventData)
    ensures TitledCount(prefix + [d]) == TitledCount(prefix) + if CountedTitle(d).Some? then 1 else 0
  {
    assert (prefix + [d])[..|prefix|] == prefix;
  }

  /** A payload without a title leaves the tally as it is. */
  lemma TallySkip(clicks: seq<EventData>, i: nat, counts: map<string, nat>, order: seq<string>)
    requires i < |clicks| && TallyOf(clicks[..i], counts, order) && CountedTitle(clicks[i]).None?
    ensures TallyOf(clicks[..i + 1], counts, order)
  {
    var prefix, d := clicks[..i], clicks[i];
    assert clicks[..i + 1] == prefix + [d];
    forall t ensures Occurrences(prefix + [d], t) == Occurrences(prefix, t) {
      OccurrencesAppend(prefix, d, t);
    }
    TitledCountAppend(prefix, d);
  }

  /** A payload with a title already seen adds one to its count. */
  lemma TallyIncrement(clicks: seq<EventData>, i: nat, counts: map<string, nat>, order: seq<string>, t: string)
    requires i < |clicks| && TallyOf(clicks[..i], counts, order)
    requires CountedTitle(clicks[i]) == Some(t) && t in counts
    ensures TallyOf(clicks[..i + 1], counts[t := counts[t] + 1], order)
  {
    var prefix, d := clicks[..i], clicks[i];
    assert clicks[..i + 1] == prefix + [d];
    forall u ensures Occurrences(prefix + [d], u) == Occurrences(prefix, u) + if u == t then 1 else 0 {
      OccurrencesAppend(prefix, d, u);
    }
    TitledCountAppend(prefix, d);
    SumOverIncrement(counts, order, t);
  }

  /** A payload with a new title adds it with count one, at the end of the key order. */
  lemma TallyInsert(clicks: seq<EventData>, i: nat, counts: map<string, nat>, order: seq<string>, t: string)
    requires i < |clicks| && TallyOf(clicks[..i], counts, order)
    requires CountedTitle(clicks[i]) == Some(t) && t !in counts
    ensures TallyOf(clicks[..i + 1], counts[t := 1], order + [t])
  {
    var prefix, d := clicks[..i], clicks[i];
    assert clicks[..i + 1] == prefix + [d];
    forall u ensures Occurrences(prefix + [d], u) == Occurrences(prefix, u) + if u == t then 1 else 0 {
      OccurrencesAppend(prefix, d, u);
    }
    TitledCountAppend(prefix, d);
    AppendKey(counts, order, t);
  }

  /** A new key with count one, appended to the key order, keeps the keys distinct and adds
      one to their sum. */
  lemma AppendKey(counts: map<string, nat>, order: seq<string>, t: string)
    requires forall u :: u in order <==> u in counts
    requires Distinct(order) && t !in counts
    ensures forall u :: u in order + [t] <==> u in counts[t := 1]
    ensures Distinct(order + [t])
    ensures SumOver(counts[t := 1], order + [t]) == SumOver(counts, order) + 1
  {
    SumOverOther(counts, order, t, 1);
    var order' := order + [t];
    assert order'[..|order'| - 1] == order;
  }

  /** The `forEach` over the click payloads: a dictionary from title to count. `order`
      lists each key once; which order `Object.entries` lists them in is not stated. */
  method TallyClicks(clicks: seq<EventData>) returns (counts: map<string, nat>, order: seq<string>)
    ensures TallyOf(clicks, counts, order)
  {
    counts := map[];
    order := [];
    var i := 0;
    while i < |clicks|
      invariant 0 <= i <= |clicks|
      invariant TallyOf(clicks[..i], counts, order)
    {
      var title := CountedTitle(clicks[i]);
      if title.Some? {
        var t := title.value;
        if t in counts {
          TallyIncrement(clicks, i, counts, order, t);
          counts := counts[t := counts[t] + 1];
        } else {
          TallyInsert(clicks, i, counts, order, t);
          counts := counts[t := 1];
          order := order + [t];
        }
      } else {
        TallySkip(clicks, i, counts, order);
      }
      i := i + 1;
    }
    assert clicks[..|clicks|] == clicks;
  }

  // ---------------------------------------------------------------- sorting

  predicate SortedDesc<T>(s: seq<T>, key: T -> nat) {
    forall i, j :: 0 <= i < j < |s| ==> key(s[i]) >= key(s[j])
  }

  /** An element no smaller than the head of a sorted sequence may go in front of it. */
  lemma ConsSorted<T>(h: T, s: seq<T>, key: T -> nat)
    requires SortedDesc(s, key) && (s != [] ==> key(h) >= key(s[0]))
    ensures SortedDesc([h] + s, key)
  {
    var r := [h] + s;
    forall i, j | 0 <= i < j < |r| ensures key(r[i]) >= key(r[j]) {
      assert r[j] == s[j - 1];
      if i > 0 {
        assert r[i] == s[i - 1];
      } else if j > 1 {
        assert key(s[0]) >= key(s[j - 1]);
      }
    }
  }

  /** Inserts `x` before the first element whose key is not larger. */
  function InsertDesc<T>(x: T, s: seq<T>, key: T -> nat): (r: seq<T>)
    requires SortedDesc(s, key)
    ensures SortedDesc(r, key)
    ensures multiset(r) == multiset(s) + multiset{x}
    ensures |r| == |s| + 1
    ensures r[0] == x || (s != [] && r[0] == s[0])
  {
    if s == [] then [x]
    else if key(s[0]) <= key(x) then
      ConsSorted(x, s, key);
      [x] + s
    else
      var rest := InsertDesc(x, s[1..], key);
      KeepHead(x, s, rest, key);
      [s[0]] + rest
  }

  /** When `x` goes further down, the head stays in front of the rest with `x` inserted. */
  lemma KeepHead<T>(x: T, s: seq<T>, rest: seq<T>, key: T -> nat)
    requires s != [] && key(s[0]) > key(x) && SortedDesc(s, key) && SortedDesc(rest, key)
    requires multiset(rest) == multiset(s[1..]) + multiset{x}
    requires rest != [] && (rest[0] == x || (|s| > 1 && rest[0] == s[1]))
    ensures SortedDesc([s[0]] + rest, key)
    ensures multiset([s[0]] + rest) == multiset(s) + multiset{x}
  {
    assert s == [s[0]] + s[1..];
    ConsSorted(s[0], rest, key);
  }

  /** An insertion sort into non-increasing order of `key`: sorted, and a permutation. */
  function SortDesc<T>(s: seq<T>, key: T -> nat): (r: seq<T>)
    ensures SortedDesc(r, key)
    ensures multiset(r) == multiset(s)
    ensures |r| == |s|
  {
    if s == [] then []
    else
      assert s == [s[0]] + s[1..];
      InsertDesc(s[0], SortDesc(s[1..], key), key)
  }

  function ClickCount(s: ButtonStat): nat { s.clickCount }

  // ---------------------------------------------------------------- the button statistics

  /** `Object.entries(counts).map(...)`, in key insertion order. */
  function Entries(counts: map<string, nat>, order: seq<string>): (r: seq<ButtonStat>)
    requires forall k :: k in order ==> k in counts
    ensures |r| == |order|
    ensures forall i :: 0 <= i < |r| ==> r[i] == ButtonStat(order[i], counts[order[i]])
  {
    seq(|order|, i requires 0 <= i < |order| => ButtonStat(order[i], counts[order[i]]))
  }

  function StatSum(s: seq<ButtonStat>): nat
    decreases |s|
  {
    if s == [] then 0 else StatSum(s[..|s| - 1]) + s[|s| - 1].clickCount
  }

  lemma {:induction false} EntriesSum(counts: map<string, nat>, order: seq<string>)
    requires forall k :: k in order ==> k in counts
    ensures StatSum(Entries(counts, order)) == SumOver(counts, order)
    decreases |order|
  {
    if order != [] {
      var init := order[..|order| - 1];
      EntriesSum(counts, init);
      assert Entries(counts, order)[..|order| - 1] == Entries(counts, init);
    }
  }

  lemma {:induction false} StatSumFront(s: seq<ButtonStat>)
    requires s != []
    ensures StatSum(s) == s[0].clickCount + StatSum(s[1..])
    decreases |s|
  {
    if |s| > 1 {
      StatSumFront(s[..|s| - 1]);
      assert s[..|s| - 1][1..] == s[1..][..|s| - 2];
      assert s[..|s| - 1][0] == s[0];
    } else {
      assert s[..|s| - 1] == [];
      assert s[1..] == [];
    }
  }

  lemma {:induction false} StatSumRemove(s: seq<ButtonStat>, k: nat)
    requires k < |s|
    ensures StatSum(s) == s[k].clickCount + StatSum(s[..k] + s[k + 1..])
    decreases |s|
  {
    StatSumFront(s);
    if k > 0 {
      StatSumRemove(s[1..], k - 1);
      var rest := s[..k] + s[k + 1..];
      assert rest[0] == s[0];
      assert rest[1..] == s[1..][..k - 1] + s[1..][k..];
      StatSumFront(rest);
    } else {
      assert s[..k] + s[k + 1..] == s[1..];
    }
  }

  lemma MultisetRemoveAt<T>(b: seq<T>, k: nat)
    requires k < |b|
    ensures multiset(b[..k] + b[k + 1..]) == multiset(b) - multiset{b[k]}
  {
    assert b == b[..k] + [b[k]] + b[k + 1..];
  }

  lemma MultisetFind<T>(b: seq<T>, x: T) returns (k: nat)
    requires x in multiset(b)
    ensures k < |b| && b[k] == x
  {
    k :| 0 <= k < |b| && b[k] == x;
  }

  /** Reordering does not change the total of the counts. */
  lemma {:induction false} StatSumPermutation(a: seq<ButtonStat>, b: seq<ButtonStat>)
    requires multiset(a) == multiset(b)
    ensures StatSum(a) == StatSum(b)
    decreases |a|
  {
    if a == [] {
      assert |b| == |multiset(b)| == 0;
    } else {
      var k := MultisetFind(b, a[0]);
      RemoveMatched(a, b, k);
      StatSumPermutation(a[1..], b[..k] + b[k + 1..]);
      StatSumFront(a);
      StatSumRemove(b, k);
    }
  }

  /** Taking the head of `a` and its match in `b` away leaves two permutations. */
  lemma RemoveMatched<T>(a: seq<T>, b: seq<T>, k: nat)
    requires multiset(a) == multiset(b) && a != [] && k < |b| && b[k] == a[0]
    ensures multiset(a[1..]) == multiset(b[..k] + b[k + 1..])
  {
    MultisetRemoveAt(b, k);
    assert a == [a[0]] + a[1..];
    assert multiset(a[1..]) == multiset(a) - multiset{a[0]};
  }

  lemma {:induction false} DistinctAtMostOnce<T>(s: seq<T>, x: T)
    requires Distinct(s)
    ensures multiset(s)[x] <= 1
    decreases |s|
  {
    if s != [] {
      assert s == [s[0]] + s[1..];
      assert Distinct(s[1..]) by {
        forall i, j | 0 <= i < j < |s[1..]| ensures s[1..][i] != s[1..][j] {
          assert s[1..][i] == s[i + 1] && s[1..][j] == s[j + 1];
        }
      }
      DistinctAtMostOnce(s[1..], x);
      if s[0] == x {
        assert x !in s[1..] by {
          forall i | 0 <= i < |s[1..]| ensures s[1..][i] != x { assert s[1..][i] == s[i + 1]; }
        }
      }
    }
  }

  /** A permutation of a sequence without repeats has no repeats. */
  lemma DistinctPermutation<T>(a: seq<T>, b: seq<T>)
    requires multiset(a) == multiset(b) && Distinct(a)
    ensures Distinct(b)
  {
    forall i, j | 0 <= i < j < |b| ensures b[i] != b[j] {
      if b[i] == b[j] {
        assert b == b[..j] + b[j..];
        assert b[i] in multiset(b[..j]);
        assert b[j] in multiset(b[j..]);
        assert multiset(b)[b[i]] >= 2;
        DistinctAtMostOnce(a, b[i]);
      }
    }
  }

  function Titles(s: seq<ButtonStat>): (r: seq<string>)
    ensures |r| == |s| && forall i :: 0 <= i < |s| ==> r[i] == s[i].buttonTitle
  {
    seq(|s|, i requires 0 <= i < |s| => s[i].buttonTitle)
  }

  /** What the panel promises of `buttonStats`: in non-increasing order of count, one entry
      per title that some click payload carries, with the number of payloads that carry it. */
  ghost predicate IsButtonStats(clicks: seq<EventData>, stats: seq<ButtonStat>) {
    && SortedDesc(stats, ClickCount)
    && Distinct(Titles(stats))
    && (forall i :: 0 <= i < |stats| ==> stats[i].clickCount == Occurrences(clicks, stats[i].buttonTitle) > 0)
    && (forall t :: Occurrences(clicks, t) > 0 ==> t in Titles(stats))
  }

  /** The entries of a tally have no repeats. */
  lemma EntriesDistinct(counts: map<string, nat>, order: seq<string>)
    requires forall k :: k in order ==> k in counts
    requires Distinct(order)
    ensures Distinct(Entries(counts, order))
  {
    var entries := Entries(counts, order);
    forall i, j | 0 <= i < j < |entries| ensures entries[i] != entries[j] {
      assert entries[i].buttonTitle == order[i] && entries[j].buttonTitle == order[j];
    }
  }

  /** Any reordering of the entries of the tally of `clicks` lists each title that occurs once,
      with its number of occurrences. */
  lemma ReorderedTally(clicks: seq<EventData>, counts: map<string, nat>, order: seq<string>, stats: seq<ButtonStat>)
    requires TallyOf(clicks, counts, order)
    requires multiset(stats) == multiset(Entries(counts, order))
    ensures Distinct(Titles(stats))
    ensures forall i :: 0 <= i < |stats| ==> stats[i].clickCount == Occurrences(clicks, stats[i].buttonTitle) > 0
    ensures forall t :: Occurrences(clicks, t) > 0 ==> t in Titles(stats)
  {
    var entries := Entries(counts, order);
    EntriesDistinct(counts, order);
    DistinctPermutation(entries, stats);
    forall i | 0 <= i < |stats|
      ensures stats[i].clickCount == Occurrences(clicks, stats[i].buttonTitle) > 0
    {
      assert stats[i] in multiset(entries);
    }
    assert Distinct(Titles(stats)) by {
      forall i, j | 0 <= i < j < |stats| ensures stats[i].buttonTitle != stats[j].buttonTitle {
        assert stats[i] in multiset(entries) && stats[j] in multiset(entries);
        assert stats[i] != stats[j];
      }
    }
    forall t | Occurrences(clicks, t) > 0 ensures t in Titles(stats) {
      var k :| 0 <= k < |order| && order[k] == t;
      assert entries[k] in multiset(stats);
      var m := MultisetFind(stats, entries[k]);
      assert Titles(stats)[m] == t;
    }
  }

  /** Tally, entries and sort: the button statistics of the click payloads, and their counts
      add up to the number of titled payloads. */
  method ComputeButtonStats(clicks: seq<EventData>) returns (stats: seq<ButtonStat>)
    ensures IsButtonStats(clicks, stats)
    ensures StatSum(stats) == TitledCount(clicks)
  {
    var counts, order := TallyClicks(clicks);
    var entries := Entries(counts, order);
    stats := SortDesc(entries, ClickCount);
    ReorderedTally(clicks, counts, order, stats);
    EntriesSum(counts, order);
    StatSumPermutation(entries, stats);
  }

  /** The count an entry shows for title `t`, 0 when there is no entry. */
  function StatCount(stats: seq<ButtonStat>, t: string): nat
    decreases |stats|
  {
    if stats == [] then 0
    else if stats[0].buttonTitle == t then stats[0].clickCount
    else StatCount(stats[1..], t)
  }

  lemma {:induction false} StatCountFound(stats: seq<ButtonStat>, k: nat)
    requires k < |stats| && Distinct(Titles(stats))
    ensures StatCount(stats, stats[k].buttonTitle) == stats[k].clickCount
    decreases |stats|
  {
    if k > 0 {
      assert Titles(stats)[0] != Titles(stats)[k];
      assert Distinct(Titles(stats[1..])) by {
        forall i, j | 0 <= i < j < |stats[1..]| ensures Titles(stats[1..])[i] != Titles(stats[1..])[j] {
          assert Titles(stats)[i + 1] != Titles(stats)[j + 1];
        }
      }
      StatCountFound(stats[1..], k - 1);
    }
  }

  lemma {:induction false} StatCountMissing(stats: seq<ButtonStat>, t: string)
    requires t !in Titles(stats)
    ensures StatCount(stats, t) == 0
    decreases |stats|
  {
    if stats != [] {
      assert Titles(stats)[0] == stats[0].buttonTitle;
      assert t !in Titles(stats[1..]) by {
        forall i | 0 <= i < |stats[1..]| ensures Titles(stats[1..])[i] != t {
          assert Titles(stats[1..])[i] == Titles(stats)[i + 1];
        }
      }
      StatCountMissing(stats[1..], t);
    }
  }

  /** Any statistics meeting the promise show each title's number of payloads. */
  lemma StatCountIsOccurrences(clicks: seq<EventData>, stats: seq<ButtonStat>, t: string)
    requires IsButtonStats(clicks, stats)
    ensures StatCount(stats, t) == Occurrences(clicks, t)
  {
    if t in Titles(stats) {
      var k :| 0 <= k < |stats| && Titles(stats)[k] == t;
      StatCountFound(stats, k);
    } else {
      StatCountMissing(stats, t);
    }
  }

  // ---------------------------------------------------------------- the snapshot

  /** `.eq('event_type', kind)`: every row of that kind, as often as the table holds it,
      and no other row. */
  function Filter(rows: seq<EventRow>, kind: EventType): (r: seq<EventRow>)
    ensures |r| <= |rows|
    ensures forall i :: 0 <= i < |r| ==> r[i].eventType == kind && r[i] in rows
    ensures forall e :: multiset(r)[e] == if e.eventType == kind then multiset(rows)[e] else 0
    decreases |rows|
  {
    if rows == [] then []
    else
      var init, last := rows[..|rows| - 1], rows[|rows| - 1];
      assert rows == init + [last];
      Filter(init, kind) + if last.eventType == kind then [last] else []
  }

  /** The payloads of the `button_click` rows, one per row and in table order. */
  function ClickPayloads(rows: seq<EventRow>): (r: seq<EventData>)
    ensures |r| == |Filter(rows, ButtonClick)|
    ensures forall i :: 0 <= i < |r| ==> r[i] == Filter(rows, ButtonClick)[i].eventData
  {
    var clicks := Filter(rows, ButtonClick);
    seq(|clicks|, i requires 0 <= i < |clicks| => clicks[i].eventData)
  }

  function CreatedAt(e: EventRow): nat { e.createdAt }

  /** A prefix of a sorted sequence is sorted and holds its largest keys. */
  lemma PrefixHoldsLargest<T>(s: seq<T>, key: T -> nat, n: nat)
    requires SortedDesc(s, key) && n <= |s|
    ensures SortedDesc(s[..n], key)
    ensures forall i, e :: 0 <= i < n && e in s && e !in s[..n] ==> key(e) <= key(s[..n][i])
  {
    forall i, e | 0 <= i < n && e in s && e !in s[..n] ensures key(e) <= key(s[..n][i]) {
      var k :| 0 <= k < |s| && s[k] == e;
      assert s[..n][i] == s[i];
    }
  }

  /** A prefix holds no element more often than the whole sequence. */
  lemma PrefixMultiset<T>(s: seq<T>, n: nat)
    requires n <= |s|
    ensures multiset(s[..n]) <= multiset(s)
  {
    assert s == s[..n] + s[n..];
  }

  lemma SameElements<T>(a: seq<T>, b: seq<T>)
    requires multiset(a) == multiset(b)
    ensures forall e :: e in a <==> e in b
  {
    forall e ensures e in a <==> e in b {
      assert e in a <==> e in multiset(a);
      assert e in b <==> e in multiset(b);
    }
  }

  /** `.order('created_at', { ascending: false }).limit(10)`: ten rows of the table, or all
      of them when there are fewer, newest first, and no row left out is newer than one kept. */
  function Recent(rows: seq<EventRow>): (r: seq<EventRow>)
    ensures |r| == if |rows| < 10 then |rows| else 10
    ensures SortedDesc(r, CreatedAt)
    ensures forall i :: 0 <= i < |r| ==> r[i] in rows
    ensures multiset(r) <= multiset(rows)
    ensures forall i, e :: 0 <= i < |r| && e in rows && e !in r ==> e.createdAt <= r[i].createdAt
  {
    var sorted := SortDesc(rows, CreatedAt);
    var n := if |sorted| < 10 then |sorted| else 10;
    PrefixMultiset(sorted, n);
    SameElements(sorted, rows);
    PrefixHoldsLargest(sorted, CreatedAt, n);
    sorted[..n]
  }

  /** `.select('event_type, event_data, created_at')`: the selected columns of each row,
      in the same order. */
  function SelectColumns(rows: seq<EventRow>): (r: seq<RecentEvent>)
    ensures |r| == |rows|
    ensures forall i :: 0 <= i < |r| ==>
      r[i].eventType == rows[i].eventType && r[i].eventData == rows[i].eventData && r[i].createdAt == rows[i].createdAt
  {
    seq(|rows|, i requires 0 <= i < |rows| => RecentEvent(rows[i].eventType, rows[i].eventData, rows[i].createdAt))
  }

  datatype Query = ViewsQuery | ClicksQuery | StatsQuery | RecentQuery

  class AnalyticsPanel {
    var analytics: AnalyticsData
    var loading: bool

    constructor ()
      ensures analytics == AnalyticsData(0, 0, [], []) && loading
    {
      analytics := AnalyticsData(0, 0, [], []);
      loading := true;
    }

    /** `loadAnalytics` over the snapshot `rows`. A query that yields no data counts as 0
        or as empty; an exception keeps the previous statistics. */
    method LoadAnalytics(rows: seq<EventRow>, failed: set<Query>, throws: bool)
      modifies this
      ensures !loading
      ensures throws ==> analytics == old(analytics)
      ensures !throws ==> analytics.totalViews == if ViewsQuery in failed then 0 else |Filter(rows, PageView)|
      ensures !throws ==> analytics.totalClicks == if ClicksQuery in failed then 0 else |Filter(rows, ButtonClick)|
      ensures !throws ==> IsButtonStats(if StatsQuery in failed then [] else ClickPayloads(rows), analytics.buttonStats)
      ensures !throws ==> analytics.recentActivity == if RecentQuery in failed then [] else SelectColumns(Recent(rows))
      ensures !throws ==> StatSum(analytics.buttonStats) == TitledCount(if StatsQuery in failed then [] else ClickPayloads(rows))
      ensures !throws && failed == {} ==> StatSum(analytics.buttonStats) <= analytics.totalClicks
    {
      loading := true;
      if !throws {
        var views := if ViewsQuery in failed then 0 else |Filter(rows, PageView)|;
        var clicks := if ClicksQuery in failed then 0 else |Filter(rows, ButtonClick)|;
        var payloads := if StatsQuery in failed then [] else ClickPayloads(rows);
        var stats := ComputeButtonStats(payloads);
        var recent := if RecentQuery in failed then [] else SelectColumns(Recent(rows));
        analytics := AnalyticsData(views, clicks, stats, recent);
        TitledCountBound(payloads);
      }
      loading := false;
    }
  }

  /** Over one snapshot the button counts add up to at most the click total, and to exactly
      the click total when every click payload carries a title. */
  lemma StatsAgainstTotal(rows: seq<EventRow>, stats: seq<ButtonStat>)
    requires StatSum(stats) == TitledCount(ClickPayloads(rows))
    ensures StatSum(stats) <= |Filter(rows, ButtonClick)|
    ensures StatSum(stats) == |Filter(rows, ButtonClick)| <==>
      forall i :: 0 <= i < |ClickPayloads(rows)| ==> CountedTitle(ClickPayloads(rows)[i]).Some?
  {
    TitledCountBound(ClickPayloads(rows));
  }

  /** A tracked click (src/hooks/useAnalytics.ts) with a non-empty title adds exactly one to
      that title's count in the statistics, and leaves every other title's count as it was. */
  lemma TrackedClickCounted(rows: seq<EventRow>, title: string, href: string, userAgent: string, now: nat,
                            before: seq<ButtonStat>, after: seq<ButtonStat>, other: string)
    requires title != "" && other != title
    requires IsButtonStats(ClickPayloads(rows), before)
    requires IsButtonStats(ClickPayloads(rows + [NewRow(ButtonClick, ClickData(title, href), userAgent, now)]), after)
    ensures StatCount(after, title) == StatCount(before, title) + 1
    ensures StatCount(after, other) == StatCount(before, other)
  {
    var row := NewRow(ButtonClick, ClickData(title, href), userAgent, now);
    ClickPayloadsAppend(rows, row);
    var p0, p1 := ClickPayloads(rows), ClickPayloads(rows + [row]);
    OccurrencesAppend(p0, row.eventData, title);
    OccurrencesAppend(p0, row.eventData, other);
    StatCountIsOccurrences(p0, before, title);
    StatCountIsOccurrences(p1, after, title);
    StatCountIsOccurrences(p0, before, other);
    StatCountIsOccurrences(p1, after, other);
  }

  /** A click row added to the table adds its payload at the end of the click payloads. */
  lemma ClickPayloadsAppend(rows: seq<EventRow>, row: EventRow)
    requires row.eventType == ButtonClick
    ensures ClickPayloads(rows + [row]) == ClickPayloads(rows) + [row.eventData]
  {
    var grown := rows + [row];
    assert grown[..|grown| - 1] == rows;
    var f0, f1 := Filter(rows, ButtonClick), Filter(grown, ButtonClick);
    assert f1 == f0 + [row];
    var p0, p1 := ClickPayloads(rows), ClickPayloads(grown);
    forall i | 0 <= i < |p1| ensures p1[i] == (p0 + [row.eventData])[i] {
      if i < |p0| {
        assert f1[i] == f0[i];
      }
    }
  }
}
