/** Grouping notes by recency, in the two deliberately different variants:
    the DOM version's four groups (`groupNotesByDate` in script.js, with day
    boundaries today, today - 1 and today - 7) and the component version's
    five groups (`groupNotesByDate` in NotesView.tsx, with date-fns calendar
    tests `isToday`, `isYesterday`, `isThisWeek`, `isThisMonth`). Both sort
    a copy of the notes newest first, put each note in the first group whose
    test it passes, and list the non-empty groups in a fixed order. */
module NoteGroups {
  import opened Types
  import opened Seqs
  import opened Sorting

  datatype Bucket = TodayGroup | YesterdayGroup | ThisWeekGroup | ThisMonthGroup | OlderGroup

  /** The heading shown for a group. */
  function Label(b: Bucket): string
  {
    match b
    case TodayGroup => "Today"
    case YesterdayGroup => "Yesterday"
    case ThisWeekGroup => "This Week"
    case ThisMonthGroup => "This Month"
    case OlderGroup => "Older"
  }

  /** The position of a group in the output order. */
  function Rank(b: Bucket): nat
  {
    match b
    case TodayGroup => 0
    case YesterdayGroup => 1
    case ThisWeekGroup => 2
    case ThisMonthGroup => 3
    case OlderGroup => 4
  }

  /** A labelled group `{ label, notes }`; the label is `Label(bucket)`. */
  datatype NoteGroup = NoteGroup(bucket: Bucket, notes: seq<Note>)

  function NewestFirstKey(n: Note): Key
  {
    Key(-n.date, 0, 0)
  }

  /** `[...notes].sort((a, b) => date(b) - date(a))`: a sorted copy, newest first. */
  function SortNewestFirst(notes: seq<Note>): (r: seq<Note>)
    ensures multiset(r) == multiset(notes)
    ensures forall i, j :: 0 <= i < j < |r| ==> r[i].date >= r[j].date
  {
    var r := SortByKey(notes, NewestFirstKey);
    assert forall i, j :: 0 <= i < j < |r| ==> KeyLe(NewestFirstKey(r[i]), NewestFirstKey(r[j]));
    r
  }

  /** The notes of every group, concatenated in group order. */
  function AllNotes(gs: seq<NoteGroup>): seq<Note>
  {
    if |gs| == 0 then [] else gs[0].notes + AllNotes(gs[1..])
  }

  function InBucket(bucketOf: Note -> Bucket, b: Bucket): Note -> bool
  {
    (n: Note) => bucketOf(n) == b
  }

  /** The buckets are listed in strictly increasing rank. */
  ghost predicate InRankOrder(order: seq<Bucket>)
  {
    forall i, j :: 0 <= i < j < |order| ==> Rank(order[i]) < Rank(order[j])
  }

  /** One group per bucket of `order`, holding the notes of `s` in that bucket
      in the order of `s`; empty groups are left out. */
  function Collect(s: seq<Note>, bucketOf: Note -> Bucket, order: seq<Bucket>): (gs: seq<NoteGroup>)
    ensures forall i :: 0 <= i < |gs| ==> gs[i].bucket in order
    ensures forall i :: 0 <= i < |gs| ==> |gs[i].notes| > 0
    ensures forall i :: 0 <= i < |gs| ==> gs[i].notes == Filter(s, InBucket(bucketOf, gs[i].bucket))
  {
    if |order| == 0 then []
    else
      var g := Filter(s, InBucket(bucketOf, order[0]));
      var rest := Collect(s, bucketOf, order[1..]);
      if |g| > 0 then [NoteGroup(order[0], g)] + rest else rest
  }

  /** The groups are listed in strictly increasing rank. */
  ghost predicate GroupsInRankOrder(gs: seq<NoteGroup>)
  {
    forall i, j :: 0 <= i < j < |gs| ==> Rank(gs[i].bucket) < Rank(gs[j].bucket)
  }

  /** Buckets listed in increasing rank give groups in increasing rank. */
  lemma {:induction false} CollectRankOrder(s: seq<Note>, bucketOf: Note -> Bucket, order: seq<Bucket>)
    requires InRankOrder(order)
    ensures GroupsInRankOrder(Collect(s, bucketOf, order))
  {
    if |order| > 0 {
      var tail := order[1..];
      assert InRankOrder(tail);
      CollectRankOrder(s, bucketOf, tail);
      var rest := Collect(s, bucketOf, tail);
      CollectRanksAbove(s, bucketOf, tail, Rank(order[0]));
      var g := Filter(s, InBucket(bucketOf, order[0]));
      if |g| > 0 {
        ConsRankOrder(NoteGroup(order[0], g), rest);
      }
    }
  }

  /** A group ranked below every later group extends a rank-ordered list. */
  lemma ConsRankOrder(g: NoteGroup, rest: seq<NoteGroup>)
    requires GroupsInRankOrder(rest)
    requires forall i :: 0 <= i < |rest| ==> Rank(rest[i].bucket) > Rank(g.bucket)
    ensures GroupsInRankOrder([g] + rest)
  {
    var gs := [g] + rest;
    forall i, j | 0 <= i < j < |gs|
      ensures Rank(gs[i].bucket) < Rank(gs[j].bucket)
    {
      assert gs[j] == rest[j - 1];
      if i > 0 {
        assert gs[i] == rest[i - 1];
      }
    }
  }

  lemma {:induction false} CollectRanksAbove(s: seq<Note>, bucketOf: Note -> Bucket, order: seq<Bucket>, r: int)
    requires forall k :: 0 <= k < |order| ==> Rank(order[k]) > r
    ensures var gs := Collect(s, bucketOf, order);
            forall i :: 0 <= i < |gs| ==> Rank(gs[i].bucket) > r
  {
    if |order| > 0 {
      CollectRanksAbove(s, bucketOf, order[1..], r);
    }
  }

  /** Every note of `s` whose bucket is listed in `order` appears in the
      groups exactly as often as in `s`, and no other note appears. */
  lemma {:induction false} CollectMultiset(s: seq<Note>, bucketOf: Note -> Bucket, order: seq<Bucket>)
    requires InRankOrder(order)
    ensures forall n :: multiset(AllNotes(Collect(s, bucketOf, order)))[n]
                        == if bucketOf(n) in order then multiset(s)[n] else 0
  {
    var gs := Collect(s, bucketOf, order);
    if |order| > 0 {
      var g := Filter(s, InBucket(bucketOf, order[0]));
      var rest := Collect(s, bucketOf, order[1..]);
      assert InRankOrder(order[1..]);
      CollectMultiset(s, bucketOf, order[1..]);
      FilterMultiset(s, InBucket(bucketOf, order[0]));
      assert order[0] !in order[1..];
      if |g| > 0 {
        assert gs == [NoteGroup(order[0], g)] + rest;
        assert AllNotes(gs) == g + AllNotes(rest);
      } else {
        assert gs == rest;
      }
      forall n
        ensures multiset(AllNotes(gs))[n] == if bucketOf(n) in order then multiset(s)[n] else 0
      {
        assert bucketOf(n) in order <==> bucketOf(n) == order[0] || bucketOf(n) in order[1..];
      }
    }
  }

  /** The ranks of the notes' buckets never decrease along `s`. */
  ghost predicate RanksAscend(s: seq<Note>, bucketOf: Note -> Bucket)
  {
    forall i, j :: 0 <= i < j < |s| ==> Rank(bucketOf(s[i])) <= Rank(bucketOf(s[j]))
  }

  /** When the buckets' ranks never decrease along `s` and every note's
      bucket is listed, concatenating the groups gives back `s`. */
  lemma {:induction false} CollectConcatenates(s: seq<Note>, bucketOf: Note -> Bucket, order: seq<Bucket>)
    requires InRankOrder(order)
    requires RanksAscend(s, bucketOf)
    requires forall i :: 0 <= i < |s| ==> bucketOf(s[i]) in order
    requires |order| == 0 ==> |s| == 0
    ensures AllNotes(Collect(s, bucketOf, order)) == s
    decreases |order|
  {
    if |order| > 0 {
      var k := LeadingRun(s, bucketOf, order[0]);
      assert s[..k] + s[k..] == s;
      SplitAtRun(s, bucketOf, order);
      CollectSplit(s[..k], s[k..], bucketOf, order);
      CollectConcatenates(s[k..], bucketOf, order[1..]);
    }
  }

  /** Splitting `s` after the leading run of the first bucket: the run is all
      in that bucket, and the rest meets the conditions for the remaining
      buckets. */
  lemma SplitAtRun(s: seq<Note>, bucketOf: Note -> Bucket, order: seq<Bucket>)
    requires |order| > 0 && InRankOrder(order)
    requires RanksAscend(s, bucketOf)
    requires forall i :: 0 <= i < |s| ==> bucketOf(s[i]) in order
    ensures var k := LeadingRun(s, bucketOf, order[0]);
            && InRankOrder(order[1..]) && order[0] !in order[1..]
            && (forall i :: 0 <= i < |s[..k]| ==> bucketOf(s[..k][i]) == order[0])
            && (forall j :: 0 <= j < |s[k..]| ==> bucketOf(s[k..][j]) in order[1..])
            && (forall j :: 0 <= j < |s[k..]| ==> bucketOf(s[k..][j]) != order[0])
            && RanksAscend(s[k..], bucketOf)
            && (|order| == 1 ==> k == |s|)
  {
    var k := LeadingRun(s, bucketOf, order[0]);
    var q := s[k..];
    RestAfterRun(s, bucketOf, order);
    forall j | 0 <= j < |q|
      ensures bucketOf(q[j]) in order[1..] && bucketOf(q[j]) != order[0]
    {
      assert q[j] == s[k + j];
    }
    RanksAscendSuffix(s, bucketOf, k);
  }

  /** A leading run of the first bucket's notes forms the first group, and
      the remaining buckets group the rest. */
  lemma CollectSplit(p: seq<Note>, q: seq<Note>, bucketOf: Note -> Bucket, order: seq<Bucket>)
    requires |order| > 0 && order[0] !in order[1..]
    requires forall i :: 0 <= i < |p| ==> bucketOf(p[i]) == order[0]
    requires forall j :: 0 <= j < |q| ==> bucketOf(q[j]) != order[0]
    ensures AllNotes(Collect(p + q, bucketOf, order)) == p + AllNotes(Collect(q, bucketOf, order[1..]))
  {
    var b, tail := order[0], order[1..];
    var inB := InBucket(bucketOf, b);
    FilterKeepsAll(p, inB);
    NoneInBucket(q, bucketOf, b);
    FilterConcat(p, q, inB);
    assert p + [] == p;
    assert Filter(p + q, inB) == p;
    CollectSkipsRun(p, q, bucketOf, b, tail);
    var rest := Collect(q, bucketOf, tail);
    assert Collect(p + q, bucketOf, tail) == rest;
    if |p| > 0 {
      assert Collect(p + q, bucketOf, order) == [NoteGroup(b, p)] + rest;
      assert ([NoteGroup(b, p)] + rest)[1..] == rest;
    } else {
      assert p + q == q;
    }
  }

  lemma RanksAscendSuffix(s: seq<Note>, bucketOf: Note -> Bucket, k: nat)
    requires k <= |s| && RanksAscend(s, bucketOf)
    ensures RanksAscend(s[k..], bucketOf)
  {
    var q := s[k..];
    forall i, j | 0 <= i < j < |q|
      ensures Rank(bucketOf(q[i])) <= Rank(bucketOf(q[j]))
    {
      assert q[i] == s[k + i] && q[j] == s[k + j];
    }
  }

  /** Past the leading run of the lowest-ranked bucket, every note is in one
      of the other buckets. */
  lemma RestAfterRun(s: seq<Note>, bucketOf: Note -> Bucket, order: seq<Bucket>)
    requires |order| > 0 && InRankOrder(order)
    requires RanksAscend(s, bucketOf)
    requires forall i :: 0 <= i < |s| ==> bucketOf(s[i]) in order
    ensures forall j :: LeadingRun(s, bucketOf, order[0]) <= j < |s| ==> bucketOf(s[j]) in order[1..]
  {
    var b := order[0];
    var k := LeadingRun(s, bucketOf, b);
    forall j | k <= j < |s|
      ensures bucketOf(s[j]) in order[1..]
    {
      var m :| 0 <= m < |order| && order[m] == bucketOf(s[j]);
      if m == 0 {
        assert false;
      }
      assert order[1..][m - 1] == order[m];
    }
  }

  /** The length of the longest prefix of `s` whose notes are all in bucket `b`. */
  function LeadingRun(s: seq<Note>, bucketOf: Note -> Bucket, b: Bucket): (k: nat)
    ensures k <= |s|
    ensures forall i :: 0 <= i < k ==> bucketOf(s[i]) == b
    ensures k < |s| ==> bucketOf(s[k]) != b
  {
    if |s| == 0 || bucketOf(s[0]) != b then 0 else 1 + LeadingRun(s[1..], bucketOf, b)
  }

  lemma {:induction false} NoneInBucket(q: seq<Note>, bucketOf: Note -> Bucket, b: Bucket)
    requires forall j :: 0 <= j < |q| ==> bucketOf(q[j]) != b
    ensures Filter(q, InBucket(bucketOf, b)) == []
  {
    if |q| > 0 {
      NoneInBucket(q[1..], bucketOf, b);
    }
  }

  /** Buckets other than `b` collect nothing from a run of `b` notes. */
  lemma {:induction false} CollectSkipsRun(p: seq<Note>, q: seq<Note>, bucketOf: Note -> Bucket,
                                           b: Bucket, order: seq<Bucket>)
    requires forall i :: 0 <= i < |p| ==> bucketOf(p[i]) == b
    requires b !in order
    ensures Collect(p + q, bucketOf, order) == Collect(q, bucketOf, order)
    decreases |order|
  {
    if |order| > 0 {
      var inB := InBucket(bucketOf, order[0]);
      NoneInBucket(p, bucketOf, order[0]);
      FilterConcat(p, q, inB);
      assert Filter(p + q, inB) == Filter(q, inB);
      CollectSkipsRun(p, q, bucketOf, b, order[1..]);
    }
  }

  // ---- the DOM version: four groups by day boundaries ----

  const DomOrder: seq<Bucket> := [TodayGroup, YesterdayGroup, ThisWeekGroup, OlderGroup]

  /** `noteDate >= todayStart`, `>= yesterdayStart`, `>= weekStart` (seven
      days back), else older. A future date passes the first test. */
  function DomBucket(today: Day): Note -> Bucket
  {
    (n: Note) =>
      if n.date >= today then TodayGroup
      else if n.date >= today - 1 then YesterdayGroup
      else if n.date >= today - 7 then ThisWeekGroup
      else OlderGroup
  }

  /** `renderNotesList` then `groupNotesByDate`: the notes sorted newest
      first, then grouped into Today (today or later), Yesterday, This Week
      (two to seven days back) and Older. The groups are well formed and
      together they are exactly the sorted notes. */
  function DomGroupNotes(notes: seq<Note>, today: Day): (gs: seq<NoteGroup>)
    ensures AllNotes(gs) == SortNewestFirst(notes)
    ensures multiset(AllNotes(gs)) == multiset(notes)
    ensures WellGrouped(gs, DomBucket(today))
    ensures forall i :: 0 <= i < |gs| ==> gs[i].bucket in DomOrder
  {
    var sorted := SortNewestFirst(notes);
    var gs := Collect(sorted, DomBucket(today), DomOrder);
    DomOrderListsEveryBucket(today);
    DomRanksAscend(sorted, today);
    CollectConcatenates(sorted, DomBucket(today), DomOrder);
    CollectWellGrouped(sorted, DomBucket(today), DomOrder);
    gs
  }

  lemma DomOrderListsEveryBucket(today: Day)
    ensures InRankOrder(DomOrder)
    ensures forall n :: DomBucket(today)(n) in DomOrder
  {
  }

  /** Newer notes never fall in a later DOM group than older ones. */
  lemma DomRanksAscend(sorted: seq<Note>, today: Day)
    requires forall i, j :: 0 <= i < j < |sorted| ==> sorted[i].date >= sorted[j].date
    ensures RanksAscend(sorted, DomBucket(today))
  {
  }

  /** Groups as the page shows them: non-empty, in increasing rank, every
      note in the group of its own bucket, and each group newest first. */
  ghost predicate WellGrouped(gs: seq<NoteGroup>, bucketOf: Note -> Bucket)
  {
    && GroupsInRankOrder(gs)
    && (forall i :: 0 <= i < |gs| ==> |gs[i].notes| > 0)
    && (forall i, k :: 0 <= i < |gs| && 0 <= k < |gs[i].notes| ==> bucketOf(gs[i].notes[k]) == gs[i].bucket)
    && (forall i, j, k :: 0 <= i < |gs| && 0 <= j < k < |gs[i].notes| ==>
          gs[i].notes[j].date >= gs[i].notes[k].date)
  }

  lemma CollectWellGrouped(sorted: seq<Note>, bucketOf: Note -> Bucket, order: seq<Bucket>)
    requires InRankOrder(order)
    requires forall i, j :: 0 <= i < j < |sorted| ==> sorted[i].date >= sorted[j].date
    ensures WellGrouped(Collect(sorted, bucketOf, order), bucketOf)
  {
    var gs := Collect(sorted, bucketOf, order);
    CollectRankOrder(sorted, bucketOf, order);
    FilteredGroupsSorted(sorted, gs);
    forall i, k | 0 <= i < |gs| && 0 <= k < |gs[i].notes|
      ensures bucketOf(gs[i].notes[k]) == gs[i].bucket
    {
      assert gs[i].notes[k] in Filter(sorted, InBucket(bucketOf, gs[i].bucket));
    }
  }

  /** Groups that are filters of a newest-first list are themselves newest first. */
  lemma FilteredGroupsSorted(sorted: seq<Note>, gs: seq<NoteGroup>)
    requires forall i, j :: 0 <= i < j < |sorted| ==> sorted[i].date >= sorted[j].date
    requires forall i :: 0 <= i < |gs| ==> IsSubsequence(gs[i].notes, sorted)
    ensures forall i, j, k :: 0 <= i < |gs| && 0 <= j < k < |gs[i].notes| ==>
              gs[i].notes[j].date >= gs[i].notes[k].date
  {
    forall i | 0 <= i < |gs|
      ensures forall j, k :: 0 <= j < k < |gs[i].notes| ==> gs[i].notes[j].date >= gs[i].notes[k].date
    {
      SubsequenceKeepsOrder(gs[i].notes, sorted);
    }
  }

  lemma {:induction false} SubsequenceKeepsOrder(r: seq<Note>, s: seq<Note>)
    requires IsSubsequence(r, s)
    requires forall i, j :: 0 <= i < j < |s| ==> s[i].date >= s[j].date
    ensures forall j, k :: 0 <= j < k < |r| ==> r[j].date >= r[k].date
    ensures forall j :: 0 <= j < |r| ==> r[j] in s
    decreases |s|
  {
    if |r| > 0 {
      if r[0] == s[0] {
        SubsequenceKeepsOrder(r[1..], s[1..]);
        forall k | 1 <= k < |r|
          ensures r[0].date >= r[k].date
        {
          assert r[k] == r[1..][k - 1];
        }
      } else {
        SubsequenceKeepsOrder(r, s[1..]);
      }
    }
  }

  // ---- the component version: five groups by calendar tests ----

  const CalendarOrder: seq<Bucket> := [TodayGroup, YesterdayGroup, ThisWeekGroup, ThisMonthGroup, OlderGroup]

  /** `isToday`, `isYesterday`, `isThisWeek`, `isThisMonth`, else older. The
      calendar week and month of a day are given by `weekOf` and `monthOf`
      (date-fns' week start and month lengths are not modelled). */
  function CalendarBucket(today: Day, weekOf: Day -> int, monthOf: Day -> int): Note -> Bucket
  {
    (n: Note) =>
      if n.date == today then TodayGroup
      else if n.date == today - 1 then YesterdayGroup
      else if weekOf(n.date) == weekOf(today) then ThisWeekGroup
      else if monthOf(n.date) == monthOf(today) then ThisMonthGroup
      else OlderGroup
  }

  /** `groupNotesByDate` of NotesView: the notes sorted newest first, grouped
      into Today, Yesterday, This Week, This Month and Older. Every note lands
      in exactly one group, as often as it occurs, and the groups are well formed. */
  function CalendarGroupNotes(notes: seq<Note>, today: Day, weekOf: Day -> int, monthOf: Day -> int): (gs: seq<NoteGroup>)
    ensures multiset(AllNotes(gs)) == multiset(notes)
    ensures WellGrouped(gs, CalendarBucket(today, weekOf, monthOf))
  {
    var sorted := SortNewestFirst(notes);
    var bucketOf := CalendarBucket(today, weekOf, monthOf);
    var gs := Collect(sorted, bucketOf, CalendarOrder);
    CalendarOrderListsEveryBucket(today, weekOf, monthOf);
    CollectMultiset(sorted, bucketOf, CalendarOrder);
    assert multiset(AllNotes(gs)) == multiset(sorted);
    CollectWellGrouped(sorted, bucketOf, CalendarOrder);
    gs
  }

  /** The five buckets are listed in rank order and every note falls in one. */
  lemma CalendarOrderListsEveryBucket(today: Day, weekOf: Day -> int, monthOf: Day -> int)
    ensures InRankOrder(CalendarOrder)
    ensures forall n :: CalendarBucket(today, weekOf, monthOf)(n) in CalendarOrder
  {
  }

  /** A day-to-index function that never decreases, as calendar weeks and months do. */
  ghost predicate Monotone(f: Day -> int)
  {
    forall x, y :: x <= y ==> f(x) <= f(y)
  }

  /** With calendar week and month indices that never decrease, and no note
      dated after today, concatenating the five groups gives back the notes
      sorted newest first. */
  lemma CalendarGroupsConcatenate(notes: seq<Note>, today: Day, weekOf: Day -> int, monthOf: Day -> int)
    requires Monotone(weekOf) && Monotone(monthOf)
    requires forall i :: 0 <= i < |notes| ==> notes[i].date <= today
    ensures AllNotes(CalendarGroupNotes(notes, today, weekOf, monthOf)) == SortNewestFirst(notes)
  {
    var sorted := SortNewestFirst(notes);
    var bucketOf := CalendarBucket(today, weekOf, monthOf);
    forall i | 0 <= i < |sorted|
      ensures sorted[i].date <= today
    {
      assert sorted[i] in multiset(notes);
    }
    CalendarRanksAscend(sorted, today, weekOf, monthOf);
    CalendarOrderListsEveryBucket(today, weekOf, monthOf);
    CollectConcatenates(sorted, bucketOf, CalendarOrder);
  }

  /** Along notes dated today or earlier, newest first, the calendar buckets
      never go back up in rank. */
  lemma CalendarRanksAscend(s: seq<Note>, today: Day, weekOf: Day -> int, monthOf: Day -> int)
    requires Monotone(weekOf) && Monotone(monthOf)
    requires forall i :: 0 <= i < |s| ==> s[i].date <= today
    requires forall i, j :: 0 <= i < j < |s| ==> s[i].date >= s[j].date
    ensures RanksAscend(s, CalendarBucket(today, weekOf, monthOf))
  {
    var bucketOf := CalendarBucket(today, weekOf, monthOf);
    forall i, j | 0 <= i < j < |s|
      ensures Rank(bucketOf(s[i])) <= Rank(bucketOf(s[j]))
    {
      var d1, d2 := s[i].date, s[j].date;
      assert d2 <= d1 <= today;
      assert weekOf(d2) <= weekOf(d1) <= weekOf(today);
      assert monthOf(d2) <= monthOf(d1) <= monthOf(today);
    }
  }

  /** Without those conditions the concatenation need not be the sorted list:
      a note dated tomorrow, when tomorrow is in another week and month, is
      listed under Older, after a note dated today. */
  lemma FutureNoteListedAsOlder(today: Day, weekOf: Day -> int, monthOf: Day -> int, a: Note, b: Note)
    requires a.date == today + 1 && b.date == today
    requires weekOf(today + 1) != weekOf(today) && monthOf(today + 1) != monthOf(today)
    ensures CalendarBucket(today, weekOf, monthOf)(a) == OlderGroup
    ensures CalendarGroupNotes([a, b], today, weekOf, monthOf)
            == [NoteGroup(TodayGroup, [b]), NoteGroup(OlderGroup, [a])]
  {
    SortPair(a, b);
    CollectFuturePair(today, weekOf, monthOf, a, b);
  }

  /** Two notes with different dates sort newer first. */
  lemma SortPair(a: Note, b: Note)
    requires a.date > b.date
    ensures SortNewestFirst([a, b]) == [a, b]
  {
    var sorted := SortNewestFirst([a, b]);
    assert multiset(sorted) == multiset{a, b};
    assert sorted[0].date >= sorted[1].date;
    assert sorted[0] in multiset{a, b} && sorted[1] in multiset{a, b};
  }

  lemma CollectFuturePair(today: Day, weekOf: Day -> int, monthOf: Day -> int, a: Note, b: Note)
    requires a.date == today + 1 && b.date == today
    requires weekOf(today + 1) != weekOf(today) && monthOf(today + 1) != monthOf(today)
    ensures Collect([a, b], CalendarBucket(today, weekOf, monthOf), CalendarOrder)
            == [NoteGroup(TodayGroup, [b]), NoteGroup(OlderGroup, [a])]
  {
    var f := CalendarBucket(today, weekOf, monthOf);
    assert f(a) == OlderGroup && f(b) == TodayGroup;
    PairTail(a, b, f);
    var c := CalendarOrder;
    var month := [ThisMonthGroup, OlderGroup];
    assert month[1..] == [OlderGroup];
    CollectSkips([a, b], f, month);
    var week := [ThisWeekGroup] + month;
    assert week[1..] == month;
    CollectSkips([a, b], f, week);
    var yesterday := [YesterdayGroup] + week;
    assert yesterday[1..] == week;
    CollectSkips([a, b], f, yesterday);
    assert Collect([a, b], f, yesterday) == [NoteGroup(OlderGroup, [a])];
    assert c[1..] == yesterday;
    FilterPair(a, b, InBucket(f, TodayGroup));
    assert Filter([a, b], InBucket(f, TodayGroup)) == [b];
  }

  /** The Older bucket collects the future note alone. */
  lemma PairTail(a: Note, b: Note, f: Note -> Bucket)
    requires f(a) == OlderGroup && f(b) == TodayGroup
    ensures Collect([a, b], f, [OlderGroup]) == [NoteGroup(OlderGroup, [a])]
  {
    FilterPair(a, b, InBucket(f, OlderGroup));
    assert Filter([a, b], InBucket(f, OlderGroup)) == [a];
    assert [OlderGroup][1..] == [];
    assert Collect([a, b], f, []) == [];
    assert [NoteGroup(OlderGroup, [a])] + [] == [NoteGroup(OlderGroup, [a])];
  }

  /** A bucket that holds none of the notes adds no group. */
  lemma CollectSkips(s: seq<Note>, f: Note -> Bucket, order: seq<Bucket>)
    requires |order| > 0
    requires forall i :: 0 <= i < |s| ==> f(s[i]) != order[0]
    ensures Collect(s, f, order) == Collect(s, f, order[1..])
  {
    NoneInBucket(s, f, order[0]);
    assert Filter(s, InBucket(f, order[0])) == [];
  }

  lemma FilterPair(a: Note, b: Note, p: Note -> bool)
    ensures Filter([a, b], p) == (if p(a) then [a] else []) + (if p(b) then [b] else [])
  {
    assert [a, b][1..] == [b];
    assert [b][1..] == [];
  }

  /** In the DOM version a note dated in the future is grouped under Today. */
  lemma DomFutureNoteIsToday(today: Day, n: Note)
    requires n.date > today
    ensures exists i :: 0 <= i < |DomGroupNotes([n], today)| && DomGroupNotes([n], today)[i].bucket == TodayGroup
  {
    var gs := DomGroupNotes([n], today);
    assert AllNotes(gs) == [n];
    assert |gs| > 0;
  }
}
