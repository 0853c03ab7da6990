/**
 * The per-day grouping of the recently-played feed: for each local day,
 * the (at most) three tracks played most often that day, ties broken by
 * the order in which the tracks were first played.
 *
 * A JavaScript `Map` keeps its keys in insertion order; the per-day map of
 * play counts is therefore a sequence of tallies in first-seen order, and
 * the map of days is kept with the sequence of its keys.
 */
module Grouping {
  import opened Common
  import opened Sorting
  import opened Calendar
  import opened Tracks

  /** One track's entry for a day: its play count and the display record built at its first play. */
  datatype Tally = Tally(id: string, count: nat, meta: Track)

  function CountOf(t: Tally): int
  {
    t.count
  }

  /**
   * The day an item is counted for, or `None` when it is skipped: it has
   * no `played_at`, its date does not parse, or it lacks a track, an id or
   * a name.  `dateKey` names a local date; the grouping itself passes
   * `DateKey`, and the lemmas hold for any naming.
   */
  function DayOf(item: PlayItem, dateKey: LocalDate -> string): (r: Option<string>)
    ensures r.Some? ==> IsValid(item)
  {
    if item.playedAt == "" || item.stamp.None? || !IsValid(item) then None
    else Some(dateKey(item.stamp.value.local))
  }

  // ---------------------------------------------------------------------
  // The tallies of one day
  // ---------------------------------------------------------------------

  /** `counts.set(id, (counts.get(id) || 0) + 1)`, with the metadata set on the first play only. */
  function Bump(tallies: seq<Tally>, item: PlayItem): seq<Tally>
    requires IsValid(item)
  {
    if tallies == [] then [Tally(IdOf(item), 1, ToTrack(item.track.value))]
    else if tallies[0].id == IdOf(item) then [tallies[0].(count := tallies[0].count + 1)] + tallies[1..]
    else [tallies[0]] + Bump(tallies[1..], item)
  }

  /** The tallies of day `day` after the items of `items` were counted in order. */
  function DayTally(items: seq<PlayItem>, day: string, dateKey: LocalDate -> string): seq<Tally>
  {
    if items == [] then []
    else
      var prev := DayTally(items[..|items| - 1], day, dateKey);
      var last := items[|items| - 1];
      if DayOf(last, dateKey) == Some(day) then Bump(prev, last) else prev
  }

  /** The keys of the day map, in the order the days were first met. */
  function Days(items: seq<PlayItem>, dateKey: LocalDate -> string): seq<string>
  {
    if items == [] then []
    else
      var prev := Days(items[..|items| - 1], dateKey);
      var d := DayOf(items[|items| - 1], dateKey);
      if d.Some? && d.value !in prev then prev + [d.value] else prev
  }

  // ---------------------------------------------------------------------
  // Independent descriptions of the tallies
  // ---------------------------------------------------------------------

  /** How many items count as a play of track `id` on day `day`. */
  function Occurrences(items: seq<PlayItem>, day: string, id: string, dateKey: LocalDate -> string): nat
  {
    if items == [] then 0
    else
      var last := items[|items| - 1];
      Occurrences(items[..|items| - 1], day, id, dateKey) + (if DayOf(last, dateKey) == Some(day) && IdOf(last) == id then 1 else 0)
  }

  /** The ids of the tracks played on `day`, in order of their first play that day. */
  function FirstSeen(items: seq<PlayItem>, day: string, dateKey: LocalDate -> string): seq<string>
  {
    if items == [] then []
    else
      var prev := FirstSeen(items[..|items| - 1], day, dateKey);
      var last := items[|items| - 1];
      if DayOf(last, dateKey) == Some(day) && IdOf(last) !in prev then prev + [IdOf(last)] else prev
  }

  ghost predicate HasDay(items: seq<PlayItem>, day: string, dateKey: LocalDate -> string)
  {
    exists k :: 0 <= k < |items| && DayOf(items[k], dateKey) == Some(day)
  }

  function Ids(t: seq<Tally>): (r: seq<string>)
    ensures |r| == |t| && forall k :: 0 <= k < |t| ==> r[k] == t[k].id
  {
    seq(|t|, k requires 0 <= k < |t| => t[k].id)
  }

  /** The total count recorded for `id`. */
  function CountIn(t: seq<Tally>, id: string): nat
  {
    if t == [] then 0 else (if t[0].id == id then t[0].count else 0) + CountIn(t[1..], id)
  }

  ghost predicate Distinct(s: seq<string>)
  {
    forall i, j :: 0 <= i < j < |s| ==> s[i] != s[j]
  }

  /** Every tally was made from a valid play: the metadata is that track's, and it was played. */
  ghost predicate WellFormed(t: seq<Tally>)
  {
    forall k :: 0 <= k < |t| ==>
      t[k].meta.id == t[k].id && t[k].id != "" && t[k].meta.name != "" && t[k].count >= 1
  }

  lemma {:induction false} BumpIds(t: seq<Tally>, item: PlayItem)
    requires IsValid(item)
    ensures Ids(Bump(t, item)) == if IdOf(item) in Ids(t) then Ids(t) else Ids(t) + [IdOf(item)]
  {
    var id := IdOf(item);
    if t == [] {
      IdsCons(Bump(t, item)[0], []);
      assert Bump(t, item) == [Bump(t, item)[0]] + [];
    } else {
      var rest := Ids(t[1..]);
      assert t == [t[0]] + t[1..];
      IdsCons(t[0], t[1..]);
      if t[0].id == id {
        IdsCons(t[0].(count := t[0].count + 1), t[1..]);
      } else {
        BumpIds(t[1..], item);
        IdsCons(t[0], Bump(t[1..], item));
        assert (id in Ids(t)) == (id in rest);
        if id !in rest {
          assert [t[0].id] + (rest + [id]) == ([t[0].id] + rest) + [id];
        }
      }
    }
  }

  lemma IdsCons(x: Tally, rest: seq<Tally>)
    ensures Ids([x] + rest) == [x.id] + Ids(rest)
  {
  }

  lemma {:induction false} BumpWellFormed(t: seq<Tally>, item: PlayItem)
    requires IsValid(item) && WellFormed(t)
    ensures WellFormed(Bump(t, item))
  {
    if t != [] && t[0].id != IdOf(item) {
      BumpWellFormed(t[1..], item);
      var r := Bump(t, item);
      forall k | 0 < k < |r| ensures r[k] == Bump(t[1..], item)[k - 1] {
      }
    }
  }

  lemma {:induction false} BumpCount(t: seq<Tally>, item: PlayItem, id: string)
    requires IsValid(item)
    ensures CountIn(Bump(t, item), id) == CountIn(t, id) + (if IdOf(item) == id then 1 else 0)
  {
    if t == [] {
      assert CountIn(Bump(t, item), id) == (if IdOf(item) == id then 1 else 0) + CountIn([], id);
    } else if t[0].id == IdOf(item) {
      assert Bump(t, item)[1..] == t[1..];
    } else {
      BumpCount(t[1..], item, id);
      assert Bump(t, item)[1..] == Bump(t[1..], item);
    }
  }

  /** Peeling the last item off a non-empty sequence. */
  lemma Peel(items: seq<PlayItem>, i: nat)
    requires i < |items|
    ensures items[..i + 1][..i] == items[..i] && items[..i + 1][i] == items[i]
  {
  }

  /** The tallies list each track played that day once, in first-play order, with valid metadata. */
  lemma {:induction false} DayTallyShape(items: seq<PlayItem>, day: string, dateKey: LocalDate -> string)
    ensures Ids(DayTally(items, day, dateKey)) == FirstSeen(items, day, dateKey)
    ensures WellFormed(DayTally(items, day, dateKey))
    ensures Distinct(FirstSeen(items, day, dateKey))
  {
    if items != [] {
      var init := items[..|items| - 1];
      var last := items[|items| - 1];
      DayTallyShape(init, day, dateKey);
      if DayOf(last, dateKey) == Some(day) {
        BumpIds(DayTally(init, day, dateKey), last);
        BumpWellFormed(DayTally(init, day, dateKey), last);
      }
    }
  }

  /** Each track's count is the number of its plays that day. */
  lemma {:induction false} DayTallyCounts(items: seq<PlayItem>, day: string, id: string, dateKey: LocalDate -> string)
    ensures CountIn(DayTally(items, day, dateKey), id) == Occurrences(items, day, id, dateKey)
  {
    if items != [] {
      var init := items[..|items| - 1];
      var last := items[|items| - 1];
      DayTallyCounts(init, day, id, dateKey);
      if DayOf(last, dateKey) == Some(day) {
        BumpCount(DayTally(init, day, dateKey), last, id);
      }
    }
  }

  /** A day has tallies exactly when some counted item falls on it, and then it is a key of the map. */
  lemma {:induction false} DaysAreTheCountedDays(items: seq<PlayItem>, day: string, dateKey: LocalDate -> string)
    ensures day in Days(items, dateKey) <==> HasDay(items, day, dateKey)
    ensures DayTally(items, day, dateKey) != [] <==> HasDay(items, day, dateKey)
  {
    if items != [] {
      var init := items[..|items| - 1];
      var last := items[|items| - 1];
      DaysAreTheCountedDays(init, day, dateKey);
      if DayOf(last, dateKey) == Some(day) {
        assert |Bump(DayTally(init, day, dateKey), last)| >= 1;
      }
      if HasDay(items, day, dateKey) {
        var k :| 0 <= k < |items| && DayOf(items[k], dateKey) == Some(day);
        if k < |items| - 1 {
          assert init[k] == items[k];
          assert HasDay(init, day, dateKey);
        }
      }
      if HasDay(init, day, dateKey) {
        var k :| 0 <= k < |init| && DayOf(init[k], dateKey) == Some(day);
        assert items[k] == init[k];
      }
    }
  }

  lemma {:induction false} DaysDistinct(items: seq<PlayItem>, dateKey: LocalDate -> string)
    ensures Distinct(Days(items, dateKey))
  {
    if items != [] {
      DaysDistinct(items[..|items| - 1], dateKey);
    }
  }

  lemma {:induction false} CountInOfDistinct(t: seq<Tally>, k: nat)
    requires k < |t| && Distinct(Ids(t))
    ensures CountIn(t, t[k].id) == t[k].count
  {
    if k == 0 {
      CountInAbsent(t[1..], t[0].id);
    } else {
      assert Distinct(Ids(t[1..])) by {
        forall i, j | 0 <= i < j < |t| - 1 ensures Ids(t[1..])[i] != Ids(t[1..])[j] {
          assert Ids(t)[i + 1] != Ids(t)[j + 1];
        }
      }
      assert t[0].id != t[k].id by {
        assert Ids(t)[0] != Ids(t)[k];
      }
      CountInOfDistinct(t[1..], k - 1);
    }
  }

  lemma {:induction false} CountInAbsent(t: seq<Tally>, id: string)
    requires forall k :: 0 <= k < |t| ==> t[k].id != id
    ensures CountIn(t, id) == 0
  {
    if t != [] {
      CountInAbsent(t[1..], id);
    }
  }

  // ---------------------------------------------------------------------
  // The top three
  // ---------------------------------------------------------------------

  predicate IsShowable(t: Track)
  {
    t.id != "" && t.name != ""
  }

  /**
   * The inner loop over the sorted tallies: the metadata of the tallies
   * whose track has an id and a name, until `room` of them are taken.
   */
  function TopOf(sorted: seq<Tally>, room: nat): (r: seq<Track>)
    ensures |r| <= room
  {
    if room == 0 || sorted == [] then []
    else if IsShowable(sorted[0].meta) then [sorted[0].meta] + TopOf(sorted[1..], room - 1)
    else TopOf(sorted[1..], room)
  }

  function Metas(t: seq<Tally>): (r: seq<Track>)
    ensures |r| == |t| && forall k :: 0 <= k < |t| ==> r[k] == t[k].meta
  {
    seq(|t|, k requires 0 <= k < |t| => t[k].meta)
  }

  /** With valid metadata throughout, the top is simply the first `room` tallies. */
  lemma {:induction false} TopOfWellFormed(sorted: seq<Tally>, room: nat)
    requires WellFormed(sorted)
    ensures TopOf(sorted, room) == Metas(sorted[..if |sorted| < room then |sorted| else room])
  {
    if room != 0 && sorted != [] {
      assert WellFormed(sorted[1..]) by {
        forall k | 0 <= k < |sorted| - 1 ensures sorted[1..][k] == sorted[k + 1] {
        }
      }
      TopOfWellFormed(sorted[1..], room - 1);
    }
  }

  /** The tracks shown for `day`. */
  function DayTop(items: seq<PlayItem>, day: string, dateKey: LocalDate -> string): seq<Track>
  {
    TopOf(SortDesc(DayTally(items, day, dateKey), CountOf), 3)
  }

  lemma SortedWellFormed(t: seq<Tally>)
    requires WellFormed(t)
    ensures WellFormed(SortDesc(t, CountOf))
  {
    var s := SortDesc(t, CountOf);
    SortDescPermutes(t, CountOf);
    forall k | 0 <= k < |s| ensures s[k].meta.id == s[k].id && s[k].id != "" && s[k].meta.name != "" && s[k].count >= 1 {
      assert s[k] in multiset(t);
    }
  }

  /** The sorted tallies of a day, their metadata and the day's play counts agree. */
  lemma SortedDayTally(items: seq<PlayItem>, day: string, dateKey: LocalDate -> string)
    ensures var s := SortDesc(DayTally(items, day, dateKey), CountOf);
      && WellFormed(s) && Distinct(Ids(s)) && NonIncreasing(s, CountOf)
      && (forall k :: 0 <= k < |s| ==> s[k].count == Occurrences(items, day, s[k].id, dateKey))
      && DayTop(items, day, dateKey) == Metas(s[..if |s| < 3 then |s| else 3])
  {
    var t := DayTally(items, day, dateKey);
    var s := SortDesc(t, CountOf);
    DayTallyShape(items, day, dateKey);
    SortedWellFormed(t);
    SortDescOrders(t, CountOf);
    SortDescDistinct(t, CountOf, (x: Tally) => x.id);
    assert DistinctBy(t, (x: Tally) => x.id) by {
      forall i, j | 0 <= i < j < |t| ensures t[i].id != t[j].id {
        assert Ids(t)[i] != Ids(t)[j];
      }
    }
    assert Distinct(Ids(s));
    SortDescPermutes(t, CountOf);
    forall k | 0 <= k < |s| ensures s[k].count == Occurrences(items, day, s[k].id, dateKey) {
      assert s[k] in multiset(t);
      var p :| 0 <= p < |t| && t[p] == s[k];
      CountInOfDistinct(t, p);
      DayTallyCounts(items, day, s[k].id, dateKey);
    }
    TopOfWellFormed(s, 3);
  }

  /** A counted day shows one to three distinct tracks, each of them played that day. */
  lemma DayTopShape(items: seq<PlayItem>, day: string, dateKey: LocalDate -> string)
    requires HasDay(items, day, dateKey)
    ensures var top := DayTop(items, day, dateKey);
      && 1 <= |top| <= 3
      && (forall i, j :: 0 <= i < j < |top| ==> top[i].id != top[j].id)
      && (forall i :: 0 <= i < |top| ==> top[i].name != "" && Occurrences(items, day, top[i].id, dateKey) >= 1)
  {
    var s := SortDesc(DayTally(items, day, dateKey), CountOf);
    var top := DayTop(items, day, dateKey);
    SortedDayTally(items, day, dateKey);
    DaysAreTheCountedDays(items, day, dateKey);
    forall i, j | 0 <= i < j < |top| ensures top[i].id != top[j].id {
      assert top[i] == s[i].meta && top[j] == s[j].meta;
      assert Ids(s)[i] != Ids(s)[j];
    }
    forall i | 0 <= i < |top| ensures top[i].name != "" && Occurrences(items, day, top[i].id, dateKey) >= 1 {
      assert top[i] == s[i].meta;
    }
  }

  /** The tracks of a day are listed by non-increasing play count. */
  lemma DayTopMostPlayedFirst(items: seq<PlayItem>, day: string, dateKey: LocalDate -> string)
    ensures var top := DayTop(items, day, dateKey);
      forall i, j :: 0 <= i < j < |top| ==>
        Occurrences(items, day, top[i].id, dateKey) >= Occurrences(items, day, top[j].id, dateKey)
  {
    var s := SortDesc(DayTally(items, day, dateKey), CountOf);
    var top := DayTop(items, day, dateKey);
    SortedDayTally(items, day, dateKey);
    forall i, j | 0 <= i < j < |top|
      ensures Occurrences(items, day, top[i].id, dateKey) >= Occurrences(items, day, top[j].id, dateKey)
    {
      assert top[i] == s[i].meta && top[j] == s[j].meta;
      assert CountOf(s[i]) >= CountOf(s[j]);
    }
  }

  /** A track played that day has a tally among the sorted tallies. */
  lemma SortedHasId(items: seq<PlayItem>, day: string, id: string, dateKey: LocalDate -> string) returns (q: nat)
    requires id in FirstSeen(items, day, dateKey)
    ensures var s := SortDesc(DayTally(items, day, dateKey), CountOf); q < |s| && s[q].id == id
  {
    var t := DayTally(items, day, dateKey);
    var s := SortDesc(t, CountOf);
    DayTallyShape(items, day, dateKey);
    assert id in Ids(t);
    var p :| 0 <= p < |t| && Ids(t)[p] == id;
    SortDescPermutes(t, CountOf);
    assert t[p] in multiset(s);
    q :| 0 <= q < |s| && s[q] == t[p];
  }

  /** No track played that day but left out was played more often than a track shown. */
  lemma DayTopIsTop(items: seq<PlayItem>, day: string, id: string, dateKey: LocalDate -> string)
    requires id in FirstSeen(items, day, dateKey)
    requires forall j :: 0 <= j < |DayTop(items, day, dateKey)| ==> DayTop(items, day, dateKey)[j].id != id
    ensures forall i :: 0 <= i < |DayTop(items, day, dateKey)| ==>
      Occurrences(items, day, id, dateKey) <= Occurrences(items, day, DayTop(items, day, dateKey)[i].id, dateKey)
  {
    var s := SortDesc(DayTally(items, day, dateKey), CountOf);
    var top := DayTop(items, day, dateKey);
    var q := SortedHasId(items, day, id, dateKey);
    SortedDayTally(items, day, dateKey);
    var n := if |s| < 3 then |s| else 3;
    assert forall k :: 0 <= k < n ==> top[k].id == s[k].id;
    if q < n {
      assert false;
    }
    var least := Occurrences(items, day, id, dateKey);
    assert s[q].count == least;
    forall i | 0 <= i < |top| ensures least <= Occurrences(items, day, top[i].id, dateKey) {
      assert i < q && top[i].id == s[i].id;
      assert s[i].count == Occurrences(items, day, s[i].id, dateKey);
      assert CountOf(s[i]) >= CountOf(s[q]);
    }
  }

  /**
   * Ties keep first-seen order: the tallies of any one count appear in
   * the sorted order as they appear in the first-seen order of the day.
   */
  lemma DaySortIsStable(items: seq<PlayItem>, day: string, c: int, dateKey: LocalDate -> string)
    ensures WithKey(SortDesc(DayTally(items, day, dateKey), CountOf), CountOf, c) == WithKey(DayTally(items, day, dateKey), CountOf, c)
  {
    SortDescStable(DayTally(items, day, dateKey), CountOf, c);
  }

  // ---------------------------------------------------------------------
  // The grouping loops
  // ---------------------------------------------------------------------

  /** The inner `for … of sorted` loop with its `break` at three tracks. */
  method PickTop3(sorted: seq<Tally>) returns (top3: seq<Track>)
    ensures top3 == TopOf(sorted, 3)
  {
    top3 := [];
    var i := 0;
    while i < |sorted|
      invariant 0 <= i <= |sorted| && |top3| <= 3
      invariant top3 + TopOf(sorted[i..], 3 - |top3|) == TopOf(sorted, 3)
    {
      if |top3| >= 3 {
        break;
      }
      assert sorted[i..][1..] == sorted[i + 1..];
      var track := sorted[i].meta;
      if track.id != "" && track.name != "" {
        top3 := top3 + [track];
      }
      i := i + 1;
    }
  }

  /** The tallies after one more item. */
  lemma TallyStep(all: seq<PlayItem>, i: nat, d: string, dateKey: LocalDate -> string)
    requires i < |all|
    ensures DayTally(all[..i + 1], d, dateKey) ==
      if DayOf(all[i], dateKey) == Some(d) then Bump(DayTally(all[..i], d, dateKey), all[i]) else DayTally(all[..i], d, dateKey)
    ensures Days(all[..i + 1], dateKey) ==
      if DayOf(all[i], dateKey).Some? && DayOf(all[i], dateKey).value !in Days(all[..i], dateKey) then Days(all[..i], dateKey) + [DayOf(all[i], dateKey).value]
      else Days(all[..i], dateKey)
  {
    Peel(all, i);
  }

  /**
   * The first loop of `groupTop3ByDay`: the `byDay` map of per-day
   * tallies, with its keys in insertion order.
   */
  method CountByDay(all: seq<PlayItem>, dateKey: LocalDate -> string) returns (byDay: map<string, seq<Tally>>, order: seq<string>)
    ensures order == Days(all, dateKey)
    ensures forall d :: d in byDay <==> d in order
    ensures forall d :: d in byDay ==> byDay[d] == DayTally(all, d, dateKey)
  {
    byDay := map[];
    order := [];
    var i := 0;
    while i < |all|
      invariant 0 <= i <= |all|
      invariant order == Days(all[..i], dateKey)
      invariant forall d :: d in byDay <==> d in order
      invariant forall d :: d in byDay ==> byDay[d] == DayTally(all[..i], d, dateKey)
    {
      var item := all[i];
      ghost var before := byDay;
      var day := DayOf(item, dateKey);
      if day.Some? {
        if day.value !in byDay {
          byDay := byDay[day.value := []];
          order := order + [day.value];
        }
        byDay := byDay[day.value := Bump(byDay[day.value], item)];
      }
      TallyStep(all, i, if day.Some? then day.value else "", dateKey);
      forall d | d in byDay ensures byDay[d] == DayTally(all[..i + 1], d, dateKey) {
        TallyStep(all, i, d, dateKey);
        if d !in before {
          DaysAreTheCountedDays(all[..i], d, dateKey);
        }
      }
      i := i + 1;
    }
    assert all[..i] == all;
  }

  /**
   * `groupTop3ByDay(json)`: `items` is `json.items`, or `None` when there
   * is no array.  The result maps each day to its top tracks; a day whose
   * top would be empty is not set.
   */
  method GroupTop3ByDay(items: Option<seq<PlayItem>>, dateKey: LocalDate -> string) returns (result: map<string, seq<Track>>)
    ensures items.None? ==> result == map[]
    ensures items.Some? ==> forall d :: d in result <==> d in Days(items.value, dateKey) && DayTop(items.value, d, dateKey) != []
    ensures items.Some? ==> forall d :: d in result ==> result[d] == DayTop(items.value, d, dateKey)
  {
    if items.None? {
      return map[];
    }
    var byDay, order := CountByDay(items.value, dateKey);
    result := map[];
    var j := 0;
    while j < |order|
      invariant 0 <= j <= |order|
      invariant forall d :: d in result <==> d in order[..j] && DayTop(items.value, d, dateKey) != []
      invariant forall d :: d in result ==> result[d] == DayTop(items.value, d, dateKey)
    {
      var day := order[j];
      var sorted := SortDesc(byDay[day], CountOf);
      var top3 := PickTop3(sorted);
      if |top3| > 0 {
        result := result[day := top3];
      }
      assert order[..j + 1] == order[..j] + [day];
      j := j + 1;
    }
    assert order[..j] == order;
  }

  /** The grouping as the page runs it, with days named by their `YYYY-MM-DD` key. */
  method GroupTop3ByLocalDay(items: Option<seq<PlayItem>>) returns (result: map<string, seq<Track>>)
    ensures items.None? ==> result == map[]
    ensures items.Some? ==> forall d :: d in result <==> d in Days(items.value, DateKey) && DayTop(items.value, d, DateKey) != []
    ensures items.Some? ==> forall d :: d in result ==> result[d] == DayTop(items.value, d, DateKey)
  {
    result := GroupTop3ByDay(items, DateKey);
  }

  /** Every day with a counted play is in the result, and no other day is. */
  lemma ResultDays(items: seq<PlayItem>, day: string, dateKey: LocalDate -> string)
    ensures (day in Days(items, dateKey) && DayTop(items, day, dateKey) != []) <==> HasDay(items, day, dateKey)
  {
    DaysAreTheCountedDays(items, day, dateKey);
    if HasDay(items, day, dateKey) {
      DayTopShape(items, day, dateKey);
    }
  }
}
