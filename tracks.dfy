/**
 * The track normaliser: from the items of the recently-played feed to the
 * "most recent unique tracks" the song cards show, newest first.
 *
 * The feed's JSON is modelled as typed records.  A field that JavaScript
 * reads as falsy (missing, `null` or `""`) is the empty string here, and
 * `Date` parsing of `played_at` is supplied with the item as a `Stamp`:
 * the epoch milliseconds and the local calendar date, or `None` when the
 * text does not parse.
 */
module Tracks {
  import opened Common
  import opened Sorting
  import opened Calendar

  /** A parsed `played_at`: its instant and its local calendar date. */
  datatype Stamp = Stamp(epochMs: int, local: LocalDate)

  /**
   * `item.track` of the feed.  `artistNames` holds, per entry of
   * `track.artists`, its `name`, or `""` for a `null` entry or one without
   * a name.
   */
  datatype RawTrack = RawTrack(id: string, name: string, artistNames: seq<string>,
                               albumImageUrl: string, previewUrl: string, spotifyUrl: string)

  datatype PlayItem = PlayItem(track: Option<RawTrack>, playedAt: string, stamp: Option<Stamp>)

  /** The display record of a track. */
  datatype Track = Track(id: string, name: string, artists: string,
                         image: string, previewUrl: string, spotifyUrl: string)

  /** A track of the recent list with the time it was played. */
  datatype Recent = Recent(track: Track, playedAt: string)

  const UnknownArtist := "Unknown Artist"

  /** An item the normaliser may show: it has a track with an id and a name. */
  predicate IsValid(item: PlayItem)
  {
    item.track.Some? && item.track.value.id != "" && item.track.value.name != ""
  }

  function IdOf(item: PlayItem): string
    requires IsValid(item)
  {
    item.track.value.id
  }

  /**
   * The sort key of an item: `new Date(played_at).getTime()`.  An item
   * whose `played_at` does not parse sorts as if played at the epoch.
   */
  function PlayedTime(item: PlayItem): int
  {
    if item.stamp.Some? then item.stamp.value.epochMs else 0
  }

  // ---------------------------------------------------------------------
  // Artist line
  // ---------------------------------------------------------------------

  /** The names of `names` that are not blank, in their order. */
  function NonBlank(names: seq<string>): (r: seq<string>)
    ensures forall i :: 0 <= i < |r| ==> Trim(r[i]) != [] && r[i] in names
    ensures (forall i :: 0 <= i < |names| ==> Trim(names[i]) != []) ==> r == names
  {
    if names == [] then []
    else if Trim(names[0]) != [] then [names[0]] + NonBlank(names[1..])
    else NonBlank(names[1..])
  }

  /** The filter works name by name, so the names it keeps stay in their order. */
  lemma {:induction false} NonBlankConcat(a: seq<string>, b: seq<string>)
    ensures NonBlank(a + b) == NonBlank(a) + NonBlank(b)
  {
    if a == [] {
      assert a + b == b;
    } else {
      assert (a + b)[1..] == a[1..] + b;
      NonBlankConcat(a[1..], b);
    }
  }

  /** Every name that is not blank is kept. */
  lemma {:induction false} NonBlankKeeps(names: seq<string>, i: nat)
    requires i < |names| && Trim(names[i]) != []
    ensures names[i] in NonBlank(names)
  {
    var r := NonBlank(names);
    if i == 0 {
      assert r == [names[0]] + NonBlank(names[1..]);
      assert r[0] == names[0];
    } else {
      var rest := NonBlank(names[1..]);
      assert names[i] == names[1..][i - 1];
      NonBlankKeeps(names[1..], i - 1);
      assert r == rest || r == [names[0]] + rest;
      assert forall x :: x in rest ==> x in r;
    }
  }

  ghost predicate AllBlank(names: seq<string>)
  {
    forall i :: 0 <= i < |names| ==> Trim(names[i]) == []
  }

  /** Every name is dropped exactly when every name is blank. */
  lemma {:induction false} NonBlankEmpty(names: seq<string>)
    ensures NonBlank(names) == [] <==> AllBlank(names)
  {
    if names != [] {
      NonBlankEmpty(names[1..]);
      AllBlankCons(names);
    }
  }

  lemma AllBlankCons(names: seq<string>)
    requires names != []
    ensures AllBlank(names) <==> Trim(names[0]) == [] && AllBlank(names[1..])
  {
    if Trim(names[0]) == [] && AllBlank(names[1..]) {
      forall i | 0 <= i < |names| ensures Trim(names[i]) == [] {
        if i > 0 {
          assert names[i] == names[1..][i - 1];
        }
      }
    }
  }

  /**
   * The artists of a track joined with ", ", leaving out blank names, and
   * `"Unknown Artist"` when no name is left.
   */
  function ArtistLine(names: seq<string>): string
  {
    var kept := NonBlank(names);
    if kept != [] then Join(kept, ", ") else UnknownArtist
  }

  /** The artist line is never empty, and it is the fallback exactly when every name is blank. */
  lemma ArtistLineProperties(names: seq<string>)
    ensures ArtistLine(names) != []
    ensures AllBlank(names) ==> ArtistLine(names) == UnknownArtist
    ensures !AllBlank(names) ==> ArtistLine(names) == Join(NonBlank(names), ", ")
  {
    var kept := NonBlank(names);
    NonBlankEmpty(names);
    if kept != [] {
      assert Trim(kept[0]) != [];
    }
  }

  function ToTrack(t: RawTrack): Track
  {
    Track(t.id, if t.name != "" then t.name else "Unknown Track", ArtistLine(t.artistNames),
          t.albumImageUrl, t.previewUrl, t.spotifyUrl)
  }

  function ToRecent(item: PlayItem): Recent
    requires IsValid(item)
  {
    Recent(ToTrack(item.track.value), item.playedAt)
  }

  // ---------------------------------------------------------------------
  // Specification of the selection
  // ---------------------------------------------------------------------

  /**
   * The valid items of `s` whose id is neither in `seen` nor on an earlier
   * valid item: one item per id, the first one met.
   */
  function FirstPerId(s: seq<PlayItem>, seen: set<string>): (r: seq<PlayItem>)
    ensures forall k :: 0 <= k < |r| ==> IsValid(r[k])
  {
    if s == [] then []
    else if !IsValid(s[0]) || IdOf(s[0]) in seen then FirstPerId(s[1..], seen)
    else [s[0]] + FirstPerId(s[1..], seen + {IdOf(s[0])})
  }

  /** Every item kept is one of the input items. */
  lemma {:induction false} FirstPerIdWithin(s: seq<PlayItem>, seen: set<string>)
    ensures forall x :: x in FirstPerId(s, seen) ==> x in s
  {
    if s != [] {
      var seen' := if IsValid(s[0]) && IdOf(s[0]) !in seen then seen + {IdOf(s[0])} else seen;
      FirstPerIdWithin(s[1..], seen');
      forall x | x in s[1..] ensures x in s {
        var m :| 0 <= m < |s[1..]| && s[1..][m] == x;
        assert s[m + 1] == x;
      }
    }
  }

  /** `results.length >= count` ends the loop only after a push: at least one track is taken. */
  function Quota(count: int): nat
  {
    if count <= 1 then 1 else count
  }

  /** The items `getMostRecentUniqueTracks` shows, newest first. */
  function Chosen(items: seq<PlayItem>, count: int): (r: seq<PlayItem>)
  {
    Limit(FirstPerId(SortDesc(items, PlayedTime), {}), count)
  }

  /** The first `Quota(count)` items of `u`, or all of them when there are fewer. */
  function Limit(u: seq<PlayItem>, count: int): seq<PlayItem>
  {
    if |u| <= Quota(count) then u else u[..Quota(count)]
  }

  ghost predicate DistinctIds(s: seq<PlayItem>)
    requires forall k :: 0 <= k < |s| ==> IsValid(s[k])
  {
    forall i, j :: 0 <= i < j < |s| ==> IdOf(s[i]) != IdOf(s[j])
  }

  lemma {:induction false} FirstPerIdDistinct(s: seq<PlayItem>, seen: set<string>)
    ensures DistinctIds(FirstPerId(s, seen))
    ensures forall k :: 0 <= k < |FirstPerId(s, seen)| ==> IdOf(FirstPerId(s, seen)[k]) !in seen
  {
    if s != [] && IsValid(s[0]) && IdOf(s[0]) !in seen {
      var id := IdOf(s[0]);
      FirstPerIdDistinct(s[1..], seen + {id});
      var r := FirstPerId(s, seen);
      assert r[1..] == FirstPerId(s[1..], seen + {id});
      forall i, j | 0 <= i < j < |r| ensures IdOf(r[i]) != IdOf(r[j]) {
        assert r[j] == r[1..][j - 1];
        if i > 0 {
          assert r[i] == r[1..][i - 1];
        }
      }
      forall k | 0 <= k < |r| ensures IdOf(r[k]) !in seen {
        if k > 0 {
          assert r[k] == r[1..][k - 1];
        }
      }
    } else if s != [] {
      FirstPerIdDistinct(s[1..], seen);
    }
  }

  /** Keeping the first item per id keeps the order of the input. */
  lemma {:induction false} FirstPerIdOrdered(s: seq<PlayItem>, seen: set<string>)
    requires NonIncreasing(s, PlayedTime)
    ensures NonIncreasing(FirstPerId(s, seen), PlayedTime)
  {
    if s != [] {
      assert NonIncreasing(s[1..], PlayedTime);
      if !IsValid(s[0]) || IdOf(s[0]) in seen {
        FirstPerIdOrdered(s[1..], seen);
      } else {
        var rest := FirstPerId(s[1..], seen + {IdOf(s[0])});
        FirstPerIdOrdered(s[1..], seen + {IdOf(s[0])});
        FirstPerIdWithin(s[1..], seen + {IdOf(s[0])});
        var r := [s[0]] + rest;
        forall i, j | 0 <= i < j < |r| ensures PlayedTime(r[i]) >= PlayedTime(r[j]) {
          assert r[j] == rest[j - 1];
          if i > 0 {
            assert r[i] == rest[i - 1];
          } else {
            assert rest[j - 1] in rest;
            var m :| 0 <= m < |s[1..]| && s[1..][m] == rest[j - 1];
            assert s[m + 1] == r[j];
          }
        }
      }
    }
  }

  /** Some valid item of `r` has id `id`. */
  ghost predicate HasId(r: seq<PlayItem>, id: string)
  {
    exists k :: 0 <= k < |r| && IsValid(r[k]) && IdOf(r[k]) == id
  }

  /** Every valid item's id is either in `seen` or shown. */
  lemma {:induction false} FirstPerIdCovers(s: seq<PlayItem>, seen: set<string>, x: PlayItem)
    requires x in s && IsValid(x)
    ensures IdOf(x) in seen || HasId(FirstPerId(s, seen), IdOf(x))
  {
    var r := FirstPerId(s, seen);
    if !IsValid(s[0]) || IdOf(s[0]) in seen {
      if x != s[0] {
        assert x in s[1..];
        FirstPerIdCovers(s[1..], seen, x);
        assert r == FirstPerId(s[1..], seen);
      }
    } else if x != s[0] && IdOf(x) != IdOf(s[0]) {
      var rest := FirstPerId(s[1..], seen + {IdOf(s[0])});
      assert x in s[1..];
      FirstPerIdCovers(s[1..], seen + {IdOf(s[0])}, x);
      if IdOf(x) !in seen {
        var k :| 0 <= k < |rest| && IsValid(rest[k]) && IdOf(rest[k]) == IdOf(x);
        assert r[k + 1] == rest[k];
      }
    } else {
      assert IsValid(r[0]) && IdOf(r[0]) == IdOf(x);
    }
  }

  /** No shown item has an id from `seen`. */
  lemma ShownAvoidsSeen(s: seq<PlayItem>, seen: set<string>, k: nat)
    requires k < |FirstPerId(s, seen)|
    ensures IdOf(FirstPerId(s, seen)[k]) !in seen
  {
    FirstPerIdDistinct(s, seen);
  }

  /**
   * A shown item is the first valid play of its id: any valid play `s[q]`
   * with the same id comes at or after the index `p` it was taken from.
   */
  lemma {:induction false} FirstPerIdIndex(s: seq<PlayItem>, seen: set<string>, k: nat, q: nat) returns (p: nat)
    requires k < |FirstPerId(s, seen)| && q < |s|
    requires IsValid(s[q]) && IdOf(s[q]) == IdOf(FirstPerId(s, seen)[k])
    ensures p <= q && s[p] == FirstPerId(s, seen)[k]
  {
    var r := FirstPerId(s, seen);
    ShownAvoidsSeen(s, seen, k);
    if !IsValid(s[0]) || IdOf(s[0]) in seen {
      assert q != 0;
      assert s[1..][q - 1] == s[q];
      var p' := FirstPerIdIndex(s[1..], seen, k, q - 1);
      p := p' + 1;
    } else if k == 0 {
      p := 0;
    } else {
      var id := IdOf(s[0]);
      var rest := FirstPerId(s[1..], seen + {id});
      assert r[k] == rest[k - 1];
      ShownAvoidsSeen(s[1..], seen + {id}, k - 1);
      assert q != 0;
      assert s[1..][q - 1] == s[q];
      var p' := FirstPerIdIndex(s[1..], seen + {id}, k - 1, q - 1);
      p := p' + 1;
    }
  }

  /**
   * In a newest-first sequence, each shown item is the newest play of its
   * id: no valid item with the same id was played later.
   */
  lemma FirstPerIdNewest(s: seq<PlayItem>, seen: set<string>, k: nat, q: nat)
    requires NonIncreasing(s, PlayedTime)
    requires k < |FirstPerId(s, seen)| && q < |s|
    requires IsValid(s[q]) && IdOf(s[q]) == IdOf(FirstPerId(s, seen)[k])
    ensures PlayedTime(s[q]) <= PlayedTime(FirstPerId(s, seen)[k])
  {
    var p := FirstPerIdIndex(s, seen, k, q);
    if p < q {
      assert PlayedTime(s[p]) >= PlayedTime(s[q]);
    }
  }

  /**
   * Of all plays of a shown track, the one shown is the newest: every
   * valid item with the same id was played no later.
   */
  lemma ChosenIsNewestPlay(items: seq<PlayItem>, count: int, k: nat, x: PlayItem)
    requires k < |Chosen(items, count)|
    requires x in items && IsValid(x) && IdOf(x) == IdOf(Chosen(items, count)[k])
    ensures PlayedTime(x) <= PlayedTime(Chosen(items, count)[k])
  {
    var sorted := SortDesc(items, PlayedTime);
    var u := FirstPerId(sorted, {});
    assert Chosen(items, count)[k] == u[k];
    SortDescPermutes(items, PlayedTime);
    SortDescOrders(items, PlayedTime);
    assert x in multiset(sorted);
    var q :| 0 <= q < |sorted| && sorted[q] == x;
    FirstPerIdNewest(sorted, {}, k, q);
  }

  /** The chosen items are the first `Quota(count)` of the first-per-id items. */
  lemma ChosenIsPrefix(items: seq<PlayItem>, count: int)
    ensures var u := FirstPerId(SortDesc(items, PlayedTime), {});
      var c := Chosen(items, count);
      |c| <= Quota(count) && |c| <= |u| && c == u[..|c|] && (|c| < Quota(count) ==> c == u)
  {
  }

  /** The chosen tracks are distinct and listed newest first. */
  lemma ChosenDistinctNewestFirst(items: seq<PlayItem>, count: int)
    ensures DistinctIds(Chosen(items, count))
    ensures NonIncreasing(Chosen(items, count), PlayedTime)
  {
    var sorted := SortDesc(items, PlayedTime);
    var u := FirstPerId(sorted, {});
    var c := Chosen(items, count);
    ChosenIsPrefix(items, count);
    SortDescOrders(items, PlayedTime);
    FirstPerIdDistinct(sorted, {});
    FirstPerIdOrdered(sorted, {});
    forall i, j | 0 <= i < j < |c| ensures IdOf(c[i]) != IdOf(c[j]) && PlayedTime(c[i]) >= PlayedTime(c[j]) {
      assert c[i] == u[i] && c[j] == u[j];
    }
  }

  /** Every chosen item is one of the input items. */
  lemma ChosenFromItems(items: seq<PlayItem>, count: int)
    ensures forall x :: x in Chosen(items, count) ==> x in items
  {
    var sorted := SortDesc(items, PlayedTime);
    var u := FirstPerId(sorted, {});
    var c := Chosen(items, count);
    ChosenIsPrefix(items, count);
    SortDescPermutes(items, PlayedTime);
    FirstPerIdWithin(sorted, {});
    forall x | x in c ensures x in items {
      assert x in u;
      assert x in multiset(sorted);
    }
  }

  /** When fewer than `Quota(count)` tracks are chosen, every valid track of the input is among them. */
  lemma ChosenComplete(items: seq<PlayItem>, count: int)
    ensures |Chosen(items, count)| < Quota(count) ==>
      forall x :: x in items && IsValid(x) ==> HasId(Chosen(items, count), IdOf(x))
  {
    var sorted := SortDesc(items, PlayedTime);
    var c := Chosen(items, count);
    ChosenIsPrefix(items, count);
    SortDescPermutes(items, PlayedTime);
    if |c| < Quota(count) {
      forall x | x in items && IsValid(x)
        ensures HasId(c, IdOf(x))
      {
        assert x in multiset(items);
        assert x in sorted;
        FirstPerIdCovers(sorted, {}, x);
      }
    }
  }

  // ---------------------------------------------------------------------
  // The selection loop
  // ---------------------------------------------------------------------

  function Recents(s: seq<PlayItem>): (r: seq<Recent>)
    requires forall k :: 0 <= k < |s| ==> IsValid(s[k])
    ensures |r| == |s| && forall k :: 0 <= k < |s| ==> r[k] == ToRecent(s[k])
  {
    seq(|s|, k requires 0 <= k < |s| && IsValid(s[k]) => ToRecent(s[k]))
  }

  /** An item that is not valid or whose id was seen is skipped. */
  lemma FirstPerIdSkip(s: seq<PlayItem>, i: nat, seen: set<string>)
    requires i < |s| && (!IsValid(s[i]) || IdOf(s[i]) in seen)
    ensures FirstPerId(s[i..], seen) == FirstPerId(s[i + 1..], seen)
  {
    assert s[i..][1..] == s[i + 1..];
  }

  /** Any other item is taken, and its id is seen from then on. */
  lemma FirstPerIdTake(s: seq<PlayItem>, i: nat, seen: set<string>, taken: seq<PlayItem>, all: seq<PlayItem>)
    requires i < |s| && IsValid(s[i]) && IdOf(s[i]) !in seen
    requires taken + FirstPerId(s[i..], seen) == all
    ensures (taken + [s[i]]) + FirstPerId(s[i + 1..], seen + {IdOf(s[i])}) == all
  {
    assert s[i..][1..] == s[i + 1..];
    var rest := FirstPerId(s[i + 1..], seen + {IdOf(s[i])});
    assert (taken + [s[i]]) + rest == taken + ([s[i]] + rest);
  }

  lemma RecentsAppend(s: seq<PlayItem>, item: PlayItem)
    requires forall k :: 0 <= k < |s| ==> IsValid(s[k])
    requires IsValid(item)
    ensures Recents(s + [item]) == Recents(s) + [ToRecent(item)]
  {
  }

  /** The items taken when the loop ends are the chosen ones. */
  lemma TakenIsChosen(u: seq<PlayItem>, count: int, taken: seq<PlayItem>, rest: seq<PlayItem>)
    requires taken + rest == u
    requires (rest == [] && |taken| <= Quota(count)) || |taken| == Quota(count)
    ensures taken == Limit(u, count)
  {
    assert taken == (taken + rest)[..|taken|];
  }

  /** One item taken by the loop of `TakeUnique`: the loop's invariants hold again. */
  lemma TakeOne(sorted: seq<PlayItem>, i: nat, seen: set<string>, taken: seq<PlayItem>, all: seq<PlayItem>, count: int)
    requires i < |sorted| && IsValid(sorted[i]) && IdOf(sorted[i]) !in seen
    requires forall k :: 0 <= k < |taken| ==> IsValid(taken[k])
    requires taken + FirstPerId(sorted[i..], seen) == all && |taken| < Quota(count)
    ensures var t := taken + [sorted[i]];
      && (forall k :: 0 <= k < |t| ==> IsValid(t[k]))
      && Recents(t) == Recents(taken) + [ToRecent(sorted[i])]
      && (|t| >= count ==> t == Limit(all, count))
      && (|t| < count ==> t + FirstPerId(sorted[i + 1..], seen + {IdOf(sorted[i])}) == all && |t| < Quota(count))
  {
    var t := taken + [sorted[i]];
    FirstPerIdTake(sorted, i, seen, taken, all);
    RecentsAppend(taken, sorted[i]);
    if |t| >= count {
      TakenIsChosen(all, count, t, FirstPerId(sorted[i + 1..], seen + {IdOf(sorted[i])}));
    }
  }

  /** The display records of the chosen items carry what the cards need. */
  lemma RecentsOfChosen(items: seq<PlayItem>, count: int)
    ensures var r := Recents(Chosen(items, count));
      && |r| <= Quota(count)
      && (forall k :: 0 <= k < |r| ==>
            r[k].track.id != "" && r[k].track.name != "" && r[k].track.artists != "")
      && (forall i, j :: 0 <= i < j < |r| ==> r[i].track.id != r[j].track.id)
      && (|r| < Quota(count) ==>
            forall x :: x in items && IsValid(x) ==>
              exists k :: 0 <= k < |r| && r[k].track.id == IdOf(x))
  {
    var c := Chosen(items, count);
    var r := Recents(c);
    ChosenIsPrefix(items, count);
    ChosenDistinctNewestFirst(items, count);
    ChosenComplete(items, count);
    forall k | 0 <= k < |r| ensures r[k].track.artists != "" {
      ArtistLineProperties(c[k].track.value.artistNames);
    }
    forall i, j | 0 <= i < j < |r| ensures r[i].track.id != r[j].track.id {
      assert r[i].track.id == IdOf(c[i]) && r[j].track.id == IdOf(c[j]);
    }
    if |r| < Quota(count) {
      forall x | x in items && IsValid(x) ensures exists k :: 0 <= k < |r| && r[k].track.id == IdOf(x) {
        var k :| 0 <= k < |c| && IsValid(c[k]) && IdOf(c[k]) == IdOf(x);
        assert r[k].track.id == IdOf(x);
      }
    }
  }

  /**
   * `getMostRecentUniqueTracks(json, count)`: `items` is `json.items`, or
   * `None` when there is no array.  The items are sorted newest first;
   * items without a valid track and repeats of an id already taken are
   * skipped; the loop stops once `count` tracks are taken (after the first
   * push, so a `count` below 1 still yields one track).
   */
  method MostRecentUniqueTracks(items: Option<seq<PlayItem>>, count: int) returns (results: seq<Recent>)
    ensures items.None? ==> results == []
    ensures items.Some? ==> results == Recents(Chosen(items.value, count))
  {
    if items.None? {
      return [];
    }
    var sorted := SortDesc(items.value, PlayedTime);
    results := TakeUnique(sorted, count);
  }

  /** The loop of `getMostRecentUniqueTracks` over the items already sorted. */
  method TakeUnique(sorted: seq<PlayItem>, count: int) returns (results: seq<Recent>)
    ensures results == Recents(Limit(FirstPerId(sorted, {}), count))
  {
    ghost var all := FirstPerId(sorted, {});
    ghost var taken: seq<PlayItem> := [];
    var seen: set<string> := {};
    results := [];
    var i := 0;
    var full := false;
    while i < |sorted| && !full
      invariant 0 <= i <= |sorted|
      invariant forall k :: 0 <= k < |taken| ==> IsValid(taken[k])
      invariant results == Recents(taken)
      invariant !full ==> taken + FirstPerId(sorted[i..], seen) == all && |taken| < Quota(count)
      invariant full ==> taken == Limit(all, count)
    {
      var item := sorted[i];
      if IsValid(item) && item.track.value.id !in seen {
        TakeOne(sorted, i, seen, taken, all, count);
        seen := seen + {item.track.value.id};
        taken := taken + [item];
        results := results + [ToRecent(item)];
        full := |results| >= count;
      } else {
        FirstPerIdSkip(sorted, i, seen);
      }
      i := i + 1;
    }
    if !full {
      TakenIsChosen(all, count, taken, []);
    }
  }
}
