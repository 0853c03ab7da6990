/**
 * The lyrics lookup: how the song title and artist line are cleaned into
 * a lyrics.ovh query, and how every failure of the lookup becomes `null`.
 *
 * The two title regular expressions are written out as matchers: a
 * parenthesised group with the whitespace around it (`\s*\(.*?\)\s*`,
 * removed everywhere), and a whitespace-dash suffix (`\s*-.*$`, removed
 * once).  As in ECMAScript, `.` matches anything but a line terminator.
 */
module Lyrics {
  import opened Common

  /** No line terminator anywhere in `s`, so that `.` matches each of its characters. */
  predicate NoBreak(s: string)
  {
    forall i :: 0 <= i < |s| ==> !IsLineTerminator(s[i])
  }

  // ---------------------------------------------------------------------
  // The artist: `artistName.split(",")[0].trim()`
  // ---------------------------------------------------------------------

  /** The text before the first comma, or all of `s` when it has none. */
  function BeforeComma(s: string): (r: string)
    ensures |r| <= |s| && r == s[..|r|]
    ensures forall i :: 0 <= i < |r| ==> r[i] != ','
    ensures |r| < |s| ==> s[|r|] == ','
  {
    if s == [] || s[0] == ',' then [] else [s[0]] + BeforeComma(s[1..])
  }

  function QueryArtist(artistName: string): string
  {
    Trim(BeforeComma(artistName))
  }

  /** The queried artist is the first comma-separated name, trimmed; a line without commas is only trimmed. */
  lemma QueryArtistIsFirstName(artistName: string)
    ensures IsTrimmed(QueryArtist(artistName))
    ensures forall i :: 0 <= i < |QueryArtist(artistName)| ==> QueryArtist(artistName)[i] != ','
    ensures (forall i :: 0 <= i < |artistName| ==> artistName[i] != ',') ==> QueryArtist(artistName) == Trim(artistName)
  {
    TrimAvoids(BeforeComma(artistName), ',');
    if forall i :: 0 <= i < |artistName| ==> artistName[i] != ',' {
      var b := BeforeComma(artistName);
      assert |b| == |artistName|;
      assert b == artistName;
    }
  }

  // ---------------------------------------------------------------------
  // The title
  // ---------------------------------------------------------------------

  /** The first `)` at or after `j` that no line terminator precedes (`.*?\)`, lazy). */
  function CloseParen(s: string, j: nat): (r: Option<nat>)
    requires j <= |s|
    ensures r.Some? ==> j <= r.value < |s| && s[r.value] == ')' && NoBreak(s[j..r.value])
    ensures r.Some? ==> forall m :: j <= m < r.value ==> s[m] != ')'
    ensures r.None? ==> forall m :: j <= m < |s| && s[m] == ')' ==> !NoBreak(s[j..m])
    decreases |s| - j
  {
    if j == |s| || IsLineTerminator(s[j]) then None
    else if s[j] == ')' then Some(j)
    else
      var r := CloseParen(s, j + 1);
      assert forall m :: j + 1 <= m <= |s| ==> s[j..m] == [s[j]] + s[j + 1..m];
      r
  }

  /** The length of the match of `\s*\(.*?\)\s*` at the start of `s`, if there is one. */
  function GroupAt(s: string): (r: Option<nat>)
    ensures r.Some? ==> 0 < r.value <= |s|
  {
    var w := SpaceEnd(s, 0);
    if w < |s| && s[w] == '(' then
      match CloseParen(s, w + 1)
      case None => None
      case Some(c) => Some(SpaceEnd(s, c + 1))
    else None
  }

  /** `s.replace(/\s*\(.*?\)\s*\/g, "")`: every leftmost match, scanning left to right, removed. */
  function RemoveGroups(s: string): (r: string)
    ensures |r| <= |s|
    ensures forall i :: 0 <= i < |r| ==> r[i] in s
    decreases |s|
  {
    if s == [] then []
    else
      match GroupAt(s)
      case Some(k) =>
        var r := RemoveGroups(s[k..]);
        assert forall c :: c in s[k..] ==> c in s;
        r
      case None =>
        var r := RemoveGroups(s[1..]);
        assert forall c :: c in s[1..] ==> c in s;
        [s[0]] + r
  }

  /** `\s*-.*$` matches at the start of `s`. */
  predicate DashAt(s: string)
  {
    var w := SpaceEnd(s, 0);
    w < |s| && s[w] == '-' && NoBreak(s[w + 1..])
  }

  /** `s.replace(/\s*-.*$/, "")`: `s` cut at the leftmost match, if any. */
  function CutDash(s: string): (r: string)
    ensures |r| <= |s| && r == s[..|r|]
  {
    if s == [] || DashAt(s) then [] else [s[0]] + CutDash(s[1..])
  }

  function QueryTitle(songTitle: string): string
  {
    Trim(CutDash(RemoveGroups(songTitle)))
  }

  /** No `(` is followed, anywhere later, by a `)`. */
  predicate NoGroup(s: string)
  {
    forall i, j :: 0 <= i < j < |s| && s[i] == '(' ==> s[j] != ')'
  }

  lemma {:induction false} RemoveGroupsLeavesNoGroup(s: string)
    requires NoBreak(s)
    ensures NoGroup(RemoveGroups(s))
    decreases |s|
  {
    if s != [] {
      match GroupAt(s)
      case Some(k) =>
        NoBreakSuffix(s, k);
        RemoveGroupsLeavesNoGroup(s[k..]);
      case None =>
        NoBreakSuffix(s, 1);
        RemoveGroupsLeavesNoGroup(s[1..]);
        if s[0] == '(' {
          NoCloseAfterUnmatchedOpen(s);
        }
        ConsKeepsNoGroup(s[0], RemoveGroups(s[1..]), s[1..]);
    }
  }

  lemma NoBreakSuffix(s: string, k: nat)
    requires NoBreak(s) && k <= |s|
    ensures NoBreak(s[k..])
  {
    forall i | 0 <= i < |s[k..]| ensures !IsLineTerminator(s[k..][i]) {
      assert s[k..][i] == s[k + i];
    }
  }

  /**
   * Putting `c` in front of a string without groups leaves none, when `c`
   * is not `(` or the string draws from characters without `)`.
   */
  lemma ConsKeepsNoGroup(c: char, r: string, from: string)
    requires NoGroup(r) && forall i :: 0 <= i < |r| ==> r[i] in from
    requires c == '(' ==> forall x :: x in from ==> x != ')'
    ensures NoGroup([c] + r)
  {
    var cr := [c] + r;
    if c == '(' {
      forall j | 0 < j < |cr| ensures cr[j] != ')' {
        assert cr[j] == r[j - 1];
        assert r[j - 1] in from;
      }
    }
    forall i, j | 0 < i < j < |cr| && cr[i] == '(' ensures cr[j] != ')' {
      assert cr[i] == r[i - 1] && cr[j] == r[j - 1];
    }
  }

  /** An opening parenthesis at the start with no group match has no `)` after it, when there are no line breaks. */
  lemma NoCloseAfterUnmatchedOpen(s: string)
    requires s != [] && s[0] == '(' && NoBreak(s) && GroupAt(s).None?
    ensures forall c :: c in s[1..] ==> c != ')'
  {
    assert SpaceEnd(s, 0) == 0;
  }

  lemma {:induction false} CutDashLeavesNoDash(s: string)
    requires NoBreak(s)
    ensures forall i :: 0 <= i < |CutDash(s)| ==> CutDash(s)[i] != '-'
    decreases |s|
  {
    if s != [] && !DashAt(s) {
      var t := s[1..];
      assert NoBreak(t) by {
        forall i | 0 <= i < |t| ensures !IsLineTerminator(t[i]) {
          assert t[i] == s[i + 1];
        }
      }
      CutDashLeavesNoDash(t);
      assert forall i :: 0 < i < |CutDash(s)| ==> CutDash(s)[i] == CutDash(t)[i - 1];
    }
  }

  /**
   * For a title without line breaks, the queried title is trimmed, holds
   * no dash and no parenthesised group.
   */
  lemma QueryTitleIsClean(songTitle: string)
    requires NoBreak(songTitle)
    ensures IsTrimmed(QueryTitle(songTitle))
    ensures forall i :: 0 <= i < |QueryTitle(songTitle)| ==> QueryTitle(songTitle)[i] != '-'
    ensures NoGroup(QueryTitle(songTitle))
  {
    var g := RemoveGroups(songTitle);
    RemoveGroupsLeavesNoGroup(songTitle);
    RemoveGroupsKeepsNoBreak(songTitle);
    var c := CutDash(g);
    CutDashLeavesNoDash(g);
    SliceKeepsNoGroup(g, 0, |c|);
    TrimAvoids(c, '-');
    var x, y := TrimSlice(c);
    SliceKeepsNoGroup(c, x, y);
  }

  lemma RemoveGroupsKeepsNoBreak(s: string)
    requires NoBreak(s)
    ensures NoBreak(RemoveGroups(s))
  {
    var g := RemoveGroups(s);
    forall i | 0 <= i < |g| ensures !IsLineTerminator(g[i]) {
      var k :| 0 <= k < |s| && s[k] == g[i];
    }
  }

  lemma SliceKeepsNoGroup(s: string, a: nat, b: nat)
    requires NoGroup(s) && a <= b <= |s|
    ensures NoGroup(s[a..b])
  {
    var r := s[a..b];
    forall i, j | 0 <= i < j < |r| && r[i] == '(' ensures r[j] != ')' {
      assert r[i] == s[a + i] && r[j] == s[a + j];
    }
  }

  /** A parenthesised group goes together with the whitespace on both sides of it. */
  lemma GroupTakesItsSpaces()
    ensures QueryTitle("A (x) B") == "AB"
  {
    var s := "A (x) B";
    assert GroupAt(s) == None;
    var t := s[1..];
    assert t == " (x) B";
    assert SpaceEnd(t, 0) == 1;
    assert CloseParen(t, 2) == Some(3);
    assert SpaceEnd(t, 4) == 5;
    assert GroupAt(t) == Some(5);
    assert t[5..] == "B";
    assert GroupAt("B") == None;
    assert RemoveGroups("B") == "B";
    assert RemoveGroups(s) == "AB";
    assert !DashAt("AB") && !DashAt("B");
    assert CutDash("AB") == "AB";
    TrimmedIsFixedPoint("AB");
  }

  // ---------------------------------------------------------------------
  // The lookup
  // ---------------------------------------------------------------------

  /**
   * How a lookup ends: a reply with its status and its `lyrics` field
   * (`None` when missing or not a string), or a thrown error (a timeout,
   * a network error, a body that is not JSON, anything else).
   */
  datatype LyricsReply = Reply(status: int, lyrics: Option<string>) | Thrown

  /** `fetchLyrics(songTitle, artistName)`: `lookup` answers the query for an artist and a title. */
  function FetchLyrics(songTitle: string, artistName: string, lookup: (string, string) -> LyricsReply): (r: Option<string>)
    ensures var reply := lookup(QueryArtist(artistName), QueryTitle(songTitle));
      r.Some? <==> reply.Reply? && 200 <= reply.status <= 299 && reply.lyrics.Some? && !AllSpace(reply.lyrics.value)
    ensures r.Some? ==> r.value != [] && IsTrimmed(r.value)
    ensures r.Some? ==> r.value == Trim(lookup(QueryArtist(artistName), QueryTitle(songTitle)).lyrics.value)
  {
    var reply := lookup(QueryArtist(artistName), QueryTitle(songTitle));
    if reply.Thrown? || !(200 <= reply.status <= 299) then None
    else if reply.lyrics.None? then None
    else
      TrimEmptyIff(reply.lyrics.value);
      if Trim(reply.lyrics.value) != [] then Some(Trim(reply.lyrics.value)) else None
  }
}
