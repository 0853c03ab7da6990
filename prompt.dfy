/**
 * The prompt sent to the chat model: the day's songs, their artists
 * without repeats, and either their lyrics or a note that none were found.
 */
module FortunePrompt {
  import opened Common

  /** A song with its lyrics, `""` when none were found. */
  datatype SongLyrics = SongLyrics(title: string, artist: string, lyrics: string)

  ghost predicate NoDuplicates(s: seq<string>)
  {
    forall i, j :: 0 <= i < j < |s| ==> s[i] != s[j]
  }

  /** The index of the first occurrence of `x` in `s`. */
  function IndexOf(s: seq<string>, x: string): (r: nat)
    requires x in s
    ensures r < |s| && s[r] == x && x !in s[..r]
  {
    if s[0] == x then 0
    else
      var r := IndexOf(s[1..], x) + 1;
      assert s[..r] == [s[0]] + s[1..][..r - 1];
      r
  }

  /** `s.filter((x, i, self) => self.indexOf(x) === i)`: each element at its first occurrence. */
  function DedupFirst(s: seq<string>): (r: seq<string>)
    ensures forall x :: x in r <==> x in s
    ensures NoDuplicates(r)
  {
    if s == [] then []
    else
      var init := s[..|s| - 1];
      var r := DedupFirst(init);
      assert s == init + [s[|s| - 1]];
      if s[|s| - 1] in init then r else r + [s[|s| - 1]]
  }

  /** Where `x` first occurs in `s` is where it first occurs in any extension of `s`. */
  lemma IndexOfPrefix(s: seq<string>, t: seq<string>, x: string)
    requires x in s
    ensures IndexOf(s + t, x) == IndexOf(s, x)
  {
    var i := IndexOf(s, x);
    assert (s + t)[i] == x && (s + t)[..i] == s[..i];
  }

  /** The artists keep the order in which they first appear. */
  lemma {:induction false} DedupFirstOrder(s: seq<string>)
    ensures forall i, j :: 0 <= i < j < |DedupFirst(s)| ==> IndexOf(s, DedupFirst(s)[i]) < IndexOf(s, DedupFirst(s)[j])
  {
    if s != [] {
      var init := s[..|s| - 1];
      var last := s[|s| - 1];
      assert s == init + [last];
      DedupFirstOrder(init);
      var r := DedupFirst(init);
      forall x | x in init ensures IndexOf(s, x) == IndexOf(init, x) && IndexOf(s, x) < |init| {
        IndexOfPrefix(init, [last], x);
      }
      if last !in init {
        assert IndexOf(s, last) == |s| - 1;
      }
    }
  }

  function SongLine(song: SongLyrics): string
  {
    "\"" + song.title + "\" by " + song.artist
  }

  function LyricsEntry(song: SongLyrics): (r: string)
    ensures r != []
  {
    SongLine(song) + ":\n" + song.lyrics
  }

  /** The songs whose lyrics were found, in order. */
  function WithLyrics(songs: seq<SongLyrics>): (r: seq<SongLyrics>)
    ensures forall i :: 0 <= i < |r| ==> r[i] in songs && r[i].lyrics != ""
    ensures r == [] <==> forall i :: 0 <= i < |songs| ==> songs[i].lyrics == ""
  {
    if songs == [] then []
    else
      var rest := WithLyrics(songs[1..]);
      assert forall i :: 1 <= i < |songs| ==> songs[i] == songs[1..][i - 1];
      if songs[0].lyrics != "" then [songs[0]] + rest else rest
  }

  function LyricsSection(songs: seq<SongLyrics>): string
  {
    var w := WithLyrics(songs);
    Join(seq(|w|, i requires 0 <= i < |w| => LyricsEntry(w[i])), "\n\n")
  }

  function ArtistList(songs: seq<SongLyrics>): string
  {
    Join(DedupFirst(seq(|songs|, i requires 0 <= i < |songs| => songs[i].artist)), ", ")
  }

  function SongList(songs: seq<SongLyrics>): string
  {
    Join(seq(|songs|, i requires 0 <= i < |songs| => SongLine(songs[i])), ", ")
  }

  const PromptHead := "Generate a fortune cookie message based on these 3 most recent songs I just played.\n\nRECENT SONGS: "

  const LyricsHeading := "\nSONGS & LYRICS:\n"

  const NoteLine := "\nNOTE: Lyrics were not available for these songs, so base the fortune on the song titles, artists, and what you know about them.\n"

  /** The fixed instructions that close the prompt, line by line. */
  const TailLines: seq<string> := [
    "\n\nWrite a single fortune cookie message that:\n",
    "- Is mysterious, poetic, and thought-provoking like a real fortune cookie\n",
    "- Draws subtle connections to the themes, lyrics, or vibes of these songs\n",
    "- Is concise (2-3 sentences maximum, ideally just 1-2 sentences)\n",
    "- Feels inspiring or reflective, not just descriptive\n",
    "- Uses second person (\"You\", \"Your\") or timeless wisdom\n",
    "- Has the mystical, slightly cryptic quality of fortune cookies\n",
    "- References the music subtly\U{2014}maybe a theme, emotion, or vibe from the songs\U{2014}but doesn't explicitly name the songs or artists\n",
    "\nExamples of good fortune cookie style:\n",
    "- \"The rhythm you seek is already within you. Listen.\"\n",
    "- \"Your next chapter begins when you stop replaying the last one.\"\n",
    "- \"The melody of change is quieter than you think, but louder than you expect.\"\n",
    "- \"What you're searching for in others, you'll find in your own reflection.\"\n",
    "\nFormat your response as a JSON object with a single \"message\" field:\n",
    "{\n  \"message\": \"Your fortune cookie message here - mysterious, poetic, and inspired by the songs\"\n}\n",
    "\nReturn ONLY valid JSON, no markdown, no code blocks, no explanations."
  ]

  const PromptTail := Join(TailLines, "")

  /** What varies from one prompt to the next: the song list, the artist list and the lyrics section. */
  datatype PromptParts = PromptParts(songList: string, artistList: string, lyricsSection: string)

  function PromptFor(songs: seq<SongLyrics>): PromptParts
  {
    PromptParts(SongList(songs), ArtistList(songs), LyricsSection(songs))
  }

  /** The user prompt: the song list, the artists, then the lyrics or a note that there are none. */
  function PromptText(p: PromptParts): string
  {
    Layout(p, PromptTail)
  }

  /** The prompt laid out around `tail`, the fixed instructions that close it. */
  function Layout(p: PromptParts, tail: string): string
  {
    var middle := if p.lyricsSection != "" then LyricsHeading + p.lyricsSection + "\n" else NoteLine;
    var before := PromptHead + p.songList + "\n\nARTISTS: " + p.artistList + "\n";
    before + middle + tail
  }

  /** There is a lyrics section exactly when some song has lyrics. */
  lemma LyricsSectionEmptyIff(songs: seq<SongLyrics>)
    ensures LyricsSection(songs) == "" <==> forall i :: 0 <= i < |songs| ==> songs[i].lyrics == ""
  {
    var w := WithLyrics(songs);
    var entries := seq(|w|, i requires 0 <= i < |w| => LyricsEntry(w[i]));
    if w != [] {
      assert entries[0] != [];
    }
  }

  /** `b` occurs in `a + b + c` right after `a`. */
  lemma OccursInMiddle(a: string, b: string, c: string)
    ensures OccursAt(a + b + c, b, |a|) && Contains(a + b + c, b)
  {
    assert (a + b + c)[|a|..|a| + |b|] == b;
    assert OccursAt(a + b + c, b, |a|);
    ContainsIffOccurs(a + b + c, b);
  }

  /**
   * The prompt starts with the heading and the song list; it carries the
   * lyrics section when some song has lyrics, and the note otherwise.
   */
  lemma PromptSections(songs: seq<SongLyrics>)
    ensures StartsWith(PromptText(PromptFor(songs)), PromptHead + SongList(songs))
    ensures (exists i :: 0 <= i < |songs| && songs[i].lyrics != "") ==>
      Contains(PromptText(PromptFor(songs)), LyricsHeading + LyricsSection(songs))
    ensures (forall i :: 0 <= i < |songs| ==> songs[i].lyrics == "") ==> Contains(PromptText(PromptFor(songs)), NoteLine)
  {
    LyricsSectionEmptyIff(songs);
    LayoutSections(PromptFor(songs), PromptTail);
  }

  /** The same three facts on any tail. */
  lemma LayoutSections(p: PromptParts, tail: string)
    ensures StartsWith(Layout(p, tail), PromptHead + p.songList)
    ensures p.lyricsSection != "" ==> Contains(Layout(p, tail), LyricsHeading + p.lyricsSection)
    ensures p.lyricsSection == "" ==> Contains(Layout(p, tail), NoteLine)
  {
    var intro := PromptHead + p.songList;
    var rest := "\n\nARTISTS: " + p.artistList + "\n";
    PromptShape(intro, rest, p.lyricsSection, tail);
    assert intro + rest == PromptHead + p.songList + "\n\nARTISTS: " + p.artistList + "\n";
  }

  /** The two ways the prompt can be laid out, on any pieces. */
  lemma PromptShape(intro: string, rest: string, section: string, tail: string)
    ensures section != "" ==> var p := intro + rest + (LyricsHeading + section + "\n") + tail;
      StartsWith(p, intro) && Contains(p, LyricsHeading + section)
    ensures var p := intro + rest + NoteLine + tail;
      StartsWith(p, intro) && Contains(p, NoteLine)
  {
    var before := intro + rest;
    var p1 := before + (LyricsHeading + section + "\n") + tail;
    assert p1 == before + (LyricsHeading + section) + ("\n" + tail);
    OccursInMiddle(before, LyricsHeading + section, "\n" + tail);
    assert p1[..|intro|] == intro;
    var p2 := before + NoteLine + tail;
    OccursInMiddle(before, NoteLine, tail);
    assert p2[..|intro|] == intro;
  }
}
