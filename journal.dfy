/**
 * `generateJournalEntryForDay`: the fortune of a day, kept in
 * `localStorage` under `journal_entry_<dateISO>` and reused on the same
 * day for the same first song.
 *
 * The store is the class `JournalStore`, whose `entries` map a key to what
 * `JSON.parse` makes of the stored text.  The wall clock is given as two
 * local dates: `today`, read when the call starts, and `now`, read when
 * the entry is written.  The lyrics service and the chat service are the
 * parameters `lookup` and `chat`, as in `fetchLyrics` and
 * `generateJournalEntry`.
 */
module Journal {
  import opened Common
  import opened Calendar
  import opened Tracks
  import opened Extraction
  import opened FortunePrompt
  import Lyrics
  import Fortune

  /** `JOURNAL_CACHE_VERSION`: entries written under another version are dropped. */
  const CacheVersion := 4

  const Fallback := "Unable to generate fortune message. Please check your OpenAI API key and try again."

  function CacheKey(dateISO: string): string
  {
    "journal_entry_" + dateISO
  }

  /** A song of a cached entry. */
  datatype SongRef = SongRef(title: string, artist: string)

  /**
   * A stored entry as parsed: its message (`""` when missing or falsy),
   * its songs, the local date of `generatedAt` (`None` when missing or not
   * a date) and `cacheVersion` (`None` when missing); or text that does
   * not parse.
   */
  datatype Stored =
    | Entry(message: string, songs: seq<SongRef>, generatedAt: Option<LocalDate>, cacheVersion: Option<int>)
    | Unparsable

  /** What a call answers: the message shown, or the error it throws. */
  datatype DayResult = Message(text: string) | Failed(error: string)

  /** `dateISO === todayISO`: only today's entry is ever read from the cache. */
  predicate IsToday(dateISO: string, today: LocalDate)
  {
    dateISO == DateKey(today)
  }

  /** The entry of `dateISO` is today's and was written under another version. */
  predicate VersionStale(entries: map<string, Stored>, dateISO: string, today: LocalDate)
  {
    IsToday(dateISO, today) && CacheKey(dateISO) in entries
    && entries[CacheKey(dateISO)].Entry? && entries[CacheKey(dateISO)].cacheVersion != Some(CacheVersion)
  }

  /**
   * A stored entry that answers a call for `top3` today: written under the
   * current version, with a message, generated today, and for the same
   * first song.
   */
  predicate Answers(e: Stored, top3: seq<Track>, today: LocalDate)
  {
    && e.Entry? && e.cacheVersion == Some(CacheVersion) && e.message != ""
    && e.generatedAt == Some(today)
    && |top3| > 0 && |e.songs| > 0 && e.songs[0].title == top3[0].name
  }

  /**
   * The cached message the call returns without generating: found exactly
   * when the day is today and its stored entry answers the call.
   */
  function CachedMessage(entries: map<string, Stored>, dateISO: string, top3: seq<Track>, today: LocalDate): (r: Option<string>)
    ensures r.Some? <==>
      IsToday(dateISO, today) && CacheKey(dateISO) in entries && Answers(entries[CacheKey(dateISO)], top3, today)
    ensures r.Some? ==> r.value == entries[CacheKey(dateISO)].message && r.value != ""
    ensures VersionStale(entries, dateISO, today) ==> r.None?
  {
    var key := CacheKey(dateISO);
    if !IsToday(dateISO, today) || key !in entries then None
    else
      match entries[key]
      case Unparsable => None
      case Entry(message, songs, generatedAt, version) =>
        if version == Some(CacheVersion) && message != "" && |songs| > 0 && |top3| > 0
           && songs[0].title == top3[0].name && generatedAt == Some(today)
        then Some(message)
        else None
  }

  /** The songs of an entry: title and artists of each track. */
  function SongRefs(top3: seq<Track>): (r: seq<SongRef>)
    ensures |r| == |top3|
    ensures forall i :: 0 <= i < |r| ==> r[i] == SongRef(top3[i].name, top3[i].artists)
  {
    seq(|top3|, i requires 0 <= i < |top3| => SongRef(top3[i].name, top3[i].artists))
  }

  /** Each track with its lyrics; `""` stands for `null` when none were found. */
  function SongsWithLyrics(top3: seq<Track>, lookup: (string, string) -> Lyrics.LyricsReply): (r: seq<SongLyrics>)
    ensures |r| == |top3|
    ensures forall i :: 0 <= i < |r| ==> r[i].title == top3[i].name && r[i].artist == top3[i].artists
    ensures forall i :: 0 <= i < |r| ==>
      (r[i].lyrics == "" <==> Lyrics.FetchLyrics(top3[i].name, top3[i].artists, lookup).None?)
    ensures forall i :: 0 <= i < |r| && Lyrics.FetchLyrics(top3[i].name, top3[i].artists, lookup).Some? ==>
      r[i].lyrics == Lyrics.FetchLyrics(top3[i].name, top3[i].artists, lookup).value
  {
    seq(|top3|, i requires 0 <= i < |top3| =>
      SongLyrics(top3[i].name, top3[i].artists,
        match Lyrics.FetchLyrics(top3[i].name, top3[i].artists, lookup)
        case Some(lyrics) => lyrics
        case None => ""))
  }

  /** The entry written for a fresh fortune. */
  function FreshEntry(message: string, top3: seq<Track>, now: LocalDate): Stored
  {
    Entry(message, SongRefs(top3), Some(now), Some(CacheVersion))
  }

  /**
   * One call as a step of the store: `before` and `after` are the entries
   * around it, `r` its answer and `outcome` what `generateJournalEntry`
   * gives.  A cache hit answers the cached message and changes nothing.
   * Otherwise an entry of another version is removed; then a non-empty
   * string fortune is written under the day's key and answered, a missing
   * key or a fortune of another kind gives the fallback text, and an error
   * is passed on.  The last two write nothing.
   */
  predicate DayStep(before: map<string, Stored>, after: map<string, Stored>, r: DayResult,
                    dateISO: string, top3: seq<Track>, today: LocalDate, now: LocalDate, outcome: Fortune.Outcome)
  {
    match CachedMessage(before, dateISO, top3, today)
    case Some(message) => r == Message(message) && after == before
    case None =>
      var key := CacheKey(dateISO);
      var kept := if VersionStale(before, dateISO, today) then before - {key} else before;
      match outcome
      case Error(message) => r == Failed(message) && after == kept
      case NoKey => r == Message(Fallback) && after == kept
      case Fortune(value) =>
        if value.JStr? && value.s != "" then r == Message(value.s) && after == kept[key := FreshEntry(value.s, top3, now)]
        else r == Message(Fallback) && after == kept
  }

  class JournalStore {
    var entries: map<string, Stored>

    constructor(initial: map<string, Stored>)
      ensures entries == initial
    {
      entries := initial;
    }

    /**
     * The cache lookup: today's entry, if it parses and was written under
     * the current version, gives its message when it is non-empty, names
     * the same first song and was generated today; under another version it
     * is removed.
     */
    method ReadCache(dateISO: string, top3: seq<Track>, today: LocalDate) returns (hit: Option<string>)
      modifies this
      ensures hit == CachedMessage(old(entries), dateISO, top3, today)
      ensures entries == if VersionStale(old(entries), dateISO, today) then old(entries) - {CacheKey(dateISO)} else old(entries)
    {
      hit := None;
      var key := CacheKey(dateISO);
      if IsToday(dateISO, today) && key in entries {
        match entries[key]
        case Unparsable =>
        case Entry(message, songs, generatedAt, version) =>
          if version != Some(CacheVersion) {
            entries := entries - {key};
          } else if message != "" && |songs| > 0 && |top3| > 0 && songs[0].title == top3[0].name
                    && generatedAt == Some(today) {
            hit := Some(message);
          }
      }
    }

    /** `generateJournalEntryForDay(dateISO, top3)`: the answer and the new store are one `DayStep`. */
    method EntryForDay(dateISO: string, top3: seq<Track>, today: LocalDate, now: LocalDate,
                       lookup: (string, string) -> Lyrics.LyricsReply,
                       windowKey: string, configKey: string,
                       chat: (string, PromptParts) -> Fortune.ChatReply, parse: string -> Option<Json>)
      returns (r: DayResult)
      modifies this
      ensures DayStep(old(entries), entries, r, dateISO, top3, today, now,
                      Fortune.GenerateJournalEntry(windowKey, configKey, SongsWithLyrics(top3, lookup), chat, parse))
    {
      var hit := ReadCache(dateISO, top3, today);
      if hit.Some? {
        return Message(hit.value);
      }
      var songs := SongsWithLyrics(top3, lookup);
      var outcome := Fortune.GenerateJournalEntry(windowKey, configKey, songs, chat, parse);
      match outcome
      case Error(message) =>
        r := Failed(message);
      case NoKey =>
        r := Message(Fallback);
      case Fortune(value) =>
        if value.JStr? && value.s != "" {
          entries := entries[CacheKey(dateISO) := FreshEntry(value.s, top3, now)];
          r := Message(value.s);
        } else {
          r := Message(Fallback);
        }
    }
  }

  /**
   * Read-back: on the day it was written, an entry is found again by any
   * list of tracks with the same first title; from the next day on it is
   * not.
   */
  lemma ReadBack(entries: map<string, Stored>, message: string, top3: seq<Track>, now: LocalDate,
                 later: seq<Track>, today: LocalDate)
    requires message != "" && |top3| > 0 && |later| > 0 && later[0].name == top3[0].name
    ensures var written := entries[CacheKey(DateKey(now)) := FreshEntry(message, top3, now)];
      && CachedMessage(written, DateKey(now), later, now) == Some(message)
      && (today != now ==> CachedMessage(written, DateKey(now), later, today).None?)
  {
    var written := entries[CacheKey(DateKey(now)) := FreshEntry(message, top3, now)];
    assert written[CacheKey(DateKey(now))].songs[0] == SongRef(top3[0].name, top3[0].artists);
  }

  /** An entry is never found for another first song. */
  lemma OtherFirstSongMisses(entries: map<string, Stored>, message: string, top3: seq<Track>, now: LocalDate,
                             later: seq<Track>, today: LocalDate, dateISO: string)
    requires |top3| > 0 && (|later| == 0 || later[0].name != top3[0].name)
    ensures CachedMessage(entries[CacheKey(dateISO) := FreshEntry(message, top3, now)], dateISO, later, today).None?
  {
    var written := entries[CacheKey(dateISO) := FreshEntry(message, top3, now)];
    assert written[CacheKey(dateISO)].songs[0] == SongRef(top3[0].name, top3[0].artists);
  }

  /**
   * A call on the day it runs, answered with anything but an error or the
   * fallback, leaves the store so that the same tracks find that answer in
   * the cache.
   */
  lemma StepThenHit(before: map<string, Stored>, after: map<string, Stored>, r: DayResult,
                    dateISO: string, top3: seq<Track>, today: LocalDate, outcome: Fortune.Outcome)
    requires DayStep(before, after, r, dateISO, top3, today, today, outcome)
    requires dateISO == DateKey(today) && |top3| > 0
    requires r.Message? && r.text != Fallback
    ensures CachedMessage(after, dateISO, top3, today) == Some(r.text)
  {
    if CachedMessage(before, dateISO, top3, today).None? && outcome.Fortune? {
      var kept := if VersionStale(before, dateISO, today) then before - {CacheKey(dateISO)} else before;
      ReadBack(kept, r.text, top3, today, top3, today);
    }
  }

  /** A call touches no key but the day's own. */
  lemma StepKeepsOtherDays(before: map<string, Stored>, after: map<string, Stored>, r: DayResult,
                           dateISO: string, top3: seq<Track>, today: LocalDate, now: LocalDate, outcome: Fortune.Outcome,
                           k: string)
    requires DayStep(before, after, r, dateISO, top3, today, now, outcome)
    requires k != CacheKey(dateISO)
    ensures k in after <==> k in before
    ensures k in before ==> after[k] == before[k]
  {
  }

  /** Errors and fallbacks leave no entry of the day behind that was not there before. */
  lemma FailureWritesNothing(before: map<string, Stored>, after: map<string, Stored>, r: DayResult,
                             dateISO: string, top3: seq<Track>, today: LocalDate, now: LocalDate, outcome: Fortune.Outcome)
    requires DayStep(before, after, r, dateISO, top3, today, now, outcome)
    requires r.Failed? || r == Message(Fallback)
    requires !(outcome.Fortune? && outcome.value == JStr(Fallback))
    ensures after == before || after == before - {CacheKey(dateISO)}
  {
  }

  /**
   * Asking twice on the same day for the same tracks: unless the first
   * call failed or fell back, the second answers the same message from the
   * cache.
   */
  method AskTwice(store: JournalStore, dateISO: string, top3: seq<Track>, today: LocalDate,
                  lookup: (string, string) -> Lyrics.LyricsReply,
                  windowKey: string, configKey: string,
                  chat: (string, PromptParts) -> Fortune.ChatReply, parse: string -> Option<Json>)
    returns (first: DayResult, second: DayResult)
    requires dateISO == DateKey(today) && |top3| > 0
    modifies store
    ensures first.Message? && first.text != Fallback ==> second == first
  {
    ghost var before := store.entries;
    ghost var outcome := Fortune.GenerateJournalEntry(windowKey, configKey, SongsWithLyrics(top3, lookup), chat, parse);
    first := store.EntryForDay(dateISO, top3, today, today, lookup, windowKey, configKey, chat, parse);
    if first.Message? && first.text != Fallback {
      StepThenHit(before, store.entries, first, dateISO, top3, today, outcome);
    }
    second := store.EntryForDay(dateISO, top3, today, today, lookup, windowKey, configKey, chat, parse);
  }
}
