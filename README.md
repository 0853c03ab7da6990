# bumps-2025 music diary: a Dafny model of its core

bumps-2025 is a single-page music diary. It reads the listener's recently
played tracks from Spotify. It shows the three most recent tracks as song
cards, and keeps a per-day top three. It fetches the lyrics of those tracks,
asks a chat model for a fortune-cookie message inspired by them, and caches
that message for the day. A breadcrumb calendar browses past months. A
gradient editor lets the user recolour the page.

This project models the decision logic of that pipeline in `app.js`, one
Dafny module per component:

| module | file | what it models |
|---|---|---|
| `Common` | `common.dfy` | `Option`/`Result`, ECMAScript `trim`, `String(n)`, `padStart(2, "0")`, string `<`, `join` |
| `Sorting` | `sorting.dfy` | the stable descending sort that `Array.prototype.sort` performs with a `b - a` comparator |
| `Tracks` | `tracks.dfy` | `getMostRecentUniqueTracks`: sort newest first, skip invalid items and repeated ids, stop at `count` |
| `Grouping` | `grouping.dfy` | `groupTop3ByDay`: per-day play counts in first-seen order, stable sort by count, top three per day |
| `Spotify` | `spotify.dfy` | the `fetchRecentlyPlayed` pagination loop, `refreshAccessToken`, and the error paths of `getAccessToken` |
| `Lyrics` | `lyrics.dfy` | `fetchLyrics`: the query artist and title cleaning, and every failure becoming `null` |
| `Extraction` | `extraction.dfy` | the four-step cascade that takes the fortune out of the chat reply |
| `FortunePrompt` | `prompt.dfy` | the prompt: song list, de-duplicated artists, lyrics section or the no-lyrics note |
| `Fortune` | `fortune.dfy` | `getOpenAIApiKey` and `generateJournalEntry`: key lookup, error routing and re-wrapping |
| `Journal` | `journal.dfy` | `generateJournalEntryForDay`: the versioned `localStorage` day cache, as a class over a map |
| `Refresh` | `refresh.dfy` | the 30-second refresh tick and the refresh button, as a class over the session state |
| `Calendar` | `calendar.dfy` | month and day keys, the placeholder day, single-day selection, the year and day pickers, `formatJournalDate` |
| `Gradient` | `gradient.dfy` | the `#RRGGBB` check, `hexToRgba`'s channel parse, and the preset carousel |

The outside world is passed in:
- HTTP replies are input sequences, or functions from a request to a reply.
- `JSON.parse` is a parameter `parse: string -> Option<Json>`.
- `Date` parsing and local-time conversion arrive with each item as a `Stamp`.
- The wall clock is given as the local dates `today` and `now`.
- `localStorage` is a `map` field of the class that owns it.

The imperative parts of the source keep their form:
- loops become `while` loops proved against a specification function;
- state updated in place becomes a class with `modifies` clauses.

Expressions, regular expressions and `map`/`filter`/`join` chains are
functions with lemmas.

## Model

| member | source | states |
|---|---|---|
| Common.TrimStart | app.js:1823 | the result is a suffix; everything dropped is ECMAScript white space; it does not start with white space |
| Common.TrimEnd | app.js:1823 | the result is a prefix; everything dropped is white space; it does not end with white space |
| Common.Trim | app.js:1823 | `trim` yields text with no white space at either end, never longer than its input |
| Common.TrimEmptyIff | app.js:1858 | `s.trim().length > 0` fails exactly when `s` is all white space |
| Common.TrimSlice | app.js:1823 | `trim` returns a contiguous slice of its input |
| Common.TrimAvoids | app.js:2095 | trimming introduces no character the text did not contain |
| Common.TrimmedIsFixedPoint | app.js:1823 | trimming already-trimmed text changes nothing |
| Common.ContainsIffOccurs | app.js:2111 | `includes` holds exactly when the substring occurs at some index |
| Common.Join | app.js:971 | joining a list with a non-empty element gives non-empty text, which is why the `"Unknown Artist"` fallback applies only when every name is blank |
| Common.NatToString | app.js:325 | `String(n)` is a non-empty run of digits with no leading zero |
| Common.DigitsValueOfNatToString | app.js:2236 | reading the decimal digits of `String(n)` gives back `n` |
| Common.TwoDigits | app.js:325 | a number below 100 pads to exactly two digits that read back as the number |
| Common.PaddedIsTwoDigits | app.js:325 | `String(n).padStart(2, "0")` of a number below 100 is its two-digit form |
| Common.PadStart2 | app.js:325 | `padStart(2, "0")` keeps the text as the suffix and fills only with zeros, to length at least 2 |
| Common.StrLessIrreflexive | app.js:412 | the string `>` used to pick the latest day is irreflexive |
| Common.StrLessTransitive | app.js:412 | the string `>` is transitive |
| Common.StrLessTotal | app.js:412 | of two different strings one is greater |
| Sorting.SortDescPermutes | app.js:941-943 | sorting the play items newest first returns the same items (a permutation) |
| Sorting.SortDescOrders | app.js:941-943 | the sorted items have non-increasing keys |
| Sorting.SortDescStable | app.js:941-943 | items with equal keys keep their input order (stable sort) |
| Sorting.SortDescDistinct | app.js:1057-1059 | sorting keeps a list free of duplicates |
| Sorting.InsertKeepsOrder | app.js:941-943 | inserting into a newest-first list keeps it ordered |
| Sorting.InsertPermutes | app.js:941-943 | inserting adds exactly that element |
| Tracks.NonBlank | app.js:968-970 | every name kept is non-blank and from the input, and a list with no blank name is kept whole |
| Tracks.NonBlankKeeps | app.js:968-970 | every non-blank name of the input is kept |
| Tracks.NonBlankConcat | app.js:968-970 | the filter works name by name, so the kept names stay in input order |
| Tracks.NonBlankEmpty | app.js:968-971 | the filter leaves no name exactly when every artist name is blank |
| Tracks.ArtistLineProperties | app.js:967-971 | the artist line is never empty: `"Unknown Artist"` when every name is blank, else the non-blank names joined by `", "` |
| Tracks.FirstPerId | app.js:956-958 | the `seen`-set pass keeps only items with a track, an id and a name |
| Tracks.FirstPerIdWithin | app.js:956-965 | every item kept comes from the input |
| Tracks.FirstPerIdDistinct | app.js:959-965 | no id is kept twice, and no id already in `seen` is kept |
| Tracks.FirstPerIdOrdered | app.js:954-965 | skipping items keeps a newest-first list newest first |
| Tracks.FirstPerIdCovers | app.js:956-965 | every valid item's id is already seen or appears among the kept items |
| Tracks.FirstPerIdNewest | app.js:941-965 | on a newest-first list, the item kept for an id is at least as recent as any play of that id |
| Tracks.ChosenIsPrefix | app.js:955-995 | the tracks shown are the first `max(count, 1)` unique tracks, or all of them when there are fewer |
| Tracks.ChosenIsNewestPlay | app.js:941-995 | the shown play of a track is its most recent play in the feed |
| Tracks.ChosenDistinctNewestFirst | app.js:941-995 | the tracks shown have distinct ids and are listed newest first |
| Tracks.ChosenFromItems | app.js:941-995 | every track shown is an item of the feed |
| Tracks.ChosenComplete | app.js:955-995 | when fewer than the quota are shown, every valid track of the feed is among them |
| Tracks.Recents | app.js:973-986 | one display record per chosen item, in order |
| Tracks.RecentsOfChosen | app.js:924-1006 | the records are at most `max(count, 1)`; each has an id, a name and a non-empty artist line; ids are distinct; nothing valid is missed below the quota |
| Tracks.TakeUnique | app.js:954-995 | the loop with its `seen` set and its break after the push yields the records of the first `max(count, 1)` unique valid items |
| Tracks.MostRecentUniqueTracks | app.js:924-1006 | no item array gives `[]`; otherwise the records of the chosen items, sorted newest first |
| Grouping.DayOf | app.js:1014-1026 | an item is counted for a day only when it has `played_at`, a parsable date, a track, an id and a name |
| Grouping.BumpIds | app.js:1031 | counting a play appends a new id at the end of the count map and leaves known ids in place |
| Grouping.BumpCount | app.js:1031 | counting a play raises that track's count by one and no other |
| Grouping.DayTallyShape | app.js:1013-1053 | a day's counts hold each track once, in first-seen order, with its metadata |
| Grouping.DayTallyCounts | app.js:1013-1053 | each track's count is the number of its valid plays that day |
| Grouping.DaysAreTheCountedDays | app.js:1013-1030 | a day has an entry exactly when it has a counted play |
| Grouping.DaysDistinct | app.js:1028-1029 | each day is entered once |
| Grouping.TopOfWellFormed | app.js:1062-1074 | with valid metadata, the top is the first three sorted tracks |
| Grouping.TopOf | app.js:1062-1074 | the inner loop takes at most the room left |
| Grouping.SortedDayTally | app.js:1056-1059 | the sorted counts are distinct, by non-increasing count, each equal to the day's plays; the top is their first three |
| Grouping.DayTopShape | app.js:1062-1079 | a day with a counted play shows 1 to 3 distinct tracks, each named and played that day |
| Grouping.DayTopMostPlayedFirst | app.js:1057-1074 | the tracks of a day are listed by non-increasing play count |
| Grouping.DayTopIsTop | app.js:1057-1074 | a track left out of a day's top was played no more often than any track shown |
| Grouping.DaySortIsStable | app.js:1057-1059 | tracks with equal counts keep first-seen order |
| Grouping.PickTop3 | app.js:1062-1074 | the loop with its break at three yields the top of the sorted counts |
| Grouping.CountByDay | app.js:1012-1053 | the counting loop builds, for each counted day in insertion order, exactly that day's counts |
| Grouping.GroupTop3ByDay | app.js:1008-1082 | no item array gives an empty map; otherwise each day maps to its top tracks and days with an empty top are absent |
| Grouping.GroupTop3ByLocalDay | app.js:1016-1021 | the same, with days keyed by their local `YYYY-MM-DD` |
| Grouping.ResultDays | app.js:1077-1079 | a day is in the result exactly when it has a counted play |
| Spotify.FirstPageSize | app.js:848 | the first request asks for `min(limit, 50)` |
| Spotify.SliceTo | app.js:898 | `slice(0, limit)`: a prefix of length `min(limit, n)`, counted from the end for a negative limit |
| Spotify.FetchRecentlyPlayed | app.js:836-904 | the loop's result and request count are the crawl's, a request that throws included; the first request has the capped size and each later one follows the previous `next` |
| Spotify.CrawlStep | app.js:841-889 | a request that throws (a `fetch` that rejects, a malformed `next`) ends with its error after one request; a 401 ends with the unauthorized error after one request; another non-OK ends with its status; an OK reply whose body cannot be read ends with that error; a readable OK page continues or stops |
| Spotify.CrawlLength | app.js:841-890 | the crawl makes at least one request and no more than there are replies |
| Spotify.CrawlSuccess | app.js:841-898 | on success, no request threw and every reply was OK with a readable body, each page but the last asked for more, the last had enough items or no `next`, and the result is the gathered items cut at `limit` |
| Spotify.CrawlSuccessItems | app.js:878-898 | on success, the result is the items gathered so far cut at `limit` |
| Spotify.CrawlSuccessOk | app.js:855-878 | on success, no request threw and every reply received was OK, not 401, and had a readable body |
| Spotify.CrawlSuccessContinued | app.js:883-890 | on success, every page before the last had a `next` and too few items |
| Spotify.CrawlSuccessStopped | app.js:887-889 | on success, the last page gave enough items or had no `next` |
| Spotify.CrawlFailure | app.js:841-873 | on failure, the last request was the first that threw, was not OK or could not be read; the error is the thrown one exactly for a request that threw, unauthorized exactly for a 401, carries the status exactly for another non-OK reply, and is the reading error exactly for an OK reply |
| Spotify.EmptyPagesNeverStop | app.js:841-890 | while every reply is an OK page with a `next` link and no items, a crawl short of `limit` never ends, however many replies it is given |
| Spotify.EmptyPagesNeverEnd | app.js:836-890 | with a positive `limit`, no finite run of empty pages with a `next` link ends `fetchRecentlyPlayed` |
| Spotify.SinglePage | app.js:883-898 | an OK first page without `next` means one request, whose items cut at `limit` are the result |
| Spotify.CrawlCount | app.js:897-898 | the result holds `min(limit, total fetched)` items |
| Spotify.RefreshAccessToken | app.js:906-921 | succeeds exactly for an OK reply with a JSON body, handing back its access and refresh tokens; a `fetch` that rejects passes its error on; any non-OK reply throws `spotify_refresh_failed`; an OK body that is not JSON throws the reading error |
| Spotify.GetAccessToken | app.js:781-816 | no verifier throws, without a request, an error made as `spotify_pkce_verifier_missing` whose message is the log-in-again text; a `fetch` that rejects passes its error on; success exactly for an OK JSON reply, with its tokens; a non-OK reply throws an error made as `spotify_token_exchange_failed`, with its status and the description, else the error code, else the hint `Token exchange failed with status <status>. Make sure the redirect URI in your Spotify app settings matches: <uri>`; an OK body that is not JSON throws the reading error |
| Lyrics.BeforeComma | app.js:1818 | `split(",")[0]` is the prefix up to the first comma |
| Lyrics.QueryArtistIsFirstName | app.js:1818 | the queried artist is trimmed and holds no comma; a line without commas is only trimmed |
| Lyrics.CloseParen | app.js:1821 | the lazy `.*?\)` stops at the first `)` on the same line |
| Lyrics.GroupAt | app.js:1821 | a match of `\s*\(.*?\)\s*` at the front of the text has positive length |
| Lyrics.RemoveGroups | app.js:1821 | removing the groups never lengthens the title and keeps only its characters |
| Lyrics.RemoveGroupsLeavesNoGroup | app.js:1821 | on a one-line title, no `(`…`)` group survives the global replace |
| Lyrics.RemoveGroupsKeepsNoBreak | app.js:1821 | the replace keeps a one-line title on one line |
| Lyrics.CutDash | app.js:1822 | removing the dash suffix leaves a prefix |
| Lyrics.CutDashLeavesNoDash | app.js:1822 | after `\s*-.*$` is removed, no `-` remains |
| Lyrics.QueryTitleIsClean | app.js:1820-1823 | the queried title is trimmed, holds no dash and no parenthesised group |
| Lyrics.GroupTakesItsSpaces | app.js:1821 | a group is removed with the white space around it: `"A (x) B"` queries `"AB"` |
| Lyrics.FetchLyrics | app.js:1815-1892 | lyrics only for an OK reply with lyrics that are not blank, then trimmed and non-empty; a non-OK status, a thrown error or missing or blank lyrics give `null` |
| Extraction.Direct | app.js:2055-2065 | step 1 yields something exactly when the text parses to an object whose `message` is a non-empty string, or to a non-empty string; it yields that `message`, or that string |
| Extraction.CloseFence | app.js:2070 | the lazy block ends at the first `}` from the start position that optional white space and a closing fence follow, or there is none |
| Extraction.FenceAt | app.js:2069-2071 | the pattern matches at a position exactly when a fence there (after an optional `json` tag and white space) opens a `{` that some fence-followed `}` closes; the group runs from that `{` to the first such `}` |
| Extraction.FindFence | app.js:2069-2072 | the match found is the leftmost one, and none means the pattern matches nowhere |
| Extraction.FencedBlock | app.js:2069-2072 | the captured group starts with `{` and ends with `}` |
| Extraction.FencedBlockIsLeftmostGroup | app.js:2069-2072 | the block is there exactly when the pattern matches at some position, and it is the group of the leftmost match |
| Extraction.Fenced | app.js:2067-2082 | step 2 yields something exactly when there is a fenced block, it parses, and its `message` is truthy; it yields that `message` |
| Extraction.FirstIndex | app.js:2086 | `indexOf` gives the first occurrence at or after the start, or proves there is none |
| Extraction.LastIndex | app.js:2086 | finds the last occurrence of a character, or proves there is none |
| Extraction.FindSub | app.js:2086 | the first occurrence of a substring at or after the start, or proof that it occurs nowhere there |
| Extraction.MessageSpan | app.js:2086 | the greedy pattern matches exactly when a `{` comes before a quoted `message` that a `}` follows; the span runs from the first `{` to the last `}` |
| Extraction.StripJsonChars | app.js:2095 | the stripped text has no quote and no brace, and text without them is left as it is |
| Extraction.StripJsonCharsCounts | app.js:2095 | stripping removes every quote and brace and keeps every other character as often as it occurs |
| Extraction.StripJsonCharsConcat | app.js:2095 | stripping works character by character, so kept characters stay in order |
| Extraction.Extract | app.js:2050-2105 | whatever the cascade returns came from one of its steps and passes the caller's check for an empty value or a `length` of zero |
| Extraction.DirectWins | app.js:2055-2068 | when the whole reply parses to a usable message, later steps are not consulted |
| Extraction.FencedWins | app.js:2066-2082 | when step 1 fails, a usable fenced `message` is the result |
| Extraction.UnusableFencedStops | app.js:2066-2105 | a fenced `message` that is truthy but of length zero skips step 3 and is rejected |
| Extraction.SpanUnusableMessageRejected | app.js:2084-2105 | when steps 1 and 2 fail, a span whose `message` is truthy but fails the length check (an empty array, a `length` of 0) gives nothing |
| Extraction.CloseFenceFinds | app.js:2070 | the lazy match closes at the first `}` that a fence follows |
| Extraction.SimpleFence | app.js:2069-2071 | a fenced block tagged `json` holding one object with no inner `}` is captured whole |
| Extraction.FencedBlockYieldsMessage | app.js:2067-2082 | such a block whose `message` is a non-empty string yields exactly that text when step 1 fails |
| Extraction.NoBraceNoMatch | app.js:2069-2086 | text without `{` matches neither the fenced pattern nor the span pattern |
| Extraction.PlainTextReply | app.js:2097-2105 | a reply without `{` that is not JSON yields its trimmed text, or nothing when that is empty |
| Extraction.NoSpanGivesText | app.js:2097-2105 | when steps 1 and 2 fail and no span matches, the result is the trimmed text, or nothing when that is empty |
| Extraction.SpanOfUnparsable | app.js:2084-2105 | when steps 1 and 2 fail, a span that does not parse, or parses to `null`, gives the text stripped of quotes and braces and trimmed, or nothing when that is empty |
| Extraction.SpanMessageWins | app.js:2084-2092 | when steps 1 and 2 fail, a span parsing to an object with a usable `message` gives that `message` |
| Extraction.SpanWithoutMessage | app.js:2084-2105 | when steps 1 and 2 fail, a span parsing to a value other than `null` without a truthy `message` gives nothing |
| Extraction.ZeroLengthMessageRejected | app.js:2088-2105 | a `message` that is an object with `length` 0 is rejected |
| Extraction.StrippedTextIsBare | app.js:2095 | that fallback holds no quote and no brace |
| FortunePrompt.IndexOf | app.js:1947 | `indexOf` finds the first occurrence |
| FortunePrompt.DedupFirst | app.js:1945-1948 | the artist list holds each artist once, and nothing else |
| FortunePrompt.DedupFirstOrder | app.js:1947 | artists are listed in the order of their first occurrence |
| FortunePrompt.LyricsEntry | app.js:1941 | a lyrics entry is never empty |
| FortunePrompt.WithLyrics | app.js:1936 | the songs kept are those with lyrics, and none are kept exactly when no song has lyrics |
| FortunePrompt.LyricsSectionEmptyIff | app.js:1936-1943 | the lyrics section is empty exactly when no song has lyrics |
| FortunePrompt.PromptSections | app.js:1954-1970 | the prompt starts with the heading and song list; it carries the lyrics section when some song has lyrics and the no-lyrics note otherwise |
| FortunePrompt.LayoutSections | app.js:1954-1970 | the same three facts for any closing instructions |
| FortunePrompt.PromptShape | app.js:1961-1970 | either layout keeps its opening and contains its middle section |
| Fortune.ApiKey | app.js:1895-1911 | the `window` key wins over the config key; an empty key or the placeholder gives no key |
| Fortune.UnavailableIsWrapped | app.js:2111-2117 | the service-unavailable message is re-thrown behind the generic prefix |
| Fortune.ShapeIsWrapped | app.js:2046-2048 | the unexpected-format message is re-thrown behind the prefix |
| Fortune.EmptyIsWrapped | app.js:2103-2105 | the no-fortune message is re-thrown behind the prefix |
| Fortune.GenerateJournalEntry | app.js:1914-2119 | `null` exactly when no key is configured; with a key, a reply whose trimmed content yields a fortune returns that fortune, a thrown error is re-thrown through the API-key/rate-limit test; a fortune is always usable; an error always has a message |
| Fortune.ErrorRouting | app.js:2021-2039 | a 401 gives the invalid-key message, a 429 the rate-limit message (both unwrapped), a 500 or 503 the unavailable message behind the prefix; any other status gives `OpenAI API error (<status>): <message>`, behind the prefix unless the API message mentions an API key or a rate limit |
| Fortune.DetailRewrap | app.js:2108-2116 | the detail message is passed through exactly when the API message mentions an API key or a rate limit, and wrapped otherwise |
| Fortune.ShapeAndEmptyErrors | app.js:2046-2105 | a reply without `choices[0].message`, or one with nothing to extract, throws its message behind the prefix |
| Journal.CachedMessage | app.js:2139-2175 | a hit exactly when the date is today and today's entry has version 4, a non-empty message, a first song titled as the first track and `generatedAt` today; a hit answers that message; a stale version never hits |
| Journal.SongRefs | app.js:2223 | the stored songs are the tracks' titles and artists, in order |
| Journal.SongsWithLyrics | app.js:2178-2196 | one entry per track with its title and artists; its lyrics are what the lookup gives, and empty exactly when it gives `null` |
| Journal.JournalStore.constructor | app.js:2141 | the store starts with the given entries |
| Journal.JournalStore.ReadCache | app.js:2139-2175 | answers the cached message, if any, and removes today's entry when its version differs |
| Journal.JournalStore.EntryForDay | app.js:2125-2230 | a hit answers from the cache unchanged; a non-empty string fortune is written under `journal_entry_<date>` with version 4 and returned; no key gives the fallback without a write; errors propagate without a write |
| Journal.ReadBack | app.js:2217-2229 | a written entry is found the same day by any tracks with the same first title, and on no other day |
| Journal.OtherFirstSongMisses | app.js:2161-2169 | a written entry is never found for another first song |
| Journal.StepThenHit | app.js:2125-2230 | after a successful call today, the same tracks find that answer in the cache |
| Journal.StepKeepsOtherDays | app.js:2140-2227 | a call touches no key but its day's own |
| Journal.FailureWritesNothing | app.js:2209-2215 | errors and fallbacks leave the store as it was, save a stale entry removed |
| Journal.AskTwice | app.js:2125-2230 | two calls for the same tracks today: unless the first fails or falls back, the second answers the same |
| Refresh.RefreshLoop.constructor | app.js:1700 | the flag starts clear and no interval runs |
| Refresh.RefreshLoop.Start | app.js:1702-1709 | starting replaces any interval with a running one and changes nothing else |
| Refresh.RefreshLoop.Tick | app.js:1709-1780 | a tick's new state and update calls are those of the tick step |
| Refresh.RefreshLoop.Manual | app.js:2782-2850 | a click's new state and update calls are those of the button step |
| Refresh.TickFlag | app.js:1711-1724 | a tick during another does nothing; a tick that runs clears the flag; no access token stops the interval and updates nothing |
| Refresh.RetriedAtMostOnce | app.js:1727-1757 | the update runs with the stored token and is retried once, with the new token, only after a 401 and a refresh that yields an access token |
| Refresh.RefreshRetainsToken | app.js:1741-1754 | after a successful refresh and retry, the new access token is stored and the refresh token is the new one, or the old one when none is returned |
| Refresh.ExpiredWithoutRecovery | app.js:1758-1775 | a failed refresh or retry clears both tokens, stops the interval and disconnects; with no refresh token the interval stops and the UI disconnects but the tokens stay |
| Refresh.OtherOutcomesKeepSession | app.js:1728-1732 | an update that ends without a 401 changes no state, for the tick and for the button |
| Refresh.ManualMatchesTick | app.js:2782-2850 | the button makes the same update calls and the same UI change as a tick; it clears the tokens also when there is no refresh token, and never touches the interval or the flag |
| Calendar.MonthKeyInjective | app.js:324-326 | different months give different month keys |
| Calendar.IsoDateOrder | app.js:363-366 | within a month, zero-padded day keys sort as their day numbers do |
| Calendar.TwoDigitsOrder | app.js:364-366 | two-digit fields compare as their numbers do |
| Calendar.DaysInMonth | app.js:608-612 | a month has 28 to 31 days, and 29 exactly for February of a Gregorian leap year |
| Calendar.YearLength | app.js:608-612 | the months of a year add up to 366 days in a leap year and 365 otherwise |
| Calendar.DayOptions | app.js:613-618 | the day picker offers one option per day of the month |
| Calendar.DayOptionAt | app.js:613-618 | option `i` is the key of day `i + 1` |
| Calendar.DayOptionsIncreasing | app.js:613-618 | the options are in increasing key order |
| Calendar.EnsureSinglePlaceholder | app.js:380-385 | a month with days keeps them; one without days, or without an array, gets one day, the 1st, with three `Placeholder`/`TBD`/`No data yet` songs |
| Calendar.FindDay | app.js:408 | `find` gives the first day with the target key, or none has it |
| Calendar.LatestDay | app.js:411-413 | the `reduce` keeps a day with the greatest key, the last one among ties |
| Calendar.SelectDay | app.js:399-416 | the rendered day is the picked day when it exists, and otherwise a day with the greatest key |
| Calendar.OrderedMonths | app.js:387-432 | exactly one month with exactly one day; for a month in the history with days it is the day `SelectDay` picks for the chosen date; otherwise the placeholder 1st with its three placeholder songs |
| Calendar.InsertYear | app.js:584 | inserting a year keeps the list sorted and distinct |
| Calendar.SortedDistinct | app.js:584 | the years come out sorted, distinct and the same set |
| Calendar.UniqueYears | app.js:580-585 | the picker's years are sorted, distinct, include the current year and are exactly the history's years plus it |
| Calendar.SplitDashField | app.js:2235 | `split("-")` separates a leading dash-free field |
| Calendar.SplitDateKey | app.js:2235 | a day key splits into its year, month and day fields |
| Calendar.ParseIntOfDigits | app.js:2236-2238 | `parseInt` of a run of digits is their decimal value |
| Calendar.ParseIntOfNatToString | app.js:2236 | `parseInt(String(n))` is `n` |
| Calendar.ParseIntOfTwoDigits | app.js:2237-2238 | `parseInt` of a padded field is its number |
| Calendar.JournalDateOfRealDate | app.js:2239-2244 | a real date of a year from 100 on prints as `MM.DD.YY` with the last two digits of the year |
| Calendar.FormatJournalDateOfKey | app.js:2233-2245 | a day key the page writes prints as the date of its own year, month and day |
| Gradient.ParseHexTwo | app.js:2568-2570 | `parseInt(t, 16)` of two characters: two hex digits give their value; a digit then something else gives the digit, except for `0x`, which gives NaN; white space or `+` before a digit gives the digit, `-` its negation; anything else gives NaN |
| Gradient.HexRunIsLongest | app.js:2568-2570 | the digits read are the longest run of hex digits at the front |
| Gradient.ReadHex | app.js:2568-2570 | after an optional `0x`, a value exactly when at least one hex digit follows |
| Gradient.ValidColorChannels | app.js:2567-2570 | a `#RRGGBB` color gives the three channels of its digit pairs, each the pair's value below 256 |
| Gradient.ChannelsOfToHex | app.js:2567-2570 | reading back the channels of a written color gives the channels put in |
| Gradient.Upper | app.js:2680 | `toUpperCase` raises exactly the lower-case ASCII letters |
| Gradient.UpperKeepsColor | app.js:2680 | upper-casing a valid color keeps it valid and keeps its channels |
| Gradient.BlurredText | app.js:2677-2682 | a valid typed color stays; anything else becomes the picker's color upper-cased, which is valid |
| Gradient.PresetColorsValid | app.js:2537-2562 | every preset color passes the `#RRGGBB` check |
| Gradient.NextPrevInverse | app.js:2743-2755 | next and previous stay in range and undo each other |
| Gradient.NextTimesWraps | app.js:2750-2755 | pressing next `k` times moves `k` places round the carousel |
| Gradient.FullCircle | app.js:2750-2755 | going once round the carousel returns to the start |
| Gradient.PresetCarousel.constructor | app.js:2564 | the carousel starts at the first preset |
| Gradient.PresetCarousel.LoadPreset | app.js:2720-2739 | an index in range is applied and becomes current; any other is ignored |
| Gradient.PresetCarousel.Next | app.js:2750-2754 | next applies the following preset, wrapping from the last to the first |
| Gradient.PresetCarousel.Prev | app.js:2742-2747 | previous applies the one before, wrapping from the first to the last |
| Gradient.PresetCarousel.Reset | app.js:2702-2716 | reset makes the first preset current |

## Left out

- Audio synthesis, the PKCE verifier and challenge (random numbers, SHA-256, base64) and all DOM rendering and event wiring are not modelled: they are foreign calls or presentation.
- The gradient CSS text, `applyGradient` and the saved-gradient loading are not modelled: they are floating-point alphas and presentation. Only the color check, the channel parse and the carousel index are.
- `initSpotify`, `fetchProfile`, `updateLeftStackFromSpotify` and `updateJournalCard` are not modelled as such. The refresh model takes the update's outcome as the parameter `update`.
- The random minimum delay, animation-frame waits and all logging are not modelled: they do not affect any result.
- `Date` parsing and timezone conversion are inputs: a `Stamp` per item, `today` and `now` as local dates, and the weekday of a date passed as a function.
- `JSON.parse` is the parameter `parse`. JSON numbers are integers.
- Tracks.PlayedTime: an item whose `played_at` does not parse sorts with key 0. In the source the comparator returns `NaN` for it, and the engine's order is then unspecified.
- String comparison is over code points, the same as UTF-16 code units for the characters the page writes. `toUpperCase` is modelled for ASCII only.
- A JavaScript `Map`'s insertion order is modelled as a sequence of tallies and a sequence of day keys. The result of `groupTop3ByDay` is a Dafny `map`, whose key order is not modelled.
- Grouping.GroupTop3ByDay: days are named by a parameter `dateKey`; `Grouping.GroupTop3ByLocalDay` passes the page's own `YYYY-MM-DD` key.
- Spotify.FetchRecentlyPlayed: a malformed `next` URL is modelled as a request that throws. The source throws in `new URL` (app.js:844) before calling `fetch`, while the model still records the request as one that follows `next`.
- Spotify.FetchRecentlyPlayed: requires that the crawl ends within the replies given. The source's pagination has no bound of its own: a server that keeps answering OK pages with a `next` link and too few items keeps it fetching forever (app.js:841-890). The model covers only crawls that end, and `Spotify.EmptyPagesNeverEnd` shows that no finite run of empty pages with a `next` ends one.
- Spotify.GetAccessToken: an error reply whose body is JSON `null` is treated like a body with neither a description nor an error code. In the source, reading `error_description` of `null` throws a `TypeError` instead.
- Spotify.RefreshAccessToken: an OK body that is JSON but not an object is treated as an object without tokens. The source hands it back, and its caller then finds no `access_token`, or throws reading one from `null`; either way the refresh fails.
- Gradient.ParseHex: `parseInt` of `-0` gives JavaScript's negative zero, modelled as 0; both print as `0` in the `rgba(...)` text.
- URL building and encoding (`URLSearchParams`, `encodeURIComponent`) are not modelled: the requests are values naming the first page size or the `next` URL.
- Lyrics.QueryTitleIsClean: stated for titles without line terminators. With a line break, removing one group can create another, because `.` does not match across lines.
- The 10-second abort timer of `fetchLyrics` is a thrown reply.
- Fortune.GenerateJournalEntry: takes the prompt as its parts (`PromptParts`); `PromptText` renders them.
- `parseInt` is modelled for an optional sign after leading white space and decimal digits only. The source only feeds it digit fields.
- Calendar.FormatJournalDate: a date out of range, or one whose fields do not parse, gives `None`. `new Date` would roll it over or print `NaN`.
- Journal.CachedMessage: an entry whose message is not a string, or whose `songs` is not an array, is modelled as `Unparsable`, which never hits.
- Journal.JournalStore.ReadCache, Journal.JournalStore.EntryForDay: an `Unparsable` entry is never removed. The source removes such a today entry when its `cacheVersion` is not 4 (app.js:2146-2149).
- The manual refresh button's `disabled` state and its CSS class are presentation and are not modelled.
- Refresh.RefreshLoop.Tick, Refresh.RefreshLoop.Manual: `update` gives one outcome per token, so a refresh that hands back the same access token makes the retry end as the first update did. The source's second `updateLeftStackFromSpotify` call (app.js:1727-1757) could succeed where the first failed. No property stated here depends on this.
- Refresh.RefreshLoop.Tick: the awaits of a tick are not interleaved with other ticks. Overlap shows only as a tick that starts while `isRefreshing` is set.
- `MOCK_MONTHS` and `config.js` are data, not logic. The history is the `keyed` map parameter, the config key a parameter.
