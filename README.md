# SignBridge live session controller and session statistics, in Dafny

This project models two parts of a browser demo that simulates turning sign
language from a webcam into text:

- **The live translation panel** (`TranslationPanel`). It starts and stops the camera. While the
  camera streams, a repeating timer emits one vocabulary word per firing into
  a transcript, which is optionally spoken aloud. The panel saves the transcript once per
  capture cycle into a bounded history in local storage.
- **The dashboard** (`Dashboard`). It loads that history and derives the following from it: the session
  count, the total word count, a word-frequency table and its six most
  frequent entries, the rounded average, the six most recent sessions and the
  width of each frequency bar.

The project is organised in four modules:

- `Tokens` (`tokens.dfy`). Whitespace tokenisation as `split(/\s+/)` followed by
  `filter(Boolean)` performs it, with the `\s` class of JavaScript regular
  expressions. Also the single-space joining that a firing of the timer performs.
  The central fact is the round trip `Words(Join(ws)) == ws`: the words of a transcript built by
  emitting `ws` are exactly `ws`, in emission order.
- `Storage` (`storage.dfy`). The `sb_sessions` slot: an absent, parsable or
  unparsable value. The history's `unshift` + `slice(0, 50)` is `Push`, and the
  whole read-modify-write of a save is `Store`.
- `TranslationPanel` (`translation_panel.dfy`). A class `Panel` whose fields are
  the component's state: `streaming`, `connecting`, `text`, `ttsEnabled`,
  `sessionSaved`, the interval id in `intervalRef`, and the preview's `srcObject`. Two further fields
  track the resources the browser holds: the running intervals (`timers`) and
  the streams whose tracks are still live (`liveStreams`). `Valid()` states
  the following invariants:
  - the transcript is the emitted vocabulary words joined by single spaces;
  - every emitted word is `DemoWords[i]` for some `i < 20`;
  - at most one interval runs, and it is the one `intervalRef` holds;
  - an interval runs only while streaming;
  - nothing is queued for speech without a speech engine.
- `Dashboard` (`dashboard.dfy`). Pure functions for the totals, the average, the recent
  slice and the bar width. `Frequencies` is a method with nested loops, matching the nested `forEach`
  that builds the frequency table, and it is proved equal to the reference
  functions `Counts` and `FirstSeen`. Lemmas then show what those functions
  mean: multiplicities, distinct keys in first-seen order, and counts that sum
  to the number of tokens. The table is ordered by a stable insertion sort.

Parameters stand in for what the program gets from the browser:

- `outcome`: how the awaited `getUserMedia`/`play()` ends: refused, `play()` rejected, or settled without an error (the preview plays, or no preview is mounted and `play()` is skipped);
- `stream`: the granted stream's identity;
- `timer`: the id `setInterval` returns;
- `i`: the random vocabulary index `Math.floor(Math.random() * 20)`;
- `id`, `ts`: `crypto.randomUUID()` and `Date.now()`;
- `writeOk`: whether generating the id, serialising and writing the slot succeed;
- `hasEngine`: whether a speech engine exists.

A start is modelled as two steps, as the `await` splits it:

- `BeginStart` sets `connecting` and returns the voice flag that the start's
  closure captured.
- `FinishStart` runs when the device request settles.

The interval keeps that captured flag (`timerSpeaks`), so toggling voice while streaming does
not change whether the running interval speaks. A firing is `Tick(i)`. Its
precondition `timers != {}` says that an interval is running. After
`StopCamera`, which leaves `timers == {}`, no further word can land until a
start completes. The same holds right after the unmount cleanup, but a start
that was still pending at unmount completes afterwards and starts a new
interval (see below).

Where the code and the behaviour described for this system differ, the model follows the
code:

- **A successful start does not clear the transcript.** `startCamera` never calls `setText('')`, so a
  new capture cycle keeps appending to the old text. `FinishStart` leaves `text` unchanged.
- **A stream can be left live with no way to stop it.** When `play()` rejects, the
  granted stream stays attached and live, but the panel is not streaming. The next start
  that succeeds replaces `srcObject`, and the old stream's tracks are then
  never stopped. The same happens when a second start completes while a stream is attached.
  `FinishStart` states this exactly: `Orphaned()` (live streams no reference
  reaches) grows by the stream previously attached.
- **Unmounting while streaming leaves the camera on.** React detaches the
  `<video>` ref before the effect cleanup runs, so the cleanup reads a null
  `srcObject` and stops no track. `Teardown` models the cleanup as written,
  and `UnmountWhileStreaming` exhibits the live stream. `TeardownSavedRef`
  is the evident fix (see "## Findings").
- **A start pending at unmount leaks a stream and an interval.** If the
  device request settles after the panel has unmounted, the start still
  proceeds: the stream is granted with no preview to hold it, and a new
  interval starts that no cleanup will ever clear. Its firings keep speaking
  when voice was on. `StartPendingAtUnmount` exhibits this with either cleanup.
- **`streaming` is assumed to start as `false`.** Line 61 of `src/components/TranslationPanel.jsx` has a stray
  token before the `streaming` state declaration. The model uses `streaming`
  initialised to `false`, which is evidently what was intended.

## Model

| member | source | states |
|---|---|---|
| Tokens.Split | src/components/Dashboard.jsx:27 | `split(/\s+/)` always yields at least one piece, and no piece contains a whitespace character |
| Tokens.NonEmpty | src/components/TranslationPanel.jsx:119 | `filter(Boolean)` keeps no empty piece and never lengthens the list |
| Tokens.NonEmptyKeeps | src/components/TranslationPanel.jsx:119 | every piece `filter(Boolean)` keeps was one of its input pieces |
| Tokens.Words | src/components/TranslationPanel.jsx:119 | every segment counted as a word is non-empty and free of whitespace |
| Tokens.SplitNoSpace | src/components/Dashboard.jsx:27 | a string without whitespace splits into itself alone |
| Tokens.SplitSnoc | src/components/TranslationPanel.jsx:83 | appending a space and a word to a text that ends in a non-space character adds exactly that word to its split |
| Tokens.NonEmptyConcat | src/components/TranslationPanel.jsx:119 | `filter(Boolean)` distributes over concatenation |
| Tokens.JoinShape | src/components/TranslationPanel.jsx:82-85 | the transcript is empty iff nothing was emitted, and otherwise ends in a non-space character |
| Tokens.WordsAppend | src/components/TranslationPanel.jsx:82-85 | one firing adds exactly the emitted word to the words of the transcript |
| Tokens.WordsOfJoin | src/components/TranslationPanel.jsx:82-85 | round trip: the words of the transcript built from emissions `ws` are exactly `ws` in emission order, so its word count is `|ws|` |
| Tokens.JoinIsSpaceJoin | src/components/TranslationPanel.jsx:82-85 | the transcript built by successive firings is the emitted words joined by single spaces |
| Tokens.SpaceJoinSnoc | src/components/TranslationPanel.jsx:83 | joining one more word adds one space and the word at the end |
| Storage.Push | src/components/TranslationPanel.jsx:120-121 | the new record is first, the previous records follow in their old order, and the length is min(old length + 1, 50) |
| Storage.Store | src/components/TranslationPanel.jsx:116-124 | a save succeeds iff the slot parses and the write succeeds; on success the slot holds the new record first, then the old records in order, at most 50 in all |
| Storage.Reverse | src/components/TranslationPanel.jsx:120 | reversal keeps the length and mirrors the positions |
| Storage.PushAllKeepsNewest | src/components/TranslationPanel.jsx:120-121 | after any sequence of saves the history is the newest records first, then the older history, cut to 50 (55 saves into an empty history leave the 50 most recent, newest first) |
| TranslationPanel.VocabularyIsWords | src/components/TranslationPanel.jsx:5-26 | the vocabulary has 20 entries, each a non-empty word without whitespace |
| TranslationPanel.LowercaseIsWord | src/components/TranslationPanel.jsx:5-26 | a non-empty run of lower-case letters is a word |
| TranslationPanel.Panel.TranscriptWords | src/components/TranslationPanel.jsx:119 | in every valid state the words of the transcript are exactly the emitted words, so a saved record's `words` is the number of emissions |
| TranslationPanel.Panel.constructor | src/components/TranslationPanel.jsx:60-67 | initial state: not streaming, not connecting, empty transcript, voice off, not saved, no interval, nothing attached |
| TranslationPanel.Panel.BeginStart | src/components/TranslationPanel.jsx:69-70 | a start first sets `connecting` and captures the current voice flag |
| TranslationPanel.Panel.FinishStart | src/components/TranslationPanel.jsx:71-92 | a refusal changes nothing but `connecting`; a granted stream is attached; when the preview plays: streaming, not saved, exactly one interval (the new one, the old one cleared), speaking iff voice was on at start, transcript untouched; `connecting` ends false; which live streams become unreachable |
| TranslationPanel.Panel.Attach | src/components/TranslationPanel.jsx:72-74 | the granted stream becomes live and the preview's `srcObject`, and a stream attached before becomes unreachable |
| TranslationPanel.Panel.StartInterval | src/components/TranslationPanel.jsx:77-80 | streaming, not saved, and the only running interval is the new one that `intervalRef` holds |
| TranslationPanel.Panel.Speak | src/components/TranslationPanel.jsx:32-48 | speaking queues the word iff enabled and an engine exists, otherwise it is a no-op |
| TranslationPanel.Panel.Cancel | src/components/TranslationPanel.jsx:50-54 | cancelling drops all queued speech, a no-op without an engine |
| TranslationPanel.Panel.Tick | src/components/TranslationPanel.jsx:80-87 | a firing appends `DemoWords[i]` with single-space joining, adds exactly that word to the transcript's words, and speaks it iff the captured flag was on and an engine exists |
| TranslationPanel.Panel.StopCamera | src/components/TranslationPanel.jsx:95-106 | after stop: not streaming, no interval running, `intervalRef` null, preview detached, the attached stream's tracks stopped, speech cancelled, transcript and saved flag unchanged; stopping a stopped panel changes nothing |
| TranslationPanel.Panel.StopAttached | src/components/TranslationPanel.jsx:96-101 | the attached stream's tracks are stopped and the preview's `srcObject` is cleared; only unreachable streams stay live |
| TranslationPanel.Panel.ClearInterval | src/components/TranslationPanel.jsx:103-104 | no interval runs and `intervalRef` is null |
| TranslationPanel.Panel.StopTracks | src/components/TranslationPanel.jsx:111-112 | the tracks of the referenced stream, if any, are stopped, and no other stream's |
| TranslationPanel.Panel.Teardown | src/components/TranslationPanel.jsx:108-114 | the cleanup as written, with the preview ref already cleared: no interval runs any more, but every live stream stays live and none is reachable; nothing else changes |
| TranslationPanel.Panel.TeardownSavedRef | src/components/TranslationPanel.jsx:108-114 | the cleanup with the element saved when the effect ran: no interval runs and the attached stream is stopped, so only streams already unreachable stay live; nothing else changes |
| TranslationPanel.Panel.ToggleVoice | src/components/TranslationPanel.jsx:144-145 | the voice button flips `ttsEnabled` and changes no other field |
| TranslationPanel.Panel.SaveSession | src/components/TranslationPanel.jsx:116-124 | on success the slot holds the record `{id, text, ts, words}` (with `words` = number of emitted words) in front of the old history and `sessionSaved` is true; on a read, parse or write failure slot and flag are unchanged; the transcript is never touched |
| TranslationPanel.Panel.ClickSave | src/components/TranslationPanel.jsx:152-154 | with an empty transcript or an already saved session the button does nothing; otherwise it performs the save |
| TranslationPanel.SaveTwice | src/components/TranslationPanel.jsx:116-124 | two saves without a start in between, from any slot and with any write outcomes, add at most one record: once the first succeeds, the second adds nothing; when the first fails, the slot is unchanged and the second acts as a first save |
| TranslationPanel.StartFresh | src/components/TranslationPanel.jsx:69-93 | a first successful start leaves the panel streaming with an interval running, an empty transcript and nothing saved |
| TranslationPanel.TickTwice | src/components/TranslationPanel.jsx:80-87 | two firings from an empty transcript produce "<first> <second>" |
| TranslationPanel.TwoWordCycle | src/components/TranslationPanel.jsx:69-124 | start, two firings and a save store exactly one record with text "<first> <second>" and 2 words, the saved flag is set, and a second save adds nothing |
| TranslationPanel.UnmountWhileStreaming | src/components/TranslationPanel.jsx:108-114 | with the cleanup as written, unmounting while streaming stops the interval but leaves the camera stream live |
| TranslationPanel.UnmountWhileStreamingSavedRef | src/components/TranslationPanel.jsx:108-114 | with the corrected cleanup, unmounting while streaming leaves no stream live and no interval running |
| TranslationPanel.UnmountDuringStart | src/components/TranslationPanel.jsx:69-93 | a start that settles after unmount leaves its stream live and unreachable and a new interval running, whichever cleanup ran |
| TranslationPanel.StartPendingAtUnmount | src/components/TranslationPanel.jsx:69-93 | after such a start the interval still fires and speaks its word |
| TranslationPanel.FailedStart | src/components/TranslationPanel.jsx:69-92 | a refused start leaves transcript, streaming, saved flag and interval unchanged and ends not connecting |
| Dashboard.Load | src/components/Dashboard.jsx:12-19 | the loaded list is the stored one, or empty when the slot is empty, missing or does not parse |
| Dashboard.TotalWordsNonNegative | src/components/Dashboard.jsx:23 | with no negative word count stored the total is not negative |
| Dashboard.TotalWordsCons | src/components/Dashboard.jsx:23 | a record in front adds its word count (0 when missing) to the total |
| Dashboard.TotalWordsCountsTokens | src/components/Dashboard.jsx:23-31 | for records the panel wrote, the total word count equals the number of tokens the frequency table counts |
| Dashboard.CountsAreMultiplicities | src/components/Dashboard.jsx:24-31 | `freq[w]` is the number of tokens equal to `w`, and exactly the words that occur have an entry |
| Dashboard.FirstSeenKeys | src/components/Dashboard.jsx:29 | the keys in insertion order are distinct and are exactly the tokens that occur |
| Dashboard.CountStep | src/components/Dashboard.jsx:28-29 | a visited token adds one to its entry and, when new, becomes the last key |
| Dashboard.NonEmptyStep | src/components/Dashboard.jsx:28 | an empty piece is skipped and a non-empty piece is visited |
| Dashboard.AllTokensStep | src/components/Dashboard.jsx:26-27 | the sessions are visited in order, each contributing the tokens of its text |
| Dashboard.CountPieces | src/components/Dashboard.jsx:27-30 | the inner loop over one text's pieces leaves the table of the tokens seen so far plus that text's tokens |
| Dashboard.Frequencies | src/components/Dashboard.jsx:24-31 | the nested loops build exactly the counts of all tokens, with keys in first-seen order |
| Dashboard.EntriesOf | src/components/Dashboard.jsx:32 | `Object.entries` yields one `(key, count)` entry per key, in key order |
| Dashboard.SumEntriesBump | src/components/Dashboard.jsx:29 | changing one key's count changes the sum of the entries by the difference |
| Dashboard.SumEntriesSnoc | src/components/Dashboard.jsx:32 | the sum of entries with one more entry adds its count |
| Dashboard.EntriesSnoc | src/components/Dashboard.jsx:32 | one more key adds one entry at the end |
| Dashboard.SumAfterVisit | src/components/Dashboard.jsx:29 | visiting one more token raises the sum of the counts by one |
| Dashboard.CountsSumToTokens | src/components/Dashboard.jsx:24-31 | the counts of the table sum to the number of tokens |
| Dashboard.TableWords | src/components/Dashboard.jsx:24-32 | the table's words are exactly the words that occur, each once |
| Dashboard.TableSum | src/components/Dashboard.jsx:24-32 | the table's counts sum to the number of tokens |
| Dashboard.TableEntry | src/components/Dashboard.jsx:24-32 | each table entry's count is the number of occurrences of its word, at least one |
| Dashboard.InsertPermutes | src/components/Dashboard.jsx:33 | inserting adds exactly the inserted entry |
| Dashboard.InsertBounded | src/components/Dashboard.jsx:33 | inserting into a sorted list brings in no count above the larger of the new entry's and the first one |
| Dashboard.InsertSorted | src/components/Dashboard.jsx:33 | inserting into a list sorted by decreasing count keeps it sorted |
| Dashboard.SortByCount | src/components/Dashboard.jsx:33 | the sort by `b[1] - a[1]` orders by non-increasing count and is a permutation of its input |
| Dashboard.TopWords | src/components/Dashboard.jsx:32-34 | the top list has min(6, table size) entries, by non-increasing count |
| Dashboard.TopWordsAreTop | src/components/Dashboard.jsx:32-34 | the top entries are taken from the table, no entry left out has a larger count than any listed one, and with at most six entries all are listed |
| Dashboard.Dominates | src/components/Dashboard.jsx:33-34 | in a list sorted by decreasing count no entry after the cut outranks one before it |
| Dashboard.TopWordsCounts | src/components/Dashboard.jsx:32-34 | every listed `(w, c)` has `c` equal to the number of occurrences of `w`, at least one |
| Dashboard.ComputeStats | src/components/Dashboard.jsx:21-37 | the stats are the session count, the total word count and the top six of the frequency table |
| Dashboard.Average | src/components/Dashboard.jsx:57 | the average is 0 without sessions, otherwise the total over the count rounded to the nearest integer with halves rounded up |
| Dashboard.Recent | src/components/Dashboard.jsx:88 | the recent list is the first min(6, n) sessions in stored (newest-first) order |
| Dashboard.BarWidth | src/components/Dashboard.jsx:72 | the bar width is at most 100, at least 20 for a listed word, and exactly 100 from a count of 9 on |
| Dashboard.BarWidthMonotone | src/components/Dashboard.jsx:72 | a larger count never gets a narrower bar |
| Dashboard.EmptyStats | src/components/Dashboard.jsx:12-19 | with an empty, missing or unparsable slot every statistic is zero or empty |
| Dashboard.RecentAfterSave | src/components/Dashboard.jsx:88 | after a successful save the new session is first among the recent ones, followed by the previously most recent |
| Dashboard.TotalAfterSave | src/components/Dashboard.jsx:23 | a successful save below capacity raises the total by the new record's word count |

## Findings

| source | as written | input that shows it | evidently intended | confidence | as-written member | corrected member |
|---|---|---|---|---|---|---|
| src/components/TranslationPanel.jsx:108-114 | the unmount cleanup reads `videoRef.current?.srcObject`, but React has already set the ref to null, so no track is stopped | start the camera successfully, then unmount the panel (switch tab) while streaming | stop the attached stream's tracks, by saving `videoRef.current` when the effect runs | not executed; high, given React's documented ref-detach-before-cleanup order | TranslationPanel.UnmountWhileStreaming | TranslationPanel.UnmountWhileStreamingSavedRef |

## Left out

- Device I/O: `getUserMedia`, `<video>` playback and stopping tracks. These are modelled only as the outcome parameter, stream identities, the `srcObject` field and the set of live streams.
- The timer's 900 ms cadence and the browser's scheduling of firings. Each firing is an explicit `Tick(i)`.
- `Math.random()`. It becomes the caller-supplied index `i < 20`, so no distribution over words is modelled.
- The Web Speech API. Voice lookup, the `/en(-|\b)/i` voice match, rate and pitch are not modelled. Speech is a queue of words that `Speak` appends to and `Cancel` clears.
- `crypto.randomUUID()`, `Date.now()`, `JSON.parse`/`JSON.stringify` and `localStorage`. These are parameters. Any exception inside a save (id generation, serialisation, quota) is the single flag `writeOk`.
- Stored JSON of the wrong shape, such as a non-array, a non-string `text` or a non-numeric `words`. The slot either holds a list of records or is unparsable.
- Inherited object properties in the frequency table. `freq` is modelled as a map, so words such as `constructor` or `__proto__`, which a plain JavaScript object resolves to inherited properties, are not modelled.
- Dashboard.EntriesOf: does not model that `Object.entries` lists integer-like keys first in ascending order. Keys are listed in insertion order.
- Dashboard.SortByCount: sorts stably, so ties keep key order as the stable `Array.prototype.sort` does, but no lemma states the tie order.
- Dashboard.Average: models the exact rational rounding `(2T + n) / (2n)`. The double-precision rounding of the division is not modelled.
- Overlapping starts. The start button is not disabled while connecting, so overlapping device requests are possible. The model runs calls sequentially, although `BeginStart`/`FinishStart` may be called in any order.
- TranslationPanel.Panel.FinishStart: requires the stream and timer ids to be fresh. The browser guarantees this and the model does not produce it.
- State updates after unmount. React discards `setText` and the other setters once the panel has unmounted. The model keeps updating the fields, but nothing reads them any more.
- Interval ids are modelled as `Some(id)`. A falsy id `0`, which the `if (intervalRef.current)` guard would skip, does not occur in browsers and is not modelled.
- `formatDate`/`toLocaleString`. This is locale formatting.
- All JSX rendering and animation, the "no data" placeholders, and the components for tabs (`src/App.jsx`), profile (`src/components/ProfileCard.jsx`) and hero section (`src/components/Hero.jsx`). None of these is part of this model.
