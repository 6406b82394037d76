/** The dashboard's statistics over the stored session history: the session
    count, the total of the recorded word counts, the frequency table of the
    words in the transcripts and its six most frequent entries, the rounded
    average, the six most recent sessions and the width of a frequency bar. */
module Dashboard {
  import opened Tokens
  import opened Storage

  // ---------------------------------------------------------------------
  // Loading and the totals

  /** The load on mount: the stored list, or the empty list when the slot is
      empty, missing or does not parse. */
  function Load(slot: Slot): (sessions: seq<SessionRecord>)
    ensures slot.Holds? ==> sessions == slot.records
    ensures !slot.Holds? ==> sessions == []
  {
    match Read(slot)
    case None => []
    case Some(records) => records
  }

  /** `b.words || 0`: a missing word count counts as zero. */
  function WordsOrZero(r: SessionRecord): int {
    match r.words
    case None => 0
    case Some(n) => n
  }

  /** The `reduce` that sums the recorded word counts, left to right. */
  function TotalWords(sessions: seq<SessionRecord>): int {
    if sessions == [] then 0
    else TotalWords(sessions[..|sessions| - 1]) + WordsOrZero(sessions[|sessions| - 1])
  }

  /** With no negative word count recorded, the total is not negative. */
  lemma {:induction false} TotalWordsNonNegative(sessions: seq<SessionRecord>)
    requires forall k :: 0 <= k < |sessions| ==> WordsOrZero(sessions[k]) >= 0
    ensures TotalWords(sessions) >= 0
  {
    if sessions != [] {
      TotalWordsNonNegative(sessions[..|sessions| - 1]);
    }
  }

  /** The total of a history with one more record in front. */
  lemma {:induction false} TotalWordsCons(r: SessionRecord, sessions: seq<SessionRecord>)
    ensures TotalWords([r] + sessions) == WordsOrZero(r) + TotalWords(sessions)
    decreases |sessions|
  {
    if sessions != [] {
      var init := sessions[..|sessions| - 1];
      assert ([r] + sessions)[..|sessions|] == [r] + init;
      TotalWordsCons(r, init);
    }
  }

  // ---------------------------------------------------------------------
  // The word-frequency table

  /** The tokens a session contributes: the non-empty whitespace-separated
      pieces of its text, none when it has no text. */
  function TokensOf(r: SessionRecord): seq<string> {
    match r.text
    case None => []
    case Some(t) => Words(t)
  }

  /** All tokens of all sessions, in the order the loops visit them. */
  function AllTokens(sessions: seq<SessionRecord>): seq<string> {
    if sessions == [] then []
    else AllTokens(sessions[..|sessions| - 1]) + TokensOf(sessions[|sessions| - 1])
  }

  /** A record as the live panel writes it: its count is the number of
      words of its text. */
  predicate PanelWritten(r: SessionRecord) {
    r.text.Some? && r.words == Some(|Words(r.text.value)|)
  }

  /** For records the live panel wrote, the "Total Words Transcribed" card
      and the frequency table count the same tokens. */
  lemma {:induction false} TotalWordsCountsTokens(sessions: seq<SessionRecord>)
    requires forall k :: 0 <= k < |sessions| ==> PanelWritten(sessions[k])
    ensures TotalWords(sessions) == |AllTokens(sessions)|
  {
    if sessions != [] {
      TotalWordsCountsTokens(sessions[..|sessions| - 1]);
      assert PanelWritten(sessions[|sessions| - 1]);
    }
  }

  /** `freq[w] || 0`. */
  function Count(freq: map<string, nat>, w: string): nat {
    if w in freq then freq[w] else 0
  }

  /** The table the counting loops build, as a function of the tokens they
      visit: each token adds one to its entry. */
  function Counts(tokens: seq<string>): map<string, nat> {
    if tokens == [] then map[]
    else
      var c := Counts(tokens[..|tokens| - 1]);
      var w := tokens[|tokens| - 1];
      c[w := Count(c, w) + 1]
  }

  /** The table's keys in insertion order: each token when first seen. */
  function FirstSeen(tokens: seq<string>): seq<string> {
    if tokens == [] then []
    else
      var o := FirstSeen(tokens[..|tokens| - 1]);
      var w := tokens[|tokens| - 1];
      if w in o then o else o + [w]
  }

  predicate Distinct(ws: seq<string>) {
    forall a, b :: 0 <= a < b < |ws| ==> ws[a] != ws[b]
  }

  /** `freq[w]` is the number of tokens equal to `w`, and exactly the words
      that occur have an entry. */
  lemma {:induction false} CountsAreMultiplicities(tokens: seq<string>)
    ensures forall w :: w in Counts(tokens) <==> w in tokens
    ensures forall w :: w in Counts(tokens) ==> Counts(tokens)[w] == multiset(tokens)[w]
  {
    if tokens != [] {
      var init := tokens[..|tokens| - 1];
      CountsAreMultiplicities(init);
      assert tokens == init + [tokens[|tokens| - 1]];
    }
  }

  /** The keys in insertion order are the distinct tokens. */
  lemma {:induction false} FirstSeenKeys(tokens: seq<string>)
    ensures forall w :: w in FirstSeen(tokens) <==> w in tokens
    ensures Distinct(FirstSeen(tokens))
  {
    if tokens != [] {
      var init := tokens[..|tokens| - 1];
      FirstSeenKeys(init);
      assert tokens == init + [tokens[|tokens| - 1]];
    }
  }

  /** One visited token: its entry goes up by one, and it becomes the last
      key if it had none. */
  lemma CountStep(seen: seq<string>, w: string)
    ensures Counts(seen + [w]) == Counts(seen)[w := Count(Counts(seen), w) + 1]
    ensures FirstSeen(seen + [w]) == if w in Counts(seen) then FirstSeen(seen) else FirstSeen(seen) + [w]
  {
  }

  lemma NonEmptyStep(parts: seq<string>, k: nat)
    requires k < |parts|
    ensures NonEmpty(parts[..k + 1]) == NonEmpty(parts[..k]) + (if parts[k] == "" then [] else [parts[k]])
  {
    assert parts[..k + 1][..k] == parts[..k];
  }

  lemma AllTokensStep(sessions: seq<SessionRecord>, n: nat)
    requires n < |sessions|
    ensures AllTokens(sessions[..n + 1]) == AllTokens(sessions[..n]) + TokensOf(sessions[n])
  {
    assert sessions[..n + 1][..n] == sessions[..n];
  }

  /** The inner `forEach`: over the pieces of one text split on whitespace,
      skipping empty pieces and adding one to each piece's entry (a new key
      goes last). */
  method CountPieces(parts: seq<string>, freq0: map<string, nat>, order0: seq<string>, ghost seen0: seq<string>)
    returns (freq: map<string, nat>, order: seq<string>)
    requires freq0 == Counts(seen0) && order0 == FirstSeen(seen0)
    ensures freq == Counts(seen0 + NonEmpty(parts)) && order == FirstSeen(seen0 + NonEmpty(parts))
  {
    freq, order := freq0, order0;
    var k := 0;
    ghost var seen := seen0;
    assert parts[..0] == [];
    while k < |parts|
      invariant 0 <= k <= |parts|
      invariant seen == seen0 + NonEmpty(parts[..k])
      invariant freq == Counts(seen) && order == FirstSeen(seen)
    {
      var w := parts[k];
      NonEmptyStep(parts, k);
      if w != "" {
        CountStep(seen, w);
        if w !in freq {
          order := order + [w];
        }
        assert order == FirstSeen(seen + [w]);
        freq := freq[w := Count(freq, w) + 1];
        assert freq == Counts(seen + [w]);
        seen := seen + [w];
      }
      k := k + 1;
    }
    assert parts[..k] == parts;
  }

  /** The nested `forEach` loops: over the sessions, and, for each session
      with a text, over the pieces of that text. */
  method Frequencies(sessions: seq<SessionRecord>) returns (freq: map<string, nat>, order: seq<string>)
    ensures freq == Counts(AllTokens(sessions)) && order == FirstSeen(AllTokens(sessions))
  {
    freq, order := map[], [];
    var n := 0;
    while n < |sessions|
      invariant 0 <= n <= |sessions|
      invariant freq == Counts(AllTokens(sessions[..n])) && order == FirstSeen(AllTokens(sessions[..n]))
    {
      AllTokensStep(sessions, n);
      var text := sessions[n].text;
      if text.Some? {
        freq, order := CountPieces(Split(text.value), freq, order, AllTokens(sessions[..n]));
      } else {
        assert AllTokens(sessions[..n + 1]) == AllTokens(sessions[..n]);
      }
      n := n + 1;
    }
    assert sessions[..n] == sessions;
  }

  // ---------------------------------------------------------------------
  // The table as entries, and the sum of its counts

  datatype Entry = Entry(word: string, count: nat)

  /** `Object.entries(freq)`: one entry per key, in key order. */
  function EntriesOf(freq: map<string, nat>, order: seq<string>): (es: seq<Entry>)
    ensures |es| == |order|
    ensures forall k :: 0 <= k < |es| ==> es[k] == Entry(order[k], Count(freq, order[k]))
  {
    if order == [] then []
    else EntriesOf(freq, order[..|order| - 1]) + [Entry(order[|order| - 1], Count(freq, order[|order| - 1]))]
  }

  /** The frequency table of the loaded sessions. */
  function Table(sessions: seq<SessionRecord>): seq<Entry> {
    var tokens := AllTokens(sessions);
    EntriesOf(Counts(tokens), FirstSeen(tokens))
  }

  function SumEntries(es: seq<Entry>): int {
    if es == [] then 0 else SumEntries(es[..|es| - 1]) + es[|es| - 1].count
  }

  lemma {:induction false} SumEntriesBump(freq: map<string, nat>, order: seq<string>, w: string, v: nat)
    requires Distinct(order)
    ensures SumEntries(EntriesOf(freq[w := v], order))
      == SumEntries(EntriesOf(freq, order)) + (if w in order then v - Count(freq, w) else 0)
  {
    if order != [] {
      var init := order[..|order| - 1];
      var last := order[|order| - 1];
      assert Distinct(init);
      assert last !in init;
      SumEntriesBump(freq, init, w, v);
      SumEntriesSnoc(EntriesOf(freq[w := v], init), Entry(last, Count(freq[w := v], last)));
      SumEntriesSnoc(EntriesOf(freq, init), Entry(last, Count(freq, last)));
    }
  }

  lemma SumEntriesSnoc(es: seq<Entry>, e: Entry)
    ensures SumEntries(es + [e]) == SumEntries(es) + e.count
  {
  }

  lemma EntriesSnoc(freq: map<string, nat>, order: seq<string>, w: string)
    ensures EntriesOf(freq, order + [w]) == EntriesOf(freq, order) + [Entry(w, Count(freq, w))]
  {
  }

  /** Visiting one more token adds one to the sum of the counts. */
  lemma SumAfterVisit(c: map<string, nat>, o: seq<string>, w: string)
    requires Distinct(o) && (w in o <==> w in c)
    ensures SumEntries(EntriesOf(c[w := Count(c, w) + 1], if w in o then o else o + [w]))
      == SumEntries(EntriesOf(c, o)) + 1
  {
    var c' := c[w := Count(c, w) + 1];
    SumEntriesBump(c, o, w, Count(c, w) + 1);
    if w !in o {
      EntriesSnoc(c', o, w);
      SumEntriesSnoc(EntriesOf(c', o), Entry(w, 1));
    }
  }

  /** The sum of all counts in the table is the number of tokens. */
  lemma {:induction false} CountsSumToTokens(tokens: seq<string>)
    ensures SumEntries(EntriesOf(Counts(tokens), FirstSeen(tokens))) == |tokens|
  {
    if tokens == [] {
      assert EntriesOf(Counts(tokens), FirstSeen(tokens)) == [];
    } else {
      var init := tokens[..|tokens| - 1];
      var w := tokens[|tokens| - 1];
      var c, o := Counts(init), FirstSeen(init);
      assert Counts(tokens) == c[w := Count(c, w) + 1];
      assert FirstSeen(tokens) == if w in o then o else o + [w];
      assert Distinct(o) && (w in o <==> w in c) by {
        FirstSeenKeys(init);
        CountsAreMultiplicities(init);
      }
      CountsSumToTokens(init);
      SumAfterVisit(c, o, w);
    }
  }

  /** The words of the table are exactly the words that occur, each once. */
  lemma TableWords(sessions: seq<SessionRecord>)
    ensures forall k :: 0 <= k < |Table(sessions)| ==> Table(sessions)[k].word in AllTokens(sessions)
    ensures forall w :: w in AllTokens(sessions) ==> exists k :: 0 <= k < |Table(sessions)| && Table(sessions)[k].word == w
    ensures forall a, b :: 0 <= a < b < |Table(sessions)| ==> Table(sessions)[a].word != Table(sessions)[b].word
  {
    var tokens := AllTokens(sessions);
    var o := FirstSeen(tokens);
    FirstSeenKeys(tokens);
    forall w | w in tokens ensures exists k :: 0 <= k < |Table(sessions)| && Table(sessions)[k].word == w {
      var k :| 0 <= k < |o| && o[k] == w;
      assert Table(sessions)[k].word == w;
    }
  }

  /** The counts of the table add up to the number of tokens. */
  lemma TableSum(sessions: seq<SessionRecord>)
    ensures SumEntries(Table(sessions)) == |AllTokens(sessions)|
  {
    CountsSumToTokens(AllTokens(sessions));
  }

  /** Every entry of the table counts the occurrences of its word. */
  lemma TableEntry(sessions: seq<SessionRecord>, k: nat)
    requires k < |Table(sessions)|
    ensures Table(sessions)[k].count == multiset(AllTokens(sessions))[Table(sessions)[k].word] >= 1
  {
    var tokens := AllTokens(sessions);
    CountsAreMultiplicities(tokens);
    FirstSeenKeys(tokens);
  }

  // ---------------------------------------------------------------------
  // Sorting by count and the top six

  predicate NonIncreasing(es: seq<Entry>) {
    forall a, b :: 0 <= a < b < |es| ==> es[a].count >= es[b].count
  }

  /** The larger of an entry's count and the first count of a sorted list. */
  function Peak(e: Entry, s: seq<Entry>): nat {
    if s == [] || e.count >= s[0].count then e.count else s[0].count
  }

  /** Inserts `e` into a list sorted by decreasing count, before the first
      entry with a smaller or equal count. */
  function Insert(e: Entry, s: seq<Entry>): seq<Entry> {
    if s == [] || e.count >= s[0].count then [e] + s
    else [s[0]] + Insert(e, s[1..])
  }

  /** Inserting adds exactly `e`. */
  lemma {:induction false} InsertPermutes(e: Entry, s: seq<Entry>)
    ensures multiset(Insert(e, s)) == multiset(s) + multiset{e}
  {
    if s != [] && e.count < s[0].count {
      InsertPermutes(e, s[1..]);
      assert s == [s[0]] + s[1..];
    }
  }

  /** Inserting into a sorted list brings in no count above the larger of
      `e`'s and the list's first. */
  lemma {:induction false} InsertBounded(e: Entry, s: seq<Entry>)
    requires NonIncreasing(s)
    ensures forall k :: 0 <= k < |Insert(e, s)| ==> Insert(e, s)[k].count <= Peak(e, s)
  {
    if s != [] && e.count < s[0].count {
      InsertBounded(e, s[1..]);
      assert Peak(e, s[1..]) <= s[0].count;
    }
  }

  /** Inserting into a sorted list keeps it sorted. */
  lemma {:induction false} InsertSorted(e: Entry, s: seq<Entry>)
    requires NonIncreasing(s)
    ensures NonIncreasing(Insert(e, s))
  {
    if s != [] && e.count < s[0].count {
      var rest := Insert(e, s[1..]);
      InsertSorted(e, s[1..]);
      InsertBounded(e, s[1..]);
      assert Peak(e, s[1..]) <= s[0].count;
      var r := [s[0]] + rest;
      forall a, b | 0 <= a < b < |r| ensures r[a].count >= r[b].count {
        assert r[b] == rest[b - 1];
        if a > 0 {
          assert r[a] == rest[a - 1];
        }
      }
    }
  }

  /** `sort((a, b) => b[1] - a[1])`: the entries by decreasing count. */
  function SortByCount(es: seq<Entry>): (r: seq<Entry>)
    ensures NonIncreasing(r)
    ensures multiset(r) == multiset(es)
  {
    if es == [] then []
    else
      assert es == [es[0]] + es[1..];
      InsertSorted(es[0], SortByCount(es[1..]));
      InsertPermutes(es[0], SortByCount(es[1..]));
      Insert(es[0], SortByCount(es[1..]))
  }

  /** `slice(0, 6)` of the sorted entries. */
  function TopWords(es: seq<Entry>): (top: seq<Entry>)
    ensures |top| == Min(6, |es|)
    ensures NonIncreasing(top)
  {
    var s := SortByCount(es);
    assert |s| == |multiset(s)| == |es|;
    s[..Min(6, |es|)]
  }

  /** The top six are taken from the table, and no entry left out has a
      larger count than any entry listed; with six entries or fewer, all of
      them are listed. */
  lemma TopWordsAreTop(es: seq<Entry>)
    ensures multiset(TopWords(es)) <= multiset(es)
    ensures |es| <= 6 ==> multiset(TopWords(es)) == multiset(es)
    ensures forall e, t :: e in multiset(es) - multiset(TopWords(es)) && t in TopWords(es) ==> e.count <= t.count
  {
    var s := SortByCount(es);
    assert |s| == |multiset(s)| == |es|;
    var m := Min(6, |es|);
    assert TopWords(es) == s[..m];
    assert s == s[..m] + s[m..];
    assert multiset(s) == multiset(s[..m]) + multiset(s[m..]);
    forall e, t | e in multiset(es) - multiset(s[..m]) && t in s[..m] ensures e.count <= t.count {
      assert e in multiset(s[m..]);
      Dominates(s, m, e, t);
    }
  }

  /** In a list sorted by decreasing count, no entry after position `m`
      has a larger count than one before it. */
  lemma Dominates(s: seq<Entry>, m: nat, e: Entry, t: Entry)
    requires NonIncreasing(s) && m <= |s|
    requires e in s[m..] && t in s[..m]
    ensures e.count <= t.count
  {
  }

  /** Each listed entry `(w, c)` has `c` equal to the number of occurrences
      of `w`, which is at least one. */
  lemma TopWordsCounts(sessions: seq<SessionRecord>)
    ensures forall t :: t in TopWords(Table(sessions)) ==> t.count == multiset(AllTokens(sessions))[t.word] >= 1
  {
    var table := Table(sessions);
    TopWordsAreTop(table);
    forall t | t in TopWords(table) ensures t.count == multiset(AllTokens(sessions))[t.word] >= 1 {
      assert t in multiset(table);
      var k :| 0 <= k < |table| && table[k] == t;
      TableEntry(sessions, k);
    }
  }

  // ---------------------------------------------------------------------
  // The stats memo and the derived values

  datatype Stats = Stats(totalSessions: nat, totalWords: int, topWords: seq<Entry>)

  /** The `stats` memo: the count, the total and the top six. */
  method ComputeStats(sessions: seq<SessionRecord>) returns (stats: Stats)
    ensures stats.totalSessions == |sessions| && stats.totalWords == TotalWords(sessions)
    ensures stats.topWords == TopWords(Table(sessions))
  {
    var freq, order := Frequencies(sessions);
    stats := Stats(|sessions|, TotalWords(sessions), TopWords(EntriesOf(freq, order)));
  }

  /** "Average Words/Session": zero without sessions, otherwise the total
      over the count rounded to the nearest integer, halves upward. */
  function Average(totalWords: int, n: nat): (r: int)
    ensures n == 0 ==> r == 0
    ensures n > 0 ==> 2 * n * r <= 2 * totalWords + n < 2 * n * r + 2 * n
  {
    if n == 0 then 0
    else
      var q := (2 * totalWords + n) / (2 * n);
      assert 2 * totalWords + n == q * (2 * n) + (2 * totalWords + n) % (2 * n);
      q
  }

  /** The "Recent Sessions" list: the first six stored, newest first. */
  function Recent(sessions: seq<SessionRecord>): (r: seq<SessionRecord>)
    ensures |r| == Min(6, |sessions|)
    ensures r <= sessions
  {
    sessions[..Min(6, |sessions|)]
  }

  /** The width, in percent, of the bar of a listed word. */
  function BarWidth(count: int): (w: int)
    ensures w <= 100
    ensures count >= 1 ==> w >= 20
    ensures w == 100 <==> count >= 9
  {
    Min(100, 10 + count * 10)
  }

  /** A larger count never gets a narrower bar. */
  lemma BarWidthMonotone(a: int, b: int)
    requires a <= b
    ensures BarWidth(a) <= BarWidth(b)
  {
  }

  /** When the slot is empty, missing or unparsable, every statistic is
      zero or empty. */
  lemma EmptyStats(slot: Slot)
    requires !slot.Holds? || slot.records == []
    ensures |Load(slot)| == 0 && TotalWords(Load(slot)) == 0
    ensures TopWords(Table(Load(slot))) == [] && Average(TotalWords(Load(slot)), |Load(slot)|) == 0
    ensures Recent(Load(slot)) == []
  {
  }

  /** After a successful save, the dashboard lists the new session first
      among the recent ones, followed by the previously most recent ones. */
  lemma RecentAfterSave(slot: Slot, rec: SessionRecord)
    requires Store(slot, rec, true).Some?
    ensures Recent(Load(Store(slot, rec, true).value))[0] == rec
    ensures Recent(Load(Store(slot, rec, true).value))[1..] == Recent(Load(slot))[..Min(5, |Load(slot)|)]
  {
  }

  /** A successful save below capacity adds the new record's count to the
      total. */
  lemma TotalAfterSave(slot: Slot, rec: SessionRecord)
    requires Store(slot, rec, true).Some? && |Load(slot)| < Capacity
    ensures TotalWords(Load(Store(slot, rec, true).value)) == WordsOrZero(rec) + TotalWords(Load(slot))
  {
    var h := Load(Store(slot, rec, true).value);
    assert h == [rec] + Load(slot);
    TotalWordsCons(rec, Load(slot));
  }
}
