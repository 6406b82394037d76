/** The `sb_sessions` slot of the browser's local storage, which the live
    panel writes and the dashboard reads: a JSON array of session records,
    newest first, at most 50 long. */
module Storage {
  import opened Tokens

  datatype Option<T> = None | Some(value: T)

  /** One stored session `{id, text, ts, words}`. The panel always writes
      `text` and `words`; readers of the slot treat either as possibly
      missing, so both are optional here. */
  datatype SessionRecord = SessionRecord(id: string, text: Option<string>, ts: int, words: Option<int>)

  /** What the slot holds: nothing (or the empty string), a parsable array of
      records, or text that `JSON.parse` rejects. */
  datatype Slot = Absent | Holds(records: seq<SessionRecord>) | Unparsable

  /** The history keeps at most this many records. */
  const Capacity: nat := 50

  function Min(a: int, b: int): int { if a <= b then a else b }

  /** `JSON.parse(localStorage.getItem('sb_sessions') || '[]')`: an empty or
      missing slot reads as the empty list; None stands for a parse error. */
  function Read(slot: Slot): Option<seq<SessionRecord>> {
    match slot
    case Absent => Some([])
    case Holds(records) => Some(records)
    case Unparsable => None
  }

  /** The record a save of transcript `text` writes. */
  function NewRecord(id: string, text: string, ts: int): SessionRecord {
    SessionRecord(id, Some(text), ts, Some(|Words(text)|))
  }

  /** `sessions.unshift(rec)` followed by `sessions.slice(0, 50)`. */
  function Push(history: seq<SessionRecord>, rec: SessionRecord): (h: seq<SessionRecord>)
    ensures |h| == Min(|history| + 1, Capacity)
    ensures h[0] == rec
    ensures forall k :: 1 <= k < |h| ==> h[k] == history[k - 1]
  {
    ([rec] + history)[..Min(|history| + 1, Capacity)]
  }

  /** The read-modify-write of the slot that saving a session performs:
      None when reading, parsing or writing fails (the slot is then left as
      it was), otherwise the slot holding the new history. */
  function Store(slot: Slot, rec: SessionRecord, writeOk: bool): (r: Option<Slot>)
    ensures r.Some? <==> writeOk && !slot.Unparsable?
    ensures r.Some? ==> Read(slot).Some? && r.value.Holds?
    ensures r.Some? ==> |r.value.records| == Min(|Read(slot).value| + 1, Capacity)
    ensures r.Some? ==> r.value.records[0] == rec && r.value.records[1..] == Read(slot).value[..|r.value.records| - 1]
  {
    match Read(slot)
    case None => None
    case Some(history) =>
      if writeOk then
        var h := Push(history, rec);
        assert h[1..] == history[..|h| - 1];
        Some(Holds(h))
      else None
  }

  /** The records `recs` pushed one after the other, oldest first. */
  function PushAll(history: seq<SessionRecord>, recs: seq<SessionRecord>): seq<SessionRecord> {
    if recs == [] then history else Push(PushAll(history, recs[..|recs| - 1]), recs[|recs| - 1])
  }

  function Reverse<T>(s: seq<T>): (r: seq<T>)
    ensures |r| == |s|
    ensures forall k :: 0 <= k < |s| ==> r[k] == s[|s| - 1 - k]
  {
    if s == [] then [] else [s[|s| - 1]] + Reverse(s[..|s| - 1])
  }

  /** Bounded newest-first history: after any sequence of saves the history
      is the newest records first, followed by the older history, cut to the
      capacity. Saving 55 records into an empty history, for one, leaves the
      50 most recent, newest first. */
  lemma {:induction false} PushAllKeepsNewest(history: seq<SessionRecord>, recs: seq<SessionRecord>)
    requires recs != [] || |history| <= Capacity
    ensures PushAll(history, recs) == (Reverse(recs) + history)[..Min(|recs| + |history|, Capacity)]
    ensures |PushAll(history, recs)| == Min(|recs| + |history|, Capacity)
  {
    if recs == [] {
      assert Reverse(recs) + history == history;
    } else {
      var init := recs[..|recs| - 1];
      var last := recs[|recs| - 1];
      var before := PushAll(history, init);
      var after := Push(before, last);
      var want := (Reverse(recs) + history)[..Min(|recs| + |history|, Capacity)];
      assert Reverse(recs) == [last] + Reverse(init);
      if init == [] && |history| > Capacity {
        assert before == history;
      } else {
        PushAllKeepsNewest(history, init);
      }
      assert |after| == |want|;
      forall k | 0 <= k < |after| ensures after[k] == want[k] {
        if k > 0 {
          assert after[k] == before[k - 1];
        }
      }
    }
  }
}
