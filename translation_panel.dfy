/** The live translation panel: a camera capture cycle drives a repeating
    timer that emits one vocabulary word per firing into the transcript (and,
    when voice was on at start, to the speech engine); the transcript can be
    saved once per capture cycle into the bounded session history.

    Device access, the timer's cadence, randomness, the clock, unique ids and
    local storage are parameters: `outcome` and `stream` stand for what the
    device request returns, `timer` for the id the browser gives a new
    interval, `i` for the random vocabulary index, `id`/`ts` for the new
    record's identifier and timestamp, `slot`/`writeOk` for the storage slot
    and whether writing it succeeds. */
module TranslationPanel {
  import opened Tokens
  import opened Storage

  /** The vocabulary the simulated recogniser draws from ("you" twice). */
  const DemoWords: seq<string> := [
    "hello", "how", "are", "you", "my", "name", "is", "thank", "you", "please",
    "good", "morning", "yes", "no", "help", "where", "what", "time", "meet", "later"
  ]

  /** Every vocabulary entry is a word: non-empty, without whitespace. */
  lemma VocabularyIsWords()
    ensures |DemoWords| == 20
    ensures forall k :: 0 <= k < |DemoWords| ==> IsWord(DemoWords[k])
  {
    forall k | 0 <= k < |DemoWords| ensures IsWord(DemoWords[k]) {
      LowercaseIsWord(DemoWords[k]);
    }
  }

  predicate Lowercase(w: string) {
    forall k :: 0 <= k < |w| ==> 'a' <= w[k] <= 'z'
  }

  /** A non-empty run of lower-case letters is a word. */
  lemma LowercaseIsWord(w: string)
    requires w != [] && Lowercase(w)
    ensures IsWord(w)
  {
  }

  /** How the awaited part of a start ends: the device request is refused,
      the stream is granted but the preview's `play()` rejects, or the
      request settles without an error (the preview plays, or there is no
      mounted preview and `play()` is skipped). */
  datatype DeviceOutcome = Denied | PlayRejected | Playing

  /** The ids a nullable reference reaches. */
  function Ref(r: Option<nat>): set<nat> {
    match r
    case None => {}
    case Some(x) => {x}
  }

  /** The save button is enabled only for a non-empty, not yet saved transcript. */
  predicate SaveEnabled(text: string, saved: bool) {
    text != [] && !saved
  }

  class Panel {
    var streaming: bool
    var connecting: bool
    var text: string
    var ttsEnabled: bool
    var sessionSaved: bool
    /** The interval id `intervalRef.current` holds. */
    var intervalRef: Option<nat>
    /** The intervals the browser is currently firing. */
    var timers: set<nat>
    /** The voice flag the running interval's closure captured at start. */
    var timerSpeaks: bool
    /** Whether `videoRef.current` is the mounted preview element. */
    var videoMounted: bool
    /** The stream attached as the preview's `srcObject`. */
    var srcObject: Option<nat>
    /** Streams whose tracks have not been stopped. */
    var liveStreams: set<nat>
    /** Words handed to the speech engine and not cancelled since. */
    var utterances: seq<string>
    /** Whether the browser offers a speech engine. */
    const hasEngine: bool
    /** Every word emitted into the transcript, in order. */
    ghost var emitted: seq<string>
    /** The random vocabulary indices those words were drawn with. */
    ghost var draws: seq<nat>

    ghost predicate Valid()
      reads this
    {
      // the transcript is the emitted vocabulary words joined by single spaces
      text == Join(emitted)
      && |draws| == |emitted|
      && (forall k :: 0 <= k < |emitted| ==> draws[k] < |DemoWords| && emitted[k] == DemoWords[draws[k]])
      // at most one interval runs, and it is the one intervalRef holds
      && timers <= Ref(intervalRef)
      && (timers != {} ==> streaming)
      && (!hasEngine ==> utterances == [])
    }

    /** Live streams no reference of the panel reaches any more: nothing in
        the panel can stop their tracks. */
    ghost function Orphaned(): set<nat>
      reads this
    {
      liveStreams - (if videoMounted then Ref(srcObject) else {})
    }

    /** Stopped: no capture, no interval, no queued speech. */
    ghost predicate Stopped()
      reads this
    {
      !streaming && intervalRef == None && timers == {}
      && (videoMounted ==> srcObject == None) && utterances == []
    }

    /** Every emitted word is a word, so the transcript splits back into
        exactly the emitted words. */
    lemma TranscriptWords()
      requires Valid()
      ensures Words(text) == emitted
      ensures text == [] || !IsSpace(text[|text| - 1])
    {
      VocabularyIsWords();
      assert forall k :: 0 <= k < |emitted| ==> IsWord(DemoWords[draws[k]]);
      WordsOfJoin(emitted);
      JoinShape(emitted);
    }

    /** The panel as first rendered. */
    constructor (hasEngine: bool)
      ensures Valid() && Stopped() && this.hasEngine == hasEngine
      ensures !connecting && text == [] && !ttsEnabled && !sessionSaved
      ensures videoMounted && liveStreams == {} && emitted == [] && draws == []
    {
      streaming, connecting, text, ttsEnabled, sessionSaved := false, false, "", false, false;
      intervalRef, timers, timerSpeaks := None, {}, false;
      videoMounted, srcObject, liveStreams := true, None, {};
      utterances := [];
      this.hasEngine := hasEngine;
      emitted, draws := [], [];
    }

    /** First step of a start: mark the panel as connecting before awaiting
        the device. Returns the voice flag the start's closure captures. */
    method BeginStart() returns (capturedVoice: bool)
      requires Valid()
      modifies this`connecting
      ensures Valid() && connecting && capturedVoice == ttsEnabled
    {
      connecting := true;
      capturedVoice := ttsEnabled;
    }

    /** Second step of a start, once the device request settles. A refusal
        changes nothing but `connecting`. A granted stream is attached to the
        preview. When the preview plays, the panel streams, forgets that the
        session was saved, clears any interval `intervalRef` still holds and
        starts one new interval, which speaks iff voice was on when the start
        began. The transcript is never cleared. */
    method FinishStart(capturedVoice: bool, outcome: DeviceOutcome, stream: nat, timer: nat)
      requires Valid()
      requires stream !in liveStreams && timer !in timers
      requires outcome == PlayRejected ==> videoMounted
      modifies this`connecting, this`liveStreams, this`srcObject, this`streaming
      modifies this`sessionSaved, this`intervalRef, this`timers, this`timerSpeaks
      ensures Valid() && !connecting
      ensures outcome == Denied ==>
        srcObject == old(srcObject) && liveStreams == old(liveStreams)
      ensures outcome != Denied ==>
        liveStreams == old(liveStreams) + {stream}
        && srcObject == (if videoMounted then Some(stream) else old(srcObject))
        && Orphaned() == old(Orphaned()) + (if videoMounted then old(Ref(srcObject) * liveStreams) else {stream})
      ensures outcome != Playing ==>
        streaming == old(streaming) && sessionSaved == old(sessionSaved)
        && intervalRef == old(intervalRef) && timers == old(timers) && timerSpeaks == old(timerSpeaks)
      ensures outcome == Playing ==>
        streaming && !sessionSaved && intervalRef == Some(timer) && timers == {timer}
        && timerSpeaks == capturedVoice
    {
      if outcome != Denied {
        Attach(stream);
        if outcome == Playing {
          StartInterval(timer, capturedVoice);
        }
      }
      connecting := false;
    }

    /** Attaching a granted stream as the preview's `srcObject` (when the
        preview is mounted); a stream attached before loses its reference. */
    method Attach(stream: nat)
      requires stream !in liveStreams
      modifies this`liveStreams, this`srcObject
      ensures liveStreams == old(liveStreams) + {stream}
      ensures srcObject == if videoMounted then Some(stream) else old(srcObject)
      ensures Orphaned() == old(Orphaned()) + (if videoMounted then old(Ref(srcObject) * liveStreams) else {stream})
    {
      liveStreams := liveStreams + {stream};
      if videoMounted {
        srcObject := Some(stream);
      }
    }

    /** The successful end of a start: streaming, not saved, and exactly one
        interval, the new one, after clearing the one `intervalRef` held. */
    method StartInterval(timer: nat, capturedVoice: bool)
      requires Valid() && timer !in timers
      modifies this`streaming, this`sessionSaved, this`intervalRef, this`timers, this`timerSpeaks
      ensures Valid()
      ensures streaming && !sessionSaved && intervalRef == Some(timer) && timers == {timer}
      ensures timerSpeaks == capturedVoice
    {
      streaming := true;
      sessionSaved := false;
      if intervalRef.Some? {
        timers := timers - {intervalRef.value};
      }
      intervalRef := Some(timer);
      timers := timers + {timer};
      timerSpeaks := capturedVoice;
    }

    /** `useSpeech`'s speak: a no-op unless enabled and an engine exists. */
    method Speak(enabled: bool, word: string)
      modifies this`utterances
      ensures utterances == if enabled && hasEngine then old(utterances) + [word] else old(utterances)
    {
      if enabled && hasEngine {
        utterances := utterances + [word];
      }
    }

    /** `useSpeech`'s cancel: drops queued speech; a no-op without an engine. */
    method Cancel()
      modifies this`utterances
      ensures utterances == if hasEngine then [] else old(utterances)
    {
      if hasEngine {
        utterances := [];
      }
    }

    /** One firing of the running interval with random index `i`: the word
        `DemoWords[i]` is appended to the transcript with single-space joining
        and spoken iff the interval's captured voice flag was on. */
    method Tick(i: nat) returns (word: string)
      requires Valid() && timers != {} && i < |DemoWords|
      modifies this`text, this`emitted, this`draws, this`utterances
      ensures Valid()
      ensures word == DemoWords[i]
      ensures text == Append(old(text), word) && emitted == old(emitted) + [word] && draws == old(draws) + [i]
      ensures Words(text) == emitted && Words(text) == old(Words(text)) + [word]
      ensures utterances == if timerSpeaks && hasEngine then old(utterances) + [word] else old(utterances)
    {
      TranscriptWords();
      word := DemoWords[i];
      text := Append(text, word);
      emitted, draws := emitted + [word], draws + [i];
      assert emitted[..|emitted| - 1] == old(emitted);
      TranscriptWords();
      Speak(timerSpeaks, word);
    }

    /** Stop: stop the attached stream's tracks and detach it, stop
        streaming, clear the interval and cancel speech. Stopping a stopped
        panel changes nothing. */
    method StopCamera()
      requires Valid()
      modifies this`liveStreams, this`srcObject, this`streaming, this`timers, this`intervalRef, this`utterances
      ensures Valid() && Stopped()
      ensures liveStreams == old(Orphaned()) && Orphaned() == old(Orphaned())
      ensures srcObject == (if videoMounted then None else old(srcObject))
      ensures text == old(text) && emitted == old(emitted) && ttsEnabled == old(ttsEnabled)
      ensures sessionSaved == old(sessionSaved) && connecting == old(connecting)
      ensures timerSpeaks == old(timerSpeaks) && videoMounted == old(videoMounted)
      ensures old(Stopped()) ==> unchanged(this)
    {
      StopAttached();
      streaming := false;
      ClearInterval();
      Cancel();
    }

    /** Stops the tracks of the stream the mounted preview holds and
        detaches it. */
    method StopAttached()
      modifies this`liveStreams, this`srcObject
      ensures liveStreams == old(Orphaned()) && Orphaned() == old(Orphaned())
      ensures srcObject == (if videoMounted then None else old(srcObject))
      ensures old(videoMounted ==> srcObject == None) ==> liveStreams == old(liveStreams)
    {
      if videoMounted && srcObject.Some? {
        liveStreams := liveStreams - {srcObject.value};
      }
      if videoMounted {
        srcObject := None;
      }
    }

    /** `clearInterval(intervalRef.current)` and `intervalRef.current = null`. */
    method ClearInterval()
      requires timers <= Ref(intervalRef)
      modifies this`timers, this`intervalRef
      ensures timers == {} && intervalRef == None
    {
      if intervalRef.Some? {
        timers := timers - {intervalRef.value};
      }
      intervalRef := None;
    }

    /** Stops the tracks of the stream `s` refers to, if any. */
    method StopTracks(s: Option<nat>)
      modifies this`liveStreams
      ensures liveStreams == old(liveStreams) - Ref(s)
    {
      if s.Some? {
        liveStreams := liveStreams - {s.value};
      }
    }

    /** The unmount cleanup as written. React has already detached the
        preview element from `videoRef` when the cleanup runs, so the
        cleanup clears the interval but reads a null `srcObject` and stops
        no track: every stream that was live stays live, and none is
        reachable any more. */
    method Teardown()
      requires Valid()
      modifies this`timers, this`liveStreams, this`videoMounted
      ensures Valid() && !videoMounted && timers == {}
      ensures liveStreams == old(liveStreams) && Orphaned() == liveStreams
      ensures intervalRef == old(intervalRef) && srcObject == old(srcObject)
      ensures streaming == old(streaming) && connecting == old(connecting) && text == old(text)
      ensures emitted == old(emitted) && ttsEnabled == old(ttsEnabled) && sessionSaved == old(sessionSaved)
      ensures timerSpeaks == old(timerSpeaks) && utterances == old(utterances)
    {
      videoMounted := false;
      if intervalRef.Some? {
        timers := timers - {intervalRef.value};
      }
      StopTracks(if videoMounted then srcObject else None);
    }

    /** The unmount cleanup with the preview element saved when the effect
        ran: the element keeps its `srcObject` after React detaches it, so
        the attached stream's tracks are stopped. No interval keeps running,
        and only streams already unreachable stay live. */
    method TeardownSavedRef()
      requires Valid()
      modifies this`timers, this`liveStreams, this`videoMounted
      ensures Valid() && !videoMounted && timers == {}
      ensures liveStreams == old(liveStreams) - old(Ref(srcObject))
      ensures old(videoMounted) ==> liveStreams == old(Orphaned())
      ensures intervalRef == old(intervalRef) && srcObject == old(srcObject)
      ensures streaming == old(streaming) && connecting == old(connecting) && text == old(text)
      ensures emitted == old(emitted) && ttsEnabled == old(ttsEnabled) && sessionSaved == old(sessionSaved)
      ensures timerSpeaks == old(timerSpeaks) && utterances == old(utterances)
    {
      var element := srcObject;
      videoMounted := false;
      if intervalRef.Some? {
        timers := timers - {intervalRef.value};
      }
      StopTracks(element);
    }

    /** The voice button: flips `ttsEnabled` and nothing else; in particular
        a running interval keeps the flag it captured. */
    method ToggleVoice()
      requires Valid()
      modifies this`ttsEnabled
      ensures Valid() && ttsEnabled == !old(ttsEnabled)
    {
      ttsEnabled := !ttsEnabled;
    }

    /** `saveSession`: prepend a record of the transcript to the stored
        history (cut to 50) and mark the session saved; when storage cannot
        be read, parsed or written, nothing changes. The record's word count
        is the number of words emitted into the transcript. */
    method SaveSession(slot: Slot, id: string, ts: int, writeOk: bool) returns (newSlot: Slot)
      requires Valid()
      modifies this`sessionSaved
      ensures Valid()
      ensures Store(slot, NewRecord(id, text, ts), writeOk).Some? ==>
        newSlot == Store(slot, NewRecord(id, text, ts), writeOk).value && sessionSaved
      ensures Store(slot, NewRecord(id, text, ts), writeOk).None? ==>
        newSlot == slot && sessionSaved == old(sessionSaved)
      ensures NewRecord(id, text, ts) == SessionRecord(id, Some(text), ts, Some(|emitted|))
    {
      TranscriptWords();
      var r := Store(slot, NewRecord(id, text, ts), writeOk);
      if r.Some? {
        newSlot := r.value;
        sessionSaved := true;
      } else {
        newSlot := slot;
      }
    }

    /** The save button: `saveSession` when enabled, otherwise nothing. */
    method ClickSave(slot: Slot, id: string, ts: int, writeOk: bool) returns (newSlot: Slot)
      requires Valid()
      modifies this`sessionSaved
      ensures Valid()
      ensures !SaveEnabled(text, old(sessionSaved)) ==> newSlot == slot && sessionSaved == old(sessionSaved)
      ensures SaveEnabled(text, old(sessionSaved)) && Store(slot, NewRecord(id, text, ts), writeOk).Some? ==>
        newSlot == Store(slot, NewRecord(id, text, ts), writeOk).value && sessionSaved
      ensures SaveEnabled(text, old(sessionSaved)) && Store(slot, NewRecord(id, text, ts), writeOk).None? ==>
        newSlot == slot && !sessionSaved
      ensures NewRecord(id, text, ts) == SessionRecord(id, Some(text), ts, Some(|emitted|))
    {
      TranscriptWords();
      if SaveEnabled(text, sessionSaved) {
        newSlot := SaveSession(slot, id, ts, writeOk);
      } else {
        newSlot := slot;
      }
    }
  }

  /** Two clicks on save without a start in between add at most one record:
      once a save succeeds, the second click finds the button disabled; when
      the first fails, the second is a first save. */
  method SaveTwice(p: Panel, slot: Slot, id1: string, ts1: int, ok1: bool, id2: string, ts2: int, ok2: bool)
    returns (mid: Slot, last: Slot)
    requires p.Valid() && SaveEnabled(p.text, p.sessionSaved)
    modifies p`sessionSaved
    ensures ok1 && Read(slot).Some? ==>
      mid == Holds(Push(Read(slot).value, NewRecord(id1, p.text, ts1))) && last == mid && p.sessionSaved
    ensures !(ok1 && Read(slot).Some?) ==> mid == slot
    ensures !(ok1 && Read(slot).Some?) && ok2 && Read(slot).Some? ==>
      last == Holds(Push(Read(slot).value, NewRecord(id2, p.text, ts2))) && p.sessionSaved
    ensures !(ok1 && Read(slot).Some?) && !(ok2 && Read(slot).Some?) ==> last == slot && !p.sessionSaved
  {
    mid := p.ClickSave(slot, id1, ts1, ok1);
    last := p.ClickSave(mid, id2, ts2, ok2);
  }

  /** A fresh panel whose first start succeeds: streaming, an interval
      running, nothing transcribed and nothing saved. */
  method StartFresh(hasEngine: bool) returns (p: Panel)
    ensures fresh(p) && p.Valid() && p.timers != {} && p.emitted == [] && p.text == [] && !p.sessionSaved
  {
    p := new Panel(hasEngine);
    var voice := p.BeginStart();
    p.FinishStart(voice, Playing, 1, 1);
  }

  /** Two firings drawing indices i and j transcribe "<first> <second>". */
  method TickTwice(p: Panel, i: nat, j: nat)
    requires p.Valid() && p.timers != {} && p.emitted == [] && p.text == []
    requires i < |DemoWords| && j < |DemoWords|
    modifies p`text, p`emitted, p`draws, p`utterances
    ensures p.Valid() && |p.emitted| == 2 && p.text == DemoWords[i] + " " + DemoWords[j]
  {
    var w1 := p.Tick(i);
    VocabularyIsWords();
    assert w1 != [];
    var w2 := p.Tick(j);
  }

  /** A whole capture cycle: a start succeeds, the interval fires twice
      drawing indices i and j, the transcript reads "<first> <second>" (with
      i = 0 and j = 1, "hello how"), a save stores that text with a word
      count of 2 as the only record of an empty history, and a second save in
      the same cycle adds nothing. */
  method TwoWordCycle(i: nat, j: nat, id: string, ts: int) returns (slot: Slot, saved: bool, again: Slot)
    requires i < |DemoWords| && j < |DemoWords|
    ensures slot == Holds([SessionRecord(id, Some(DemoWords[i] + " " + DemoWords[j]), ts, Some(2))])
    ensures saved && again == slot
  {
    var p := StartFresh(true);
    TickTwice(p, i, j);
    var rec := SessionRecord(id, Some(p.text), ts, Some(2));
    assert Push([], rec) == [rec];
    slot := p.ClickSave(Absent, id, ts, true);
    saved := p.sessionSaved;
    again := p.ClickSave(slot, id, ts, true);
  }

  /** Unmounting the panel while it streams, with the cleanup as written:
      the interval stops, but the camera stream stays live. */
  method UnmountWhileStreaming(stream: nat, timer: nat) returns (live: set<nat>, running: set<nat>, mounted: bool)
    ensures live == {stream} && running == {} && !mounted
  {
    var p := new Panel(true);
    var voice := p.BeginStart();
    p.FinishStart(voice, Playing, stream, timer);
    p.Teardown();
    live, running, mounted := p.liveStreams, p.timers, p.videoMounted;
  }

  /** The same with the cleanup that saves the element: nothing stays live. */
  method UnmountWhileStreamingSavedRef(stream: nat, timer: nat) returns (live: set<nat>, running: set<nat>, mounted: bool)
    ensures live == {} && running == {} && !mounted
  {
    var p := new Panel(true);
    var voice := p.BeginStart();
    p.FinishStart(voice, Playing, stream, timer);
    p.TeardownSavedRef();
    live, running, mounted := p.liveStreams, p.timers, p.videoMounted;
  }

  /** A start still awaiting the device when the panel unmounts completes
      afterwards: the granted stream is live without any reference to it,
      a new interval runs that no cleanup will clear, and its firings still
      speak (voice was on at start, and an engine exists). This holds with
      either cleanup. */
  method StartPendingAtUnmount(stream: nat, timer: nat, i: nat, savedRef: bool)
    returns (live: set<nat>, running: set<nat>, spoken: seq<string>)
    requires i < |DemoWords|
    ensures live == {stream} && running == {timer} && spoken == [DemoWords[i]]
  {
    var p := UnmountDuringStart(stream, timer, savedRef);
    var w := p.Tick(i);
    live, running, spoken := p.liveStreams, p.timers, p.utterances;
  }

  /** Voice on, a start begins, the panel unmounts, and then the device
      request settles without an error. */
  method UnmountDuringStart(stream: nat, timer: nat, savedRef: bool) returns (p: Panel)
    ensures fresh(p) && p.Valid() && !p.videoMounted && p.hasEngine && p.timerSpeaks
    ensures p.liveStreams == {stream} && p.Orphaned() == {stream} && p.timers == {timer} && p.utterances == []
  {
    p := new Panel(true);
    p.ToggleVoice();
    var voice := p.BeginStart();
    if savedRef {
      p.TeardownSavedRef();
    } else {
      p.Teardown();
    }
    assert p.Valid() && p.liveStreams == {} && p.timers == {} && !p.videoMounted && voice;
    p.FinishStart(voice, Playing, stream, timer);
  }

  /** A whole start whose device request is refused leaves transcript,
      streaming, saved flag and interval as they were, and the panel is no
      longer connecting. */
  method FailedStart(p: Panel, stream: nat, timer: nat)
    requires p.Valid() && stream !in p.liveStreams && timer !in p.timers
    modifies p
    ensures p.Valid() && !p.connecting
    ensures p.text == old(p.text) && p.streaming == old(p.streaming) && p.sessionSaved == old(p.sessionSaved)
    ensures p.intervalRef == old(p.intervalRef) && p.timers == old(p.timers)
  {
    var voice := p.BeginStart();
    p.FinishStart(voice, Denied, stream, timer);
  }
}
