/** Whitespace tokenisation of transcripts, as JavaScript's `split(/\s+/)`
    followed by `filter(Boolean)` performs it, and the single-space joining
    that the live panel uses to grow its transcript one word at a time. */
module Tokens {

  /** The characters the `\s` class of a JavaScript regular expression matches. */
  predicate IsSpace(c: char) {
    c == ' ' || c == '\t' || c == '\n' || c == '\U{B}' || c == '\U{C}' || c == '\r'
    || c == '\U{A0}' || c == '\U{1680}' || ('\U{2000}' <= c <= '\U{200A}')
    || c == '\U{2028}' || c == '\U{2029}' || c == '\U{202F}' || c == '\U{205F}'
    || c == '\U{3000}' || c == '\U{FEFF}'
  }

  predicate NoSpace(w: string) {
    forall k :: 0 <= k < |w| ==> !IsSpace(w[k])
  }

  /** A word: a non-empty run of non-whitespace characters. */
  predicate IsWord(w: string) {
    w != [] && NoSpace(w)
  }

  /** `s.split(/\s+/)`: the pieces between maximal runs of whitespace, in
      order, with an empty piece before a leading run and after a trailing
      one (so `"".split(/\s+/)` is `[""]`). Defined one character at a time:
      a non-space character joins the first piece of the rest, a space that
      another space follows belongs to the same run, and the last space of a
      run starts a new piece. */
  function Split(s: string): (parts: seq<string>)
    ensures |parts| >= 1
    ensures forall k :: 0 <= k < |parts| ==> NoSpace(parts[k])
  {
    if s == [] then [""]
    else
      var rest := Split(s[1..]);
      if !IsSpace(s[0]) then [[s[0]] + rest[0]] + rest[1..]
      else if |s| > 1 && IsSpace(s[1]) then rest
      else [""] + rest
  }

  /** `filter(Boolean)` on strings: drops the empty pieces, keeps the order. */
  function NonEmpty(parts: seq<string>): (r: seq<string>)
    ensures |r| <= |parts|
    ensures forall k :: 0 <= k < |r| ==> r[k] != []
  {
    if parts == [] then []
    else
      var last := parts[|parts| - 1];
      NonEmpty(parts[..|parts| - 1]) + (if last == [] then [] else [last])
  }

  /** Every piece `filter(Boolean)` keeps is one of the pieces it was given. */
  lemma {:induction false} NonEmptyKeeps(parts: seq<string>)
    ensures forall k :: 0 <= k < |NonEmpty(parts)| ==> NonEmpty(parts)[k] in parts
  {
    if parts != [] {
      var init := parts[..|parts| - 1];
      NonEmptyKeeps(init);
      assert forall x :: x in init ==> x in parts;
    }
  }

  /** The words of a text: its non-empty whitespace-separated segments. */
  function Words(s: string): (ws: seq<string>)
    ensures forall k :: 0 <= k < |ws| ==> IsWord(ws[k])
  {
    var parts := Split(s);
    NonEmptyKeeps(parts);
    NonEmpty(parts)
  }

  /** One emission's update of a transcript: the word alone when the
      transcript is empty, otherwise the transcript, one space and the word. */
  function Append(text: string, word: string): string {
    if |text| > 0 then text + " " + word else word
  }

  /** The transcript that emitting `ws`, in order, into an empty one produces. */
  function Join(ws: seq<string>): string {
    if ws == [] then "" else Append(Join(ws[..|ws| - 1]), ws[|ws| - 1])
  }

  /** The conventional single-space join, defined from the front. */
  function SpaceJoin(ws: seq<string>): string {
    if ws == [] then ""
    else if |ws| == 1 then ws[0]
    else ws[0] + " " + SpaceJoin(ws[1..])
  }

  // ---------------------------------------------------------------------
  // Helper facts about Split and NonEmpty on concatenations

  lemma {:induction false} SplitNoSpace(w: string)
    requires NoSpace(w)
    ensures Split(w) == [w]
  {
    if w != [] {
      assert !IsSpace(w[0]);
      assert NoSpace(w[1..]) by {
        forall k | 0 <= k < |w[1..]| ensures !IsSpace(w[1..][k]) { assert w[1..][k] == w[k + 1]; }
      }
      SplitNoSpace(w[1..]);
      assert [w[0]] + w[1..] == w;
    }
  }

  /** Appending one space and a space-free piece to a text that ends in a
      non-space character adds exactly that piece to its split. */
  lemma {:induction false} SplitSnoc(a: string, w: string)
    requires a != [] && !IsSpace(a[|a| - 1]) && NoSpace(w)
    ensures Split(a + " " + w) == Split(a) + [w]
  {
    var s := a + " " + w;
    assert s[1..] == if |a| == 1 then " " + w else a[1..] + " " + w;
    if |a| == 1 {
      var t := " " + w;
      assert t[1..] == w;
      SplitNoSpace(w);
      assert Split(t) == ["", w];
      assert a[1..] == [];
    } else {
      SplitSnoc(a[1..], w);
      assert s[1] == a[1];
    }
  }

  lemma {:induction false} NonEmptyConcat(a: seq<string>, b: seq<string>)
    ensures NonEmpty(a + b) == NonEmpty(a) + NonEmpty(b)
    decreases |b|
  {
    if b == [] {
      assert a + b == a;
    } else {
      var last := b[|b| - 1];
      assert (a + b)[..|a + b| - 1] == a + b[..|b| - 1];
      NonEmptyConcat(a, b[..|b| - 1]);
    }
  }

  lemma JoinShape(ws: seq<string>)
    requires forall k :: 0 <= k < |ws| ==> IsWord(ws[k])
    ensures Join(ws) == [] <==> ws == []
    ensures ws != [] ==> !IsSpace(Join(ws)[|Join(ws)| - 1])
  {
  }

  // ---------------------------------------------------------------------
  // Properties

  /** One emission adds exactly the emitted word to the words of a
      transcript (whose last character, if any, is not whitespace). */
  lemma WordsAppend(text: string, w: string)
    requires text == [] || !IsSpace(text[|text| - 1])
    requires IsWord(w)
    ensures Words(Append(text, w)) == Words(text) + [w]
  {
    SplitNoSpace(w);
    if text == [] {
      assert Split(text) == [""];
      assert NonEmpty([w]) == NonEmpty([]) + [w];
    } else {
      SplitSnoc(text, w);
      NonEmptyConcat(Split(text), [w]);
      assert NonEmpty([w]) == NonEmpty([]) + [w];
    }
  }

  /** Round trip: splitting the transcript that emitting `ws` produces gives
      back exactly `ws`, in emission order; in particular its word count is |ws|. */
  lemma {:induction false} WordsOfJoin(ws: seq<string>)
    requires forall k :: 0 <= k < |ws| ==> IsWord(ws[k])
    ensures Words(Join(ws)) == ws
  {
    if ws == [] {
      assert Split("") == [""];
      assert NonEmpty([""]) == NonEmpty([]) + [];
    } else {
      var init := ws[..|ws| - 1];
      WordsOfJoin(init);
      JoinShape(init);
      WordsAppend(Join(init), ws[|ws| - 1]);
      assert init + [ws[|ws| - 1]] == ws;
    }
  }

  /** The transcript is the emitted words joined by single spaces: the
      emission-order fold agrees with the conventional join. */
  lemma {:induction false} JoinIsSpaceJoin(ws: seq<string>)
    requires forall k :: 0 <= k < |ws| ==> IsWord(ws[k])
    ensures Join(ws) == SpaceJoin(ws)
    decreases |ws|
  {
    if |ws| >= 2 {
      var init := ws[..|ws| - 1];
      var last := ws[|ws| - 1];
      JoinIsSpaceJoin(init);
      JoinShape(init);
      if |ws| == 2 {
        assert init == [ws[0]];
        assert init[..0] == [];
        assert ws[1..] == [last];
      } else {
        assert init[1..] + [last] == ws[1..];
        SpaceJoinSnoc(init[1..], last);
      }
    } else if |ws| == 1 {
      assert ws[..0] == [];
    }
  }

  lemma {:induction false} SpaceJoinSnoc(ws: seq<string>, w: string)
    requires ws != []
    ensures SpaceJoin(ws + [w]) == SpaceJoin(ws) + " " + w
    decreases |ws|
  {
    if |ws| == 1 {
      assert (ws + [w])[1..] == [w];
    } else {
      assert (ws + [w])[1..] == ws[1..] + [w];
      SpaceJoinSnoc(ws[1..], w);
    }
  }
}
