/**
 * The sentence segmenter of `llm_response` (llm.py): the streamed completion
 * is scanned character by character and cut into speakable segments, each
 * handed to `put_msg_txt`. A segment is cut at a split-point character once
 * the text accumulated since the previous cut is longer than ten characters;
 * whatever is left when the stream ends is handed over once more.
 *
 * The method `LlmResponse` keeps the loop structure of the source (an
 * accumulator `result`, a position `lastpos` inside the current chunk, slices
 * of the chunk). It is proved equal to `Segments`, a reference definition that
 * pushes one character at a time, and `Segments` is in turn characterised as
 * the only segmentation that is lossless, cuts only at split points after the
 * threshold, and never cuts later than it could.
 */
module Segmenter {

  /** The split-point characters: ASCII `,.!;:` and the full-width `，。！？：；`. */
  const SPLIT_POINTS: string := ",.!;:，。！？：；"

  /** An accumulator longer than this is emitted at the next split point. */
  const THRESHOLD: nat := 10

  predicate IsSplit(c: char) {
    c in SPLIT_POINTS
  }

  /** One entry of a chunk's `choices` list: its `delta.content`. */
  datatype Choice = Choice(content: string)

  /** One chunk of the streamed completion. */
  datatype Chunk = Chunk(choices: seq<Choice>)

  /** The text the scanner reads: the first choice's content of every chunk that has a choice, in order. */
  function StreamText(completion: seq<Chunk>): string
    decreases |completion|
  {
    if completion == [] then []
    else
      var last := completion[|completion| - 1];
      StreamText(completion[..|completion| - 1]) + (if |last.choices| > 0 then last.choices[0].content else [])
  }

  /** Concatenation of strings, in order. */
  function Concat(parts: seq<string>): string
    decreases |parts|
  {
    if parts == [] then [] else parts[0] + Concat(parts[1..])
  }

  // ---------------------------------------------------------------------------
  // Reference definition: one character at a time
  // ---------------------------------------------------------------------------

  /** The scanner's state: the segments passed to `put_msg_txt` so far and the accumulator `result`. */
  datatype Segmentation = Segmentation(sent: seq<string>, result: string)

  const INITIAL: Segmentation := Segmentation([], "")

  /** Append one character to the accumulator; at a split point past the threshold, emit and clear it. */
  function Push(s: Segmentation, c: char): Segmentation {
    var result := s.result + [c];
    if IsSplit(c) && |result| > THRESHOLD then Segmentation(s.sent + [result], "")
    else Segmentation(s.sent, result)
  }

  /** Push every character of `text`, in order. */
  function Run(s: Segmentation, text: string): Segmentation
    decreases |text|
  {
    if text == [] then s else Push(Run(s, text[..|text| - 1]), text[|text| - 1])
  }

  /** No split point at or past the threshold index: the accumulator could not have been emitted yet. */
  predicate Quiet(s: string) {
    forall j :: 0 <= j < |s| && IsSplit(s[j]) ==> j < THRESHOLD
  }

  /**
   * An in-loop emission: longer than the threshold, ends with a split point,
   * and every earlier split point lies below the threshold index (so no
   * shorter prefix could have been emitted).
   */
  predicate IsEmission(e: string) {
    |e| > THRESHOLD && IsSplit(e[|e| - 1]) && Quiet(e[..|e| - 1])
  }

  /** What the state satisfies at every step: all emissions are proper and the accumulator is quiet. */
  predicate WellFormed(s: Segmentation) {
    (forall i :: 0 <= i < |s.sent| ==> IsEmission(s.sent[i])) && Quiet(s.result)
  }

  /**
   * A segmentation of `text` as the source produces it: the in-loop emissions
   * followed by exactly one final leftover, together spelling `text`.
   */
  predicate ValidSegmentation(p: seq<string>, text: string) {
    && |p| >= 1
    && Concat(p) == text
    && (forall i :: 0 <= i < |p| - 1 ==> IsEmission(p[i]))
    && Quiet(p[|p| - 1])
  }

  // ---------------------------------------------------------------------------
  // Lemmas about the reference definition
  // ---------------------------------------------------------------------------

  lemma {:induction false} ConcatSnoc(parts: seq<string>, e: string)
    ensures Concat(parts + [e]) == Concat(parts) + e
    decreases |parts|
  {
    if parts == [] {
      assert [e][1..] == [];
    } else {
      assert (parts + [e])[1..] == parts[1..] + [e];
      ConcatSnoc(parts[1..], e);
    }
  }

  lemma RunSnoc(s: Segmentation, text: string, c: char)
    ensures Run(s, text + [c]) == Push(Run(s, text), c)
  {
    assert (text + [c])[..|text|] == text;
  }

  /** Feeding two pieces of text one after the other is feeding their concatenation. */
  lemma {:induction false} RunAppend(s: Segmentation, a: string, b: string)
    ensures Run(s, a + b) == Run(Run(s, a), b)
    decreases |b|
  {
    if b == [] {
      assert a + b == a;
    } else {
      var b' := b[..|b| - 1];
      var c := b[|b| - 1];
      assert b == b' + [c];
      assert a + b == (a + b') + [c];
      RunAppend(s, a, b');
      RunSnoc(s, a + b', c);
      RunSnoc(Run(s, a), b', c);
    }
  }

  /** Emissions are only ever appended: what was sent stays sent. */
  lemma {:induction false} RunExtendsSent(s: Segmentation, text: string)
    ensures |Run(s, text).sent| >= |s.sent|
    ensures Run(s, text).sent[..|s.sent|] == s.sent
    decreases |text|
  {
    if text != [] {
      RunExtendsSent(s, text[..|text| - 1]);
    }
  }

  /** Nothing is lost or reordered: emissions plus accumulator spell the text fed so far. */
  lemma {:induction false} RunLossless(s: Segmentation, text: string)
    ensures Concat(Run(s, text).sent) + Run(s, text).result == Concat(s.sent) + s.result + text
    decreases |text|
  {
    if text != [] {
      var t := text[..|text| - 1];
      var c := text[|text| - 1];
      var r := Run(s, t);
      RunLossless(s, t);
      assert text == t + [c];
      if IsSplit(c) && |r.result + [c]| > THRESHOLD {
        ConcatSnoc(r.sent, r.result + [c]);
        calc {
          Concat(Run(s, text).sent) + Run(s, text).result;
          Concat(r.sent + [r.result + [c]]) + "";
          Concat(r.sent) + (r.result + [c]);
          (Concat(r.sent) + r.result) + [c];
        }
      } else {
        assert Concat(Run(s, text).sent) + Run(s, text).result == (Concat(r.sent) + r.result) + [c];
      }
    }
  }

  /** One push keeps the state well formed: this is where the threshold and minimality come from. */
  lemma PushWellFormed(s: Segmentation, c: char)
    requires WellFormed(s)
    ensures WellFormed(Push(s, c))
  {
    var result := s.result + [c];
    assert result[..|result| - 1] == s.result;
    if !(IsSplit(c) && |result| > THRESHOLD) {
      forall j | 0 <= j < |result| && IsSplit(result[j])
        ensures j < THRESHOLD
      {
        if j < |s.result| {
          assert result[j] == s.result[j];
        }
      }
    }
  }

  lemma {:induction false} RunWellFormed(s: Segmentation, text: string)
    requires WellFormed(s)
    ensures WellFormed(Run(s, text))
    decreases |text|
  {
    if text != [] {
      RunWellFormed(s, text[..|text| - 1]);
      PushWellFormed(Run(s, text[..|text| - 1]), text[|text| - 1]);
    }
  }

  /** Right after an emission the accumulator is empty. */
  lemma EmissionClearsResult(s: Segmentation, text: string, c: char)
    requires |Run(s, text + [c]).sent| > |Run(s, text).sent|
    ensures Run(s, text + [c]).result == ""
    ensures Run(s, text + [c]).sent == Run(s, text).sent + [Run(s, text).result + [c]]
  {
    RunSnoc(s, text, c);
  }

  /**
   * Everything `put_msg_txt` receives for a stream whose text is `text`:
   * the in-loop emissions, then the leftover, once, even when it is empty.
   */
  function Segments(text: string): (p: seq<string>)
    ensures ValidSegmentation(p, text)
    ensures |p| == |Run(INITIAL, text).sent| + 1
    ensures p[|p| - 1] == Run(INITIAL, text).result
  {
    var s := Run(INITIAL, text);
    RunLossless(INITIAL, text);
    RunWellFormed(INITIAL, text);
    ConcatSnoc(s.sent, s.result);
    s.sent + [s.result]
  }

  // ---------------------------------------------------------------------------
  // Segments is the only valid segmentation
  // ---------------------------------------------------------------------------

  /** An emission followed by anything is not quiet: its last split point is at or past the threshold. */
  lemma EmissionBreaksQuiet(e: string, rest: string)
    requires IsEmission(e)
    ensures !Quiet(e + rest)
  {
    var j := |e| - 1;
    assert (e + rest)[j] == e[j];
  }

  /** Two emissions that both start a text are the same emission. */
  lemma FirstEmissionUnique(x: string, xs: string, y: string, ys: string)
    requires IsEmission(x) && IsEmission(y)
    requires x + xs == y + ys
    requires |x| <= |y|
    ensures x == y
  {
    assert x == (x + xs)[..|x|] == (y + ys)[..|y|] == y;
  }

  /** A valid segmentation is determined by its text. */
  lemma {:induction false} SegmentationUnique(p: seq<string>, q: seq<string>, text: string)
    requires ValidSegmentation(p, text) && ValidSegmentation(q, text)
    ensures p == q
    decreases |p|
  {
    assert Concat(p) == p[0] + Concat(p[1..]);
    assert Concat(q) == q[0] + Concat(q[1..]);
    if |p| == 1 && |q| == 1 {
      assert p[1..] == [] && q[1..] == [];
      assert p[0] == text == q[0];
      assert p == [p[0]] && q == [q[0]];
    } else if |p| == 1 {
      EmissionBreaksQuiet(q[0], Concat(q[1..]));
      assert false;
    } else if |q| == 1 {
      EmissionBreaksQuiet(p[0], Concat(p[1..]));
      assert false;
    } else {
      if |p[0]| <= |q[0]| {
        FirstEmissionUnique(p[0], Concat(p[1..]), q[0], Concat(q[1..]));
      } else {
        FirstEmissionUnique(q[0], Concat(q[1..]), p[0], Concat(p[1..]));
      }
      var rest := text[|p[0]|..];
      assert Concat(p[1..]) == rest == Concat(q[1..]);
      assert forall i :: 0 <= i < |p| - 2 ==> p[1..][i] == p[i + 1];
      assert forall i :: 0 <= i < |q| - 2 ==> q[1..][i] == q[i + 1];
      SegmentationUnique(p[1..], q[1..], rest);
      assert p == [p[0]] + p[1..];
      assert q == [q[0]] + q[1..];
    }
  }

  /** Characterisation: the segments are exactly the valid segmentation of the text. */
  lemma SegmentsCharacterised(p: seq<string>, text: string)
    ensures ValidSegmentation(p, text) <==> p == Segments(text)
  {
    if ValidSegmentation(p, text) {
      SegmentationUnique(p, Segments(text), text);
    }
  }

  /** A chunk whose `choices` list is empty contributes no text, and hence changes no emission. */
  lemma {:induction false} EmptyChunkIgnored(before: seq<Chunk>, after: seq<Chunk>, empty: Chunk)
    requires |empty.choices| == 0
    ensures StreamText(before + [empty] + after) == StreamText(before + after)
    ensures Segments(StreamText(before + [empty] + after)) == Segments(StreamText(before + after))
    decreases |after|
  {
    if after == [] {
      assert (before + [empty])[..|before|] == before;
      assert before + [empty] + after == before + [empty];
      assert before + after == before;
    } else {
      var a' := after[..|after| - 1];
      var last := after[|after| - 1];
      assert (before + [empty] + after)[..|before + [empty] + after| - 1] == before + [empty] + a';
      assert (before + after)[..|before + after| - 1] == before + a';
      assert (before + [empty] + after)[|before + [empty] + after| - 1] == last;
      assert (before + after)[|before + after| - 1] == last;
      EmptyChunkIgnored(before, a', empty);
    }
  }

  // ---------------------------------------------------------------------------
  // The loop of llm_response
  // ---------------------------------------------------------------------------

  /**
   * The inner loop of `llm_response` over one chunk's content `msg`: at each
   * split point the text since `lastpos` joins the accumulator, which is
   * emitted and cleared once longer than the threshold; the tail after the
   * last split point is carried into the accumulator.
   */
  method ScanMessage(sent0: seq<string>, result0: string, msg: string) returns (sent: seq<string>, result: string)
    ensures Segmentation(sent, result) == Run(Segmentation(sent0, result0), msg)
  {
    ghost var before := Segmentation(sent0, result0);
    sent, result := sent0, result0;
    var lastpos := 0;
    var i := 0;
    assert result + msg[lastpos..i] == result && msg[..i] == [];
    while i < |msg|
      invariant 0 <= lastpos <= i <= |msg|
      invariant Segmentation(sent, result + msg[lastpos..i]) == Run(before, msg[..i])
    {
      var ch := msg[i];
      assert msg[..i + 1] == msg[..i] + [ch];
      RunSnoc(before, msg[..i], ch);
      assert result + msg[lastpos..i + 1] == (result + msg[lastpos..i]) + [ch];
      if IsSplit(ch) {
        result := result + msg[lastpos..i + 1];
        lastpos := i + 1;
        if |result| > THRESHOLD {
          sent := sent + [result];
          result := "";
        }
        assert msg[lastpos..i + 1] == [];
      }
      i := i + 1;
    }
    result := result + msg[lastpos..];
    assert msg[..|msg|] == msg;
  }

  /**
   * The chunk-scanning loop of `llm_response`. `sent` lists, in call order,
   * every string passed to `put_msg_txt`: the in-loop emissions, then the
   * leftover once after the stream ends.
   */
  method LlmResponse(completion: seq<Chunk>) returns (sent: seq<string>)
    ensures sent == Segments(StreamText(completion))
    ensures Concat(sent) == StreamText(completion)
    ensures forall i :: 0 <= i < |sent| - 1 ==> IsEmission(sent[i])
  {
    var result: string := "";
    sent := [];
    var k := 0;
    while k < |completion|
      invariant 0 <= k <= |completion|
      invariant Segmentation(sent, result) == Run(INITIAL, StreamText(completion[..k]))
    {
      var chunk := completion[k];
      assert completion[..k + 1][..k] == completion[..k];
      assert completion[..k + 1][k] == chunk;
      if |chunk.choices| > 0 {
        var msg := chunk.choices[0].content;
        RunAppend(INITIAL, StreamText(completion[..k]), msg);
        sent, result := ScanMessage(sent, result, msg);
        assert StreamText(completion[..k + 1]) == StreamText(completion[..k]) + msg;
      } else {
        assert StreamText(completion[..k + 1]) == StreamText(completion[..k]) + [];
        assert StreamText(completion[..k]) + [] == StreamText(completion[..k]);
      }
      k := k + 1;
    }
    assert completion[..|completion|] == completion;
    sent := sent + [result];
  }

  /** The text of a stream of three chunks, the middle one without choices. */
  lemma ExampleStreamText()
    ensures StreamText([Chunk([Choice("Hello, wor")]), Chunk([]), Chunk([Choice("ld. This is fine? yes!")])])
         == "Hello, world. This is fine? yes!"
  {
    var chunks := [Chunk([Choice("Hello, wor")]), Chunk([]), Chunk([Choice("ld. This is fine? yes!")])];
    assert chunks[..1][..0] == [];
    assert StreamText(chunks[..1]) == "Hello, wor";
    assert chunks[..2][..1] == chunks[..1];
    assert StreamText(chunks[..2]) == "Hello, wor";
    assert StreamText(chunks) == "Hello, wor" + "ld. This is fine? yes!";
  }

  /** The ASCII `?` is no split point, and the leftover is sent even though it is empty. */
  lemma ExampleSegments()
    ensures Segments("Hello, world. This is fine? yes!") == ["Hello, world.", " This is fine? yes!", ""]
  {
    var p := ["Hello, world.", " This is fine? yes!", ""];
    assert IsEmission(p[0]);
    assert IsEmission(p[1]);
    assert Concat(p) == "Hello, world." + (" This is fine? yes!" + ("" + []));
    SegmentsCharacterised(p, "Hello, world. This is fine? yes!");
  }
}
