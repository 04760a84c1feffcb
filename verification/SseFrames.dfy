/**
 * Splitting the transfer event stream into frames. Text arrives in arbitrary
 * chunks; a frame ends at the first blank line, written `\n\n` or `\r\n\r\n`.
 */
module SseFrames {
  import opened Common

  predicate LfAt(s: string, i: nat) {
    i + 2 <= |s| && s[i] == '\n' && s[i + 1] == '\n'
  }

  predicate CrlfAt(s: string, i: nat) {
    i + 4 <= |s| && s[i] == '\r' && s[i + 1] == '\n' && s[i + 2] == '\r' && s[i + 3] == '\n'
  }

  /** `indexOf`: the least position, at or after `from`, where the pattern occurs. */
  function FirstLf(s: string, from: nat): (r: Option<nat>)
    requires from <= |s|
    ensures r.Some? ==> from <= r.value && LfAt(s, r.value) && forall j :: from <= j < r.value ==> !LfAt(s, j)
    ensures r.None? ==> forall j :: from <= j ==> !LfAt(s, j)
    decreases |s| - from
  {
    if from == |s| then None else if LfAt(s, from) then Some(from) else FirstLf(s, from + 1)
  }

  function FirstCrlf(s: string, from: nat): (r: Option<nat>)
    requires from <= |s|
    ensures r.Some? ==> from <= r.value && CrlfAt(s, r.value) && forall j :: from <= j < r.value ==> !CrlfAt(s, j)
    ensures r.None? ==> forall j :: from <= j ==> !CrlfAt(s, j)
    decreases |s| - from
  {
    if from == |s| then None else if CrlfAt(s, from) then Some(from) else FirstCrlf(s, from + 1)
  }

  datatype Separator = Separator(index: nat, length: nat)

  function FrameSeparator(buffer: string): Option<Separator> {
    var lf := FirstLf(buffer, 0);
    var crlf := FirstCrlf(buffer, 0);
    if lf.None? then
      if crlf.None? then None else Some(Separator(crlf.value, 4))
    else if crlf.None? || lf.value < crlf.value then Some(Separator(lf.value, 2))
    else Some(Separator(crlf.value, 4))
  }

  /** The blank line that occurs at `i`, by its length; zero when there is none. */
  function BlankAt(s: string, i: nat): nat {
    if LfAt(s, i) then 2 else if CrlfAt(s, i) then 4 else 0
  }

  ghost predicate Unbroken(s: string) {
    forall i: nat :: BlankAt(s, i) == 0
  }

  /** The separator is the first blank line of either kind, and there is one unless the text is unbroken. */
  lemma SeparatorIsFirst(s: string)
    ensures FrameSeparator(s).None? <==> Unbroken(s)
    ensures FrameSeparator(s).Some? ==>
      var sep := FrameSeparator(s).value;
      && sep.length == BlankAt(s, sep.index) != 0
      && sep.index + sep.length <= |s|
      && forall j: nat :: j < sep.index ==> BlankAt(s, j) == 0
  {
    if FrameSeparator(s).Some? {
      assert BlankAt(s, FrameSeparator(s).value.index) != 0;
    }
  }

  lemma FirstIsSeparator(s: string, i: nat)
    requires BlankAt(s, i) != 0
    requires forall j: nat :: j < i ==> BlankAt(s, j) == 0
    ensures FrameSeparator(s) == Some(Separator(i, BlankAt(s, i)))
  {
    SeparatorIsFirst(s);
    assert !Unbroken(s);
    var sep := FrameSeparator(s).value;
    assert BlankAt(s, sep.index) != 0;
  }

  /**
   * More text never moves a separator already found: a `\r\n\r\n` that is still
   * incomplete cannot start before a complete blank line.
   */
  lemma SeparatorIsStable(a: string, b: string)
    requires FrameSeparator(a).Some?
    ensures FrameSeparator(a + b) == FrameSeparator(a)
  {
    SeparatorIsFirst(a);
    var sep := FrameSeparator(a).value;
    var i := sep.index;
    forall j: nat | j < i ensures BlankAt(a + b, j) == 0 {
      assert BlankAt(a, j) == 0;
    }
    FirstIsSeparator(a + b, i);
  }

  // ---------------------------------------------------------------- draining

  /** A delivered frame, with the blank line that ended it. */
  datatype Frame = Frame(text: string, blank: string)
  datatype Drained = Drained(frames: seq<Frame>, rest: string)

  /** The first frame and the text after it. */
  function Cut(buffer: string): (r: Option<(Frame, string)>)
    ensures r.Some? ==> |r.value.1| < |buffer|
  {
    SeparatorIsFirst(buffer);
    match FrameSeparator(buffer)
    case None => None
    case Some(sep) =>
      var end := sep.index + sep.length;
      Some((Frame(buffer[..sep.index], buffer[sep.index..end]), buffer[end..]))
  }

  function Drain(buffer: string): Drained
    decreases |buffer|
  {
    match Cut(buffer)
    case None => Drained([], buffer)
    case Some((frame, after)) =>
      var later := Drain(after);
      Drained([frame] + later.frames, later.rest)
  }

  method DrainSseFrames(buffer: string) returns (frames: seq<Frame>, rest: string)
    ensures Drained(frames, rest) == Drain(buffer)
  {
    frames, rest := [], buffer;
    while true
      invariant Drain(buffer) == Drained(frames + Drain(rest).frames, Drain(rest).rest)
      decreases |rest|
    {
      var separator := FrameSeparator(rest);
      if separator.None? {
        return;
      }
      SeparatorIsFirst(rest);
      var end := separator.value.index + separator.value.length;
      var frame := Frame(rest[..separator.value.index], rest[separator.value.index..end]);
      Regroup(frames, frame, Drain(rest[end..]).frames);
      frames, rest := frames + [frame], rest[end..];
    }
  }

  lemma CutIsStable(a: string, b: string)
    requires Cut(a).Some?
    ensures Cut(a + b) == Some((Cut(a).value.0, Cut(a).value.1 + b))
  {
    SeparatorIsStable(a, b);
    SeparatorIsFirst(a);
    var sep := FrameSeparator(a).value;
    var end := sep.index + sep.length;
    assert (a + b)[..sep.index] == a[..sep.index];
    assert (a + b)[sep.index..end] == a[sep.index..end];
    assert (a + b)[end..] == a[end..] + b;
  }

  /** Draining a prefix first and the rest later delivers what draining the whole text delivers. */
  lemma {:induction false} DrainInTwo(a: string, b: string)
    ensures var first := Drain(a);
      var second := Drain(first.rest + b);
      Drain(a + b) == Drained(first.frames + second.frames, second.rest)
    decreases |a|
  {
    if Cut(a).Some? {
      CutIsStable(a, b);
      var (frame, after) := Cut(a).value;
      DrainInTwo(after, b);
      var first := Drain(after);
      var second := Drain(first.rest + b);
      assert ([frame] + first.frames) + second.frames == [frame] + (first.frames + second.frames);
    }
  }

  function Flatten(frames: seq<Frame>): string {
    if frames == [] then "" else frames[0].text + frames[0].blank + Flatten(frames[1..])
  }

  /** The frame ends at the first blank line of its own text. */
  ghost predicate Clean(frame: Frame) {
    && (frame.blank == "\n\n" || frame.blank == "\r\n\r\n")
    && forall j: nat :: j < |frame.text| ==> BlankAt(frame.text + frame.blank, j) == 0
  }

  lemma CutIsClean(s: string)
    requires Cut(s).Some?
    ensures Clean(Cut(s).value.0)
  {
    SeparatorIsFirst(s);
    var sep := FrameSeparator(s).value;
    var end := sep.index + sep.length;
    assert s[..sep.index] + s[sep.index..end] == s[..end];
    forall j: nat | j < sep.index ensures BlankAt(s[..end], j) == 0 {
      assert BlankAt(s, j) == 0;
    }
    assert s[sep.index..end] == if sep.length == 2 then "\n\n" else "\r\n\r\n";
  }

  lemma CutIsLossless(s: string)
    requires Cut(s).Some?
    ensures var (frame, after) := Cut(s).value; s == frame.text + frame.blank + after
  {
  }

  /** Nothing is lost, duplicated or invented. */
  lemma {:induction false} DrainIsLossless(s: string)
    ensures Flatten(Drain(s).frames) + Drain(s).rest == s
    decreases |s|
  {
    if Cut(s).Some? {
      CutIsLossless(s);
      var (frame, after) := Cut(s).value;
      DrainIsLossless(after);
      var d := Drain(after);
      assert ([frame] + d.frames)[1..] == d.frames;
      assert frame.text + frame.blank + (Flatten(d.frames) + d.rest) ==
        frame.text + frame.blank + Flatten(d.frames) + d.rest;
    }
  }

  /** Every cut is made at the first blank line, and none is left in the remainder. */
  lemma {:induction false} DrainIsClean(s: string)
    ensures Unbroken(Drain(s).rest)
    ensures forall i :: 0 <= i < |Drain(s).frames| ==> Clean(Drain(s).frames[i])
    decreases |s|
  {
    if Cut(s).Some? {
      CutIsClean(s);
      DrainIsClean(Cut(s).value.1);
    } else {
      SeparatorIsFirst(s);
    }
  }

  // ---------------------------------------------------------------- the stream

  function Concat(chunks: seq<string>): string {
    if chunks == [] then "" else Concat(chunks[..|chunks| - 1]) + Last(chunks)
  }

  /** Chunk by chunk: append, drain, keep the leftover. */
  function DrainChunks(chunks: seq<string>): Drained {
    if chunks == [] then Drained([], "") else
      var before := DrainChunks(chunks[..|chunks| - 1]);
      var step := Drain(before.rest + Last(chunks));
      Drained(before.frames + step.frames, step.rest)
  }

  /** For every text and every way of cutting it, the chunks deliver the frames of the whole. */
  lemma {:induction false} ChunkIndependence(chunks: seq<string>)
    ensures DrainChunks(chunks) == Drain(Concat(chunks))
  {
    if chunks == [] {
      SeparatorIsFirst("");
    } else {
      var init := chunks[..|chunks| - 1];
      ChunkIndependence(init);
      DrainInTwo(Concat(init), Last(chunks));
    }
  }

  /** `DrainChunks` grows by one chunk. */
  lemma DrainChunksOne(chunks: seq<string>, k: nat)
    requires k < |chunks|
    ensures var before := DrainChunks(chunks[..k]);
      var step := Drain(before.rest + chunks[k]);
      DrainChunks(chunks[..k + 1]) == Drained(before.frames + step.frames, step.rest)
  {
    assert chunks[..k + 1][..k] == chunks[..k];
  }

  /**
   * The reader: `chunks` are the decoded reads, `tail` what the decoder flushes at
   * the end, and `abortBefore` the read before which the abort signal is first
   * seen. A closing blank line is appended so that an unterminated last frame is
   * delivered too.
   */
  method ReadTransferEventStream(chunks: seq<string>, tail: string, abortBefore: nat) returns (frames: seq<Frame>)
    ensures abortBefore <= |chunks| ==> frames == Drain(Concat(chunks[..abortBefore])).frames
    ensures abortBefore > |chunks| ==> frames == Drain(Concat(chunks) + tail + "\n\n").frames
  {
    var buffer := "";
    frames := [];
    var k := 0;
    while true
      invariant k <= |chunks| && k <= abortBefore
      invariant Drained(frames, buffer) == DrainChunks(chunks[..k])
      decreases |chunks| - k
    {
      if k == abortBefore {
        ChunkIndependence(chunks[..k]);
        return;
      }
      if k == |chunks| {
        break;
      }
      DrainChunksOne(chunks, k);
      var drained, rest := DrainSseFrames(buffer + chunks[k]);
      frames, buffer := frames + drained, rest;
      k := k + 1;
    }
    assert chunks[..k] == chunks;
    LastDrain(chunks, tail + "\n\n");
    assert buffer + (tail + "\n\n") == buffer + tail + "\n\n";
    assert Concat(chunks) + (tail + "\n\n") == Concat(chunks) + tail + "\n\n";
    var last, _ := DrainSseFrames(buffer + tail + "\n\n");
    frames := frames + last;
  }

  lemma LastDrain(chunks: seq<string>, tail: string)
    ensures var before := DrainChunks(chunks);
      Drain(Concat(chunks) + tail).frames == before.frames + Drain(before.rest + tail).frames
  {
    ChunkIndependence(chunks);
    DrainInTwo(Concat(chunks), tail);
  }
}
