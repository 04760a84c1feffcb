/**
 * DNS names: the encoder and the decoder for compressed names (sections 3.1 and
 * 4.1.4 of RFC 1035).
 *
 * Text is represented by its UTF-8 bytes. `lossy` stands for
 * `String::from_utf8_lossy`, of which only the identity on the labels at hand is
 * ever assumed.
 */
module DnsNames {
  import opened Common

  type Byte = x: int | 0 <= x < 256
  type Bytes = seq<Byte>
  type Label = Bytes

  const DOT: Byte := 46
  const MAX_JUMPS := 16

  datatype Error =
    | ShortResponse | TruncatedQuestion | TruncatedAnswer | TruncatedRdata
    | TruncatedName | TruncatedPointer | PointerLoop | TruncatedLabel

  datatype Result<+T> = Ok(value: T) | Err(error: Error)

  function Word(hi: Byte, lo: Byte): nat {
    hi * 256 + lo
  }

  /** The two high bits are set (`len & 0xC0 == 0xC0`). */
  predicate IsPointer(b: Byte) {
    b >= 192
  }

  function PointerTarget(hi: Byte, lo: Byte): nat
    requires IsPointer(hi)
  {
    (hi - 192) * 256 + lo
  }

  // ---------------------------------------------------------------- decoding

  function Left(bytes: Bytes, cursor: nat): nat {
    if cursor <= |bytes| then |bytes| - cursor else 0
  }

  /** The labels of the name at `cursor`, after `jumps` pointers have been followed. */
  function Decode(bytes: Bytes, cursor: nat, jumps: nat): Result<seq<Label>>
    requires jumps <= MAX_JUMPS
    decreases MAX_JUMPS - jumps, Left(bytes, cursor)
  {
    if cursor >= |bytes| then Err(TruncatedName)
    else if IsPointer(bytes[cursor]) then
      if cursor + 1 >= |bytes| then Err(TruncatedPointer)
      else if jumps == MAX_JUMPS then Err(PointerLoop)
      else Decode(bytes, PointerTarget(bytes[cursor], bytes[cursor + 1]), jumps + 1)
    else if bytes[cursor] == 0 then Ok([])
    else
      var end := cursor + 1 + bytes[cursor];
      if end > |bytes| then Err(TruncatedLabel)
      else Prepend([bytes[cursor + 1..end]], Decode(bytes, end, jumps))
  }

  function Prepend(labels: seq<Label>, r: Result<seq<Label>>): Result<seq<Label>> {
    if r.Ok? then Ok(labels + r.value) else r
  }

  /** Where the caller resumes: behind the terminator or behind the first pointer. */
  function NextOffset(bytes: Bytes, cursor: nat): nat
    decreases Left(bytes, cursor)
  {
    if cursor >= |bytes| then cursor
    else if IsPointer(bytes[cursor]) then cursor + 2
    else if bytes[cursor] == 0 then cursor + 1
    else NextOffset(bytes, cursor + 1 + bytes[cursor])
  }

  /** Where a failed read leaves the caller: behind the first pointer it followed, or where it started. */
  function FailOffset(bytes: Bytes, start: nat, cursor: nat): nat
    decreases Left(bytes, cursor)
  {
    if cursor >= |bytes| then start
    else if IsPointer(bytes[cursor]) then (if cursor + 1 < |bytes| then cursor + 2 else start)
    else if bytes[cursor] == 0 then start
    else FailOffset(bytes, start, cursor + 1 + bytes[cursor])
  }

  function Join(labels: seq<Bytes>): Bytes {
    if labels == [] then [] else if |labels| == 1 then labels[0] else labels[0] + [DOT] + Join(labels[1..])
  }

  function TrimDots(name: Bytes): Bytes {
    if name != [] && Last(name) == DOT then TrimDots(name[..|name| - 1]) else name
  }

  function AsText(labels: seq<Label>, lossy: Bytes -> Bytes): seq<Bytes> {
    seq(|labels|, i requires 0 <= i < |labels| => lossy(labels[i]))
  }

  function Render(labels: seq<Label>, lossy: Bytes -> Bytes): Bytes {
    TrimDots(Join(AsText(labels, lossy)))
  }

  function RenderResult(r: Result<seq<Label>>, lossy: Bytes -> Bytes): Result<Bytes> {
    match r
    case Ok(labels) => Ok(Render(labels, lossy))
    case Err(e) => Err(e)
  }

  /**
   * `read_dns_name`. The loop ends on every input, also on pointer cycles: each
   * round either follows one of at most sixteen pointers or moves the cursor on.
   */
  method ReadDnsName(bytes: Bytes, offset: nat, lossy: Bytes -> Bytes) returns (r: Result<Bytes>, next: nat)
    ensures r == RenderResult(Decode(bytes, offset, 0), lossy)
    ensures next == if r.Ok? then NextOffset(bytes, offset) else FailOffset(bytes, offset, offset)
  {
    next := offset;
    var labels: seq<Bytes> := [];
    ghost var raw: seq<Label> := [];
    var cursor: nat, jumped, jumps: nat := offset, false, 0;
    PrependNothing(Decode(bytes, offset, 0));
    while true
      invariant jumps <= MAX_JUMPS
      invariant labels == AsText(raw, lossy)
      invariant Decode(bytes, offset, 0) == Prepend(raw, Decode(bytes, cursor, jumps))
      invariant NextOffset(bytes, offset) == if jumped then next else NextOffset(bytes, cursor)
      invariant FailOffset(bytes, offset, offset) == if jumped then next else FailOffset(bytes, offset, cursor)
      invariant !jumped ==> next == offset
      decreases MAX_JUMPS - jumps, Left(bytes, cursor)
    {
      if cursor >= |bytes| {
        return Err(TruncatedName), next;
      }
      var len := bytes[cursor];
      if IsPointer(len) {
        if cursor + 1 >= |bytes| {
          return Err(TruncatedPointer), next;
        }
        var pointer := PointerTarget(len, bytes[cursor + 1]);
        if !jumped {
          next := cursor + 2;
        }
        jumped := true;
        if jumps + 1 > MAX_JUMPS {
          return Err(PointerLoop), next;
        }
        cursor, jumps := pointer, jumps + 1;
        continue;
      }
      if len == 0 {
        if !jumped {
          next := cursor + 1;
        }
        break;
      }
      var end := cursor + 1 + len;
      if end > |bytes| {
        return Err(TruncatedLabel), next;
      }
      PrependTwice(raw, bytes[cursor + 1..end], Decode(bytes, end, jumps));
      labels := labels + [lossy(bytes[cursor + 1..end])];
      raw := raw + [bytes[cursor + 1..end]];
      cursor := end;
    }
    assert Decode(bytes, offset, 0) == Ok(raw) by {
      assert raw + [] == raw;
    }
    r := Ok(TrimDots(Join(labels)));
  }

  lemma PrependNothing(r: Result<seq<Label>>)
    ensures Prepend([], r) == r
  {
    if r.Ok? {
      assert [] + r.value == r.value;
    }
  }

  lemma PrependTwice(raw: seq<Label>, one: Label, r: Result<seq<Label>>)
    ensures Prepend(raw, Prepend([one], r)) == Prepend(raw + [one], r)
  {
    if r.Ok? {
      assert raw + ([one] + r.value) == raw + [one] + r.value;
    }
  }

  /** A successful read moves the caller forward and keeps it inside the message. */
  lemma {:induction false} ReadAdvances(bytes: Bytes, cursor: nat, jumps: nat)
    requires jumps <= MAX_JUMPS && Decode(bytes, cursor, jumps).Ok?
    ensures cursor < NextOffset(bytes, cursor) <= |bytes|
    decreases Left(bytes, cursor)
  {
    if !IsPointer(bytes[cursor]) && bytes[cursor] != 0 {
      ReadAdvances(bytes, cursor + 1 + bytes[cursor], jumps);
    }
  }

  // ---------------------------------------------------------------- the wire grammar

  predicate HoldsAt(bytes: Bytes, offset: nat, chunk: Bytes) {
    offset + |chunk| <= |bytes| && bytes[offset..offset + |chunk|] == chunk
  }

  /**
   * Section 4.1.4: the name at `offset` is a sequence of labels ending in a zero
   * octet, or in a pointer to the rest of the name, with at most `hops` pointers.
   */
  ghost predicate NameAt(bytes: Bytes, offset: nat, labels: seq<Label>, hops: nat)
    decreases hops, Left(bytes, offset)
  {
    && offset < |bytes|
    && (if IsPointer(bytes[offset]) then
          && offset + 1 < |bytes|
          && 0 < hops
          && NameAt(bytes, PointerTarget(bytes[offset], bytes[offset + 1]), labels, hops - 1)
        else if labels == [] then bytes[offset] == 0
        else
          && bytes[offset] == |labels[0]| != 0
          && HoldsAt(bytes, offset + 1, labels[0])
          && NameAt(bytes, offset + 1 + |labels[0]|, labels[1..], hops))
  }

  /** The decoder accepts exactly the grammar, with sixteen pointers as its budget. */
  lemma {:induction false} DecodeIsGrammar(bytes: Bytes, cursor: nat, jumps: nat, labels: seq<Label>)
    requires jumps <= MAX_JUMPS
    ensures Decode(bytes, cursor, jumps) == Ok(labels) <==> NameAt(bytes, cursor, labels, MAX_JUMPS - jumps)
    decreases MAX_JUMPS - jumps, Left(bytes, cursor)
  {
    if cursor < |bytes| {
      if IsPointer(bytes[cursor]) {
        if cursor + 1 < |bytes| && jumps < MAX_JUMPS {
          DecodeIsGrammar(bytes, PointerTarget(bytes[cursor], bytes[cursor + 1]), jumps + 1, labels);
        }
      } else if bytes[cursor] != 0 && cursor + 1 + bytes[cursor] <= |bytes| {
        var end := cursor + 1 + bytes[cursor];
        var head := bytes[cursor + 1..end];
        if labels != [] {
          assert labels == [labels[0]] + labels[1..];
          DecodeIsGrammar(bytes, end, jumps, labels[1..]);
          if NameAt(bytes, cursor, labels, MAX_JUMPS - jumps) {
            assert labels[0] == head;
          }
        }
      }
    }
  }

  /** From the start of a name, sixteen pointers may be followed. */
  lemma ReadIsGrammar(bytes: Bytes, offset: nat, labels: seq<Label>)
    ensures Decode(bytes, offset, 0) == Ok(labels) <==> NameAt(bytes, offset, labels, 16)
  {
    DecodeIsGrammar(bytes, offset, 0, labels);
  }

  /** The octet at which a read stops, and the pointers followed by then. */
  ghost function StopsAt(bytes: Bytes, cursor: nat, jumps: nat): (stop: (nat, nat))
    requires jumps <= MAX_JUMPS
    ensures jumps <= stop.1 <= MAX_JUMPS
    decreases MAX_JUMPS - jumps, Left(bytes, cursor)
  {
    if cursor >= |bytes| || bytes[cursor] == 0 then (cursor, jumps)
    else if IsPointer(bytes[cursor]) then
      if cursor + 1 >= |bytes| || jumps == MAX_JUMPS then (cursor, jumps)
      else StopsAt(bytes, PointerTarget(bytes[cursor], bytes[cursor + 1]), jumps + 1)
    else if cursor + 1 + bytes[cursor] > |bytes| then (cursor, jumps)
    else StopsAt(bytes, cursor + 1 + bytes[cursor], jumps)
  }

  /**
   * How a read ends is decided by the octet at which it stops: none left, a zero,
   * half a pointer, a seventeenth pointer, or a label longer than the message.
   */
  lemma {:induction false} ReadEnds(bytes: Bytes, cursor: nat, jumps: nat)
    requires jumps <= 16
    ensures var (at, followed) := StopsAt(bytes, cursor, jumps);
      var r := Decode(bytes, cursor, jumps);
      && (r.Ok? <==> at < |bytes| && bytes[at] == 0)
      && (r == Err(TruncatedName) <==> |bytes| <= at)
      && (r == Err(TruncatedPointer) <==> at + 1 == |bytes| && 192 <= bytes[at])
      && (r == Err(PointerLoop) <==> at + 1 < |bytes| && 192 <= bytes[at] && followed == 16)
      && (r == Err(TruncatedLabel) <==> at < |bytes| && 0 < bytes[at] < 192 && |bytes| < at + 1 + bytes[at])
    decreases MAX_JUMPS - jumps, Left(bytes, cursor)
  {
    if cursor < |bytes| && bytes[cursor] != 0 {
      if IsPointer(bytes[cursor]) {
        if cursor + 1 < |bytes| && jumps < MAX_JUMPS {
          ReadEnds(bytes, PointerTarget(bytes[cursor], bytes[cursor + 1]), jumps + 1);
        }
      } else if cursor + 1 + bytes[cursor] <= |bytes| {
        ReadEnds(bytes, cursor + 1 + bytes[cursor], jumps);
      }
    }
  }

  /** Trimming takes off the dots at the end, all of them and nothing else. */
  lemma {:induction false} TrimMeans(name: Bytes)
    ensures TrimDots(name) <= name
    ensures TrimDots(name) != [] ==> Last(TrimDots(name)) != DOT
    ensures forall i :: |TrimDots(name)| <= i < |name| ==> name[i] == DOT
  {
    if name != [] && Last(name) == DOT {
      TrimMeans(name[..|name| - 1]);
    }
  }

  /** Each label is decoded on its own, and the texts are joined by dots. */
  lemma RenderMeans(labels: seq<Label>, one: Label, lossy: Bytes -> Bytes)
    ensures Join(AsText([], lossy)) == []
    ensures Join(AsText(labels + [one], lossy)) ==
      if labels == [] then lossy(one) else Join(AsText(labels, lossy)) + [46] + lossy(one)
    ensures Render(labels, lossy) == TrimDots(Join(AsText(labels, lossy)))
  {
    assert AsText(labels + [one], lossy) == AsText(labels, lossy) + [lossy(one)];
    JoinOne(AsText(labels, lossy), lossy(one));
  }

  /** The length octets a read meets on its way, pointers and terminator aside. */
  ghost function LengthsMet(bytes: Bytes, cursor: nat, jumps: nat): seq<Byte>
    requires jumps <= MAX_JUMPS
    decreases MAX_JUMPS - jumps, Left(bytes, cursor)
  {
    if cursor >= |bytes| then []
    else if IsPointer(bytes[cursor]) then
      if cursor + 1 >= |bytes| || jumps == MAX_JUMPS then []
      else LengthsMet(bytes, PointerTarget(bytes[cursor], bytes[cursor + 1]), jumps + 1)
    else if bytes[cursor] == 0 then []
    else [bytes[cursor]] + LengthsMet(bytes, cursor + 1 + bytes[cursor], jumps)
  }

  /** Section 2.3.4 of RFC 1035: a label has at most 63 octets. */
  predicate Legal(labels: seq<Label>) {
    forall i :: 0 <= i < |labels| ==> |labels[i]| <= 63
  }

  /** The labels read are as long as the length octets met. */
  lemma {:induction false} LengthsAreMet(bytes: Bytes, cursor: nat, jumps: nat)
    requires jumps <= MAX_JUMPS && Decode(bytes, cursor, jumps).Ok?
    ensures var labels, lengths := Decode(bytes, cursor, jumps).value, LengthsMet(bytes, cursor, jumps);
      |lengths| == |labels| && forall i :: 0 <= i < |labels| ==> |labels[i]| == lengths[i] < 192
    decreases MAX_JUMPS - jumps, Left(bytes, cursor)
  {
    if IsPointer(bytes[cursor]) {
      LengthsAreMet(bytes, PointerTarget(bytes[cursor], bytes[cursor + 1]), jumps + 1);
    } else if bytes[cursor] != 0 {
      LengthsAreMet(bytes, cursor + 1 + bytes[cursor], jumps);
    }
  }

  /** A name that is read obeys the 63-octet limit exactly when no length octet on its way lies in 64 to 191. */
  lemma LegalExactly(bytes: Bytes, cursor: nat, jumps: nat)
    requires jumps <= MAX_JUMPS && Decode(bytes, cursor, jumps).Ok?
    ensures Legal(Decode(bytes, cursor, jumps).value) <==>
      forall b :: b in LengthsMet(bytes, cursor, jumps) ==> !(64 <= b < 192)
  {
    LengthsAreMet(bytes, cursor, jumps);
    var labels, lengths := Decode(bytes, cursor, jumps).value, LengthsMet(bytes, cursor, jumps);
    forall i | 0 <= i < |labels| ensures lengths[i] in lengths {
    }
  }

  // ---------------------------------------------------------------- encoding

  /** `name.split('.')`: never empty, and an empty name has one empty label. */
  function Split(name: Bytes): (labels: seq<Bytes>)
    ensures labels != []
  {
    if name == [] then [[]]
    else
      var before := Split(name[..|name| - 1]);
      if Last(name) == DOT then before + [[]] else ExtendLast(before, Last(name))
  }

  function ExtendLast(labels: seq<Bytes>, b: Byte): (longer: seq<Bytes>)
    requires labels != []
    ensures longer != []
  {
    labels[..|labels| - 1] + [Last(labels) + [b]]
  }

  /** `u8::try_from(label.len()).unwrap_or(0)` */
  function LengthByte(one: Label): Byte {
    if |one| < 256 then |one| else 0
  }

  function EncodeLabels(labels: seq<Label>): Bytes {
    if labels == [] then [] else [LengthByte(labels[0])] + labels[0] + EncodeLabels(labels[1..])
  }

  function EncodeName(name: Bytes): Bytes {
    EncodeLabels(Split(name)) + [0]
  }

  method EncodeDnsName(name: Bytes, buffer: Bytes) returns (bytes: Bytes)
    ensures bytes == buffer + EncodeName(name)
  {
    bytes := buffer;
    var labels := Split(name);
    assert labels[0..] == labels;
    for k := 0 to |labels|
      invariant bytes + EncodeLabels(labels[k..]) == buffer + EncodeLabels(labels)
    {
      var rest := labels[k..];
      assert rest[0] == labels[k] && rest[1..] == labels[k + 1..];
      assert bytes + ([LengthByte(labels[k])] + labels[k] + EncodeLabels(labels[k + 1..])) ==
        bytes + [LengthByte(labels[k])] + labels[k] + EncodeLabels(labels[k + 1..]);
      bytes := bytes + [LengthByte(labels[k])];
      bytes := bytes + labels[k];
    }
    assert bytes + EncodeLabels([]) == bytes;
    bytes := bytes + [0];
    assert buffer + EncodeLabels(labels) + [0] == buffer + (EncodeLabels(labels) + [0]);
  }

  /** A label whose length octet says what it is: not zero and not a pointer. */
  predicate Plain(one: Label) {
    1 <= |one| < 192
  }

  predicate AllPlain(labels: seq<Label>) {
    forall i :: 0 <= i < |labels| ==> Plain(labels[i])
  }

  lemma HoldsParts(bytes: Bytes, offset: nat, a: Bytes, b: Bytes)
    requires HoldsAt(bytes, offset, a + b)
    ensures HoldsAt(bytes, offset, a) && HoldsAt(bytes, offset + |a|, b)
  {
    var whole := bytes[offset..offset + |a + b|];
    assert whole[..|a|] == a && whole[|a|..] == b;
    assert bytes[offset..offset + |a|] == whole[..|a|];
    assert bytes[offset + |a|..offset + |a| + |b|] == whole[|a|..];
  }

  lemma PrefixedHolds(bytes: Bytes, offset: nat, n: Byte, chunk: Bytes)
    requires HoldsAt(bytes, offset, [n] + chunk)
    ensures offset + 1 + |chunk| <= |bytes|
    ensures bytes[offset] == n && bytes[offset + 1..offset + 1 + |chunk|] == chunk
  {
    HoldsParts(bytes, offset, [n], chunk);
    assert bytes[offset] == bytes[offset..offset + 1][0];
  }

  lemma LabelHolds(bytes: Bytes, offset: nat, labels: seq<Label>)
    requires labels != [] && HoldsAt(bytes, offset, EncodeLabels(labels))
    ensures offset + 1 + |labels[0]| <= |bytes|
    ensures bytes[offset] == LengthByte(labels[0])
    ensures bytes[offset + 1..offset + 1 + |labels[0]|] == labels[0]
    ensures HoldsAt(bytes, offset + 1 + |labels[0]|, EncodeLabels(labels[1..]))
    ensures |EncodeLabels(labels)| == 1 + |labels[0]| + |EncodeLabels(labels[1..])|
  {
    var head, tail := [LengthByte(labels[0])] + labels[0], EncodeLabels(labels[1..]);
    assert EncodeLabels(labels) == head + tail;
    HoldsParts(bytes, offset, head, tail);
    PrefixedHolds(bytes, offset, LengthByte(labels[0]), labels[0]);
  }

  lemma PrependAll(a: seq<Label>, b: seq<Label>, r: Result<seq<Label>>)
    ensures Prepend(a, Prepend(b, r)) == Prepend(a + b, r)
  {
    if r.Ok? {
      assert a + (b + r.value) == a + b + r.value;
    }
  }

  lemma LabelPasses(bytes: Bytes, offset: nat, one: Label, jumps: nat)
    requires jumps <= MAX_JUMPS && Plain(one)
    requires offset + 1 + |one| <= |bytes| && bytes[offset] == |one|
    requires bytes[offset + 1..offset + 1 + |one|] == one
    ensures Decode(bytes, offset, jumps) == Prepend([one], Decode(bytes, offset + 1 + |one|, jumps))
    ensures NextOffset(bytes, offset) == NextOffset(bytes, offset + 1 + |one|)
  {
  }

  /** One encoded label is passed, and the encoding of the others follows. */
  lemma FirstPasses(bytes: Bytes, offset: nat, labels: seq<Label>, jumps: nat)
    requires jumps <= MAX_JUMPS && labels != [] && Plain(labels[0]) && HoldsAt(bytes, offset, EncodeLabels(labels))
    ensures var next := offset + 1 + |labels[0]|;
      && Decode(bytes, offset, jumps) == Prepend([labels[0]], Decode(bytes, next, jumps))
      && NextOffset(bytes, offset) == NextOffset(bytes, next)
      && HoldsAt(bytes, next, EncodeLabels(labels[1..]))
      && next + |EncodeLabels(labels[1..])| == offset + |EncodeLabels(labels)|
  {
    LabelHolds(bytes, offset, labels);
    LabelPasses(bytes, offset, labels[0], jumps);
  }

  lemma {:induction false} LabelsDecode(bytes: Bytes, offset: nat, labels: seq<Label>, jumps: nat, end: nat)
    requires jumps <= MAX_JUMPS && AllPlain(labels) && HoldsAt(bytes, offset, EncodeLabels(labels))
    requires end == offset + |EncodeLabels(labels)|
    ensures Decode(bytes, offset, jumps) == Prepend(labels, Decode(bytes, end, jumps))
    decreases |labels|
  {
    if labels == [] {
      PrependNothing(Decode(bytes, offset, jumps));
    } else {
      var one, rest, next := labels[0], labels[1..], offset + 1 + |labels[0]|;
      assert labels == [one] + rest;
      FirstPasses(bytes, offset, labels, jumps);
      LabelsDecode(bytes, next, rest, jumps, end);
      PrependAll([one], rest, Decode(bytes, end, jumps));
    }
  }

  lemma {:induction false} LabelsSkipped(bytes: Bytes, offset: nat, labels: seq<Label>, end: nat)
    requires AllPlain(labels) && HoldsAt(bytes, offset, EncodeLabels(labels))
    requires end == offset + |EncodeLabels(labels)|
    ensures NextOffset(bytes, offset) == NextOffset(bytes, end)
    decreases |labels|
  {
    if labels != [] {
      FirstPasses(bytes, offset, labels, 0);
      LabelsSkipped(bytes, offset + 1 + |labels[0]|, labels[1..], end);
    }
  }

  /** The decoder passes over encoded labels and continues behind them, whatever follows. */
  lemma LabelsPass(bytes: Bytes, offset: nat, labels: seq<Label>, jumps: nat)
    requires jumps <= MAX_JUMPS && AllPlain(labels) && HoldsAt(bytes, offset, EncodeLabels(labels))
    ensures var end := offset + |EncodeLabels(labels)|;
      && Decode(bytes, offset, jumps) == Prepend(labels, Decode(bytes, end, jumps))
      && NextOffset(bytes, offset) == NextOffset(bytes, end)
  {
    var end := offset + |EncodeLabels(labels)|;
    LabelsDecode(bytes, offset, labels, jumps, end);
    LabelsSkipped(bytes, offset, labels, end);
  }

  /** A label that is not plain makes the caller resume inside the encoding. */
  lemma {:induction false} StopsShort(bytes: Bytes, offset: nat, labels: seq<Label>)
    requires HoldsAt(bytes, offset, EncodeLabels(labels)) && !AllPlain(labels)
    ensures NextOffset(bytes, offset) <= offset + |EncodeLabels(labels)|
    decreases |labels|
  {
    var one, rest := labels[0], labels[1..];
    if !Plain(one) {
      LabelHolds(bytes, offset, labels);
    } else {
      FirstPasses(bytes, offset, labels, 0);
      assert !AllPlain(rest) by {
        assert labels == [one] + rest;
      }
      StopsShort(bytes, offset + 1 + |one|, rest);
    }
  }

  lemma {:induction false} JoinOne(labels: seq<Bytes>, last: Bytes)
    ensures Join(labels + [last]) == if labels == [] then last else Join(labels) + [DOT] + last
  {
    if labels != [] {
      var all := labels + [last];
      assert all[1..] == labels[1..] + [last];
      JoinOne(labels[1..], last);
      if |labels| == 1 {
        assert Join(labels[1..] + [last]) == last;
      } else {
        assert labels[0] + [DOT] + (Join(labels[1..]) + [DOT] + last) ==
          labels[0] + [DOT] + Join(labels[1..]) + [DOT] + last;
      }
    }
  }

  /** Joining undoes splitting. */
  lemma {:induction false} JoinSplit(name: Bytes)
    ensures Join(Split(name)) == name
  {
    if name != [] {
      var init, last := name[..|name| - 1], Last(name);
      assert name == init + [last];
      JoinSplit(init);
      var before := Split(init);
      if last == DOT {
        JoinOne(before, []);
        assert Join(before) + [DOT] + [] == init + [DOT];
      } else {
        JoinExtended(before, last);
      }
    }
  }

  lemma JoinExtended(labels: seq<Bytes>, b: Byte)
    requires labels != []
    ensures Join(ExtendLast(labels, b)) == Join(labels) + [b]
  {
    var front, last := labels[..|labels| - 1], Last(labels);
    assert labels == front + [last];
    JoinOne(front, last);
    JoinOne(front, last + [b]);
    assert Join(front) + [DOT] + (last + [b]) == Join(front) + [DOT] + last + [b];
  }

  /** A name whose last label is not empty ends in no dot. */
  lemma NothingToTrim(name: Bytes)
    requires Last(Split(name)) != []
    ensures TrimDots(name) == name
  {
  }

  lemma SplitSnoc(name: Bytes, b: Byte)
    ensures Split(name + [b]) == if b == DOT then Split(name) + [[]] else ExtendLast(Split(name), b)
  {
  }

  lemma {:induction false} SplitDotless(name: Bytes)
    requires DOT !in name
    ensures Split(name) == [name]
  {
    if name != [] {
      var init := name[..|name| - 1];
      assert Last(name) in name;
      SplitDotless(init);
      assert init + [Last(name)] == name;
    }
  }

  lemma ExtendBehind(first: Bytes, labels: seq<Bytes>, b: Byte)
    requires labels != []
    ensures ExtendLast([first] + labels, b) == [first] + ExtendLast(labels, b)
  {
  }

  /** One more byte behind the first dot is one more byte of the rest. */
  lemma SplitOneMore(first: Bytes, init: Bytes, b: Byte)
    requires Split(first + [DOT] + init) == [first] + Split(init)
    ensures Split(first + [DOT] + init + [b]) == [first] + Split(init + [b])
  {
    SplitSnoc(first + [DOT] + init, b);
    SplitSnoc(init, b);
    if b == DOT {
      assert [first] + Split(init) + [[]] == [first] + (Split(init) + [[]]);
    } else {
      ExtendBehind(first, Split(init), b);
    }
  }

  lemma {:induction false} SplitAt(first: Bytes, rest: Bytes)
    requires DOT !in first
    ensures Split(first + [DOT] + rest) == [first] + Split(rest)
  {
    if rest == [] {
      SplitDotless(first);
      SplitSnoc(first, DOT);
      assert first + [DOT] + rest == first + [DOT];
    } else {
      var init, b := rest[..|rest| - 1], Last(rest);
      assert first + [DOT] + rest == first + [DOT] + init + [b];
      assert init + [b] == rest;
      SplitAt(first, init);
      SplitOneMore(first, init, b);
    }
  }

  /** Joining and splitting are inverse on labels without dots. */
  lemma {:induction false} SplitJoin(labels: seq<Bytes>)
    requires labels != [] && forall i :: 0 <= i < |labels| ==> DOT !in labels[i]
    ensures Split(Join(labels)) == labels
  {
    if |labels| == 1 {
      SplitDotless(labels[0]);
    } else {
      SplitJoin(labels[1..]);
      SplitAt(labels[0], Join(labels[1..]));
      assert labels == [labels[0]] + labels[1..];
    }
  }

  lemma EncodedReads(bytes: Bytes, offset: nat, labels: seq<Label>, jumps: nat)
    requires jumps <= MAX_JUMPS && AllPlain(labels) && HoldsAt(bytes, offset, EncodeLabels(labels) + [0])
    ensures Decode(bytes, offset, jumps) == Ok(labels)
    ensures NextOffset(bytes, offset) == offset + |EncodeLabels(labels)| + 1
  {
    HoldsParts(bytes, offset, EncodeLabels(labels), [0]);
    var end := offset + |EncodeLabels(labels)|;
    assert bytes[end] == bytes[end..end + 1][0];
    LabelsPass(bytes, offset, labels, jumps);
    assert labels + [] == labels;
  }

  /** A message whose one label is longer than the limit allows, and which is read all the same. */
  lemma LongLabelIsRead(b: Byte)
    ensures var message := [64] + seq(64, _ => b) + [0];
      Decode(message, 0, 0).Ok? && !Legal(Decode(message, 0, 0).value)
  {
    var one: Label := seq(64, _ => b);
    var message: Bytes := [64] + seq(64, _ => b) + [0];
    assert EncodeLabels([one]) == [64] + one;
    assert message == EncodeLabels([one]) + [0];
    EncodedReads(message, 0, [one], 0);
    assert |Decode(message, 0, 0).value[0]| == 64;
  }

  /** Rendering the labels of a name gives the name back, provided it ends in no empty label. */
  lemma SplitRenders(name: Bytes, lossy: Bytes -> Bytes)
    requires forall l :: l in Split(name) ==> lossy(l) == l
    requires Last(Split(name)) != []
    ensures Render(Split(name), lossy) == name
  {
    assert AsText(Split(name), lossy) == Split(name);
    JoinSplit(name);
    NothingToTrim(name);
  }

  /**
   * Decoding undoes encoding wherever the name is placed, exactly when every label
   * is 1 to 191 bytes long; RFC 1035 allows 1 to 63. An empty label ends the name
   * early, a length octet of 192 or more is read as a pointer, and from 256 bytes
   * on the encoder writes a zero octet.
   */
  lemma RoundTrip(bytes: Bytes, offset: nat, name: Bytes, lossy: Bytes -> Bytes)
    requires HoldsAt(bytes, offset, EncodeName(name))
    requires forall l :: l in Split(name) ==> lossy(l) == l
    ensures
      && RenderResult(Decode(bytes, offset, 0), lossy) == Ok(name)
      && NextOffset(bytes, offset) == offset + |EncodeName(name)|
      <==> AllPlain(Split(name))
  {
    var labels := Split(name);
    if AllPlain(labels) {
      EncodedReads(bytes, offset, labels, 0);
      SplitRenders(name, lossy);
    } else {
      HoldsParts(bytes, offset, EncodeLabels(labels), [0]);
      StopsShort(bytes, offset, labels);
    }
  }

  /** A name of one label of 192 bytes or more is not read back with the right end, wherever it is placed. */
  lemma LongNameMisread(bytes: Bytes, offset: nat, name: Bytes, lossy: Bytes -> Bytes)
    requires 192 <= |name| && DOT !in name && lossy(name) == name
    requires HoldsAt(bytes, offset, EncodeName(name))
    ensures RenderResult(Decode(bytes, offset, 0), lossy) == Ok(name) ==>
      NextOffset(bytes, offset) != offset + |EncodeName(name)|
  {
    SplitDotless(name);
    RoundTrip(bytes, offset, name, lossy);
  }
}
