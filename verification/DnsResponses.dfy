/** PTR queries and the scanner for PTR answers (sections 3.3.12, 3.5 and 4.1 of RFC 1035). */
module DnsResponses {
  import opened Common
  import opened DnsNames

  const PTR_TYPE := 12

  // ---------------------------------------------------------------- scanning

  /** Advance `count` times from `offset`, or stop at the first failure. */
  function Skip(step: nat -> Result<nat>, offset: nat, count: nat): Result<nat>
    decreases count
  {
    if count == 0 then Ok(offset) else
      match step(offset)
      case Err(e) => Err(e)
      case Ok(next) => Skip(step, next, count - 1)
  }

  /** One record is either the answer or leads on to the next. */
  datatype Visit = Answer(name: Bytes) | Onward(next: nat)

  function Find(visit: nat -> Result<Visit>, offset: nat, count: nat): Result<Option<Bytes>>
    decreases count
  {
    if count == 0 then Ok(None) else
      match visit(offset)
      case Err(e) => Err(e)
      case Ok(Answer(name)) => Ok(Some(name))
      case Ok(Onward(next)) => Find(visit, next, count - 1)
  }

  ghost predicate Leads(step: nat -> Result<nat>, starts: seq<nat>, i: nat)
    requires i + 1 < |starts|
  {
    step(starts[i]) == Ok(starts[i + 1])
  }

  lemma {:induction false} SkipAll(step: nat -> Result<nat>, starts: seq<nat>, k: nat)
    requires k < |starts|
    requires forall i :: 0 <= i < |starts| - 1 ==> Leads(step, starts, i)
    ensures Skip(step, starts[k], |starts| - 1 - k) == Ok(Last(starts))
    decreases |starts| - k
  {
    if k + 1 < |starts| {
      assert Leads(step, starts, k);
      SkipAll(step, starts, k + 1);
    }
  }

  /** The first answer among the visits from the k-th on. */
  ghost function FirstAnswer(visits: seq<Visit>, k: nat): Option<Bytes>
    requires k <= |visits|
    decreases |visits| - k
  {
    if k == |visits| then None else if visits[k].Answer? then Some(visits[k].name) else FirstAnswer(visits, k + 1)
  }

  ghost predicate Visits(visit: nat -> Result<Visit>, starts: seq<nat>, visits: seq<Visit>, i: nat)
    requires i < |visits| && i + 1 < |starts|
  {
    visit(starts[i]) == Ok(visits[i]) && (visits[i].Onward? ==> visits[i].next == starts[i + 1])
  }

  lemma {:induction false} FindFirst(visit: nat -> Result<Visit>, starts: seq<nat>, visits: seq<Visit>, k: nat)
    requires |starts| == |visits| + 1 && k <= |visits|
    requires forall i :: 0 <= i < |visits| ==> Visits(visit, starts, visits, i)
    ensures Find(visit, starts[k], |visits| - k) == Ok(FirstAnswer(visits, k))
    decreases |visits| - k
  {
    if k < |visits| {
      assert Visits(visit, starts, visits, k);
      if visits[k].Onward? {
        FindFirst(visit, starts, visits, k + 1);
      }
    }
  }

  // ---------------------------------------------------------------- responses

  function StepQuestion(bytes: Bytes, offset: nat): Result<nat> {
    match Decode(bytes, offset, 0)
    case Err(e) => Err(e)
    case Ok(_) =>
      var next := NextOffset(bytes, offset) + 4;
      if next > |bytes| then Err(TruncatedQuestion) else Ok(next)
  }

  /** The part of a record behind its owner name. */
  function VisitData(bytes: Bytes, fixed: nat, lossy: Bytes -> Bytes): Result<Visit> {
    if fixed + 10 > |bytes| then Err(TruncatedAnswer) else
      var next := fixed + 10 + Word(bytes[fixed + 8], bytes[fixed + 9]);
      if next > |bytes| then Err(TruncatedRdata)
      else if Word(bytes[fixed], bytes[fixed + 1]) != PTR_TYPE then Ok(Onward(next))
      else
        match RenderResult(Decode(bytes, fixed + 10, 0), lossy)
        case Ok(name) => Ok(Answer(name))
        case Err(e) => Err(e)
  }

  function VisitRecord(bytes: Bytes, offset: nat, lossy: Bytes -> Bytes): Result<Visit> {
    match Decode(bytes, offset, 0)
    case Err(e) => Err(e)
    case Ok(_) => VisitData(bytes, NextOffset(bytes, offset), lossy)
  }

  function QuestionStepper(bytes: Bytes): nat -> Result<nat> {
    (offset: nat) => StepQuestion(bytes, offset)
  }

  function RecordVisitor(bytes: Bytes, lossy: Bytes -> Bytes): nat -> Result<Visit> {
    (offset: nat) => VisitRecord(bytes, offset, lossy)
  }

  function PtrAnswer(bytes: Bytes, lossy: Bytes -> Bytes): Result<Option<Bytes>> {
    if |bytes| < 12 then Err(ShortResponse) else
      match Skip(QuestionStepper(bytes), 12, Word(bytes[4], bytes[5]))
      case Err(e) => Err(e)
      case Ok(offset) => Find(RecordVisitor(bytes, lossy), offset, Word(bytes[6], bytes[7]))
  }

  // What goes wrong, by the octets.

  /** A question is its name and four more octets, or its name's error, or cut off. */
  lemma QuestionMeans(bytes: Bytes, offset: nat)
    ensures var name, end, r := Decode(bytes, offset, 0), NextOffset(bytes, offset) + 4, QuestionStepper(bytes)(offset);
      if name.Err? then r == Err(name.error) else r == if end <= |bytes| then Ok(end) else Err(TruncatedQuestion)
  {
  }

  /** A record: its owner's error, cut off in its fixed octets or its data, skipped unless of type 12, or read. */
  lemma RecordMeans(bytes: Bytes, offset: nat, lossy: Bytes -> Bytes)
    ensures var owner, at := Decode(bytes, offset, 0), NextOffset(bytes, offset);
      var r := RecordVisitor(bytes, lossy)(offset);
      if owner.Err? then r == Err(owner.error)
      else if |bytes| < at + 10 then r == Err(TruncatedAnswer)
      else
        var data, end := at + 10, at + 10 + 256 * (bytes[at + 8] as nat) + bytes[at + 9];
        if |bytes| < end then r == Err(TruncatedRdata)
        else if bytes[at] != 0 || bytes[at + 1] != 12 then r == Ok(Onward(end))
        else match Decode(bytes, data, 0)
          case Err(e) => r == Err(e)
          case Ok(labels) => r == Ok(Answer(Render(labels, lossy)))
  {
  }

  /** The first step that fails fails the whole; nothing behind it is looked at. */
  lemma {:induction false} SkipFails(step: nat -> Result<nat>, starts: seq<nat>, k: nat, count: nat, e: Error)
    requires k < |starts| <= count + k
    requires forall i :: 0 <= i < |starts| - 1 ==> Leads(step, starts, i)
    requires step(Last(starts)) == Err(e)
    ensures Skip(step, starts[k], count) == Err(e)
    decreases |starts| - k
  {
    if k + 1 < |starts| {
      assert Leads(step, starts, k);
      SkipFails(step, starts, k + 1, count - 1, e);
    }
  }

  ghost predicate Passes(visit: nat -> Result<Visit>, starts: seq<nat>, i: nat)
    requires i + 1 < |starts|
  {
    visit(starts[i]) == Ok(Onward(starts[i + 1]))
  }

  /** The first record that fails, with only other records before it, fails the whole. */
  lemma {:induction false} FindFails(visit: nat -> Result<Visit>, starts: seq<nat>, k: nat, count: nat, e: Error)
    requires k < |starts| <= count + k
    requires forall i :: 0 <= i < |starts| - 1 ==> Passes(visit, starts, i)
    requires visit(Last(starts)) == Err(e)
    ensures Find(visit, starts[k], count) == Err(e)
    decreases |starts| - k
  {
    if k + 1 < |starts| {
      assert Passes(visit, starts, k);
      FindFails(visit, starts, k + 1, count - 1, e);
    }
  }

  /** The counts come from the header: a short message, a bad question or a bad record is an error. */
  lemma ResponseMeans(bytes: Bytes, lossy: Bytes -> Bytes)
    ensures |bytes| < 12 ==> PtrAnswer(bytes, lossy) == Err(ShortResponse)
    ensures 12 <= |bytes| ==>
      var questions := Skip(QuestionStepper(bytes), 12, 256 * (bytes[4] as nat) + bytes[5]);
      PtrAnswer(bytes, lossy) ==
        if questions.Err? then Err(questions.error)
        else Find(RecordVisitor(bytes, lossy), questions.value, 256 * (bytes[6] as nat) + bytes[7])
  {
  }

  method SkipQuestion(bytes: Bytes, offset: nat, lossy: Bytes -> Bytes) returns (r: Result<nat>)
    ensures r == QuestionStepper(bytes)(offset)
  {
    var name, next := ReadDnsName(bytes, offset, lossy);
    if name.Err? {
      return Err(name.error);
    }
    if next + 4 > |bytes| {
      return Err(TruncatedQuestion);
    }
    return Ok(next + 4);
  }

  method ReadRecord(bytes: Bytes, offset: nat, lossy: Bytes -> Bytes) returns (r: Result<Visit>)
    ensures r == RecordVisitor(bytes, lossy)(offset)
  {
    var owner, fixed := ReadDnsName(bytes, offset, lossy);
    if owner.Err? {
      return Err(owner.error);
    }
    if fixed + 10 > |bytes| {
      return Err(TruncatedAnswer);
    }
    var rrType := Word(bytes[fixed], bytes[fixed + 1]);
    var rdlen := Word(bytes[fixed + 8], bytes[fixed + 9]);
    if fixed + 10 + rdlen > |bytes| {
      return Err(TruncatedRdata);
    }
    if rrType == PTR_TYPE {
      var name, _ := ReadDnsName(bytes, fixed + 10, lossy);
      return if name.Ok? then Ok(Answer(name.value)) else Err(name.error);
    }
    return Ok(Onward(fixed + 10 + rdlen));
  }

  method SkipQuestions(bytes: Bytes, start: nat, count: nat, lossy: Bytes -> Bytes) returns (r: Result<nat>)
    ensures r == Skip(QuestionStepper(bytes), start, count)
  {
    var offset: nat := start;
    for k := 0 to count
      invariant Skip(QuestionStepper(bytes), start, count) == Skip(QuestionStepper(bytes), offset, count - k)
    {
      var step := SkipQuestion(bytes, offset, lossy);
      if step.Err? {
        return Err(step.error);
      }
      offset := step.value;
    }
    return Ok(offset);
  }

  method FindPtr(bytes: Bytes, start: nat, count: nat, lossy: Bytes -> Bytes) returns (r: Result<Option<Bytes>>)
    ensures r == Find(RecordVisitor(bytes, lossy), start, count)
  {
    var offset: nat := start;
    for k := 0 to count
      invariant Find(RecordVisitor(bytes, lossy), start, count) == Find(RecordVisitor(bytes, lossy), offset, count - k)
    {
      var visit := ReadRecord(bytes, offset, lossy);
      if visit.Err? {
        return Err(visit.error);
      }
      if visit.value.Answer? {
        return Ok(Some(visit.value.name));
      }
      offset := visit.value.next;
    }
    return Ok(None);
  }

  method ParsePtrResponse(bytes: Bytes, lossy: Bytes -> Bytes) returns (r: Result<Option<Bytes>>)
    ensures r == PtrAnswer(bytes, lossy)
  {
    if |bytes| < 12 {
      return Err(ShortResponse);
    }
    var answers := SkipQuestions(bytes, 12, Word(bytes[4], bytes[5]), lossy);
    if answers.Err? {
      return Err(answers.error);
    }
    r := FindPtr(bytes, answers.value, Word(bytes[6], bytes[7]), lossy);
  }

  // Well-formed messages, built from the grammar of sections 4.1.1 to 4.1.4.

  type PointerOffset = x: nat | x < 0x4000

  /** Labels followed by a terminator, or by a pointer to the rest of the name. */
  datatype WireName = WireName(labels: seq<Label>, pointer: Option<PointerOffset>)

  datatype Question = Question(name: WireName, typeAndClass: Bytes)

  datatype Record =
    | Ptr(owner: WireName, classAndTtl: Bytes, target: WireName)
    | Other(owner: WireName, rtype: nat, classAndTtl: Bytes, rdata: Bytes)

  function WordBytes(n: nat): Bytes {
    [n / 256 % 256, n % 256]
  }

  function Ending(pointer: Option<PointerOffset>): Bytes {
    match pointer
    case None => [0]
    case Some(p) => [192 + p / 256, p % 256]
  }

  function EncodeWire(w: WireName): Bytes {
    EncodeLabels(w.labels) + Ending(w.pointer)
  }

  function EncodeQuestion(q: Question): Bytes {
    EncodeWire(q.name) + q.typeAndClass
  }

  ghost predicate RecordFits(r: Record) {
    && |r.classAndTtl| == 6
    && |Rdata(r)| < 0x1_0000
    && (r.Other? ==> r.rtype < 0x1_0000 && r.rtype != PTR_TYPE)
  }

  function Rdata(r: Record): Bytes {
    if r.Ptr? then EncodeWire(r.target) else r.rdata
  }

  function EncodeFixed(r: Record): Bytes {
    WordBytes(if r.Ptr? then PTR_TYPE else r.rtype) + r.classAndTtl + WordBytes(|Rdata(r)|)
  }

  function EncodeRecord(r: Record): Bytes {
    EncodeWire(r.owner) + (EncodeFixed(r) + Rdata(r))
  }

  /** The pointer leads to `rest`, by the grammar of names and with the pointers that are left. */
  ghost predicate LeadsTo(msg: Bytes, pointer: PointerOffset, rest: seq<Label>) {
    NameAt(msg, pointer, rest, MAX_JUMPS - 1)
  }

  /** A name is usable in `msg` when its pointer, if any, leads to the rest of a name. */
  ghost predicate Resolves(msg: Bytes, w: WireName) {
    AllPlain(w.labels) && (w.pointer.Some? ==> exists rest :: LeadsTo(msg, w.pointer.value, rest))
  }

  /** The full name: its own labels, then those its pointer leads to. */
  ghost function Meaning(msg: Bytes, w: WireName): seq<Label> {
    if w.pointer.None? || !Resolves(msg, w) then w.labels else
      var rest :| LeadsTo(msg, w.pointer.value, rest);
      w.labels + rest
  }

  lemma EndingReads(msg: Bytes, end: nat, pointer: Option<PointerOffset>)
    requires HoldsAt(msg, end, Ending(pointer))
    ensures Decode(msg, end, 0) == if pointer.None? then Ok([]) else Decode(msg, pointer.value, 1)
    ensures NextOffset(msg, end) == end + |Ending(pointer)|
  {
    var chunk := msg[end..end + |Ending(pointer)|];
    assert msg[end] == chunk[0];
    if pointer.Some? {
      assert msg[end + 1] == chunk[1];
    }
  }

  /** What is read behind the own labels completes the meaning. */
  lemma MeaningReads(msg: Bytes, w: WireName)
    requires Resolves(msg, w)
    ensures Prepend(w.labels, if w.pointer.None? then Ok([]) else Decode(msg, w.pointer.value, 1)) ==
      Ok(Meaning(msg, w))
  {
    if w.pointer.None? {
      assert w.labels + [] == w.labels;
    } else {
      var rest :| LeadsTo(msg, w.pointer.value, rest) && Meaning(msg, w) == w.labels + rest;
      DecodeIsGrammar(msg, w.pointer.value, 1, rest);
    }
  }

  lemma WireReads(msg: Bytes, offset: nat, w: WireName)
    requires HoldsAt(msg, offset, EncodeWire(w)) && Resolves(msg, w)
    ensures Decode(msg, offset, 0) == Ok(Meaning(msg, w))
    ensures NextOffset(msg, offset) == offset + |EncodeWire(w)|
  {
    HoldsParts(msg, offset, EncodeLabels(w.labels), Ending(w.pointer));
    LabelsPass(msg, offset, w.labels, 0);
    EndingReads(msg, offset + |EncodeLabels(w.labels)|, w.pointer);
    MeaningReads(msg, w);
  }

  ghost predicate QuestionAt(msg: Bytes, offset: nat, q: Question) {
    HoldsAt(msg, offset, EncodeQuestion(q)) && |q.typeAndClass| == 4 && Resolves(msg, q.name)
  }

  lemma QuestionSteps(msg: Bytes, offset: nat, q: Question)
    requires QuestionAt(msg, offset, q)
    ensures QuestionStepper(msg)(offset) == Ok(offset + |EncodeQuestion(q)|)
  {
    NameThenRest(msg, offset, q.name, q.typeAndClass);
  }

  ghost predicate RecordAt(msg: Bytes, offset: nat, r: Record) {
    && RecordFits(r)
    && HoldsAt(msg, offset, EncodeRecord(r))
    && Resolves(msg, r.owner)
    && (r.Ptr? ==> Resolves(msg, r.target))
  }

  /** A name followed by something else: the reader stops where the something starts. */
  lemma NameThenRest(msg: Bytes, offset: nat, w: WireName, rest: Bytes)
    requires HoldsAt(msg, offset, EncodeWire(w) + rest) && Resolves(msg, w)
    ensures Decode(msg, offset, 0).Ok?
    ensures NextOffset(msg, offset) == offset + |EncodeWire(w)|
    ensures HoldsAt(msg, NextOffset(msg, offset), rest)
  {
    HoldsParts(msg, offset, EncodeWire(w), rest);
    WireReads(msg, offset, w);
  }

  /** A PTR record has type 12, another record another type. */
  lemma PtrIsTwelve(r: Record)
    requires RecordFits(r)
    ensures r.Ptr? <==> EncodeFixed(r)[..2] == [0, 12]
  {
    var kind := if r.Ptr? then PTR_TYPE else r.rtype;
    assert EncodeFixed(r)[..2] == WordBytes(kind);
    WordReads(kind);
  }

  lemma WordReads(n: nat)
    requires n < 0x1_0000
    ensures Word(WordBytes(n)[0], WordBytes(n)[1]) == n
  {
  }

  lemma FixedReads(msg: Bytes, fixed: nat, r: Record)
    requires RecordFits(r) && HoldsAt(msg, fixed, EncodeFixed(r))
    ensures fixed + 10 <= |msg|
    ensures Word(msg[fixed], msg[fixed + 1]) == if r.Ptr? then PTR_TYPE else r.rtype
    ensures Word(msg[fixed + 8], msg[fixed + 9]) == |Rdata(r)|
  {
    var kind, size := if r.Ptr? then PTR_TYPE else r.rtype, |Rdata(r)|;
    var chunk := msg[fixed..fixed + 10];
    assert chunk == WordBytes(kind) + r.classAndTtl + WordBytes(size);
    WordReads(kind);
    WordReads(size);
    assert msg[fixed] == chunk[0] == WordBytes(kind)[0] && msg[fixed + 1] == chunk[1] == WordBytes(kind)[1];
    assert msg[fixed + 8] == chunk[8] == WordBytes(size)[0] && msg[fixed + 9] == chunk[9] == WordBytes(size)[1];
  }

  lemma FixedLength(r: Record)
    requires RecordFits(r)
    ensures |EncodeFixed(r)| == 10
    ensures |EncodeRecord(r)| == |EncodeWire(r.owner)| + 10 + |Rdata(r)|
  {
  }

  lemma HoldsThree(msg: Bytes, offset: nat, a: Bytes, b: Bytes, c: Bytes)
    requires HoldsAt(msg, offset, a + (b + c))
    ensures HoldsAt(msg, offset, a) && HoldsAt(msg, offset + |a|, b) && HoldsAt(msg, offset + |a| + |b|, c)
  {
    HoldsParts(msg, offset, a, b + c);
    HoldsParts(msg, offset + |a|, b, c);
  }

  lemma TwoParts(msg: Bytes, offset: nat, w: WireName, a: Bytes, b: Bytes)
    requires HoldsAt(msg, offset, EncodeWire(w) + (a + b)) && Resolves(msg, w)
    ensures Decode(msg, offset, 0).Ok?
    ensures var next := NextOffset(msg, offset);
      && next == offset + |EncodeWire(w)|
      && HoldsAt(msg, next, a)
      && HoldsAt(msg, next + |a|, b)
  {
    HoldsThree(msg, offset, EncodeWire(w), a, b);
    WireReads(msg, offset, w);
  }

  lemma RecordParts(msg: Bytes, offset: nat, r: Record)
    requires RecordFits(r) && HoldsAt(msg, offset, EncodeRecord(r)) && Resolves(msg, r.owner)
    ensures Decode(msg, offset, 0).Ok?
    ensures var fixed := NextOffset(msg, offset);
      && fixed == offset + |EncodeWire(r.owner)|
      && HoldsAt(msg, fixed, EncodeFixed(r))
      && HoldsAt(msg, fixed + 10, Rdata(r))
      && fixed + 10 + |Rdata(r)| == offset + |EncodeRecord(r)|
  {
    FixedLength(r);
    TwoParts(msg, offset, r.owner, EncodeFixed(r), Rdata(r));
  }

  /** What visiting a record that ends at `next` yields. */
  ghost function VisitTo(msg: Bytes, next: nat, r: Record, lossy: Bytes -> Bytes): Visit {
    if r.Ptr? then Answer(Render(Meaning(msg, r.target), lossy)) else Onward(next)
  }

  ghost function VisitOf(msg: Bytes, offset: nat, r: Record, lossy: Bytes -> Bytes): Visit {
    VisitTo(msg, offset + |EncodeRecord(r)|, r, lossy)
  }

  lemma DataVisited(msg: Bytes, fixed: nat, r: Record, lossy: Bytes -> Bytes)
    requires RecordFits(r) && HoldsAt(msg, fixed, EncodeFixed(r)) && HoldsAt(msg, fixed + 10, Rdata(r))
    requires r.Ptr? ==> Resolves(msg, r.target)
    ensures VisitData(msg, fixed, lossy) == Ok(VisitTo(msg, fixed + 10 + |Rdata(r)|, r, lossy))
  {
    FixedReads(msg, fixed, r);
    if r.Ptr? {
      WireReads(msg, fixed + 10, r.target);
    }
  }

  lemma VisitedFrom(msg: Bytes, offset: nat, r: Record, next: nat, lossy: Bytes -> Bytes)
    requires Decode(msg, offset, 0).Ok?
    requires VisitData(msg, NextOffset(msg, offset), lossy) == Ok(VisitTo(msg, next, r, lossy))
    ensures RecordVisitor(msg, lossy)(offset) == Ok(VisitTo(msg, next, r, lossy))
  {
  }

  lemma RecordVisited(msg: Bytes, offset: nat, r: Record, lossy: Bytes -> Bytes)
    requires RecordAt(msg, offset, r)
    ensures RecordVisitor(msg, lossy)(offset) == Ok(VisitOf(msg, offset, r, lossy))
  {
    RecordParts(msg, offset, r);
    DataVisited(msg, NextOffset(msg, offset), r, lossy);
    VisitedFrom(msg, offset, r, offset + |EncodeRecord(r)|, lossy);
  }

  ghost predicate QuestionPlaced(msg: Bytes, qs: seq<Question>, at: seq<nat>, k: nat)
    requires k < |qs| && |at| == |qs| + 1
  {
    QuestionAt(msg, at[k], qs[k]) && at[k + 1] == at[k] + |EncodeQuestion(qs[k])|
  }

  ghost predicate RecordPlaced(msg: Bytes, rs: seq<Record>, at: seq<nat>, k: nat)
    requires k < |rs| && |at| == |rs| + 1
  {
    RecordAt(msg, at[k], rs[k]) && at[k + 1] == at[k] + |EncodeRecord(rs[k])|
  }

  /** Section 4.1: the questions, and then the answers, one behind the other. */
  ghost predicate QuestionsAt(msg: Bytes, qs: seq<Question>, at: seq<nat>) {
    |at| == |qs| + 1 && at[0] == 12 && forall k :: 0 <= k < |qs| ==> QuestionPlaced(msg, qs, at, k)
  }

  ghost predicate RecordsAt(msg: Bytes, rs: seq<Record>, at: seq<nat>) {
    |at| == |rs| + 1 && forall k :: 0 <= k < |rs| ==> RecordPlaced(msg, rs, at, k)
  }

  /** The name in the first PTR record from the k-th on, if there is one. */
  ghost function FirstPtr(msg: Bytes, rs: seq<Record>, k: nat, lossy: Bytes -> Bytes): Option<Bytes>
    requires k <= |rs|
    decreases |rs| - k
  {
    if k == |rs| then None
    else if rs[k].Ptr? then Some(Render(Meaning(msg, rs[k].target), lossy))
    else FirstPtr(msg, rs, k + 1, lossy)
  }

  ghost predicate VisitedAt(
    msg: Bytes, rs: seq<Record>, at: seq<nat>, visits: seq<Visit>, i: nat, lossy: Bytes -> Bytes)
    requires i < |rs| == |visits| < |at|
  {
    visits[i] == VisitOf(msg, at[i], rs[i], lossy)
  }

  lemma {:induction false} FirstPtrIsAnswer(
    msg: Bytes, rs: seq<Record>, at: seq<nat>, visits: seq<Visit>, k: nat, lossy: Bytes -> Bytes)
    requires |at| == |rs| + 1 && |visits| == |rs| && k <= |rs|
    requires forall i :: 0 <= i < |rs| ==> VisitedAt(msg, rs, at, visits, i, lossy)
    ensures FirstAnswer(visits, k) == FirstPtr(msg, rs, k, lossy)
    decreases |rs| - k
  {
    if k < |rs| {
      assert VisitedAt(msg, rs, at, visits, k, lossy);
      FirstPtrIsAnswer(msg, rs, at, visits, k + 1, lossy);
    }
  }

  lemma QuestionsSkipped(msg: Bytes, qs: seq<Question>, at: seq<nat>)
    requires QuestionsAt(msg, qs, at)
    ensures Skip(QuestionStepper(msg), 12, |qs|) == Ok(Last(at))
  {
    forall k | 0 <= k < |qs| ensures Leads(QuestionStepper(msg), at, k) {
      assert QuestionPlaced(msg, qs, at, k);
      QuestionSteps(msg, at[k], qs[k]);
    }
    SkipAll(QuestionStepper(msg), at, 0);
  }

  lemma RecordVisits(msg: Bytes, rs: seq<Record>, at: seq<nat>, visits: seq<Visit>, k: nat, lossy: Bytes -> Bytes)
    requires k < |rs| == |visits| && |at| == |rs| + 1
    requires RecordPlaced(msg, rs, at, k) && VisitedAt(msg, rs, at, visits, k, lossy)
    ensures Visits(RecordVisitor(msg, lossy), at, visits, k)
  {
    RecordVisited(msg, at[k], rs[k], lossy);
  }

  lemma FirstPtrAmong(msg: Bytes, rs: seq<Record>, at: seq<nat>, visits: seq<Visit>, lossy: Bytes -> Bytes)
    requires RecordsAt(msg, rs, at) && |visits| == |rs|
    requires forall k :: 0 <= k < |rs| ==> VisitedAt(msg, rs, at, visits, k, lossy)
    ensures Find(RecordVisitor(msg, lossy), at[0], |rs|) == Ok(FirstPtr(msg, rs, 0, lossy))
  {
    var visit := RecordVisitor(msg, lossy);
    forall k | 0 <= k < |rs| ensures Visits(visit, at, visits, k) {
      assert RecordPlaced(msg, rs, at, k) && VisitedAt(msg, rs, at, visits, k, lossy);
      RecordVisits(msg, rs, at, visits, k, lossy);
    }
    FindFirst(visit, at, visits, 0);
    FirstPtrIsAnswer(msg, rs, at, visits, 0, lossy);
  }

  lemma FirstPtrFound(msg: Bytes, rs: seq<Record>, at: seq<nat>, lossy: Bytes -> Bytes)
    requires RecordsAt(msg, rs, at)
    ensures Find(RecordVisitor(msg, lossy), at[0], |rs|) == Ok(FirstPtr(msg, rs, 0, lossy))
  {
    var visits := seq(|rs|, i requires 0 <= i < |rs| => VisitOf(msg, at[i], rs[i], lossy));
    forall k | 0 <= k < |rs| ensures VisitedAt(msg, rs, at, visits, k, lossy) {
    }
    FirstPtrAmong(msg, rs, at, visits, lossy);
  }

  /**
   * On a well-formed response the scanner skips every question and every other
   * record and returns the first PTR answer's name, compressed or not; without a
   * PTR answer it returns none. Whatever follows the answers is ignored.
   */
  lemma PtrAnswerFound(
    msg: Bytes, qs: seq<Question>, qAt: seq<nat>, rs: seq<Record>, rAt: seq<nat>, lossy: Bytes -> Bytes)
    requires 12 <= |msg| && Word(msg[4], msg[5]) == |qs| && Word(msg[6], msg[7]) == |rs|
    requires QuestionsAt(msg, qs, qAt) && RecordsAt(msg, rs, rAt) && rAt[0] == Last(qAt)
    ensures PtrAnswer(msg, lossy) == Ok(FirstPtr(msg, rs, 0, lossy))
  {
    QuestionsSkipped(msg, qs, qAt);
    FirstPtrFound(msg, rs, rAt, lossy);
  }

  // ---------------------------------------------------------------- queries

  datatype Ipv4 = Ipv4(a: Byte, b: Byte, c: Byte, d: Byte)

  function Decimal(n: nat): Bytes {
    if n < 10 then [48 + n] else Decimal(n / 10) + [48 + n % 10]
  }

  const IN_ADDR: Bytes := [105, 110, 45, 97, 100, 100, 114]
  const ARPA: Bytes := [97, 114, 112, 97]

  /** Section 3.5: the octets in reverse order below `in-addr.arpa`. */
  function QueryLabels(ip: Ipv4): seq<Label> {
    [Decimal(ip.d), Decimal(ip.c), Decimal(ip.b), Decimal(ip.a), IN_ADDR, ARPA]
  }

  function QueryName(ip: Ipv4): Bytes {
    Join(QueryLabels(ip))
  }

  function QueryHeader(id: nat): Bytes {
    WordBytes(id) + WordBytes(0x0100) + WordBytes(1) + WordBytes(0) + WordBytes(0) + WordBytes(0)
  }

  lemma {:induction false} DecimalPlain(n: nat)
    requires n < 1000
    ensures 1 <= |Decimal(n)| <= 3 && DOT !in Decimal(n)
  {
    if n >= 10 {
      if n >= 100 {
        assert Decimal(n / 100) == [48 + n / 100];
      }
    }
  }

  function FromDecimal(digits: Bytes): int {
    if digits == [] then 0 else
      var last: int := Last(digits);
      FromDecimal(digits[..|digits| - 1]) * 10 + (last - 48)
  }

  lemma {:induction false} DecimalReads(n: nat)
    ensures FromDecimal(Decimal(n)) == n
  {
    if n >= 10 {
      DecimalReads(n / 10);
      assert Decimal(n)[..|Decimal(n)| - 1] == Decimal(n / 10);
    } else {
      assert Decimal(n)[..0] == [];
    }
  }

  lemma QuerySplits(ip: Ipv4)
    ensures Split(QueryName(ip)) == QueryLabels(ip)
    ensures AllPlain(QueryLabels(ip))
  {
    DecimalPlain(ip.a);
    DecimalPlain(ip.b);
    DecimalPlain(ip.c);
    DecimalPlain(ip.d);
    SplitJoin(QueryLabels(ip));
  }

  /** The question names the address, least significant octet first, and ends four octets before the query does. */
  lemma QueryReadsBack(id: nat, ip: Ipv4, query: Bytes)
    requires query == QueryHeader(id) + EncodeName(QueryName(ip)) + (WordBytes(PTR_TYPE) + WordBytes(1))
    ensures Decode(query, 12, 0) == Ok(QueryLabels(ip))
    ensures NextOffset(query, 12) == |query| - 4
  {
    QuerySplits(ip);
    assert |QueryHeader(id)| == 12;
    assert HoldsAt(query, 12, EncodeName(QueryName(ip)));
    EncodedReads(query, 12, QueryLabels(ip), 0);
  }

  /** A name of six labels: four octets in decimal, the last one of the address first, then "in-addr" and "arpa". */
  ghost predicate Reversed(labels: seq<Label>, ip: Ipv4) {
    && |labels| == 6
    && FromDecimal(labels[0]) == ip.d && FromDecimal(labels[1]) == ip.c
    && FromDecimal(labels[2]) == ip.b && FromDecimal(labels[3]) == ip.a
    && labels[4] == ['i' as int, 'n' as int, '-' as int, 'a' as int, 'd' as int, 'd' as int, 'r' as int]
    && labels[5] == ['a' as int, 'r' as int, 'p' as int, 'a' as int]
  }

  lemma QueryReversed(ip: Ipv4)
    ensures Reversed(QueryLabels(ip), ip)
  {
    DecimalReads(ip.a);
    DecimalReads(ip.b);
    DecimalReads(ip.c);
    DecimalReads(ip.d);
  }

  /** The header of a standard query with recursion desired and one question (section 4.1.1). */
  ghost predicate AsksOne(bytes: Bytes, id: nat) {
    && 12 <= |bytes|
    && Word(bytes[0], bytes[1]) == id && Word(bytes[2], bytes[3]) == 0x0100 && Word(bytes[4], bytes[5]) == 1
    && Word(bytes[6], bytes[7]) == 0 && Word(bytes[8], bytes[9]) == 0 && Word(bytes[10], bytes[11]) == 0
  }

  lemma HeaderBytes(id: nat)
    ensures QueryHeader(id) == [id / 256 % 256, id % 256, 1, 0, 0, 1, 0, 0, 0, 0, 0, 0]
  {
  }

  lemma HeaderAsksOne(id: nat, rest: Bytes)
    requires id < 0x1_0000
    ensures AsksOne(QueryHeader(id) + rest, id)
  {
    HeaderBytes(id);
    WordReads(id);
    var bytes := QueryHeader(id) + rest;
    assert bytes[0] == id / 256 % 256 && bytes[1] == id % 256 && bytes[2] == 1 && bytes[3] == 0;
    assert bytes[4] == 0 && bytes[5] == 1 && bytes[6] == 0 && bytes[7] == 0;
    assert bytes[8] == 0 && bytes[9] == 0 && bytes[10] == 0 && bytes[11] == 0;
  }

  /** The query for the name of an address: header, reversed name, type PTR (12) and class IN (1). */
  method BuildPtrQuery(id: nat, ip: Ipv4) returns (bytes: Bytes)
    requires id < 0x1_0000
    ensures bytes == QueryHeader(id) + EncodeName(QueryName(ip)) + (WordBytes(PTR_TYPE) + WordBytes(1))
    ensures AsksOne(bytes, id)
    ensures Decode(bytes, 12, 0).Ok? && Reversed(Decode(bytes, 12, 0).value, ip)
    ensures NextOffset(bytes, 12) == |bytes| - 4 && bytes[|bytes| - 4..] == [0, 12, 0, 1]
  {
    bytes := QueryHeader(id);
    bytes := EncodeDnsName(QueryName(ip), bytes);
    bytes := bytes + (WordBytes(PTR_TYPE) + WordBytes(1));
    ghost var rest := EncodeName(QueryName(ip)) + (WordBytes(PTR_TYPE) + WordBytes(1));
    assert bytes == QueryHeader(id) + rest;
    HeaderAsksOne(id, rest);
    QueryReadsBack(id, ip, bytes);
    QueryReversed(ip);
  }

  /** Different addresses ask different questions. */
  lemma QueryNamesAddress(x: Ipv4, y: Ipv4)
    requires QueryName(x) == QueryName(y)
    ensures x == y
  {
    QuerySplits(x);
    QuerySplits(y);
    var xs, ys := QueryLabels(x), QueryLabels(y);
    assert xs[0] == ys[0] && xs[1] == ys[1] && xs[2] == ys[2] && xs[3] == ys[3];
    DecimalReads(x.a);
    DecimalReads(x.b);
    DecimalReads(x.c);
    DecimalReads(x.d);
    DecimalReads(y.a);
    DecimalReads(y.b);
    DecimalReads(y.c);
    DecimalReads(y.d);
  }
}
