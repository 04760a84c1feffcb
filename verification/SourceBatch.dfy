/**
 * Pacing of source queries: connected-server frames, UDP batches and Kad lookups.
 *
 * The stamp maps are pruned lazily, so every claim below is stated against the
 * full history of batches and grants, which nothing ever prunes.
 */
module SourceBatch {
  import opened Common
  import opened Sources

  const UDP_COOLDOWN: Duration := 30 * MINUTE
  const SERVER_COOLDOWN: Duration := 15 * MINUTE
  const FRAME_INTERVAL: Duration := 15 * (16 + 4) * SECOND
  const FRAME_MAX_FILES: nat := 15
  const KAD_BASE_COOLDOWN: Duration := 60 * MINUTE
  const KAD_MAX_MULTIPLIER: nat := 7

  type Ed2kHash = seq<bv8>
  type Stamps = map<FileHash, Instant>

  datatype Transfer = Transfer(hash: FileHash, state: string, sizeBytes: nat)
  datatype Candidate = Candidate(fileHash: Ed2kHash, transfer: Transfer, sourceCount: nat)
  datatype Target = Target(fileHash: Ed2kHash, fileSize: nat)

  predicate IsActive(t: Transfer) {
    t.state !in {"completed", "completing", "paused", "stopped", "hashing", "insufficient"}
  }

  predicate Young(stamps: Stamps, hash: FileHash, now: Instant, cooldown: Duration) {
    hash in stamps && Elapsed(now, stamps[hash]) < cooldown
  }

  /** Server frames ignore source counts. */
  function Uncounted(hash: FileHash): nat {
    0
  }

  // ---------------------------------------------------------------- filling a batch

  /** The other transfers worth asking about, in the iteration order of the transfer map. */
  function Others(
    order: seq<Transfer>, current: FileHash, parse: FileHash -> Option<Ed2kHash>,
    count: FileHash -> nat): seq<Candidate>
  {
    if order == [] then [] else
      var rest := Others(order[1..], current, parse, count);
      var t := order[0];
      if t.hash == current || !IsActive(t) || t.sizeBytes == 0 || parse(t.hash).None? then rest
      else [Candidate(parse(t.hash).value, t, count(t.hash))] + rest
  }

  /** The states in which nothing is asked about a transfer. */
  const AT_REST := ["completed", "completing", "paused", "stopped", "hashing", "insufficient"]

  /** Exactly the other transfers that are not at rest, not empty and have a parseable hash are candidates. */
  lemma {:induction false} OthersMeans(
    order: seq<Transfer>, current: FileHash, parse: FileHash -> Option<Ed2kHash>, count: FileHash -> nat, c: Candidate)
    ensures c in Others(order, current, parse, count) <==>
      && c.transfer in order
      && c.transfer.hash != current && c.transfer.state !in AT_REST && c.transfer.sizeBytes != 0
      && parse(c.transfer.hash) == Some(c.fileHash) && count(c.transfer.hash) == c.sourceCount
  {
    if order != [] {
      OthersMeans(order[1..], current, parse, count, c);
      assert order == [order[0]] + order[1..];
    }
  }

  /** Rising positions at which the transfers of these candidates stand. */
  ghost predicate StandAt(cands: seq<Candidate>, order: seq<Transfer>, at: seq<nat>) {
    && |at| == |cands|
    && (forall i, j :: 0 <= i < j < |at| ==> at[i] < at[j])
    && (forall i :: 0 <= i < |at| ==> at[i] < |order| && cands[i].transfer == order[at[i]])
  }

  lemma StandOneOn(cands: seq<Candidate>, order: seq<Transfer>, at: seq<nat>) returns (on: seq<nat>)
    requires order != [] && StandAt(cands, order[1..], at)
    ensures StandAt(cands, order, on) && forall i :: 0 <= i < |on| ==> 0 < on[i]
  {
    on := seq(|at|, i requires 0 <= i < |at| => at[i] + 1);
  }

  lemma StandFirst(c: Candidate, cands: seq<Candidate>, order: seq<Transfer>, at: seq<nat>)
    requires order != [] && c.transfer == order[0] && StandAt(cands, order, at)
    requires forall i :: 0 <= i < |at| ==> 0 < at[i]
    ensures StandAt([c] + cands, order, [0] + at)
  {
    forall i | 0 <= i < |at| + 1
      ensures ([0] + at)[i] < |order| && ([c] + cands)[i].transfer == order[([0] + at)[i]]
    {
    }
  }

  /** The candidates stand in the order of the transfers, each transfer once. */
  lemma {:induction false} OthersInOrder(
    order: seq<Transfer>, current: FileHash, parse: FileHash -> Option<Ed2kHash>, count: FileHash -> nat)
    returns (at: seq<nat>)
    ensures StandAt(Others(order, current, parse, count), order, at)
  {
    if order == [] {
      at := [];
    } else {
      var others := Others(order, current, parse, count);
      var rest := Others(order[1..], current, parse, count);
      at := OthersInOrder(order[1..], current, parse, count);
      at := StandOneOn(rest, order, at);
      if others != rest {
        StandFirst(others[0], rest, order, at);
        at := [0] + at;
      }
    }
  }

  /** The per-file source cap; zero means uncapped. */
  predicate UnderCap(c: Candidate, cap: nat) {
    cap == 0 || c.sourceCount < cap
  }

  /** Worth placing: under its cap and not cooling down. */
  predicate Due(c: Candidate, cap: nat, stamps: Stamps, now: Instant, cooldown: Duration) {
    UnderCap(c, cap) && !Young(stamps, c.transfer.hash, now, cooldown)
  }

  /** Front to back from `k`: place what is due, stamp it at once, stop at `limit`. */
  function Place(
    cands: seq<Candidate>, k: nat, cap: nat, stamps: Stamps, now: Instant, cooldown: Duration,
    limit: nat): seq<Candidate>
    requires k <= |cands|
    decreases |cands| - k
  {
    if k == |cands| || limit == 0 then []
    else if !Due(cands[k], cap, stamps, now, cooldown) then Place(cands, k + 1, cap, stamps, now, cooldown, limit)
    else [cands[k]] + Place(cands, k + 1, cap, stamps[cands[k].transfer.hash := now], now, cooldown, limit - 1)
  }

  function Hashes(placed: seq<Candidate>): seq<FileHash> {
    seq(|placed|, i requires 0 <= i < |placed| => placed[i].transfer.hash)
  }

  function Stamp(stamps: Stamps, hashes: seq<FileHash>, now: Instant): Stamps {
    map h | h in stamps.Keys + (set x | x in hashes) :: if h in hashes then now else stamps[h]
  }

  function Targets(placed: seq<Candidate>): seq<Target> {
    seq(|placed|, i requires 0 <= i < |placed| => Target(placed[i].fileHash, placed[i].transfer.sizeBytes))
  }

  ghost predicate NoRepeats<T>(s: seq<T>) {
    forall i, j :: 0 <= i < j < |s| ==> s[i] != s[j]
  }

  lemma {:induction false} PlacedSound(
    cands: seq<Candidate>, k: nat, cap: nat, stamps: Stamps, now: Instant, cooldown: Duration, limit: nat)
    requires 0 < cooldown && k <= |cands|
    ensures var placed := Place(cands, k, cap, stamps, now, cooldown, limit);
      && |placed| <= limit
      && forall i :: 0 <= i < |placed| ==> placed[i] in cands && Due(placed[i], cap, stamps, now, cooldown)
    decreases |cands| - k
  {
    if k < |cands| && limit != 0 {
      if Due(cands[k], cap, stamps, now, cooldown) {
        PlacedSound(cands, k + 1, cap, stamps[cands[k].transfer.hash := now], now, cooldown, limit - 1);
      } else {
        PlacedSound(cands, k + 1, cap, stamps, now, cooldown, limit);
      }
    }
  }

  lemma FirstIsNew(c: Candidate, rest: seq<Candidate>)
    requires NoRepeats(Hashes(rest))
    requires forall i :: 0 <= i < |rest| ==> rest[i].transfer.hash != c.transfer.hash
    ensures NoRepeats(Hashes([c] + rest))
  {
    assert Hashes([c] + rest) == [c.transfer.hash] + Hashes(rest);
  }

  lemma {:induction false} PlacedOnce(
    cands: seq<Candidate>, k: nat, cap: nat, stamps: Stamps, now: Instant, cooldown: Duration, limit: nat)
    requires 0 < cooldown && k <= |cands|
    ensures NoRepeats(Hashes(Place(cands, k, cap, stamps, now, cooldown, limit)))
    decreases |cands| - k
  {
    if k < |cands| && limit != 0 {
      var hash := cands[k].transfer.hash;
      if Due(cands[k], cap, stamps, now, cooldown) {
        var later := stamps[hash := now];
        var rest := Place(cands, k + 1, cap, later, now, cooldown, limit - 1);
        PlacedOnce(cands, k + 1, cap, later, now, cooldown, limit - 1);
        PlacedSound(cands, k + 1, cap, later, now, cooldown, limit - 1);
        FirstIsNew(cands[k], rest);
      } else {
        PlacedOnce(cands, k + 1, cap, stamps, now, cooldown, limit);
      }
    }
  }

  lemma {:induction false} PlacedAll(
    cands: seq<Candidate>, k: nat, cap: nat, stamps: Stamps, now: Instant, cooldown: Duration, limit: nat, m: nat)
    requires 0 < cooldown && k <= m < |cands|
    requires |Place(cands, k, cap, stamps, now, cooldown, limit)| < limit
    requires Due(cands[m], cap, stamps, now, cooldown)
    ensures cands[m].transfer.hash in Hashes(Place(cands, k, cap, stamps, now, cooldown, limit))
    decreases |cands| - k
  {
    var hash := cands[k].transfer.hash;
    if Due(cands[k], cap, stamps, now, cooldown) {
      var rest := Place(cands, k + 1, cap, stamps[hash := now], now, cooldown, limit - 1);
      assert Hashes([cands[k]] + rest) == [hash] + Hashes(rest);
      if hash != cands[m].transfer.hash {
        PlacedAll(cands, k + 1, cap, stamps[hash := now], now, cooldown, limit - 1, m);
      }
    } else {
      PlacedAll(cands, k + 1, cap, stamps, now, cooldown, limit, m);
    }
  }

  /**
   * What a batch contains: no file twice, only files that are due, at most
   * `limit`; and when it is not full, every file that was due. The first
   * candidate is never displaced by a later one.
   */
  lemma Placed(cands: seq<Candidate>, cap: nat, stamps: Stamps, now: Instant, cooldown: Duration, limit: nat)
    requires 0 < cooldown
    ensures var placed := Place(cands, 0, cap, stamps, now, cooldown, limit);
      && |placed| <= limit
      && NoRepeats(Hashes(placed))
      && (forall i :: 0 <= i < |placed| ==> placed[i] in cands && Due(placed[i], cap, stamps, now, cooldown))
      && (|placed| < limit ==> forall m :: 0 <= m < |cands| && Due(cands[m], cap, stamps, now, cooldown) ==>
            cands[m].transfer.hash in Hashes(placed))
      && (cands != [] && 0 < limit && Due(cands[0], cap, stamps, now, cooldown) ==>
            placed != [] && placed[0] == cands[0])
  {
    PlacedSound(cands, 0, cap, stamps, now, cooldown, limit);
    PlacedOnce(cands, 0, cap, stamps, now, cooldown, limit);
    var placed := Place(cands, 0, cap, stamps, now, cooldown, limit);
    if |placed| < limit {
      forall m | 0 <= m < |cands| && Due(cands[m], cap, stamps, now, cooldown)
        ensures cands[m].transfer.hash in Hashes(placed)
      {
        PlacedAll(cands, 0, cap, stamps, now, cooldown, limit, m);
      }
    }
  }

  // ---------------------------------------------------------------- history

  datatype Batch = Batch(at: Instant, files: seq<FileHash>)

  /** When `hash` was last put into a batch. */
  ghost function LastQuery(history: seq<Batch>, hash: FileHash): Option<Instant> {
    if history == [] then None
    else if hash in Last(history).files then Some(Last(history).at)
    else LastQuery(history[..|history| - 1], hash)
  }

  ghost predicate AskedWithin(history: seq<Batch>, hash: FileHash, now: Instant, cooldown: Duration) {
    LastQuery(history, hash).Some? && now < LastQuery(history, hash).value + cooldown
  }

  /** A stamp is its file's last query; a missing stamp had already cooled down at `clock`. */
  ghost predicate StampExact(stamps: Stamps, history: seq<Batch>, clock: Instant, cooldown: Duration, h: FileHash) {
    if h in stamps then LastQuery(history, h) == Some(stamps[h]) && stamps[h] <= clock
    else LastQuery(history, h).Some? ==> LastQuery(history, h).value + cooldown <= clock
  }

  ghost predicate StampsExact(stamps: Stamps, history: seq<Batch>, clock: Instant, cooldown: Duration) {
    forall h :: StampExact(stamps, history, clock, cooldown, h)
  }

  /** Files of two batches: those they share were asked a cooldown apart. */
  ghost predicate Apart(a: Batch, b: Batch, cooldown: Duration) {
    forall h :: h in a.files && h in b.files ==> a.at + cooldown <= b.at
  }

  /** No file is put into two batches less than a cooldown apart, nor twice into one. */
  ghost predicate FilesApart(history: seq<Batch>, cooldown: Duration) {
    && (forall i :: 0 <= i < |history| ==> NoRepeats(history[i].files))
    && (forall i, j :: 0 <= i < j < |history| ==> Apart(history[i], history[j], cooldown))
  }

  ghost predicate Ordered(history: seq<Batch>, clock: Instant) {
    && (forall i :: 0 <= i < |history| ==> history[i].at <= clock)
    && (forall i, j :: 0 <= i < j < |history| ==> history[i].at <= history[j].at)
  }

  lemma {:induction false} LastQueryIsLast(history: seq<Batch>, clock: Instant, i: nat, hash: FileHash)
    requires Ordered(history, clock) && i < |history| && hash in history[i].files
    ensures LastQuery(history, hash).Some? && history[i].at <= LastQuery(history, hash).value
  {
    if hash !in Last(history).files {
      LastQueryIsLast(history[..|history| - 1], clock, i, hash);
    }
  }

  lemma YoungMeansAsked(
    stamps: Stamps, history: seq<Batch>, clock: Instant, cooldown: Duration, now: Instant, h: FileHash)
    requires StampsExact(stamps, history, clock, cooldown) && clock <= now
    ensures Young(stamps, h, now, cooldown) <==> AskedWithin(history, h, now, cooldown)
  {
    assert StampExact(stamps, history, clock, cooldown, h);
  }

  lemma PruneKeepsExact(stamps: Stamps, history: seq<Batch>, clock: Instant, cooldown: Duration, now: Instant)
    requires StampsExact(stamps, history, clock, cooldown) && clock <= now
    ensures StampsExact(YoungerThan(stamps, now, cooldown), history, now, cooldown)
  {
    forall h ensures StampExact(YoungerThan(stamps, now, cooldown), history, now, cooldown, h) {
      assert StampExact(stamps, history, clock, cooldown, h);
    }
  }

  lemma BatchKeepsExact(stamps: Stamps, history: seq<Batch>, cooldown: Duration, b: Batch)
    requires StampsExact(stamps, history, b.at, cooldown)
    ensures StampsExact(Stamp(stamps, b.files, b.at), history + [b], b.at, cooldown)
  {
    var longer := history + [b];
    assert longer[..|longer| - 1] == history;
    forall h ensures StampExact(Stamp(stamps, b.files, b.at), longer, b.at, cooldown, h) {
      assert StampExact(stamps, history, b.at, cooldown, h);
    }
  }

  lemma BatchKeepsApart(history: seq<Batch>, cooldown: Duration, b: Batch)
    requires FilesApart(history, cooldown) && Ordered(history, b.at) && NoRepeats(b.files)
    requires forall h :: h in b.files ==> !AskedWithin(history, h, b.at, cooldown)
    ensures FilesApart(history + [b], cooldown) && Ordered(history + [b], b.at)
  {
    forall i, h | 0 <= i < |history| && h in history[i].files && h in b.files
      ensures history[i].at + cooldown <= b.at
    {
      LastQueryIsLast(history, b.at, i, h);
    }
  }

  /** Nothing is recorded for a call that placed no file. */
  ghost function Recorded(history: seq<Batch>, now: Instant, files: seq<FileHash>): seq<Batch> {
    if files == [] then history else history + [Batch(now, files)]
  }

  ghost predicate FramesPaced(frames: seq<Batch>) {
    && (forall i :: 0 <= i < |frames| ==> 0 < |frames[i].files| <= 15)
    && (forall i, j :: 0 <= i < j < |frames| ==> frames[i].at + 300 * SECOND <= frames[j].at)
  }

  ghost predicate Paced(stamps: Stamps, history: seq<Batch>, clock: Instant, cooldown: Duration) {
    StampsExact(stamps, history, clock, cooldown) && FilesApart(history, cooldown) && Ordered(history, clock)
  }

  lemma PruneKeepsPaced(stamps: Stamps, history: seq<Batch>, clock: Instant, cooldown: Duration, now: Instant)
    requires Paced(stamps, history, clock, cooldown) && clock <= now
    ensures Paced(YoungerThan(stamps, now, cooldown), history, now, cooldown)
  {
    PruneKeepsExact(stamps, history, clock, cooldown, now);
  }

  lemma RecordedFrames(frames: seq<Batch>, now: Instant, files: seq<FileHash>)
    requires FramesPaced(frames) && |files| <= FRAME_MAX_FILES
    requires frames != [] ==> Last(frames).at + FRAME_INTERVAL <= now
    ensures FramesPaced(Recorded(frames, now, files))
  {
  }

  /** Filling a batch from pruned stamps keeps the stamps exact and the files apart. */
  lemma FillKeepsPaced(stamps: Stamps, history: seq<Batch>, cooldown: Duration, now: Instant, files: seq<FileHash>)
    requires Paced(stamps, history, now, cooldown) && NoRepeats(files)
    requires forall h :: h in files ==> !AskedWithin(history, h, now, cooldown)
    ensures Paced(Stamp(stamps, files, now), Recorded(history, now, files), now, cooldown)
  {
    if files == [] {
      assert Stamp(stamps, files, now) == stamps;
    } else {
      BatchKeepsExact(stamps, history, cooldown, Batch(now, files));
      BatchKeepsApart(history, cooldown, Batch(now, files));
    }
  }

  // ---------------------------------------------------------------- the claims

  /** The stamps, targets and transfer table the loop has built once `placed` is placed. */
  datatype Emission = Emission(stamps: Stamps, targets: seq<Target>, transfers: map<Ed2kHash, Transfer>)

  function Emit(e: Emission, c: Candidate, now: Instant): Emission {
    Emission(
      e.stamps[c.transfer.hash := now],
      e.targets + [Target(c.fileHash, c.transfer.sizeBytes)],
      e.transfers[c.fileHash := c.transfer])
  }

  function Emitted(before: Stamps, placed: seq<Candidate>, now: Instant): Emission {
    if placed == [] then Emission(before, [], map[])
    else Emit(Emitted(before, placed[..|placed| - 1], now), Last(placed), now)
  }

  /** One target per placed file, those files and no others stamped, and a table holding just them. */
  lemma {:induction false} EmittedMeans(before: Stamps, placed: seq<Candidate>, now: Instant)
    ensures var e := Emitted(before, placed, now);
      && e.targets == Targets(placed)
      && e.stamps == Stamp(before, Hashes(placed), now)
      && e.transfers.Keys == (set i | 0 <= i < |placed| :: placed[i].fileHash)
      && (forall h :: h in e.transfers ==> exists c :: c in placed && c.fileHash == h && c.transfer == e.transfers[h])
  {
    if placed != [] {
      var init := placed[..|placed| - 1];
      EmittedMeans(before, init, now);
      EmitStamps(before, init, Last(placed), now);
      assert placed == init + [Last(placed)];
      assert Targets(placed) == Targets(init) + [Target(Last(placed).fileHash, Last(placed).transfer.sizeBytes)];
      var e := Emitted(before, placed, now);
      assert e.transfers.Keys == Emitted(before, init, now).transfers.Keys + {Last(placed).fileHash};
    }
  }

  lemma EmitStamps(before: Stamps, init: seq<Candidate>, c: Candidate, now: Instant)
    ensures Stamp(before, Hashes(init), now)[c.transfer.hash := now] == Stamp(before, Hashes(init + [c]), now)
  {
    assert Hashes(init + [c]) == Hashes(init) + [c.transfer.hash];
  }

  /** Worth asking about, judged by the unpruned history. */
  ghost predicate Askable(c: Candidate, cap: nat, history: seq<Batch>, now: Instant, cooldown: Duration) {
    (cap == 0 || c.sourceCount < cap) && !AskedWithin(history, c.transfer.hash, now, cooldown)
  }

  /** Some askable candidate before `k` is for the file. */
  ghost predicate TakenBefore(
    cands: seq<Candidate>, k: nat, hash: FileHash, cap: nat, history: seq<Batch>, now: Instant, cooldown: Duration)
    requires k <= |cands|
  {
    exists j :: 0 <= j < k && cands[j].transfer.hash == hash && Askable(cands[j], cap, history, now, cooldown)
  }

  /** From `k` on, the first askable candidate of each file, in candidate order. */
  ghost function Wanted(
    cands: seq<Candidate>, k: nat, cap: nat, history: seq<Batch>, now: Instant, cooldown: Duration): seq<Candidate>
    requires k <= |cands|
    decreases |cands| - k
  {
    if k == |cands| then [] else
      var rest := Wanted(cands, k + 1, cap, history, now, cooldown);
      if Askable(cands[k], cap, history, now, cooldown)
         && !TakenBefore(cands, k, cands[k].transfer.hash, cap, history, now, cooldown)
      then [cands[k]] + rest else rest
  }

  function Take<T>(s: seq<T>, n: nat): seq<T> {
    if n <= |s| then s[..n] else s
  }

  /** Cooling down at `k` means asked lately, or placed by this very batch. */
  ghost predicate YoungAt(
    stamps: Stamps, cands: seq<Candidate>, k: nat, hash: FileHash, cap: nat, history: seq<Batch>, now: Instant,
    cooldown: Duration)
    requires k <= |cands|
  {
    Young(stamps, hash, now, cooldown) <==>
      AskedWithin(history, hash, now, cooldown) || TakenBefore(cands, k, hash, cap, history, now, cooldown)
  }

  lemma PassedOver(
    stamps: Stamps, cands: seq<Candidate>, k: nat, hash: FileHash, cap: nat, history: seq<Batch>, now: Instant,
    cooldown: Duration)
    requires k < |cands| && !Due(cands[k], cap, stamps, now, cooldown)
    requires YoungAt(stamps, cands, k, hash, cap, history, now, cooldown)
    requires YoungAt(stamps, cands, k, cands[k].transfer.hash, cap, history, now, cooldown)
    ensures YoungAt(stamps, cands, k + 1, hash, cap, history, now, cooldown)
  {
  }

  lemma JustPlaced(
    stamps: Stamps, cands: seq<Candidate>, k: nat, hash: FileHash, cap: nat, history: seq<Batch>, now: Instant,
    cooldown: Duration)
    requires 0 < cooldown && k < |cands| && Due(cands[k], cap, stamps, now, cooldown)
    requires YoungAt(stamps, cands, k, hash, cap, history, now, cooldown)
    requires YoungAt(stamps, cands, k, cands[k].transfer.hash, cap, history, now, cooldown)
    ensures YoungAt(stamps[cands[k].transfer.hash := now], cands, k + 1, hash, cap, history, now, cooldown)
  {
    if hash == cands[k].transfer.hash {
      assert Askable(cands[k], cap, history, now, cooldown);
    }
  }

  lemma TakeFirst<T>(x: T, rest: seq<T>, n: nat)
    requires 0 < n
    ensures Take([x] + rest, n) == [x] + Take(rest, n - 1)
  {
  }

  /** The loop places exactly the first `limit` wanted candidates, in order. */
  lemma {:induction false} PlaceIsWanted(
    cands: seq<Candidate>, k: nat, cap: nat, stamps: Stamps, history: seq<Batch>, now: Instant, cooldown: Duration,
    limit: nat)
    requires 0 < cooldown && k <= |cands|
    requires forall h :: YoungAt(stamps, cands, k, h, cap, history, now, cooldown)
    ensures Place(cands, k, cap, stamps, now, cooldown, limit) ==
      Take(Wanted(cands, k, cap, history, now, cooldown), limit)
    decreases |cands| - k
  {
    if k < |cands| && limit != 0 {
      var hash := cands[k].transfer.hash;
      var next := k + 1;
      assert YoungAt(stamps, cands, k, hash, cap, history, now, cooldown);
      if Due(cands[k], cap, stamps, now, cooldown) {
        var later := stamps[hash := now];
        forall h ensures YoungAt(later, cands, next, h, cap, history, now, cooldown) {
          JustPlaced(stamps, cands, k, h, cap, history, now, cooldown);
        }
        PlaceIsWanted(cands, next, cap, later, history, now, cooldown, limit - 1);
        TakeFirst(cands[k], Wanted(cands, next, cap, history, now, cooldown), limit);
      } else {
        forall h ensures YoungAt(stamps, cands, next, h, cap, history, now, cooldown) {
          PassedOver(stamps, cands, k, h, cap, history, now, cooldown);
        }
        PlaceIsWanted(cands, next, cap, stamps, history, now, cooldown, limit);
      }
    }
  }

  /** What a caller can rely on about one claimed batch, against the unpruned history. */
  ghost predicate Claimed(
    placed: seq<Candidate>, cands: seq<Candidate>, cap: nat, history: seq<Batch>, now: Instant, cooldown: Duration,
    limit: nat)
  {
    && placed == Take(Wanted(cands, 0, cap, history, now, cooldown), limit)
    && |placed| <= limit
    && NoRepeats(Hashes(placed))
    && (forall i :: 0 <= i < |placed| ==> placed[i] in cands && Askable(placed[i], cap, history, now, cooldown))
    && (|placed| < limit ==> forall k :: 0 <= k < |cands| && Askable(cands[k], cap, history, now, cooldown) ==>
          cands[k].transfer.hash in Hashes(placed))
    && (cands != [] && 0 < limit && Askable(cands[0], cap, history, now, cooldown) ==>
          placed != [] && placed[0] == cands[0])
  }

  lemma PlaceIsClaimed(
    cands: seq<Candidate>, cap: nat, stamps: Stamps, history: seq<Batch>, now: Instant, cooldown: Duration, limit: nat)
    requires 0 < cooldown
    requires Paced(stamps, history, now, cooldown)
    ensures var placed := Place(cands, 0, cap, stamps, now, cooldown, limit);
      && Claimed(placed, cands, cap, history, now, cooldown, limit)
      && Paced(Stamp(stamps, Hashes(placed), now), Recorded(history, now, Hashes(placed)), now, cooldown)
  {
    Placed(cands, cap, stamps, now, cooldown, limit);
    forall c ensures Due(c, cap, stamps, now, cooldown) <==> Askable(c, cap, history, now, cooldown) {
      YoungMeansAsked(stamps, history, now, cooldown, now, c.transfer.hash);
    }
    forall h ensures YoungAt(stamps, cands, 0, h, cap, history, now, cooldown) {
      YoungMeansAsked(stamps, history, now, cooldown, now, h);
    }
    PlaceIsWanted(cands, 0, cap, stamps, history, now, cooldown, limit);
    FillKeepsPaced(stamps, history, cooldown, now, Hashes(Place(cands, 0, cap, stamps, now, cooldown, limit)));
  }

  method CollectOthers(
    order: seq<Transfer>, current: FileHash, parse: FileHash -> Option<Ed2kHash>, count: FileHash -> nat)
    returns (others: seq<Candidate>)
    ensures others == Others(order, current, parse, count)
  {
    others := [];
    for k := 0 to |order|
      invariant others + Others(order[k..], current, parse, count) == Others(order, current, parse, count)
    {
      var t := order[k];
      assert order[k..][0] == t && order[k..][1..] == order[k + 1..];
      if t.hash == current || !IsActive(t) || t.sizeBytes == 0 {
        continue;
      }
      var hash := parse(t.hash);
      if hash.None? {
        continue;
      }
      others := others + [Candidate(hash.value, t, count(t.hash))];
    }
  }

  lemma EmittedOne(before: Stamps, placed: seq<Candidate>, c: Candidate, now: Instant)
    ensures Emitted(before, placed + [c], now) == Emit(Emitted(before, placed, now), c, now)
  {
  }

  /** The common loop: skip files over the cap or cooling down, stamp and emit the rest until the batch is full. */
  method Fill(cands: seq<Candidate>, cap: nat, before: Stamps, now: Instant, cooldown: Duration, limit: nat)
    returns (e: Emission, ghost placed: seq<Candidate>)
    requires 0 < limit
    ensures placed == Place(cands, 0, cap, before, now, cooldown, limit)
    ensures e == Emitted(before, Place(cands, 0, cap, before, now, cooldown, limit), now)
  {
    e, placed := Emission(before, [], map[]), [];
    ghost var rest := Place(cands, 0, cap, before, now, cooldown, limit);
    ghost var all := rest;
    for k := 0 to |cands|
      invariant |placed| == |e.targets| < limit
      invariant e == Emitted(before, placed, now)
      invariant rest == Place(cands, k, cap, e.stamps, now, cooldown, limit - |placed|)
      invariant all == placed + rest
    {
      var c := cands[k];
      if !UnderCap(c, cap) || Young(e.stamps, c.transfer.hash, now, cooldown) {
        continue;
      }
      EmittedOne(before, placed, c, now);
      e := Emit(e, c, now);
      rest := Place(cands, k + 1, cap, e.stamps, now, cooldown, limit - |placed| - 1);
      Regroup(placed, c, rest);
      placed := placed + [c];
      if |e.targets| >= limit {
        return;
      }
    }
  }

  ghost function FrameStamp(frames: seq<Batch>): Option<Instant> {
    if frames == [] then None else Some(Last(frames).at)
  }

  ghost predicate ServerPaced(stamps: Stamps, lastFrameAt: Option<Instant>, frames: seq<Batch>, clock: Instant) {
    Paced(stamps, frames, clock, SERVER_COOLDOWN) && FramesPaced(frames) && lastFrameAt == FrameStamp(frames)
  }

  lemma PruneKeepsServer(stamps: Stamps, lastFrameAt: Option<Instant>, frames: seq<Batch>, clock: Instant, now: Instant)
    requires ServerPaced(stamps, lastFrameAt, frames, clock) && clock <= now
    ensures ServerPaced(YoungerThan(stamps, now, SERVER_COOLDOWN), lastFrameAt, frames, now)
    ensures lastFrameAt.Some? && Elapsed(now, lastFrameAt.value) < FRAME_INTERVAL <==>
      frames != [] && now < Last(frames).at + FRAME_INTERVAL
  {
    PruneKeepsPaced(stamps, frames, clock, SERVER_COOLDOWN, now);
  }

  /** A claim that passes the frame gate keeps every server-side invariant. */
  lemma ServerClaimKeeps(stamps: Stamps, frames: seq<Batch>, now: Instant, cands: seq<Candidate>)
    requires ServerPaced(stamps, FrameStamp(frames), frames, now)
    requires frames != [] ==> Last(frames).at + FRAME_INTERVAL <= now
    ensures var placed := Place(cands, 0, 0, stamps, now, SERVER_COOLDOWN, FRAME_MAX_FILES);
      var e := Emitted(stamps, placed, now);
      && Claimed(placed, cands, 0, frames, now, SERVER_COOLDOWN, FRAME_MAX_FILES)
      && ServerPaced(
           e.stamps, if e.targets != [] then Some(now) else FrameStamp(frames),
           Recorded(frames, now, Hashes(placed)), now)
  {
    var placed := Place(cands, 0, 0, stamps, now, SERVER_COOLDOWN, FRAME_MAX_FILES);
    PlaceIsClaimed(cands, 0, stamps, frames, now, SERVER_COOLDOWN, FRAME_MAX_FILES);
    EmittedMeans(stamps, placed, now);
    RecordedFrames(frames, now, Hashes(placed));
  }

  // ---------------------------------------------------------------- rates

  ghost function Times(history: seq<Batch>): seq<Instant> {
    seq(|history|, i requires 0 <= i < |history| => history[i].at)
  }

  /** File requests carried by the batches of a closed window. */
  ghost function FilesIn(history: seq<Batch>, start: Instant, width: Duration): nat {
    if history == [] then 0 else
      var b := Last(history);
      FilesIn(history[..|history| - 1], start, width) + if start <= b.at <= start + width then |b.files| else 0
  }

  lemma {:induction false} FilesPerFrame(frames: seq<Batch>, start: Instant, width: Duration)
    requires forall i :: 0 <= i < |frames| ==> |frames[i].files| <= 15
    ensures FilesIn(frames, start, width) <= 15 * |Window(Times(frames), start, width)|
  {
    if frames != [] {
      var init := frames[..|frames| - 1];
      FilesPerFrame(init, start, width);
      assert Times(frames)[..|frames| - 1] == Times(init);
      assert |Last(frames).files| <= 15;
    }
  }

  /** However claims arrive, a window of `width` carries at most fifteen file requests per frame slot. */
  lemma ServerRequestRate(frames: seq<Batch>, start: Instant, width: Duration)
    requires FramesPaced(frames)
    ensures FilesIn(frames, start, width) <= 15 * (width / (300 * SECOND) + 1)
  {
    FilesPerFrame(frames, start, width);
    WindowRate(Times(frames), FRAME_INTERVAL, start, width);
  }

  /** When `hash` was asked about, oldest first. */
  ghost function AskTimes(history: seq<Batch>, hash: FileHash): seq<Instant> {
    if history == [] then [] else
      var before := AskTimes(history[..|history| - 1], hash);
      if hash in Last(history).files then before + [Last(history).at] else before
  }

  lemma {:induction false} AskTimesFrom(history: seq<Batch>, hash: FileHash, i: nat)
    requires i < |AskTimes(history, hash)|
    ensures exists k :: 0 <= k < |history| && hash in history[k].files && history[k].at == AskTimes(history, hash)[i]
  {
    var init := history[..|history| - 1];
    if i < |AskTimes(init, hash)| {
      AskTimesFrom(init, hash, i);
      var k :| 0 <= k < |init| && hash in init[k].files && init[k].at == AskTimes(init, hash)[i];
      assert history[k] == init[k];
    } else {
      assert history[|history| - 1] == Last(history);
    }
  }

  lemma {:induction false} AskTimesApart(history: seq<Batch>, cooldown: Duration, hash: FileHash)
    requires FilesApart(history, cooldown)
    ensures Spaced(AskTimes(history, hash), cooldown)
  {
    if history != [] {
      var init := history[..|history| - 1];
      AskTimesApart(init, cooldown, hash);
      forall i | 0 <= i < |AskTimes(init, hash)| && hash in Last(history).files
        ensures AskTimes(init, hash)[i] + cooldown <= Last(history).at
      {
        AskTimesFrom(init, hash, i);
        var k :| 0 <= k < |init| && hash in init[k].files && init[k].at == AskTimes(init, hash)[i];
        assert Apart(history[k], Last(history), cooldown);
      }
    }
  }

  /** One file is asked about at most once per cooldown, plus once, in any window. */
  lemma FileAskRate(history: seq<Batch>, cooldown: Duration, hash: FileHash, start: Instant, width: Duration)
    requires 0 < cooldown && FilesApart(history, cooldown)
    ensures |Window(AskTimes(history, hash), start, width)| <= width / cooldown + 1
  {
    AskTimesApart(history, cooldown, hash);
    WindowRate(AskTimes(history, hash), cooldown, start, width);
  }

  class SourceQueryPacer {
    var serverLastQueried: Stamps
    var serverLastFrameAt: Option<Instant>
    var udpLastQueried: Stamps
    /** Every non-empty connected-server frame and UDP batch, oldest first, and the last claim of each kind. */
    ghost var frames: seq<Batch>
    ghost var serverClock: Instant
    ghost var udpBatches: seq<Batch>
    ghost var udpClock: Instant

    ghost predicate ServerValid()
      reads this
    {
      ServerPaced(serverLastQueried, serverLastFrameAt, frames, serverClock)
    }

    ghost predicate UdpValid()
      reads this
    {
      Paced(udpLastQueried, udpBatches, udpClock, UDP_COOLDOWN)
    }

    constructor ()
      ensures ServerValid() && UdpValid() && frames == [] && udpBatches == []
    {
      serverLastQueried, serverLastFrameAt, udpLastQueried := map[], None, map[];
      frames, serverClock, udpBatches, udpClock := [], 0, [], 0;
    }

    /** What any sequence of claims adds up to, by the invariant it keeps. */
    lemma Rates(hash: FileHash, start: Instant, width: Duration)
      requires ServerValid() && UdpValid()
      ensures FilesIn(frames, start, width) <= 15 * (width / (300 * SECOND) + 1)
      ensures |Window(AskTimes(frames, hash), start, width)| <= width / (15 * MINUTE) + 1
      ensures |Window(AskTimes(udpBatches, hash), start, width)| <= width / (30 * MINUTE) + 1
    {
      ServerRequestRate(frames, start, width);
      FileAskRate(frames, SERVER_COOLDOWN, hash, start, width);
      FileAskRate(udpBatches, UDP_COOLDOWN, hash, start, width);
    }

    method ClaimConnectedServerBatch(
      order: seq<Transfer>, current: Transfer, currentFileHash: Ed2kHash, parse: FileHash -> Option<Ed2kHash>,
      now: Instant)
      returns (e: Emission, ghost placed: seq<Candidate>)
      requires ServerValid() && serverClock <= now
      modifies this`serverLastQueried, this`serverLastFrameAt, this`frames, this`serverClock
      ensures ServerValid() && serverClock == now
      ensures frames == Recorded(old(frames), now, Hashes(placed))
      ensures serverLastQueried == e.stamps
      ensures e == Emitted(YoungerThan(old(serverLastQueried), now, SERVER_COOLDOWN), placed, now)
      ensures if old(frames) != [] && now < Last(old(frames)).at + 300 * SECOND then placed == [] else
          Claimed(placed, [Candidate(currentFileHash, current, 0)] + Others(order, current.hash, parse, Uncounted),
                  0, old(frames), now, 15 * MINUTE, 15)
    {
      PruneKeepsServer(serverLastQueried, serverLastFrameAt, frames, serverClock, now);
      serverLastQueried := YoungerThan(serverLastQueried, now, SERVER_COOLDOWN);
      serverClock := now;
      if serverLastFrameAt.Some? && Elapsed(now, serverLastFrameAt.value) < FRAME_INTERVAL {
        return Emission(serverLastQueried, [], map[]), [];
      }
      var others := CollectOthers(order, current.hash, parse, Uncounted);
      var cands := [Candidate(currentFileHash, current, 0)] + others;
      ServerClaimKeeps(serverLastQueried, frames, now, cands);
      e, placed := Fill(cands, 0, serverLastQueried, now, SERVER_COOLDOWN, FRAME_MAX_FILES);
      serverLastQueried := e.stamps;
      if e.targets != [] {
        serverLastFrameAt := Some(now);
      }
      frames := Recorded(frames, now, Hashes(placed));
    }

    method ClaimUdpBatch(
      order: seq<Transfer>, current: Transfer, currentFileHash: Ed2kHash, currentSourceCount: nat, cap: nat,
      parse: FileHash -> Option<Ed2kHash>, count: FileHash -> nat, now: Instant)
      returns (e: Emission, ghost placed: seq<Candidate>)
      requires UdpValid() && udpClock <= now
      modifies this`udpLastQueried, this`udpBatches, this`udpClock
      ensures UdpValid() && udpClock == now
      ensures udpBatches == Recorded(old(udpBatches), now, Hashes(placed))
      ensures udpLastQueried == e.stamps
      ensures e == Emitted(YoungerThan(old(udpLastQueried), now, UDP_COOLDOWN), placed, now)
      ensures
        var cands :=
          [Candidate(currentFileHash, current, currentSourceCount)] + Others(order, current.hash, parse, count);
        Claimed(placed, cands, cap, old(udpBatches), now, 30 * MINUTE, |cands| + 1)
    {
      PruneKeepsPaced(udpLastQueried, udpBatches, udpClock, UDP_COOLDOWN, now);
      udpLastQueried := YoungerThan(udpLastQueried, now, UDP_COOLDOWN);
      udpClock := now;
      var others := CollectOthers(order, current.hash, parse, count);
      var cands := [Candidate(currentFileHash, current, currentSourceCount)] + others;
      PlaceIsClaimed(cands, cap, udpLastQueried, udpBatches, now, UDP_COOLDOWN, |cands| + 1);
      e, placed := Fill(cands, cap, udpLastQueried, now, UDP_COOLDOWN, |cands| + 1);
      EmittedMeans(udpLastQueried, placed, now);
      udpLastQueried := e.stamps;
      udpBatches := Recorded(udpBatches, now, Hashes(placed));
    }
  }

  // ---------------------------------------------------------------- Kad lookups

  function Min(a: nat, b: nat): nat {
    if a <= b then a else b
  }

  /** The wait after the k-th grant. */
  function KadWait(k: nat): Duration {
    60 * MINUTE * (if k <= 7 then k else 7)
  }

  ghost predicate KadGap(grants: seq<Instant>, k: nat)
    requires 0 < k < |grants|
  {
    grants[k - 1] + KadWait(k) <= grants[k]
  }

  ghost predicate KadSpaced(grants: seq<Instant>) {
    forall k :: 0 < k < |grants| ==> KadGap(grants, k)
  }

  /** Minutes that `n` grants on one file span at least. */
  function KadSpanMinutes(n: nat): nat
    requires 0 < n
  {
    if n <= 8 then 30 * n * (n - 1) else 1680 + 420 * (n - 8)
  }

  lemma {:induction false} KadSpan(grants: seq<Instant>)
    requires grants != [] && KadSpaced(grants)
    ensures grants[0] + KadSpanMinutes(|grants|) * MINUTE <= Last(grants)
  {
    var n := |grants|;
    if n > 1 {
      var init := grants[..n - 1];
      assert forall k :: 0 < k < |init| ==> KadGap(grants, k) ==> KadGap(init, k);
      KadSpan(init);
      assert KadGap(grants, n - 1);
      KadSpanStep(n);
    }
  }

  lemma KadSpanStep(n: nat)
    requires n > 1
    ensures KadSpanMinutes(n) * MINUTE == KadSpanMinutes(n - 1) * MINUTE + KadWait(n - 1)
  {
  }

  class KadRefreshPacer {
    var lastQueried: map<FileHash, (Instant, nat)>
    /** Every grant, by file, oldest first. */
    ghost var grants: map<FileHash, seq<Instant>>

    ghost predicate Valid()
      reads this
    {
      && grants.Keys == lastQueried.Keys
      && forall f :: f in grants ==>
        && grants[f] != []
        && KadSpaced(grants[f])
        && lastQueried[f] == (Last(grants[f]), Min(|grants[f]|, KAD_MAX_MULTIPLIER))
    }

    constructor ()
      ensures Valid() && grants == map[]
    {
      lastQueried, grants := map[], map[];
    }

    /** The k-th and the next grant of a file are 60 * min(k, 7) minutes apart, and all of them span accordingly. */
    lemma Span(file: FileHash)
      requires Valid() && file in grants
      ensures KadSpaced(grants[file])
      ensures grants[file][0] + KadSpanMinutes(|grants[file]|) * MINUTE <= Last(grants[file])
    {
      KadSpan(grants[file]);
    }

    method ClaimKadSourceRefresh(file: FileHash, now: Instant) returns (granted: bool)
      requires Valid() && (file in grants ==> Last(grants[file]) <= now)
      modifies this
      ensures Valid()
      ensures granted <==> file !in old(grants) || Last(old(grants)[file]) + KadWait(|old(grants)[file]|) <= now
      ensures grants == if !granted then old(grants)
        else old(grants)[file := (if file in old(grants) then old(grants)[file] else []) + [now]]
    {
      if file in lastQueried {
        var (last, searches) := lastQueried[file];
        var multiplier := if searches >= 1 then searches else 1;
        if Elapsed(now, last) < KAD_BASE_COOLDOWN * multiplier {
          return false;
        }
      }
      var searches := if file in lastQueried then Min(lastQueried[file].1 + 1, KAD_MAX_MULTIPLIER) else 1;
      lastQueried := lastQueried[file := (now, searches)];
      ghost var before := if file in grants then grants[file] else [];
      KadGrantSpaced(before, now);
      grants := grants[file := before + [now]];
      return true;
    }
  }

  lemma KadGrantSpaced(grants: seq<Instant>, now: Instant)
    requires KadSpaced(grants)
    requires grants != [] ==> Last(grants) + KadWait(|grants|) <= now
    ensures KadSpaced(grants + [now])
  {
    var longer := grants + [now];
    forall k | 0 < k < |longer| ensures KadGap(longer, k) {
      if k < |grants| {
        assert KadGap(grants, k);
      }
    }
  }
}
