/**
 * A No-Needed-Parts hold over a run: what keeps it, what alone can drop it, and
 * that no lease is granted while it lasts. Likewise the throttle on purges.
 */
module RegistryHolds {
  import opened Common
  import opened Sources
  import opened SourceRegistry
  import opened RegistryShape

  /** The peer still has a candidate for the file, seen at `since` or later. */
  ghost predicate Alive(peers: Peers, key: PeerKey, file: FileHash, since: Instant) {
    key in peers && exists c :: c in peers[key] && c.fileHash == file && since <= c.lastSeen
  }

  ghost predicate HeldSince(holds: map<Pair, Instant>, pair: Pair, since: Instant) {
    pair in holds && since <= holds[pair]
  }

  ghost predicate Holding(r: Registry, key: PeerKey, file: FileHash, since: Instant) {
    HeldSince(r.holds, Pair(KeyEndpoint(key), file), since) && Alive(r.peers, key, file, since)
  }

  /** A candidate of another identity at the same endpoint has aged out for the file. */
  ghost predicate OtherStale(peers: Peers, key: PeerKey, file: FileHash, now: Instant) {
    exists k, c :: k in peers && c in peers[k] && k != key && Offers(k, c, Pair(KeyEndpoint(key), file))
      && IsStale(c, now)
  }

  /** The steps that take the hold away: removal, release of the file, and pruning of another identity. */
  ghost predicate Drops(r: Registry, key: PeerKey, file: FileHash, t: Timed) {
    match t.op
    case RemoveOp(s, f) => EndpointOf(s) == KeyEndpoint(key) && f == file && Remove(r, s, f).1
    case ReleaseFileOp(f) => f == file
    case PruneOp => OtherStale(r.peers, key, file, t.at)
    case _ => false
  }

  // ---------------------------------------------------------------- the holding peer stays alive

  lemma AddAlive(r: Registry, now: Instant, c: Candidate, key: PeerKey, file: FileHash, since: Instant)
    requires Alive(r.peers, key, file, since) && since <= now
    ensures Alive(Add(r, now, c).peers, key, file, since)
  {
    var i :| 0 <= i < |r.peers[key]| && r.peers[key][i].fileHash == file && since <= r.peers[key][i].lastSeen;
    var cs := Add(r, now, c).peers[key];
    assert cs[i] in cs && cs[i].fileHash == file && since <= cs[i].lastSeen;
  }

  lemma MarkAlive(r: Registry, now: Instant, s: FoundSource, f: FileHash, key: PeerKey, file: FileHash, since: Instant)
    requires Alive(r.peers, key, file, since) && since <= now
    ensures Alive(Mark(r, now, s, f).0.peers, key, file, since)
  {
    var i :| 0 <= i < |r.peers[key]| && r.peers[key][i].fileHash == file && since <= r.peers[key][i].lastSeen;
    var cs := Mark(r, now, s, f).0.peers[key];
    assert cs[i] in cs && cs[i].fileHash == file && since <= cs[i].lastSeen;
  }

  /** A candidate refreshed when it was marked outlives its own hold: the liveness window is longer. */
  lemma PruneAlive(r: Registry, now: Instant, key: PeerKey, file: FileHash, since: Instant)
    requires Alive(r.peers, key, file, since) && now < since + NNP_HOLD
    ensures Alive(Prune(r, now).peers, key, file, since)
  {
  }

  lemma RemoveAlive(r: Registry, s: FoundSource, f: FileHash, key: PeerKey, file: FileHash, since: Instant)
    requires Alive(r.peers, key, file, since) && !(KeyOf(s) == key && f == file)
    ensures Alive(Remove(r, s, f).0.peers, key, file, since)
  {
  }

  lemma ReleaseFileAlive(r: Registry, f: FileHash, key: PeerKey, file: FileHash, since: Instant)
    requires Alive(r.peers, key, file, since) && f != file
    ensures Alive(ReleaseFile(r, f).peers, key, file, since)
  {
  }

  // ---------------------------------------------------------------- the hold itself

  /** Removing the peer's own candidate counts as a removal. */
  lemma OwnRemoval(r: Registry, s: FoundSource, key: PeerKey, file: FileHash, since: Instant)
    requires Alive(r.peers, key, file, since) && KeyOf(s) == key
    ensures Remove(r, s, file).1
  {
    RetainLength(r.peers[key], OtherThan(file));
    var c :| c in r.peers[key] && c.fileHash == file;
    assert !OtherThan(file)(c);
  }

  /** The pruned pairs contain the held one exactly when another identity went stale. */
  lemma StaleOnlyByOthers(r: Registry, now: Instant, key: PeerKey, file: FileHash, since: Instant)
    requires Shape(r.peers) && Alive(r.peers, key, file, since) && now < since + NNP_HOLD
    ensures Pair(KeyEndpoint(key), file) in StalePairs(r.peers, now) <==> OtherStale(r.peers, key, file, now)
  {
  }

  /** A lease request forgets only holds that have expired. */
  lemma LeaseHolding(
    r: Registry, now: Instant, cooldown: Duration, s: FoundSource, f: FileHash, key: PeerKey, file: FileHash,
    since: Instant)
    requires Holding(r, key, file, since) && now < since + NNP_HOLD
    ensures Holding(Lease(r, now, cooldown, s, f).0, key, file, since)
  {
  }

  /** Within the hold, a step keeps it exactly unless it is one that drops it. */
  lemma StepHolding(r: Registry, cooldown: Duration, t: Timed, key: PeerKey, file: FileHash, since: Instant)
    requires Shape(r.peers) && Holding(r, key, file, since) && since <= t.at < since + NNP_HOLD
    ensures Holding(Step(r, cooldown, t), key, file, since) <==> !Drops(r, key, file, t)
  {
    match t.op
    case AddOp(c) => AddAlive(r, t.at, c, key, file, since);
    case PruneOp =>
      PruneAlive(r, t.at, key, file, since);
      StaleOnlyByOthers(r, t.at, key, file, since);
    case LeaseOp(s, f) => LeaseHolding(r, t.at, cooldown, s, f, key, file, since);
    case MarkOp(s, f) => MarkAlive(r, t.at, s, f, key, file, since);
    case PurgeOp(f) =>
    case RemoveOp(s, f) => RemoveHolding(r, cooldown, t, key, file, since);
    case ReleasePeerOp(s) =>
    case ReleaseEndpointOp(e) =>
    case ReleaseFileOp(f) =>
      if f != file {
        ReleaseFileAlive(r, f, key, file, since);
      }
    case ResetOp =>
  }

  lemma RemoveHolding(r: Registry, cooldown: Duration, t: Timed, key: PeerKey, file: FileHash, since: Instant)
    requires t.op.RemoveOp? && Holding(r, key, file, since)
    ensures Holding(Step(r, cooldown, t), key, file, since) <==> !Drops(r, key, file, t)
  {
    var s, f := t.op.s, t.op.file;
    if KeyOf(s) == key && f == file {
      OwnRemoval(r, s, key, file, since);
    } else {
      RemoveAlive(r, s, f, key, file, since);
    }
  }

  /** No step of the run drops the hold. */
  ghost predicate Undropped(r: Registry, cooldown: Duration, run: seq<Timed>, key: PeerKey, file: FileHash) {
    run == [] ||
    (var init := run[..|run| - 1];
     Undropped(r, cooldown, init, key, file) && !Drops(After(r, cooldown, init), key, file, Last(run)))
  }

  lemma {:induction false} RunHolding(
    r: Registry, cooldown: Duration, run: seq<Timed>, from: Instant, key: PeerKey, file: FileHash, since: Instant)
    requires Sound(r, from) && Holding(r, key, file, since) && since <= from
    requires Clocked(from, run) && Clock(from, run) < since + NNP_HOLD
    requires Undropped(r, cooldown, run, key, file)
    ensures Holding(After(r, cooldown, run), key, file, since)
  {
    if run != [] {
      var init := run[..|run| - 1];
      RunHolding(r, cooldown, init, from, key, file, since);
      RunSound(r, cooldown, from, init);
      ClockedFrom(from, init);
      StepHolding(After(r, cooldown, init), cooldown, Last(run), key, file, since);
    }
  }

  lemma {:induction false} ClockedFrom(from: Instant, run: seq<Timed>)
    requires Clocked(from, run)
    ensures from <= Clock(from, run)
  {
    if run != [] {
      ClockedFrom(from, run[..|run| - 1]);
    }
  }

  lemma HeldIsRefused(r: Registry, t: Instant, cooldown: Duration, s: FoundSource, file: FileHash, since: Instant)
    requires HeldSince(r.holds, Pair(EndpointOf(s), file), since) && t < since + NNP_HOLD
    ensures Lease(r, t, cooldown, s, file).1.None?
  {
  }

  lemma MarkedAlive(r: Registry, s: FoundSource, file: FileHash, since: Instant)
    requires Mark(r, since, s, file).1
    ensures Holding(Mark(r, since, s, file).0, KeyOf(s), file, since)
  {
    var cs := Mark(r, since, s, file).0.peers[KeyOf(s)];
    var i := Find(r.peers[KeyOf(s)], file).value;
    assert cs[i] in cs && cs[i].fileHash == file && since <= cs[i].lastSeen;
  }

  /**
   * Marking holds: in any later state within 58 minutes that was reached without
   * one of the three dropping steps, the marked candidate is still registered and
   * no identity at its endpoint is granted a lease for the file.
   */
  lemma HoldRespected(
    r: Registry, cooldown: Duration, s: FoundSource, file: FileHash, since: Instant, run: seq<Timed>,
    other: FoundSource, t: Instant)
    requires Sound(r, since) && Mark(r, since, s, file).1
    requires var marked := Mark(r, since, s, file).0; Undropped(marked, cooldown, run, KeyOf(s), file)
    requires Clocked(since, run) && Clock(since, run) <= t < since + NNP_HOLD
    requires EndpointOf(other) == EndpointOf(s)
    ensures var r' := After(Mark(r, since, s, file).0, cooldown, run);
      && Alive(r'.peers, KeyOf(s), file, since)
      && Lease(r', t, cooldown, other, file).1.None?
  {
    var marked := Mark(r, since, s, file).0;
    StepSound(r, cooldown, Timed(MarkOp(s, file), since), since);
    MarkedAlive(r, s, file, since);
    RunHolding(marked, cooldown, run, since, KeyOf(s), file, since);
    HeldIsRefused(After(marked, cooldown, run), t, cooldown, other, file, since);
  }

  // ---------------------------------------------------------------- a shared endpoint

  /**
   * Two identities at one endpoint offer the file at 0. One is marked after 30
   * minutes; at 61 minutes pruning drops the other and the shared hold with it.
   */
  ghost function SharedEndpoint(marked: FoundSource, other: FoundSource, file: FileHash): Registry {
    var seen := Add(Add(EMPTY, 0, Candidate(file, 0, 0, 0, marked, 0)), 0, Candidate(file, 0, 0, 0, other, 0));
    Prune(Mark(seen, 30 * MINUTE, marked, file).0, 61 * MINUTE)
  }

  ghost predicate Shared(r: Registry, marked: FoundSource, other: FoundSource, mine: Candidate, theirs: Candidate) {
    && r.peers == map[KeyOf(marked) := [mine], KeyOf(other) := [theirs]]
    && r.leased == {} && r.attempts == map[]
  }

  lemma SharedMarked(marked: FoundSource, other: FoundSource, file: FileHash)
    requires KeyOf(marked) != KeyOf(other)
    ensures var mine, theirs := Candidate(file, 0, 0, 0, marked, 0), Candidate(file, 0, 0, 0, other, 0);
      var seen := Add(Add(EMPTY, 0, mine), 0, theirs);
      && Shared(seen, marked, other, mine, theirs)
      && Shared(Mark(seen, 30 * MINUTE, marked, file).0, marked, other, mine.(lastSeen := 30 * MINUTE), theirs)
  {
    var mine, theirs := Candidate(file, 0, 0, 0, marked, 0), Candidate(file, 0, 0, 0, other, 0);
    var seen := Add(Add(EMPTY, 0, mine), 0, theirs);
    assert AddTo([], mine) == [mine] && AddTo([], theirs) == [theirs];
    assert seen.peers == map[KeyOf(marked) := [mine], KeyOf(other) := [theirs]];
    assert Find([mine], file) == Some(0)
      && [mine][0 := mine.(lastSeen := 30 * MINUTE)] == [mine.(lastSeen := 30 * MINUTE)];
  }

  lemma SharedPruned(r: Registry, marked: FoundSource, other: FoundSource, mine: Candidate, theirs: Candidate)
    requires KeyOf(marked) != KeyOf(other) && Shared(r, marked, other, mine, theirs)
    requires !IsStale(mine, 61 * MINUTE) && IsStale(theirs, 61 * MINUTE)
    ensures var r' := Prune(r, 61 * MINUTE);
      && Get(r'.peers, KeyOf(marked)) == [mine] && KeyOf(other) !in r'.peers
      && PairOf(theirs) !in r'.holds
      && r'.leased == {} && r'.attempts == map[]
  {
    var keep := Fresh(61 * MINUTE);
    assert Retain([theirs], keep) == [] && Retain([mine], keep) == [mine];
    assert r.peers[KeyOf(other)][0] == theirs;
  }

  lemma SoleIsLeased(r: Registry, now: Instant, cooldown: Duration, s: FoundSource, c: Candidate)
    requires Get(r.peers, KeyOf(s)) == [c] && r.leased == {} && r.attempts == map[]
    requires Pair(EndpointOf(s), c.fileHash) !in r.holds
    ensures Lease(r, now, cooldown, s, c.fileHash).1.Some?
  {
    LeaseGranted(r, now, cooldown, s, c.fileHash);
  }

  /** So the marked identity is leased again 31 minutes into its 58-minute hold. */
  lemma HoldCutShort(marked: FoundSource, other: FoundSource, file: FileHash, cooldown: Duration)
    requires EndpointOf(marked) == EndpointOf(other) && KeyOf(marked) != KeyOf(other)
    ensures Lease(SharedEndpoint(marked, other, file), 61 * MINUTE, cooldown, marked, file).1.Some?
  {
    var mine, theirs := Candidate(file, 0, 0, 0, marked, 0), Candidate(file, 0, 0, 0, other, 0);
    var held := Mark(Add(Add(EMPTY, 0, mine), 0, theirs), 30 * MINUTE, marked, file).0;
    SharedMarked(marked, other, file);
    SharedPruned(held, marked, other, mine.(lastSeen := 30 * MINUTE), theirs);
    SoleIsLeased(Prune(held, 61 * MINUTE), 61 * MINUTE, cooldown, marked, mine.(lastSeen := 30 * MINUTE));
  }

  // ---------------------------------------------------------------- the purge throttle

  ghost predicate Throttled(r: Registry, file: FileHash, since: Instant) {
    file in r.purges && since <= r.purges[file]
  }

  ghost predicate NeverReleased(run: seq<Timed>, file: FileHash) {
    forall i :: 0 <= i < |run| ==> run[i].op != ReleaseFileOp(file)
  }

  lemma StepThrottled(r: Registry, cooldown: Duration, t: Timed, file: FileHash, since: Instant)
    requires Throttled(r, file, since) && since <= t.at
    ensures Throttled(Step(r, cooldown, t), file, since) <==> t.op != ReleaseFileOp(file)
  {
  }

  lemma {:induction false} RunThrottled(
    r: Registry, cooldown: Duration, run: seq<Timed>, file: FileHash, since: Instant)
    requires Throttled(r, file, since) && Clocked(since, run) && NeverReleased(run, file)
    ensures Throttled(After(r, cooldown, run), file, since)
  {
    if run != [] {
      var init := run[..|run| - 1];
      RunThrottled(r, cooldown, init, file, since);
      ClockedFrom(since, run);
      StepThrottled(After(r, cooldown, init), cooldown, Last(run), file, since);
    }
  }

  /** Unless the file itself is released meanwhile, two purges granted for it lie 40 seconds apart. */
  lemma {:induction false} PurgesApart(
    r: Registry, cooldown: Duration, file: FileHash, since: Instant, run: seq<Timed>, t: Instant)
    requires TryPurge(r, since, file).1 && Clocked(since, run) && Clock(since, run) <= t
    requires NeverReleased(run, file)
    requires TryPurge(After(TryPurge(r, since, file).0, cooldown, run), t, file).1
    ensures since + 40 * SECOND <= t
  {
    RunThrottled(TryPurge(r, since, file).0, cooldown, run, file, since);
  }
}
