/** What every registry operation keeps, and what the retry delay means. */
module RegistryShape {
  import opened Common
  import opened Sources
  import opened SourceRegistry

  // ---------------------------------------------------------------- steps

  datatype Op =
    | AddOp(c: Candidate)
    | PruneOp
    | LeaseOp(s: FoundSource, file: FileHash)
    | MarkOp(s: FoundSource, file: FileHash)
    | PurgeOp(file: FileHash)
    | RemoveOp(s: FoundSource, file: FileHash)
    | ReleasePeerOp(s: FoundSource)
    | ReleaseEndpointOp(e: Endpoint)
    | ReleaseFileOp(file: FileHash)
    | ResetOp

  datatype Timed = Timed(op: Op, at: Instant)

  ghost function Step(r: Registry, cooldown: Duration, t: Timed): Registry {
    match t.op
    case AddOp(c) => Add(r, t.at, c)
    case PruneOp => Prune(r, t.at)
    case LeaseOp(s, file) => Lease(r, t.at, cooldown, s, file).0
    case MarkOp(s, file) => Mark(r, t.at, s, file).0
    case PurgeOp(file) => TryPurge(r, t.at, file).0
    case RemoveOp(s, file) => Remove(r, s, file).0
    case ReleasePeerOp(s) => ReleasePeer(r, s)
    case ReleaseEndpointOp(e) => ReleaseEndpoint(r, e)
    case ReleaseFileOp(file) => ReleaseFile(r, file)
    case ResetOp => ResetLeases(r)
  }

  // ---------------------------------------------------------------- shape

  type Peers = map<PeerKey, seq<Candidate>>

  ghost predicate Distinct(cs: seq<Candidate>) {
    forall i, j :: 0 <= i < j < |cs| ==> cs[i].fileHash != cs[j].fileHash
  }

  ghost predicate WellKept(k: PeerKey, cs: seq<Candidate>) {
    && cs != []
    && Distinct(cs)
    && forall i :: 0 <= i < |cs| ==> KeyOf(cs[i].source) == k
  }

  /** Each peer has at least one candidate, at most one per file, all of its own identity. */
  ghost predicate Shape(peers: Peers) {
    forall k :: k in peers ==> WellKept(k, peers[k])
  }

  lemma {:induction false} RetainKept(k: PeerKey, cs: seq<Candidate>, keep: Candidate -> bool)
    requires Distinct(cs) && forall i :: 0 <= i < |cs| ==> KeyOf(cs[i].source) == k
    ensures var kept := Retain(cs, keep); Distinct(kept) && forall i :: 0 <= i < |kept| ==> KeyOf(kept[i].source) == k
  {
    if cs != [] {
      var init := cs[..|cs| - 1];
      RetainKept(k, init, keep);
      var rest := Retain(init, keep);
      if keep(Last(cs)) {
        forall i | 0 <= i < |rest| ensures rest[i].fileHash != Last(cs).fileHash {
          assert rest[i] in init;
        }
      }
    }
  }

  lemma RetainAllShape(peers: Peers, keep: Candidate -> bool)
    requires Shape(peers)
    ensures Shape(RetainAll(peers, keep))
  {
    forall k | k in RetainAll(peers, keep) ensures WellKept(k, RetainAll(peers, keep)[k]) {
      RetainKept(k, peers[k], keep);
    }
  }

  lemma RemoveShape(r: Registry, s: FoundSource, file: FileHash)
    requires Shape(r.peers)
    ensures Shape(Remove(r, s, file).0.peers)
  {
    var key := KeyOf(s);
    if key in r.peers {
      RetainKept(key, r.peers[key], OtherThan(file));
    }
  }

  lemma MarkShape(r: Registry, now: Instant, s: FoundSource, file: FileHash)
    requires Shape(r.peers)
    ensures Shape(Mark(r, now, s, file).0.peers)
  {
  }

  lemma AddShape(r: Registry, now: Instant, c: Candidate)
    requires Shape(r.peers)
    ensures Shape(Add(r, now, c).peers)
  {
  }

  lemma StepShape(r: Registry, cooldown: Duration, t: Timed)
    requires Shape(r.peers)
    ensures Shape(Step(r, cooldown, t).peers)
  {
    match t.op
    case AddOp(c) => AddShape(r, t.at, c);
    case PruneOp => RetainAllShape(r.peers, Fresh(t.at));
    case LeaseOp(s, file) =>
    case MarkOp(s, file) => MarkShape(r, t.at, s, file);
    case PurgeOp(file) =>
    case RemoveOp(s, file) => RemoveShape(r, s, file);
    case ReleasePeerOp(s) =>
    case ReleaseEndpointOp(e) =>
    case ReleaseFileOp(file) => RetainAllShape(r.peers, OtherThan(file));
    case ResetOp =>
  }

  // ---------------------------------------------------------------- holds

  ghost predicate Offers(k: PeerKey, c: Candidate, p: Pair) {
    KeyEndpoint(k) == p.endpoint && c.fileHash == p.file
  }

  /** Some registered peer at the endpoint has a candidate for the file. */
  ghost predicate Backed(peers: Peers, p: Pair) {
    exists k, c :: k in peers && c in peers[k] && Offers(k, c, p)
  }

  ghost predicate HoldsBacked(r: Registry) {
    forall p :: p in r.holds ==> Backed(r.peers, p)
  }

  lemma PruneBacked(r: Registry, now: Instant)
    requires Shape(r.peers) && HoldsBacked(r)
    ensures HoldsBacked(Prune(r, now))
  {
  }

  lemma AddBacked(r: Registry, now: Instant, c: Candidate)
    requires HoldsBacked(r)
    ensures HoldsBacked(Add(r, now, c))
  {
    var r', key := Add(r, now, c), KeyOf(c.source);
    forall p | p in r'.holds ensures Backed(r'.peers, p) {
      assert Backed(r.peers, p);
      var k, d :| k in r.peers && d in r.peers[k] && Offers(k, d, p);
      if k == key {
        StillListed(r.peers[k], c.(lastSeen := now), d);
        var d' :| d' in r'.peers[k] && d'.fileHash == d.fileHash;
        assert Offers(k, d', p);
      } else {
        assert d in r'.peers[k];
      }
    }
  }

  /** Adding a candidate loses no file. */
  lemma StillListed(cs: seq<Candidate>, c: Candidate, d: Candidate)
    requires d in cs
    ensures exists d' :: d' in AddTo(cs, c) && d'.fileHash == d.fileHash
  {
    var i :| 0 <= i < |cs| && cs[i] == d;
    var longer := AddTo(cs, c);
    assert longer[i] in longer && longer[i].fileHash == d.fileHash;
  }

  lemma MarkBacked(r: Registry, now: Instant, s: FoundSource, file: FileHash)
    requires HoldsBacked(r)
    ensures HoldsBacked(Mark(r, now, s, file).0)
  {
    var (r', marked) := Mark(r, now, s, file);
    var key := KeyOf(s);
    if marked {
      var i := Find(r.peers[key], file).value;
      forall p | p in r'.holds ensures Backed(r'.peers, p) {
        if p == Pair(EndpointOf(s), file) {
          var c := r'.peers[key][i];
          assert c in r'.peers[key] && Offers(key, c, p);
        } else {
          assert Backed(r.peers, p);
          var k, c :| k in r.peers && c in r.peers[k] && Offers(k, c, p);
          if k == key {
            var j :| 0 <= j < |r.peers[k]| && r.peers[k][j] == c;
            var c' := r'.peers[k][j];
            assert c' in r'.peers[k] && Offers(k, c', p);
          } else {
            assert c in r'.peers[k];
          }
        }
      }
    }
  }

  lemma {:induction false} RetainLength(cs: seq<Candidate>, keep: Candidate -> bool)
    ensures |Retain(cs, keep)| == |cs| <==> forall c :: c in cs ==> keep(c)
  {
    if cs != [] {
      RetainLength(cs[..|cs| - 1], keep);
      assert cs == cs[..|cs| - 1] + [Last(cs)];
    }
  }

  lemma RemoveBacked(r: Registry, s: FoundSource, file: FileHash)
    requires HoldsBacked(r)
    ensures HoldsBacked(Remove(r, s, file).0)
  {
    var (r', removed) := Remove(r, s, file);
    var key := KeyOf(s);
    if key in r.peers {
      RetainLength(r.peers[key], OtherThan(file));
      forall p | p in r'.holds ensures Backed(r'.peers, p) {
        assert Backed(r.peers, p);
        var k, c :| k in r.peers && c in r.peers[k] && Offers(k, c, p);
        assert k == key ==> c.fileHash != file;
        assert k in r'.peers && c in r'.peers[k];
      }
    }
  }

  lemma ReleaseFileBacked(r: Registry, file: FileHash)
    requires HoldsBacked(r)
    ensures HoldsBacked(ReleaseFile(r, file))
  {
  }

  lemma StepBacked(r: Registry, cooldown: Duration, t: Timed)
    requires Shape(r.peers) && HoldsBacked(r)
    ensures HoldsBacked(Step(r, cooldown, t))
  {
    match t.op
    case AddOp(c) => AddBacked(r, t.at, c);
    case PruneOp => PruneBacked(r, t.at);
    case LeaseOp(s, file) =>
    case MarkOp(s, file) => MarkBacked(r, t.at, s, file);
    case PurgeOp(file) =>
    case RemoveOp(s, file) => RemoveBacked(r, s, file);
    case ReleasePeerOp(s) =>
    case ReleaseEndpointOp(e) =>
    case ReleaseFileOp(file) => ReleaseFileBacked(r, file);
    case ResetOp =>
  }

  // ---------------------------------------------------------------- stamps lie in the past

  ghost predicate Past(stamps: map<Pair, Instant>, now: Instant) {
    forall p :: p in stamps ==> stamps[p] <= now
  }

  ghost predicate StampsPast(r: Registry, now: Instant) {
    Past(r.attempts, now) && Past(r.holds, now)
  }

  lemma MarkKeepsAttempts(r: Registry, now: Instant, s: FoundSource, file: FileHash)
    ensures Mark(r, now, s, file).0.attempts == r.attempts
  {
  }

  lemma RemoveKeepsAttempts(r: Registry, s: FoundSource, file: FileHash)
    ensures Remove(r, s, file).0.attempts == r.attempts
  {
  }

  /** Only a lease request touches the attempt stamps. */
  lemma AttemptsKept(r: Registry, cooldown: Duration, t: Timed)
    requires !t.op.LeaseOp?
    ensures Step(r, cooldown, t).attempts == r.attempts
  {
    match t.op
    case MarkOp(s, file) => MarkKeepsAttempts(r, t.at, s, file);
    case RemoveOp(s, file) => RemoveKeepsAttempts(r, s, file);
    case _ =>
  }

  /** The hold was there before. */
  ghost predicate WasHeld(before: map<Pair, Instant>, after: map<Pair, Instant>, p: Pair) {
    p in after ==> p in before && after[p] == before[p]
  }

  lemma LeaseHoldsShrink(r: Registry, now: Instant, cooldown: Duration, s: FoundSource, file: FileHash, p: Pair)
    ensures WasHeld(r.holds, Lease(r, now, cooldown, s, file).0.holds, p)
  {
  }

  lemma ReleaseHoldsShrink(r: Registry, file: FileHash, p: Pair)
    ensures WasHeld(r.holds, ReleaseFile(r, file).holds, p)
  {
  }

  lemma RemoveHoldsShrink(r: Registry, s: FoundSource, file: FileHash, p: Pair)
    ensures WasHeld(r.holds, Remove(r, s, file).0.holds, p)
  {
  }

  /** Only marking adds a hold. */
  lemma HoldsShrink(r: Registry, cooldown: Duration, t: Timed, p: Pair)
    requires !t.op.MarkOp?
    ensures WasHeld(r.holds, Step(r, cooldown, t).holds, p)
  {
    match t.op
    case LeaseOp(s, file) => LeaseHoldsShrink(r, t.at, cooldown, s, file, p);
    case RemoveOp(s, file) => RemoveHoldsShrink(r, s, file, p);
    case ReleaseFileOp(file) => ReleaseHoldsShrink(r, file, p);
    case _ =>
  }

  lemma StepPast(r: Registry, cooldown: Duration, t: Timed, now: Instant)
    requires StampsPast(r, now) && now <= t.at
    ensures StampsPast(Step(r, cooldown, t), t.at)
  {
    var r' := Step(r, cooldown, t);
    if !t.op.LeaseOp? {
      AttemptsKept(r, cooldown, t);
    }
    assert Past(r'.attempts, t.at);
    forall p | p in r'.holds ensures r'.holds[p] <= t.at {
      if !t.op.MarkOp? {
        HoldsShrink(r, cooldown, t, p);
      }
    }
  }

  // ---------------------------------------------------------------- reachable states

  ghost function After(r: Registry, cooldown: Duration, run: seq<Timed>): Registry {
    if run == [] then r else Step(After(r, cooldown, run[..|run| - 1]), cooldown, Last(run))
  }

  ghost function Clock(from: Instant, run: seq<Timed>): Instant {
    if run == [] then from else Last(run).at
  }

  ghost predicate Clocked(from: Instant, run: seq<Timed>) {
    run == [] || (Clocked(from, run[..|run| - 1]) && Clock(from, run[..|run| - 1]) <= Last(run).at)
  }

  ghost predicate Sound(r: Registry, now: Instant) {
    Shape(r.peers) && HoldsBacked(r) && StampsPast(r, now)
  }

  lemma StepSound(r: Registry, cooldown: Duration, t: Timed, now: Instant)
    requires Sound(r, now) && now <= t.at
    ensures Sound(Step(r, cooldown, t), t.at)
  {
    StepShape(r, cooldown, t);
    StepBacked(r, cooldown, t);
    StepPast(r, cooldown, t, now);
  }

  /** Along every run the lists stay well kept, every hold stays backed and no stamp lies ahead. */
  lemma {:induction false} RunSound(r: Registry, cooldown: Duration, from: Instant, run: seq<Timed>)
    requires Sound(r, from) && Clocked(from, run)
    ensures Sound(After(r, cooldown, run), Clock(from, run))
  {
    if run != [] {
      var init := run[..|run| - 1];
      RunSound(r, cooldown, from, init);
      StepSound(After(r, cooldown, init), cooldown, Last(run), Clock(from, init));
    }
  }

  /** In particular from the empty registry. */
  lemma ReachableSound(cooldown: Duration, run: seq<Timed>)
    requires Clocked(0, run)
    ensures Sound(After(EMPTY, cooldown, run), Clock(0, run))
  {
    RunSound(EMPTY, cooldown, 0, run);
  }

  // ---------------------------------------------------------------- the retry delay

  ghost predicate AttemptPasses(r: Registry, cooldown: Duration, pair: Pair, t: Instant) {
    !(pair in r.attempts && Elapsed(t, r.attempts[pair]) < cooldown)
  }

  ghost predicate HoldPasses(r: Registry, pair: Pair, t: Instant) {
    !(pair in r.holds && Elapsed(t, r.holds[pair]) < NNP_HOLD)
  }

  /** The two time gates of a lease request. */
  ghost predicate GatesPass(r: Registry, cooldown: Duration, pair: Pair, t: Instant) {
    AttemptPasses(r, cooldown, pair, t) && HoldPasses(r, pair, t)
  }

  function OrZero(d: Option<Duration>): Duration {
    if d.Some? then d.value else 0
  }

  /** The delay is exact: the gates pass from `now` plus the delay on, and not before. */
  lemma RetryDelayExact(r: Registry, cooldown: Duration, pair: Pair, now: Instant, t: Instant)
    requires StampsPast(r, now) && now <= t
    ensures GatesPass(r, cooldown, pair, t) <==> now + OrZero(RetryDelay(r, now, cooldown, pair)) <= t
  {
  }

  /** The step stamps, holds or unholds the pair itself; forgetting an expired stamp is none of these. */
  ghost predicate Touches(r: Registry, cooldown: Duration, t: Timed, pair: Pair) {
    match t.op
    case LeaseOp(s, file) => Pair(EndpointOf(s), file) == pair && Lease(r, t.at, cooldown, s, file).1.Some?
    case MarkOp(s, file) => Pair(EndpointOf(s), file) == pair && Mark(r, t.at, s, file).1
    case RemoveOp(s, file) => pair in r.holds && Pair(EndpointOf(s), file) == pair && Remove(r, s, file).1
    case ReleaseFileOp(file) => pair in r.holds && file == pair.file
    case PruneOp => pair in r.holds && pair in StalePairs(r.peers, t.at)
    case _ => false
  }

  ghost predicate Untouched(r: Registry, cooldown: Duration, run: seq<Timed>, pair: Pair) {
    run == [] ||
    (var init := run[..|run| - 1];
     Untouched(r, cooldown, init, pair) && !Touches(After(r, cooldown, init), cooldown, Last(run), pair))
  }

  lemma LeaseKeepsGates(r: Registry, cooldown: Duration, step: Timed, pair: Pair, t: Instant)
    requires step.op.LeaseOp? && !Touches(r, cooldown, step, pair) && step.at <= t
    ensures AttemptPasses(Step(r, cooldown, step), cooldown, pair, t) <==> AttemptPasses(r, cooldown, pair, t)
    ensures HoldPasses(Step(r, cooldown, step), pair, t) <==> HoldPasses(r, pair, t)
  {
  }

  /** The hold is what it was. */
  ghost predicate SameHold(before: map<Pair, Instant>, after: map<Pair, Instant>, p: Pair) {
    (p in before <==> p in after) && (p in before ==> before[p] == after[p])
  }

  lemma MarkElsewhere(r: Registry, now: Instant, s: FoundSource, file: FileHash, p: Pair)
    requires Pair(EndpointOf(s), file) == p ==> !Mark(r, now, s, file).1
    ensures SameHold(r.holds, Mark(r, now, s, file).0.holds, p)
  {
  }

  lemma RemoveElsewhere(r: Registry, s: FoundSource, file: FileHash, p: Pair)
    requires p in r.holds && Pair(EndpointOf(s), file) == p ==> !Remove(r, s, file).1
    ensures SameHold(r.holds, Remove(r, s, file).0.holds, p)
  {
  }

  lemma OtherKeepsHold(r: Registry, cooldown: Duration, step: Timed, pair: Pair)
    requires !step.op.LeaseOp? && !Touches(r, cooldown, step, pair)
    ensures SameHold(r.holds, Step(r, cooldown, step).holds, pair)
  {
    match step.op
    case MarkOp(s, file) => MarkElsewhere(r, step.at, s, file, pair);
    case RemoveOp(s, file) => RemoveElsewhere(r, s, file, pair);
    case _ =>
  }

  lemma StepKeepsGates(r: Registry, cooldown: Duration, step: Timed, pair: Pair, t: Instant)
    requires !Touches(r, cooldown, step, pair) && step.at <= t
    ensures AttemptPasses(Step(r, cooldown, step), cooldown, pair, t) <==> AttemptPasses(r, cooldown, pair, t)
    ensures HoldPasses(Step(r, cooldown, step), pair, t) <==> HoldPasses(r, pair, t)
  {
    if step.op.LeaseOp? {
      LeaseKeepsGates(r, cooldown, step, pair, t);
    } else {
      AttemptsKept(r, cooldown, step);
      OtherKeepsHold(r, cooldown, step, pair);
    }
  }

  lemma {:induction false} RunKeepsGates(
    r: Registry, cooldown: Duration, from: Instant, run: seq<Timed>, pair: Pair, t: Instant)
    requires Clocked(from, run) && Clock(from, run) <= t && Untouched(r, cooldown, run, pair)
    ensures GatesPass(After(r, cooldown, run), cooldown, pair, t) <==> GatesPass(r, cooldown, pair, t)
  {
    if run != [] {
      var init := run[..|run| - 1];
      RunKeepsGates(r, cooldown, from, init, pair, t);
      StepKeepsGates(After(r, cooldown, init), cooldown, Last(run), pair, t);
    }
  }

  /**
   * The reported delay stays exact whatever else happens: after any run that does
   * not touch the pair, the gates pass from `now` plus the delay on, and not before.
   */
  lemma {:induction false} RetryDelayOverRun(
    r: Registry, cooldown: Duration, pair: Pair, now: Instant, run: seq<Timed>, t: Instant)
    requires StampsPast(r, now) && Clocked(now, run) && now <= Clock(now, run) <= t
    requires Untouched(r, cooldown, run, pair)
    ensures GatesPass(After(r, cooldown, run), cooldown, pair, t) <==>
      now + OrZero(RetryDelay(r, now, cooldown, pair)) <= t
  {
    RunKeepsGates(r, cooldown, now, run, pair, t);
    RetryDelayExact(r, cooldown, pair, now, t);
  }

  /** A lease is refused by time exactly when a gate does not pass; otherwise only rank, lease or absence refuse it. */
  lemma LeaseGranted(r: Registry, now: Instant, cooldown: Duration, s: FoundSource, file: FileHash)
    ensures Lease(r, now, cooldown, s, file).1.Some? <==>
      var cs := Get(r.peers, KeyOf(s));
      && GatesPass(r, cooldown, Pair(EndpointOf(s), file), now)
      && KeyOf(s) !in r.leased
      && cs != []
      && cs[BestUpTo(cs, |cs|)].fileHash == file
  {
  }
}
