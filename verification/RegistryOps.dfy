/** What each registry operation does, said of the state before and after it field by field. */
module RegistryOps {
  import opened Common
  import opened Sources
  import opened SourceRegistry
  import opened RegistryShape

  // ---------------------------------------------------------------- identities and times

  /** A peer is its address, port, user hash and client id; its endpoint is the address and port. */
  lemma KeyIdentity(a: FoundSource, b: FoundSource)
    ensures KeyOf(a) == KeyOf(b) <==>
      a.ip == b.ip && a.tcpPort == b.tcpPort && a.userHash == b.userHash && a.clientId == b.clientId
    ensures EndpointOf(a) == EndpointOf(b) <==> a.ip == b.ip && a.tcpPort == b.tcpPort
    ensures KeyEndpoint(KeyOf(a)) == EndpointOf(a) == (a.ip, a.tcpPort)
  {
  }

  /** The limits in seconds: a candidate is stale after 60 minutes, a hold lasts 58, an attempt one cooldown. */
  lemma Limits(r: Registry, cooldown: Duration, c: Candidate, pair: Pair, t: Instant)
    requires StampsPast(r, t)
    ensures IsStale(c, t) <==> c.lastSeen + 3600 * SECOND < t
    ensures GatesPass(r, cooldown, pair, t) <==>
      && (pair in r.attempts ==> r.attempts[pair] + cooldown <= t)
      && (pair in r.holds ==> r.holds[pair] + 3480 * SECOND <= t)
  {
  }

  /** No delay is reported exactly when the last attempt is more than a cooldown ago and no hold is left. */
  lemma NoDelay(r: Registry, cooldown: Duration, pair: Pair, now: Instant)
    requires StampsPast(r, now)
    ensures RetryDelay(r, now, cooldown, pair).None? <==>
      && (pair in r.attempts ==> r.attempts[pair] + cooldown < now)
      && (pair in r.holds ==> r.holds[pair] + 3480 * SECOND <= now)
  {
  }

  // ---------------------------------------------------------------- filtering

  /** `part` is what stands at the increasing positions `at` of `whole`. */
  ghost predicate Picked(whole: seq<Candidate>, part: seq<Candidate>, at: seq<nat>) {
    && |at| == |part|
    && (forall i, j :: 0 <= i < j < |at| ==> at[i] < at[j])
    && (forall i :: 0 <= i < |at| ==> at[i] < |whole| && part[i] == whole[at[i]])
  }

  /** Retaining picks exactly the candidates to keep, in their order. */
  lemma {:induction false} RetainPicks(cs: seq<Candidate>, keep: Candidate -> bool) returns (at: seq<nat>)
    ensures Picked(cs, Retain(cs, keep), at)
    ensures forall i :: 0 <= i < |cs| ==> (keep(cs[i]) <==> i in at)
  {
    if cs == [] {
      at := [];
    } else {
      var init := cs[..|cs| - 1];
      var before := RetainPicks(init, keep);
      PickedLonger(init, Last(cs), Retain(init, keep), before);
      assert cs == init + [Last(cs)];
      at := if keep(Last(cs)) then before + [|init|] else before;
      forall i | 0 <= i < |cs| ensures keep(cs[i]) <==> i in at {
        if i < |init| {
          assert keep(init[i]) <==> i in before;
        }
      }
    }
  }

  lemma PickedLonger(whole: seq<Candidate>, last: Candidate, part: seq<Candidate>, at: seq<nat>)
    requires Picked(whole, part, at)
    ensures Picked(whole + [last], part, at) && |whole| !in at
    ensures Picked(whole + [last], part + [last], at + [|whole|])
  {
  }

  /** From a list, exactly the candidates that are not for `file` remain, in their order. */
  ghost predicate Without(cs: seq<Candidate>, kept: seq<Candidate>, file: FileHash) {
    exists at :: Picked(cs, kept, at) && forall i :: 0 <= i < |cs| ==> (cs[i].fileHash != file <==> i in at)
  }

  /** From a list, exactly the candidates seen in the last 60 minutes remain, in their order. */
  ghost predicate Recent(cs: seq<Candidate>, kept: seq<Candidate>, now: Instant) {
    exists at ::
      Picked(cs, kept, at) && forall i :: 0 <= i < |cs| ==> (now <= cs[i].lastSeen + 3600 * SECOND <==> i in at)
  }

  lemma RetainWithout(cs: seq<Candidate>, file: FileHash)
    ensures Without(cs, Retain(cs, OtherThan(file)), file)
  {
    var at := RetainPicks(cs, OtherThan(file));
    forall i | 0 <= i < |cs| ensures cs[i].fileHash != file <==> i in at {
      assert OtherThan(file)(cs[i]) <==> i in at;
    }
  }

  lemma RetainRecent(cs: seq<Candidate>, now: Instant)
    ensures Recent(cs, Retain(cs, Fresh(now)), now)
  {
    var at := RetainPicks(cs, Fresh(now));
    forall i | 0 <= i < |cs| ensures now <= cs[i].lastSeen + 3600 * SECOND <==> i in at {
      assert Fresh(now)(cs[i]) <==> i in at;
    }
  }

  // ---------------------------------------------------------------- adding

  /** The list after an addition: the same list with the file's candidate replaced, or with it at the end. */
  ghost predicate Replaced(before: seq<Candidate>, after: seq<Candidate>, c: Candidate) {
    || (&& |after| == |before| + 1 && after[..|before|] == before && after[|before|] == c
        && forall i :: 0 <= i < |before| ==> before[i].fileHash != c.fileHash)
    || (&& |after| == |before|
        && exists i :: && 0 <= i < |before| && before[i].fileHash == c.fileHash && after[i] == c
                       && forall j :: 0 <= j < |before| && j != i ==> after[j] == before[j])
  }

  /** The candidate just added is listed as given, seen now; nothing else of the registry changes. */
  lemma AddMeans(r: Registry, now: Instant, c: Candidate)
    ensures var r', key := Add(r, now, c), KeyOf(c.source);
      && key in r'.peers
      && Replaced(Get(r.peers, key), r'.peers[key], c.(lastSeen := now))
      && (forall k :: k != key ==> Get(r'.peers, k) == Get(r.peers, k))
      && r' == r.(peers := r'.peers)
  {
    var r', key := Add(r, now, c), KeyOf(c.source);
    var before, after := Get(r.peers, key), r'.peers[key];
    match Find(before, c.fileHash)
    case Some(i) => assert after[i] == c.(lastSeen := now);
    case None =>
  }

  // ---------------------------------------------------------------- pruning and removal

  /** Pruning keeps what was seen in the last hour, forgets peers left empty, and drops the holds of what it dropped. */
  lemma PruneMeans(r: Registry, now: Instant, k: PeerKey, p: Pair)
    ensures var r' := Prune(r, now);
      && Recent(Get(r.peers, k), Get(r'.peers, k), now)
      && (k in r'.peers ==> r'.peers[k] != [])
      && (p in r'.holds <==> p in r.holds && !DroppedFor(r, now, p))
      && (p in r'.holds ==> r'.holds[p] == r.holds[p])
      && r' == r.(peers := r'.peers, holds := r'.holds)
  {
    RetainRecent(Get(r.peers, k), now);
    if p in StalePairs(r.peers, now) {
      var q, i :| q in r.peers && 0 <= i < |r.peers[q]| && IsStale(r.peers[q][i], now) && PairOf(r.peers[q][i]) == p;
      assert r.peers[q][i] in r.peers[q] && Aged(r.peers[q][i], now, p);
    }
    if DroppedFor(r, now, p) {
      var q, c :| q in r.peers && c in r.peers[q] && Aged(c, now, p);
      var i :| 0 <= i < |r.peers[q]| && r.peers[q][i] == c;
      assert IsStale(r.peers[q][i], now) && PairOf(r.peers[q][i]) == p;
    }
  }

  ghost predicate Aged(c: Candidate, now: Instant, p: Pair) {
    c.lastSeen + 3600 * SECOND < now && (c.source.ip, c.source.tcpPort) == p.endpoint && c.fileHash == p.file
  }

  /** Some candidate of the pair was last seen more than an hour ago. */
  ghost predicate DroppedFor(r: Registry, now: Instant, p: Pair) {
    exists k, c :: k in r.peers && c in r.peers[k] && Aged(c, now, p)
  }

  /**
   * Removing takes the file's candidates off this peer's list, forgets the peer if
   * none is left, and drops the pair's hold if there was one to take off.
   */
  lemma RemoveMeans(r: Registry, s: FoundSource, file: FileHash)
    ensures var (r', removed) := Remove(r, s, file);
      var key := KeyOf(s);
      && Without(Get(r.peers, key), Get(r'.peers, key), file)
      && (key in r'.peers ==> r'.peers[key] != [])
      && (forall k :: k != key ==> (k in r'.peers <==> k in r.peers) && Get(r'.peers, k) == Get(r.peers, k))
      && (removed <==> exists c :: c in Get(r.peers, key) && c.fileHash == file)
      && r'.holds == (if removed then r.holds - {Pair((s.ip, s.tcpPort), file)} else r.holds)
      && r' == r.(peers := r'.peers, holds := r'.holds)
  {
    var key := KeyOf(s);
    var cs := Get(r.peers, key);
    RetainWithout(cs, file);
    RetainLength(cs, OtherThan(file));
    if exists c :: c in cs && c.fileHash == file {
      var c :| c in cs && c.fileHash == file;
      assert !OtherThan(file)(c);
    }
  }

  // ---------------------------------------------------------------- leases, holds, purges

  lemma ReleasePeerMeans(r: Registry, s: FoundSource, k: PeerKey)
    ensures k in ReleasePeer(r, s).leased <==> k in r.leased && k != PeerKey(s.ip, s.tcpPort, s.userHash, s.clientId)
    ensures ReleasePeer(r, s) == r.(leased := ReleasePeer(r, s).leased)
  {
  }

  lemma ReleaseEndpointMeans(r: Registry, e: Endpoint, k: PeerKey)
    ensures k in ReleaseEndpoint(r, e).leased <==> k in r.leased && (k.ip, k.tcpPort) != e
    ensures ReleaseEndpoint(r, e) == r.(leased := ReleaseEndpoint(r, e).leased)
  {
  }

  lemma ResetMeans(r: Registry, k: PeerKey)
    ensures k !in ResetLeases(r).leased && ResetLeases(r) == r.(leased := ResetLeases(r).leased)
  {
  }

  /**
   * Releasing a file takes its candidates off every list, frees exactly the leases
   * of peers that served nothing else, and forgets the file's holds and its purge.
   */
  lemma ReleaseFileMeans(r: Registry, file: FileHash, k: PeerKey, p: Pair, f: FileHash)
    ensures var r' := ReleaseFile(r, file);
      && Without(Get(r.peers, k), Get(r'.peers, k), file)
      && (k in r'.peers ==> r'.peers[k] != [])
      && (k in r'.leased <==> k in r.leased && exists c :: c in Get(r.peers, k) && c.fileHash != file)
      && (p in r'.holds <==> p in r.holds && p.file != file)
      && (p in r'.holds ==> r'.holds[p] == r.holds[p])
      && (f in r'.purges <==> f in r.purges && f != file)
      && (f in r'.purges ==> r'.purges[f] == r.purges[f])
      && r'.attempts == r.attempts
  {
    var r' := ReleaseFile(r, file);
    RetainWithout(Get(r.peers, k), file);
    if k in r'.peers {
      assert r'.peers[k][0] in Get(r.peers, k) && OtherThan(file)(r'.peers[k][0]);
    }
    if c :| c in Get(r.peers, k) && c.fileHash != file {
      assert c in Retain(r.peers[k], OtherThan(file));
    }
  }

  /** Marking stamps the pair's hold and the candidate's sighting, if the peer has one, and nothing else. */
  lemma MarkMeans(r: Registry, now: Instant, s: FoundSource, file: FileHash, p: Pair)
    requires Shape(r.peers)
    ensures var (r', marked) := Mark(r, now, s, file);
      var key := KeyOf(s);
      && (marked <==> exists c :: c in Get(r.peers, key) && c.fileHash == file)
      && (!marked ==> r' == r)
      && (marked ==>
            && r'.holds == r.holds[Pair((s.ip, s.tcpPort), file) := now]
            && |r'.peers[key]| == |r.peers[key]|
            && (forall i :: 0 <= i < |r.peers[key]| ==>
                  r'.peers[key][i] == (if r.peers[key][i].fileHash == file then r.peers[key][i].(lastSeen := now)
                                       else r.peers[key][i]))
            && (forall k :: k != key ==> Get(r'.peers, k) == Get(r.peers, k))
            && r' == r.(peers := r'.peers, holds := r'.holds))
  {
    var key := KeyOf(s);
    var cs := Get(r.peers, key);
    if key in r.peers {
      assert WellKept(key, r.peers[key]);
    }
    if Find(cs, file).Some? {
      assert cs[Find(cs, file).value] in cs;
    }
  }

  /** A purge is granted exactly 40 seconds or more after the last one of the file, and then stamped. */
  lemma PurgeMeans(r: Registry, now: Instant, file: FileHash)
    requires file in r.purges ==> r.purges[file] <= now
    ensures var (r', granted) := TryPurge(r, now, file);
      && (granted <==> file !in r.purges || r.purges[file] + 40 * SECOND <= now)
      && r'.purges == (if granted then r.purges[file := now] else r.purges)
      && r' == r.(purges := r'.purges)
  {
  }

  /** The best candidate: of the highest priority, of those the one with most rare parts, of those with most needed. */
  ghost predicate Best(cs: seq<Candidate>, b: Candidate) {
    && b in cs
    && (forall c :: c in cs ==> c.filePriority <= b.filePriority)
    && (forall c :: c in cs && c.filePriority == b.filePriority ==> c.rareParts <= b.rareParts)
    && (forall c :: c in cs && c.filePriority == b.filePriority && c.rareParts == b.rareParts ==>
          c.neededParts <= b.neededParts)
  }

  /**
   * A lease request: what is granted is a best candidate of the peer; the peer is
   * then leased and the pair stamped. A refusal leases nothing. Apart from that
   * only stamps and holds that have run out are forgotten.
   */
  lemma LeaseMeans(r: Registry, now: Instant, cooldown: Duration, s: FoundSource, file: FileHash, p: Pair)
    requires StampsPast(r, now)
    ensures var (r', lease) := Lease(r, now, cooldown, s, file);
      && (lease.Some? ==> Best(Get(r.peers, KeyOf(s)), lease.value) && lease.value.fileHash == file)
      && r'.leased == (if lease.Some? then r.leased + {KeyOf(s)} else r.leased)
      && r'.peers == r.peers && r'.purges == r.purges
      && (if lease.Some? && p == Pair((s.ip, s.tcpPort), file) then p in r'.attempts && r'.attempts[p] == now
          else SameUnless(r.attempts, r'.attempts, p, now, cooldown))
      && SameUnless(r.holds, r'.holds, p, now, 3480 * SECOND)
  {
    var cs := Get(r.peers, KeyOf(s));
    if cs != [] {
      var b := cs[BestUpTo(cs, |cs|)];
      assert b in cs;
      forall c | c in cs ensures ScoreLe(c, b) {
        var i :| 0 <= i < |cs| && cs[i] == c;
      }
    }
  }

  /** The stamp is what it was, or has run out and is gone. */
  ghost predicate SameUnless(
    before: map<Pair, Instant>, after: map<Pair, Instant>, p: Pair, now: Instant, limit: Duration)
  {
    if p in after then p in before && after[p] == before[p] else p in before ==> before[p] + limit <= now
  }
}
