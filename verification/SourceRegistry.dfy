/**
 * The peer-centric download source registry.
 *
 * Peers are identified by four fields, while attempt stamps and No-Needed-Parts
 * holds are kept per endpoint and file, so several identities can share a stamp.
 */
module SourceRegistry {
  import opened Common
  import opened Sources

  const LIVENESS_TTL: Duration := 60 * MINUTE
  const NNP_HOLD: Duration := 2 * 29 * MINUTE
  const PURGE_INTERVAL: Duration := 40 * SECOND

  datatype PeerKey = PeerKey(ip: Ipv4, tcpPort: Port, userHash: Option<Hash16>, clientId: Word32)
  datatype Pair = Pair(endpoint: Endpoint, file: FileHash)

  datatype Candidate = Candidate(
    fileHash: FileHash, filePriority: Word32, neededParts: Word32, rareParts: Word32, source: FoundSource,
    lastSeen: Instant)

  datatype Registry = Registry(
    peers: map<PeerKey, seq<Candidate>>,
    leased: set<PeerKey>,
    attempts: map<Pair, Instant>,
    holds: map<Pair, Instant>,
    purges: map<FileHash, Instant>)

  const EMPTY := Registry(map[], {}, map[], map[], map[])

  function KeyOf(s: FoundSource): PeerKey {
    PeerKey(s.ip, s.tcpPort, s.userHash, s.clientId)
  }

  function KeyEndpoint(k: PeerKey): Endpoint {
    (k.ip, k.tcpPort)
  }

  function PairOf(c: Candidate): Pair {
    Pair(EndpointOf(c.source), c.fileHash)
  }

  predicate IsStale(c: Candidate, now: Instant) {
    Elapsed(now, c.lastSeen) > LIVENESS_TTL
  }

  // ---------------------------------------------------------------- candidate lists

  /** The position of the first candidate for `file`, from `i` on. */
  function FindFrom(cs: seq<Candidate>, i: nat, file: FileHash): (r: Option<nat>)
    requires i <= |cs|
    ensures r.Some? ==> i <= r.value < |cs| && cs[r.value].fileHash == file
    ensures r.None? ==> forall j :: i <= j < |cs| ==> cs[j].fileHash != file
    decreases |cs| - i
  {
    if i == |cs| then None else if cs[i].fileHash == file then Some(i) else FindFrom(cs, i + 1, file)
  }

  function Find(cs: seq<Candidate>, file: FileHash): (r: Option<nat>)
    ensures r.Some? ==> r.value < |cs| && cs[r.value].fileHash == file
    ensures r.None? ==> forall j :: 0 <= j < |cs| ==> cs[j].fileHash != file
  {
    FindFrom(cs, 0, file)
  }

  function AddTo(cs: seq<Candidate>, c: Candidate): seq<Candidate> {
    match Find(cs, c.fileHash)
    case Some(i) => cs[i := c]
    case None => cs + [c]
  }

  /** `Vec::retain`. */
  function Retain(cs: seq<Candidate>, keep: Candidate -> bool): (kept: seq<Candidate>)
    ensures forall c :: c in kept <==> c in cs && keep(c)
    ensures |kept| <= |cs|
  {
    if cs == [] then [] else
      var rest := Retain(cs[..|cs| - 1], keep);
      assert cs == cs[..|cs| - 1] + [Last(cs)];
      if keep(Last(cs)) then rest + [Last(cs)] else rest
  }

  function Fresh(now: Instant): Candidate -> bool {
    (c: Candidate) => !IsStale(c, now)
  }

  function OtherThan(file: FileHash): Candidate -> bool {
    (c: Candidate) => c.fileHash != file
  }

  /** Scores compare by priority, then rarity, then need. */
  predicate ScoreLe(a: Candidate, b: Candidate) {
    || a.filePriority < b.filePriority
    || (a.filePriority == b.filePriority &&
        (a.rareParts < b.rareParts || (a.rareParts == b.rareParts && a.neededParts <= b.neededParts)))
  }

  /** `max_by_key`: the last of the candidates with the highest score. */
  function BestUpTo(cs: seq<Candidate>, n: nat): (b: nat)
    requires 0 < n <= |cs|
    ensures b < n
    ensures forall i :: 0 <= i < n ==> ScoreLe(cs[i], cs[b])
    ensures forall i :: b < i < n ==> !ScoreLe(cs[b], cs[i])
  {
    if n == 1 then 0 else
      var b := BestUpTo(cs, n - 1);
      if ScoreLe(cs[b], cs[n - 1]) then n - 1 else b
  }

  // ---------------------------------------------------------------- operations

  function Get(peers: map<PeerKey, seq<Candidate>>, k: PeerKey): seq<Candidate> {
    if k in peers then peers[k] else []
  }

  function Add(r: Registry, now: Instant, c: Candidate): Registry {
    var key := KeyOf(c.source);
    r.(peers := r.peers[key := AddTo(Get(r.peers, key), c.(lastSeen := now))])
  }

  function RetainAll(peers: map<PeerKey, seq<Candidate>>, keep: Candidate -> bool): map<PeerKey, seq<Candidate>> {
    map k | k in peers && Retain(peers[k], keep) != [] :: Retain(peers[k], keep)
  }

  /** The endpoint-and-file pairs of the candidates that have aged out. */
  function StalePairs(peers: map<PeerKey, seq<Candidate>>, now: Instant): set<Pair> {
    set k, i | k in peers && 0 <= i < |peers[k]| && IsStale(peers[k][i], now) :: PairOf(peers[k][i])
  }

  function Prune(r: Registry, now: Instant): Registry {
    r.(peers := RetainAll(r.peers, Fresh(now)), holds := r.holds - StalePairs(r.peers, now))
  }

  function Lease(
    r: Registry, now: Instant, cooldown: Duration, s: FoundSource, file: FileHash): (Registry, Option<Candidate>) {
    var key, pair := KeyOf(s), Pair(EndpointOf(s), file);
    var r1 := r.(attempts := YoungerThan(r.attempts, now, cooldown));
    if pair in r1.attempts then (r1, None) else
      var r2 := r1.(holds := YoungerThan(r.holds, now, NNP_HOLD));
      if pair in r2.holds || Get(r.peers, key) == [] then (r2, None) else
        var best := r.peers[key][BestUpTo(r.peers[key], |r.peers[key]|)];
        if best.fileHash != file || key in r.leased then (r2, None)
        else (r2.(leased := r.leased + {key}, attempts := r1.attempts[pair := now]), Some(best))
  }

  /** `checked_sub` */
  function Remaining(limit: Duration, elapsed: Duration): Option<Duration> {
    if elapsed <= limit then Some(limit - elapsed) else None
  }

  function HoldRemaining(r: Registry, now: Instant, pair: Pair): Option<Duration> {
    if pair !in r.holds then None else
      match Remaining(NNP_HOLD, Elapsed(now, r.holds[pair]))
      case Some(left) => if left != 0 then Some(left) else None
      case None => None
  }

  function RetryDelay(r: Registry, now: Instant, cooldown: Duration, pair: Pair): Option<Duration> {
    var wait := if pair in r.attempts then Remaining(cooldown, Elapsed(now, r.attempts[pair])) else None;
    var hold := HoldRemaining(r, now, pair);
    match (wait, hold)
    case (Some(a), Some(b)) => Some(if a >= b then a else b)
    case (Some(a), None) => Some(a)
    case (None, _) => hold
  }

  function Mark(r: Registry, now: Instant, s: FoundSource, file: FileHash): (Registry, bool) {
    var key := KeyOf(s);
    var cs := Get(r.peers, key);
    match Find(cs, file)
    case None => (r, false)
    case Some(i) =>
      (r.(peers := r.peers[key := cs[i := cs[i].(lastSeen := now)]],
          holds := r.holds[Pair(EndpointOf(s), file) := now]), true)
  }

  function TryPurge(r: Registry, now: Instant, file: FileHash): (Registry, bool) {
    if file in r.purges && Elapsed(now, r.purges[file]) < PURGE_INTERVAL then (r, false)
    else (r.(purges := r.purges[file := now]), true)
  }

  function Remove(r: Registry, s: FoundSource, file: FileHash): (Registry, bool) {
    var key := KeyOf(s);
    if key !in r.peers then (r, false) else
      var kept := Retain(r.peers[key], OtherThan(file));
      var removed := |kept| != |r.peers[key]|;
      var peers := if kept == [] then r.peers - {key} else r.peers[key := kept];
      (r.(peers := peers, holds := if removed then r.holds - {Pair(EndpointOf(s), file)} else r.holds), removed)
  }

  function ReleasePeer(r: Registry, s: FoundSource): Registry {
    r.(leased := r.leased - {KeyOf(s)})
  }

  function ReleaseEndpoint(r: Registry, e: Endpoint): Registry {
    r.(leased := set k | k in r.leased && KeyEndpoint(k) != e)
  }

  function ReleaseFile(r: Registry, file: FileHash): Registry {
    var peers := RetainAll(r.peers, OtherThan(file));
    Registry(
      peers,
      (set k | k in r.leased && k in peers),
      r.attempts,
      (map p | p in r.holds && p.file != file :: r.holds[p]),
      r.purges - {file})
  }

  function ResetLeases(r: Registry): Registry {
    r.(leased := {})
  }

  class DownloadSourceRegistry {
    var peers: map<PeerKey, seq<Candidate>>
    var leasedPeers: set<PeerKey>
    var lastAttempted: map<Pair, Instant>
    var nnpHolds: map<Pair, Instant>
    var lastNnpPurge: map<FileHash, Instant>

    ghost function View(): Registry
      reads this
    {
      Registry(peers, leasedPeers, lastAttempted, nnpHolds, lastNnpPurge)
    }

    constructor ()
      ensures View() == EMPTY
    {
      peers, leasedPeers, lastAttempted, nnpHolds, lastNnpPurge := map[], {}, map[], map[], map[];
    }

    method AddCandidate(now: Instant, c: Candidate)
      modifies this
      ensures View() == Add(old(View()), now, c)
    {
      var key := KeyOf(c.source);
      var stamped := c.(lastSeen := now);
      var candidates := Get(peers, key);
      var existing := Find(candidates, c.fileHash);
      if existing.Some? {
        candidates := candidates[existing.value := stamped];
      } else {
        candidates := candidates + [stamped];
      }
      peers := peers[key := candidates];
    }

    method PruneStaleCandidates(now: Instant)
      modifies this
      ensures View() == Prune(old(View()), now)
    {
      var removed := StalePairs(peers, now);
      peers := RetainAll(peers, Fresh(now));
      nnpHolds := nnpHolds - removed;
    }

    /** A refusal leaves the leases as they were, and only forgets stamps that had expired. */
    method LeaseBestForFile(
      now: Instant, cooldown: Duration, s: FoundSource, file: FileHash) returns (lease: Option<Candidate>)
      modifies this
      ensures (View(), lease) == Lease(old(View()), now, cooldown, s, file)
      ensures lease.None? ==> leasedPeers == old(leasedPeers)
      ensures lease.Some? ==>
        && leasedPeers == old(leasedPeers) + {KeyOf(s)} && KeyOf(s) !in old(leasedPeers)
        && lease.value in Get(peers, KeyOf(s)) && lease.value.fileHash == file
        && forall i :: 0 <= i < |Get(peers, KeyOf(s))| ==> ScoreLe(Get(peers, KeyOf(s))[i], lease.value)
    {
      var key, pair := KeyOf(s), Pair(EndpointOf(s), file);
      lastAttempted := YoungerThan(lastAttempted, now, cooldown);
      if pair in lastAttempted && Elapsed(now, lastAttempted[pair]) < cooldown {
        return None;
      }
      nnpHolds := YoungerThan(nnpHolds, now, NNP_HOLD);
      if pair in nnpHolds {
        return None;
      }
      if key !in peers || peers[key] == [] {
        return None;
      }
      var candidate := peers[key][BestUpTo(peers[key], |peers[key]|)];
      if candidate.fileHash != file || key in leasedPeers {
        return None;
      }
      leasedPeers := leasedPeers + {key};
      lastAttempted := lastAttempted[pair := now];
      return Some(candidate);
    }

    method EndpointRetryDelay(
      now: Instant, cooldown: Duration, s: FoundSource, file: FileHash) returns (delay: Option<Duration>)
      ensures delay == RetryDelay(View(), now, cooldown, Pair(EndpointOf(s), file))
    {
      var pair := Pair(EndpointOf(s), file);
      var wait := if pair in lastAttempted then Remaining(cooldown, Elapsed(now, lastAttempted[pair])) else None;
      var hold := None;
      if pair in nnpHolds {
        hold := Remaining(NNP_HOLD, Elapsed(now, nnpHolds[pair]));
        if hold.Some? && hold.value == 0 {
          hold := None;
        }
      }
      if wait.Some? && hold.Some? {
        return Some(if wait.value >= hold.value then wait.value else hold.value);
      }
      return if wait.Some? then wait else hold;
    }

    method MarkNoNeededParts(now: Instant, s: FoundSource, file: FileHash) returns (marked: bool)
      modifies this
      ensures (View(), marked) == Mark(old(View()), now, s, file)
    {
      var key := KeyOf(s);
      var candidates := Get(peers, key);
      var i := Find(candidates, file);
      if i.None? {
        return false;
      }
      peers := peers[key := candidates[i.value := candidates[i.value].(lastSeen := now)]];
      nnpHolds := nnpHolds[Pair(EndpointOf(s), file) := now];
      return true;
    }

    method TryNnpPurge(now: Instant, file: FileHash) returns (granted: bool)
      modifies this
      ensures (View(), granted) == TryPurge(old(View()), now, file)
    {
      if file in lastNnpPurge && Elapsed(now, lastNnpPurge[file]) < PURGE_INTERVAL {
        return false;
      }
      lastNnpPurge := lastNnpPurge[file := now];
      return true;
    }

    method RemoveCandidate(s: FoundSource, file: FileHash) returns (removed: bool)
      modifies this
      ensures (View(), removed) == Remove(old(View()), s, file)
    {
      var key := KeyOf(s);
      if key !in peers {
        return false;
      }
      var before := |peers[key]|;
      var kept := Retain(peers[key], OtherThan(file));
      removed := |kept| != before;
      if kept == [] {
        peers := peers - {key};
      } else {
        peers := peers[key := kept];
      }
      if removed {
        nnpHolds := nnpHolds - {Pair(EndpointOf(s), file)};
      }
    }

    method ReleaseByPeer(s: FoundSource)
      modifies this
      ensures View() == ReleasePeer(old(View()), s)
    {
      leasedPeers := leasedPeers - {KeyOf(s)};
    }

    method ReleaseByEndpoint(e: Endpoint)
      modifies this
      ensures View() == ReleaseEndpoint(old(View()), e)
    {
      leasedPeers := set k | k in leasedPeers && KeyEndpoint(k) != e;
    }

    /** Leaves exactly the leases whose peer still has a candidate, and returns one endpoint for each of the others. */
    method ReleaseByFile(file: FileHash) returns (cleared: seq<Endpoint>)
      modifies this
      ensures View() == ReleaseFile(old(View()), file)
      ensures forall k :: k in leasedPeers <==> k in old(leasedPeers) && k in peers
      ensures OnePerPeer(cleared, old(leasedPeers) - leasedPeers)
    {
      peers := RetainAll(peers, OtherThan(file));
      nnpHolds := map p | p in nnpHolds && p.file != file :: nnpHolds[p];
      lastNnpPurge := lastNnpPurge - {file};
      var gone := set k | k in leasedPeers && k !in peers;
      cleared := Endpoints(gone);
      assert leasedPeers - (leasedPeers - gone) == gone;
      leasedPeers := leasedPeers - gone;
    }

    method ResetAllLeases() returns (cleared: seq<Endpoint>)
      modifies this
      ensures View() == ResetLeases(old(View()))
      ensures OnePerPeer(cleared, old(leasedPeers))
    {
      cleared := Endpoints(leasedPeers);
      leasedPeers := {};
    }
  }

  /** The peers at an endpoint. */
  function At(keys: set<PeerKey>, e: Endpoint): set<PeerKey> {
    set k | k in keys && KeyEndpoint(k) == e
  }

  /** Every endpoint is listed as often as it has peers among `keys`, and nothing else is listed. */
  ghost predicate OnePerPeer(endpoints: seq<Endpoint>, keys: set<PeerKey>) {
    forall e :: multiset(endpoints)[e] == |At(keys, e)|
  }

  lemma OneMorePeer(endpoints: seq<Endpoint>, keys: set<PeerKey>, k: PeerKey)
    requires OnePerPeer(endpoints, keys) && k !in keys
    ensures OnePerPeer(endpoints + [KeyEndpoint(k)], keys + {k})
  {
    forall e ensures multiset(endpoints + [KeyEndpoint(k)])[e] == |At(keys + {k}, e)| {
      assert At(keys + {k}, e) == if KeyEndpoint(k) == e then At(keys, e) + {k} else At(keys, e);
    }
  }

  /** The endpoints of a set of peers, one entry per peer, in no particular order. */
  method Endpoints(keys: set<PeerKey>) returns (endpoints: seq<Endpoint>)
    ensures OnePerPeer(endpoints, keys)
  {
    endpoints := [];
    var todo := keys;
    while todo != {}
      invariant todo <= keys
      invariant OnePerPeer(endpoints, keys - todo)
      decreases |todo|
    {
      var k :| k in todo;
      OneMorePeer(endpoints, keys - todo, k);
      assert keys - (todo - {k}) == (keys - todo) + {k};
      todo := todo - {k};
      endpoints := endpoints + [KeyEndpoint(k)];
    }
    assert keys - todo == keys;
  }
}
