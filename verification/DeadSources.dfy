/** The per-file dead-source list with its opportunistic sweep. */
module DeadSources {
  import opened Common
  import opened Sources

  const BLOCK: Duration := 45 * MINUTE
  const CLEANUP: Duration := 60 * MINUTE

  datatype DeadKey =
    | ByEndpoint(ip: Ipv4, tcpPort: Port)
    | ByServer(server: Endpoint, clientId: Word32, serverPort: Port)
    | ByUserHash(userHash: Hash16)

  function KeyFor(s: FoundSource): Option<DeadKey> {
    if !s.lowId then Some(ByEndpoint(s.ip, s.tcpPort))
    else if s.sourceServer.Some? then Some(ByServer(s.sourceServer.value, s.clientId, s.tcpPort))
    else if s.buddyId.Some? || s.sourceUdpPort.Some? then
      match s.userHash
      case Some(hash) => Some(ByUserHash(hash))
      case None => None
    else None
  }

  /** A firewalled source that no server vouches for and that can be reached by callback. */
  ghost predicate HashIdentified(s: FoundSource) {
    s.lowId && s.sourceServer.None? && (s.buddyId.Some? || s.sourceUdpPort.Some?) && s.userHash.Some?
  }

  /** What the key identifies: the three ways in which two reports denote one dead source, and no other. */
  lemma KeyIdentity(a: FoundSource, b: FoundSource)
    ensures KeyFor(a).Some? && KeyFor(a) == KeyFor(b) <==>
      || (!a.lowId && !b.lowId && EndpointOf(a) == EndpointOf(b))
      || (&& a.lowId && b.lowId && a.sourceServer.Some? && a.sourceServer == b.sourceServer
          && a.clientId == b.clientId && a.tcpPort == b.tcpPort)
      || (HashIdentified(a) && HashIdentified(b) && a.userHash == b.userHash)
  {
  }

  datatype Pair = Pair(file: FileHash, key: DeadKey)
  datatype Addition = Addition(pair: Pair, at: Instant)

  /** Some addition of the pair is younger than the block. */
  ghost predicate Blocked(history: seq<Addition>, pair: Pair, now: Instant) {
    exists i :: 0 <= i < |history| && history[i].pair == pair && now < history[i].at + 45 * MINUTE
  }

  ghost function LatestAt(history: seq<Addition>): Instant {
    if history == [] then 0 else Last(history).at
  }

  ghost predicate Clocked(history: seq<Addition>) {
    forall i, j :: 0 <= i < j < |history| ==> history[i].at <= history[j].at
  }

  /** The most recent addition of the pair. */
  ghost function LastAddition(history: seq<Addition>, pair: Pair): Option<Instant> {
    if history == [] then None
    else if Last(history).pair == pair then Some(Last(history).at)
    else LastAddition(history[..|history| - 1], pair)
  }

  lemma {:induction false} BlockedByLast(history: seq<Addition>, pair: Pair, now: Instant)
    requires Clocked(history)
    ensures Blocked(history, pair, now) <==>
      LastAddition(history, pair).Some? && now < LastAddition(history, pair).value + BLOCK
  {
    if history != [] {
      var init := history[..|history| - 1];
      BlockedByLast(init, pair, now);
      if Blocked(init, pair, now) {
        var i :| 0 <= i < |init| && init[i].pair == pair && now < init[i].at + BLOCK;
        assert history[i] == init[i];
      }
    }
  }

  /** Block expiries by pair, and the instant of the last sweep. */
  datatype Table = Table(entries: map<Pair, Instant>, lastCleanup: Option<Instant>)

  function Unexpired(entries: map<Pair, Instant>, now: Instant): map<Pair, Instant> {
    map p | p in entries && now < entries[p] :: entries[p]
  }

  /** The table after `a`: the pair is (re)stamped, and the table swept when the cadence has passed. */
  function Inserted(t: Table, a: Addition): Table {
    var added := t.entries[a.pair := a.at + BLOCK];
    if t.lastCleanup.None? || Elapsed(a.at, t.lastCleanup.value) >= CLEANUP
    then Table(Unexpired(added, a.at), Some(a.at))
    else Table(added, t.lastCleanup)
  }

  /** The table is swept at the first addition and then by the first one an hour or more after the last sweep. */
  lemma SweepExactly(t: Table, a: Addition)
    requires t.lastCleanup.Some? ==> t.lastCleanup.value <= a.at
    ensures var t', swept := Inserted(t, a), t.lastCleanup.None? || t.lastCleanup.value + 60 * MINUTE <= a.at;
      && t'.lastCleanup == (if swept then Some(a.at) else t.lastCleanup)
      && a.pair in t'.entries && t'.entries[a.pair] == a.at + 45 * MINUTE
      && (forall p :: p in t.entries && p != a.pair ==> (p in t'.entries <==> !swept || a.at < t.entries[p]))
      && (forall p :: p in t'.entries && p != a.pair ==> p in t.entries && t'.entries[p] == t.entries[p])
  {
  }

  /** An entry is its pair's last addition; a missing entry had nothing left to block. */
  ghost predicate EntriesExact(t: Table, history: seq<Addition>) {
    && (forall p :: p in t.entries ==> BLOCK <= t.entries[p] && LastAddition(history, p) == Some(t.entries[p] - BLOCK))
    && (forall p :: p !in t.entries && LastAddition(history, p).Some? ==>
          LastAddition(history, p).value + BLOCK <= LatestAt(history))
  }

  /** The last sweep is less than one cadence old and left only entries that outlived it. */
  ghost predicate RecentlySwept(t: Table, history: seq<Addition>) {
    if history == [] then t.lastCleanup.None? else
      && t.lastCleanup.Some?
      && t.lastCleanup.value <= LatestAt(history) < t.lastCleanup.value + CLEANUP
      && forall p :: p in t.entries ==> t.lastCleanup.value < t.entries[p]
  }

  ghost predicate Refines(t: Table, history: seq<Addition>) {
    Clocked(history) && EntriesExact(t, history) && RecentlySwept(t, history)
  }

  lemma InsertedIsExact(t: Table, history: seq<Addition>, a: Addition)
    requires EntriesExact(t, history) && LatestAt(history) <= a.at
    ensures EntriesExact(Inserted(t, a), history + [a])
  {
  }

  /** The refinement survives an addition, whether or not it sweeps. */
  lemma InsertedRefines(t: Table, history: seq<Addition>, a: Addition)
    requires Refines(t, history) && LatestAt(history) <= a.at
    ensures Refines(Inserted(t, a), history + [a])
  {
    InsertedIsExact(t, history, a);
  }

  /** What any run of additions leaves behind. */
  ghost function AfterAdditions(history: seq<Addition>): Table {
    if history == [] then Table(map[], None)
    else Inserted(AfterAdditions(history[..|history| - 1]), Last(history))
  }

  lemma {:induction false} RunRefines(history: seq<Addition>)
    requires Clocked(history)
    ensures Refines(AfterAdditions(history), history)
  {
    if history != [] {
      var init := history[..|history| - 1];
      RunRefines(init);
      InsertedRefines(AfterAdditions(init), init, Last(history));
      assert init + [Last(history)] == history;
    }
  }

  /**
   * After any run, whatever it swept: the list blocks a pair exactly when some
   * addition of it is younger than 45 minutes, and no entry is 105 minutes old.
   */
  lemma SweepsAreInvisible(history: seq<Addition>, pair: Pair, now: Instant)
    requires Clocked(history) && LatestAt(history) <= now
    ensures var entries := AfterAdditions(history).entries;
      && (pair in entries && now < entries[pair] <==> Blocked(history, pair, now))
      && forall p :: p in entries ==> LatestAt(history) < entries[p] - BLOCK + 105 * MINUTE
  {
    RunRefines(history);
    BlockedByLast(history, pair, now);
  }

  class DeadSourceList {
    var entries: map<Pair, Instant>
    var lastCleanup: Option<Instant>
    /** Every addition ever made, oldest first; no sweep touches it. */
    ghost var history: seq<Addition>

    ghost predicate Valid()
      reads this
    {
      Refines(Table(entries, lastCleanup), history)
    }

    constructor ()
      ensures Valid() && history == []
    {
      entries := map[];
      lastCleanup := None;
      history := [];
    }

    method AddDeadSource(now: Instant, file: FileHash, source: FoundSource) returns (added: bool)
      requires Valid() && LatestAt(history) <= now
      modifies this
      ensures Valid()
      ensures added <==> KeyFor(source).Some?
      ensures history ==
        if added then old(history) + [Addition(Pair(file, KeyFor(source).value), now)] else old(history)
      ensures added ==> forall p :: p in entries ==> now < entries[p] - BLOCK + 105 * MINUTE
    {
      var key := KeyFor(source);
      if key.None? {
        return false;
      }
      Insert(now, Pair(file, key.value));
      return true;
    }

    method IsDeadSource(now: Instant, file: FileHash, source: FoundSource) returns (dead: bool)
      requires Valid() && LatestAt(history) <= now
      ensures dead <==> KeyFor(source).Some? && Blocked(history, Pair(file, KeyFor(source).value), now)
    {
      var key := KeyFor(source);
      if key.None? {
        return false;
      }
      var pair := Pair(file, key.value);
      dead := pair in entries && now < entries[pair];
      BlockedByLast(history, pair, now);
    }

    method Insert(now: Instant, pair: Pair)
      requires Valid() && LatestAt(history) <= now
      modifies this
      ensures Valid()
      ensures history == old(history) + [Addition(pair, now)]
    {
      ghost var before := Table(entries, lastCleanup);
      entries := entries[pair := now + BLOCK];
      if lastCleanup.None? || Elapsed(now, lastCleanup.value) >= CLEANUP {
        entries := Unexpired(entries, now);
        lastCleanup := Some(now);
      }
      assert Table(entries, lastCleanup) == Inserted(before, Addition(pair, now));
      InsertedRefines(before, history, Addition(pair, now));
      history := history + [Addition(pair, now)];
    }
  }
}
