/** Leases over whole runs of the registry. */
module RegistryRuns {
  import opened Common
  import opened Sources
  import opened SourceRegistry
  import opened RegistryShape

  /** What a run did to leases: granted one, or released some. */
  datatype Event = Grant(key: PeerKey, pair: Pair, at: Instant) | Release(keys: set<PeerKey>)

  datatype Trace = Trace(reg: Registry, now: Instant, log: seq<Event>)

  ghost function EventsOf(r: Registry, cooldown: Duration, t: Timed): seq<Event> {
    if t.op.LeaseOp? && Lease(r, t.at, cooldown, t.op.s, t.op.file).1.Some?
    then [Grant(KeyOf(t.op.s), Pair(EndpointOf(t.op.s), t.op.file), t.at)]
    else
      var gone := r.leased - Step(r, cooldown, t).leased;
      if gone == {} then [] else [Release(gone)]
  }

  ghost function Next(tr: Trace, cooldown: Duration, t: Timed): Trace {
    Trace(Step(tr.reg, cooldown, t), t.at, tr.log + EventsOf(tr.reg, cooldown, t))
  }

  ghost function TraceOf(cooldown: Duration, run: seq<Timed>): Trace {
    if run == [] then Trace(EMPTY, 0, []) else Next(TraceOf(cooldown, run[..|run| - 1]), cooldown, Last(run))
  }

  /** The log says that `k` is leased: its last event was a grant. */
  ghost predicate Held(log: seq<Event>, k: PeerKey) {
    log != [] &&
    var e := Last(log);
    if e.Grant? then e.key == k || Held(log[..|log| - 1], k) else k !in e.keys && Held(log[..|log| - 1], k)
  }

  lemma HeldOne(log: seq<Event>, e: Event, k: PeerKey)
    ensures Held(log + [e], k) == if e.Grant? then e.key == k || Held(log, k) else k !in e.keys && Held(log, k)
  {
  }

  ghost predicate ReleasedBetween(log: seq<Event>, i: nat, j: nat, k: PeerKey)
    requires i <= j <= |log|
  {
    exists m :: i < m < j && log[m].Release? && k in log[m].keys
  }

  lemma {:induction false} NotHeldReleased(log: seq<Event>, i: nat, k: PeerKey)
    requires i < |log| && log[i].Grant? && log[i].key == k && !Held(log, k)
    ensures ReleasedBetween(log, i, |log|, k)
  {
    var n := |log| - 1;
    if Last(log).Release? && k in Last(log).keys {
      assert log[n].Release? && k in log[n].keys;
    } else {
      NotHeldReleased(log[..n], i, k);
      var m :| i < m < n && log[..n][m].Release? && k in log[..n][m].keys;
      assert log[m].Release? && k in log[m].keys;
    }
  }

  /** Two grants to one peer have a release of that peer between them. */
  ghost predicate GrantsAlternate(log: seq<Event>) {
    forall i, j :: 0 <= i < j < |log| && log[i].Grant? && log[j].Grant? && log[i].key == log[j].key ==>
      ReleasedBetween(log, i, j, log[i].key)
  }

  /** Two grants for one endpoint and file lie a cooldown apart. */
  ghost predicate GrantsApart(log: seq<Event>, cooldown: Duration) {
    forall i, j :: 0 <= i < j < |log| && log[i].Grant? && log[j].Grant? && log[i].pair == log[j].pair ==>
      log[i].at + cooldown <= log[j].at
  }

  /** A grant keeps its pair stamped for a full cooldown. */
  ghost predicate GrantStamped(tr: Trace, cooldown: Duration, i: nat)
    requires i < |tr.log|
  {
    tr.log[i].Grant? ==>
      && tr.log[i].at <= tr.now
      && (tr.now < tr.log[i].at + cooldown ==>
            tr.log[i].pair in tr.reg.attempts && tr.log[i].at <= tr.reg.attempts[tr.log[i].pair])
  }

  ghost predicate LeaseInv(tr: Trace, cooldown: Duration) {
    && (forall k :: k in tr.reg.leased <==> Held(tr.log, k))
    && GrantsAlternate(tr.log)
    && GrantsApart(tr.log, cooldown)
    && (forall i :: 0 <= i < |tr.log| ==> GrantStamped(tr, cooldown, i))
    && Past(tr.reg.attempts, tr.now)
  }

  /** A refused lease request leaves the leases alone. */
  lemma RefusedLeasesNothing(r: Registry, now: Instant, cooldown: Duration, s: FoundSource, file: FileHash)
    requires Lease(r, now, cooldown, s, file).1.None?
    ensures Lease(r, now, cooldown, s, file).0.leased == r.leased
  {
  }

  /** Only a granted lease request adds a lease. */
  lemma LeasesOnlyShrink(r: Registry, cooldown: Duration, t: Timed)
    requires !(t.op.LeaseOp? && Lease(r, t.at, cooldown, t.op.s, t.op.file).1.Some?)
    ensures Step(r, cooldown, t).leased <= r.leased
    ensures t.op.LeaseOp? ==> Step(r, cooldown, t).leased == r.leased
  {
    match t.op
    case LeaseOp(s, file) => RefusedLeasesNothing(r, t.at, cooldown, s, file);
    case _ =>
  }

  lemma AlternateOne(log: seq<Event>, e: Event)
    requires GrantsAlternate(log)
    requires e.Grant? ==> !Held(log, e.key)
    ensures GrantsAlternate(log + [e])
  {
    var longer := log + [e];
    forall i, j | 0 <= i < j < |longer| && longer[i].Grant? && longer[j].Grant? && longer[i].key == longer[j].key
      ensures ReleasedBetween(longer, i, j, longer[i].key)
    {
      var k := longer[i].key;
      if j == |log| {
        NotHeldReleased(log, i, k);
      } else {
        assert ReleasedBetween(log, i, j, k);
      }
      var m :| i < m < j && log[m].Release? && k in log[m].keys;
      assert longer[m] == log[m];
    }
  }

  lemma StampKept(tr: Trace, cooldown: Duration, t: Timed, i: nat)
    requires i < |tr.log| && GrantStamped(tr, cooldown, i) && tr.now <= t.at
    ensures GrantStamped(Next(tr, cooldown, t), cooldown, i)
  {
    if !t.op.LeaseOp? {
      AttemptsKept(tr.reg, cooldown, t);
    }
  }

  lemma GrantKeepsLeaseInv(tr: Trace, cooldown: Duration, t: Timed)
    requires LeaseInv(tr, cooldown) && tr.now <= t.at
    requires t.op.LeaseOp? && Lease(tr.reg, t.at, cooldown, t.op.s, t.op.file).1.Some?
    ensures LeaseInv(Next(tr, cooldown, t), cooldown)
  {
    var tr' := Next(tr, cooldown, t);
    var e := Grant(KeyOf(t.op.s), Pair(EndpointOf(t.op.s), t.op.file), t.at);
    assert tr'.log == tr.log + [e];
    AlternateOne(tr.log, e);
    forall k ensures k in tr'.reg.leased <==> Held(tr'.log, k) {
      HeldOne(tr.log, e, k);
    }
    forall i | 0 <= i < |tr.log| ensures GrantStamped(tr', cooldown, i) {
      StampKept(tr, cooldown, t, i);
    }
    assert GrantStamped(tr', cooldown, |tr.log|);
    forall i | 0 <= i < |tr.log| && tr.log[i].Grant?
      && tr.log[i].pair == e.pair ensures tr.log[i].at + cooldown <= e.at {
      assert GrantStamped(tr, cooldown, i);
    }
  }

  lemma OtherKeepsLeaseInv(tr: Trace, cooldown: Duration, t: Timed)
    requires LeaseInv(tr, cooldown) && tr.now <= t.at
    requires !(t.op.LeaseOp? && Lease(tr.reg, t.at, cooldown, t.op.s, t.op.file).1.Some?)
    ensures LeaseInv(Next(tr, cooldown, t), cooldown)
  {
    var tr' := Next(tr, cooldown, t);
    LeasesOnlyShrink(tr.reg, cooldown, t);
    var gone := tr.reg.leased - tr'.reg.leased;
    forall i | 0 <= i < |tr.log| ensures GrantStamped(tr', cooldown, i) {
      StampKept(tr, cooldown, t, i);
    }
    if gone == {} {
      assert tr'.log == tr.log;
      assert forall k :: k in tr.reg.leased && k !in tr'.reg.leased ==> k in gone;
    } else {
      var e := Release(gone);
      assert tr'.log == tr.log + [e];
      AlternateOne(tr.log, e);
      forall k ensures k in tr'.reg.leased <==> Held(tr'.log, k) {
        HeldOne(tr.log, e, k);
      }
      assert GrantStamped(tr', cooldown, |tr.log|);
    }
    if !t.op.LeaseOp? {
      AttemptsKept(tr.reg, cooldown, t);
    }
  }

  /**
   * Over every run with a fixed cooldown: a peer is leased exactly while its last
   * lease event is a grant, between two grants to a peer it was released, and two
   * grants for an endpoint and file lie a cooldown apart, whatever was released,
   * reset, pruned or requeried meanwhile.
   */
  lemma {:induction false} LeaseSafety(cooldown: Duration, run: seq<Timed>)
    requires Clocked(0, run)
    ensures LeaseInv(TraceOf(cooldown, run), cooldown)
    ensures TraceOf(cooldown, run).now == Clock(0, run)
    ensures TraceOf(cooldown, run).reg == After(EMPTY, cooldown, run)
  {
    if run != [] {
      var init, t := run[..|run| - 1], Last(run);
      LeaseSafety(cooldown, init);
      var tr := TraceOf(cooldown, init);
      if t.op.LeaseOp? && Lease(tr.reg, t.at, cooldown, t.op.s, t.op.file).1.Some? {
        GrantKeepsLeaseInv(tr, cooldown, t);
      } else {
        OtherKeepsLeaseInv(tr, cooldown, t);
      }
    }
  }
}
