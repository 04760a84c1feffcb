/**
 * Claim / commit / cancel of callback cooldown permits.
 *
 * One table of stamps serves every requester. A claim stamps its key before the
 * request is sent and hands out a linear permit; the permit is later settled by a
 * commit (sent, or possibly sent) or a cancel (known not sent). Between claim and
 * settlement the table may be pruned, re-claimed or committed by somebody else, so
 * the permit can be stale when it is settled.
 */
module CallbackPermits {
  import opened Common

  const DIRECT_COOLDOWN: Duration := 45 * SECOND
  const SERVER_COOLDOWN: Duration := 20 * MINUTE

  type SocketAddr = (nat, nat)
  type UserHash = seq<bv8>

  datatype DirectKey = DirectKey(sourceEndpoint: SocketAddr, userHash: UserHash)
  datatype ServerKey = ServerKey(serverEndpoint: SocketAddr, clientId: nat)
  datatype Permit<+K> = Permit(key: K, claimedAt: Instant)

  // ---------------------------------------------------------------- one call

  /** The stamp still belongs to the claim that issued `permit`. */
  predicate Owns<K(==)>(stamps: map<K, Instant>, permit: Permit<K>) {
    permit.key in stamps && stamps[permit.key] == permit.claimedAt
  }

  function Claimed<K(==)>(stamps: map<K, Instant>, cooldown: Duration, key: K, now: Instant)
    : (map<K, Instant>, Option<Permit<K>>)
  {
    var kept := YoungerThan(stamps, now, cooldown);
    if key in kept then (kept, None) else (kept[key := now], Some(Permit(key, now)))
  }

  function Committed<K(==)>(stamps: map<K, Instant>, permit: Permit<K>, now: Instant): (map<K, Instant>, bool) {
    if Owns(stamps, permit) then (stamps[permit.key := now], true) else (stamps, false)
  }

  function Cancelled<K(==)>(stamps: map<K, Instant>, permit: Permit<K>): (map<K, Instant>, bool) {
    if Owns(stamps, permit) then (stamps - {permit.key}, true) else (stamps, false)
  }

  /** The mutable table behind `ed2k_direct_callback_last_sent` and its server twin. */
  class CooldownTable<K(==)> {
    const cooldown: Duration
    var lastSent: map<K, Instant>

    constructor (cooldown: Duration)
      ensures this.cooldown == cooldown && lastSent == map[]
    {
      this.cooldown := cooldown;
      lastSent := map[];
    }

    method Claim(key: K, now: Instant) returns (permit: Option<Permit<K>>)
      modifies this
      ensures (lastSent, permit) == Claimed(old(lastSent), cooldown, key, now)
      ensures permit.None? <==> key in old(lastSent) && Elapsed(now, old(lastSent)[key]) < cooldown
      ensures permit.Some? ==> Owns(lastSent, permit.value) && permit.value == Permit(key, now)
    {
      lastSent := YoungerThan(lastSent, now, cooldown);
      if key in lastSent && Elapsed(now, lastSent[key]) < cooldown {
        return None;
      }
      lastSent := lastSent[key := now];
      return Some(Permit(key, now));
    }

    method Cancel(permit: Permit<K>) returns (ok: bool)
      modifies this
      ensures (lastSent, ok) == Cancelled(old(lastSent), permit)
      ensures !ok ==> lastSent == old(lastSent)
    {
      if !(permit.key in lastSent && lastSent[permit.key] == permit.claimedAt) {
        return false;
      }
      lastSent := lastSent - {permit.key};
      return true;
    }

    method Commit(permit: Permit<K>, now: Instant) returns (ok: bool)
      modifies this
      ensures (lastSent, ok) == Committed(old(lastSent), permit, now)
      ensures !ok ==> lastSent == old(lastSent)
    {
      if !(permit.key in lastSent && lastSent[permit.key] == permit.claimedAt) {
        return false;
      }
      lastSent := lastSent[permit.key := now];
      return true;
    }
  }

  // ---------------------------------------------------------------- whole runs

  /** One atomic step of some requester. `ticket` names the claim whose permit is settled. */
  datatype Event<+K> =
    | ClaimAt(key: K, at: Instant)
    | CommitAt(ticket: nat, at: Instant)
    | CancelAt(ticket: nat, at: Instant)

  datatype Commit<+K> = Commit(key: K, at: Instant)

  /**
   * The table together with what a run leaves behind: the permits not settled yet,
   * by ticket number, and every successful commit in order.
   */
  datatype Run<K> = Run(
    now: Instant,
    stamps: map<K, Instant>,
    live: map<nat, Permit<K>>,
    issued: nat,
    commits: seq<Commit<K>>)

  ghost function Start<K>(): Run<K> {
    Run(0, map[], map[], 0, [])
  }

  /** A settled ticket is no longer live: a permit is consumed by its settlement. */
  ghost function Step<K>(r: Run<K>, cooldown: Duration, e: Event<K>): Run<K> {
    match e
    case ClaimAt(key, at) =>
      var (stamps, permit) := Claimed(r.stamps, cooldown, key, at);
      var live := if permit.Some? then r.live[r.issued := permit.value] else r.live;
      Run(at, stamps, live, r.issued + 1, r.commits)
    case CommitAt(ticket, at) =>
      if ticket !in r.live then r.(now := at) else
        var permit := r.live[ticket];
        var (stamps, ok) := Committed(r.stamps, permit, at);
        Run(at, stamps, r.live - {ticket}, r.issued, if ok then r.commits + [Commit(permit.key, at)] else r.commits)
    case CancelAt(ticket, at) =>
      if ticket !in r.live then r.(now := at) else
        var (stamps, _) := Cancelled(r.stamps, r.live[ticket]);
        Run(at, stamps, r.live - {ticket}, r.issued, r.commits)
  }

  ghost function After<K>(r: Run<K>, cooldown: Duration, events: seq<Event<K>>): Run<K> {
    if events == [] then r else Step(After(r, cooldown, events[..|events| - 1]), cooldown, Last(events))
  }

  ghost function LastAt<K>(from: Instant, events: seq<Event<K>>): Instant {
    if events == [] then from else Last(events).at
  }

  /** The clock never runs backwards along the run. */
  ghost predicate Clocked<K>(from: Instant, events: seq<Event<K>>) {
    events == [] ||
    var init := events[..|events| - 1];
    Clocked(from, init) && LastAt(from, init) <= Last(events).at
  }

  // What every step keeps, one concern at a time.

  ghost predicate Stamped<K>(r: Run<K>) {
    && (forall k :: k in r.stamps ==> r.stamps[k] <= r.now)
    && (forall t :: t in r.live ==> t < r.issued && r.live[t].claimedAt <= r.now)
    && (forall i :: 0 <= i < |r.commits| ==> r.commits[i].at <= r.now)
  }

  /** No two live permits of one key were claimed at the same instant. */
  ghost predicate Distinct<K>(r: Run<K>) {
    forall s, t :: s in r.live && t in r.live && s != t && r.live[s].key == r.live[t].key ==>
      r.live[s].claimedAt != r.live[t].claimedAt
  }

  /** Nothing displaces a live permit inside its own cooldown. */
  ghost predicate YoungOwns<K>(r: Run<K>, cooldown: Duration) {
    forall t :: t in r.live && r.now < r.live[t].claimedAt + cooldown ==> Owns(r.stamps, r.live[t])
  }

  /** A commit keeps its key stamped for a full cooldown. */
  ghost predicate CommitsHold<K>(r: Run<K>, cooldown: Duration) {
    forall i :: 0 <= i < |r.commits| && r.now < r.commits[i].at + cooldown ==>
      r.commits[i].key in r.stamps && r.commits[i].at <= r.stamps[r.commits[i].key]
  }

  /** A permit that can still commit was claimed a cooldown after every earlier commit. */
  ghost predicate OwnersLate<K>(r: Run<K>, cooldown: Duration) {
    forall i, t ::
      0 <= i < |r.commits| && t in r.live && r.live[t].key == r.commits[i].key && Owns(r.stamps, r.live[t]) ==>
        r.commits[i].at + cooldown <= r.live[t].claimedAt
  }

  ghost predicate CommitsApart<K>(r: Run<K>, cooldown: Duration) {
    forall i, j :: 0 <= i < j < |r.commits| && r.commits[i].key == r.commits[j].key ==>
      r.commits[i].at + cooldown <= r.commits[j].at
  }

  /** Every stamp was written by a permit still live or by a successful commit. */
  ghost predicate Justified<K>(r: Run<K>) {
    forall k :: k in r.stamps ==> Holder(r, k) || Settled(r, k)
  }

  ghost predicate Holder<K>(r: Run<K>, key: K)
    requires key in r.stamps
  {
    exists t :: t in r.live && r.live[t] == Permit(key, r.stamps[key])
  }

  ghost predicate Settled<K>(r: Run<K>, key: K)
    requires key in r.stamps
  {
    Commit(key, r.stamps[key]) in r.commits
  }

  ghost predicate Inv<K>(r: Run<K>, cooldown: Duration) {
    Stamped(r) && Distinct(r) && YoungOwns(r, cooldown) && CommitsHold(r, cooldown) && OwnersLate(r, cooldown)
    && CommitsApart(r, cooldown) && Justified(r)
  }

  lemma StepKeepsJustified<K>(r: Run<K>, cooldown: Duration, e: Event<K>)
    requires Justified(r) && Stamped(r)
    ensures Justified(Step(r, cooldown, e))
  {
    var r' := Step(r, cooldown, e);
    forall k | k in r'.stamps ensures Holder(r', k) || Settled(r', k) {
      if k in r.stamps && r.stamps[k] == r'.stamps[k] && Holder(r, k) {
        var t :| t in r.live && r.live[t] == Permit(k, r.stamps[k]);
        if e.ClaimAt? || e.ticket != t {
          assert t in r'.live;
        } else if e.CommitAt? {
          assert Commit(k, r'.stamps[k]) == Last(r'.commits);
        }
      } else if k in r.stamps && r.stamps[k] == r'.stamps[k] {
        assert Settled(r, k);
      } else if e.ClaimAt? {
        assert r'.live[r.issued] == Permit(k, r'.stamps[k]);
      } else {
        assert Commit(k, r'.stamps[k]) == Last(r'.commits);
      }
    }
  }

  lemma ClaimKeepsStamped<K>(r: Run<K>, cooldown: Duration, key: K, at: Instant)
    requires 0 < cooldown && r.now <= at
    requires Stamped(r)
    ensures var r' := Step(r, cooldown, ClaimAt(key, at)); Stamped(r')
  {
  }

  lemma ClaimKeepsDistinct<K>(r: Run<K>, cooldown: Duration, key: K, at: Instant)
    requires 0 < cooldown && r.now <= at
    requires Stamped(r) && Distinct(r) && YoungOwns(r, cooldown) && CommitsHold(r, cooldown)
    ensures var r' := Step(r, cooldown, ClaimAt(key, at)); Distinct(r')
  {
  }

  lemma ClaimKeepsYoung<K>(r: Run<K>, cooldown: Duration, key: K, at: Instant)
    requires 0 < cooldown && r.now <= at
    requires Stamped(r) && YoungOwns(r, cooldown) && CommitsHold(r, cooldown)
    ensures var r' := Step(r, cooldown, ClaimAt(key, at)); YoungOwns(r', cooldown)
  {
  }

  lemma ClaimKeepsCommits<K>(r: Run<K>, cooldown: Duration, key: K, at: Instant)
    requires 0 < cooldown && r.now <= at
    requires Stamped(r) && CommitsHold(r, cooldown) && CommitsApart(r, cooldown)
    ensures var r' := Step(r, cooldown, ClaimAt(key, at)); CommitsHold(r', cooldown) && CommitsApart(r', cooldown)
  {
  }

  lemma ClaimKeepsOwners<K>(r: Run<K>, cooldown: Duration, key: K, at: Instant)
    requires 0 < cooldown && r.now <= at
    requires Stamped(r) && YoungOwns(r, cooldown) && CommitsHold(r, cooldown) && OwnersLate(r, cooldown)
    ensures var r' := Step(r, cooldown, ClaimAt(key, at)); OwnersLate(r', cooldown)
  {
  }

  /** When a permit commits, no other live permit of its key owns the stamp, before or after. */
  lemma OthersDisowned<K>(r: Run<K>, cooldown: Duration, ticket: nat, at: Instant)
    requires 0 < cooldown && r.now <= at
    requires Stamped(r) && Distinct(r) && YoungOwns(r, cooldown)
    requires ticket in r.live && Owns(r.stamps, r.live[ticket])
    ensures forall t :: t in r.live && t != ticket && r.live[t].key == r.live[ticket].key ==>
      r.live[t].claimedAt != r.stamps[r.live[ticket].key] && r.live[t].claimedAt + cooldown <= at
  {
  }

  lemma CommitKeepsPermits<K>(r: Run<K>, cooldown: Duration, ticket: nat, at: Instant)
    requires 0 < cooldown && r.now <= at
    requires Stamped(r) && Distinct(r) && YoungOwns(r, cooldown)
    ensures var r' := Step(r, cooldown, CommitAt(ticket, at)); Stamped(r') && Distinct(r') && YoungOwns(r', cooldown)
  {
    if ticket in r.live && Owns(r.stamps, r.live[ticket]) {
      OthersDisowned(r, cooldown, ticket, at);
    }
  }

  lemma CommitKeepsCommits<K>(r: Run<K>, cooldown: Duration, ticket: nat, at: Instant)
    requires 0 < cooldown && r.now <= at
    requires Stamped(r) && CommitsHold(r, cooldown) && CommitsApart(r, cooldown) && OwnersLate(r, cooldown)
    ensures var r' := Step(r, cooldown, CommitAt(ticket, at)); CommitsHold(r', cooldown) && CommitsApart(r', cooldown)
  {
  }

  lemma CommitKeepsOwners<K>(r: Run<K>, cooldown: Duration, ticket: nat, at: Instant)
    requires 0 < cooldown && r.now <= at
    requires Stamped(r) && Distinct(r) && YoungOwns(r, cooldown) && OwnersLate(r, cooldown)
    ensures var r' := Step(r, cooldown, CommitAt(ticket, at)); OwnersLate(r', cooldown)
  {
  }

  lemma CancelKeepsPermits<K>(r: Run<K>, cooldown: Duration, ticket: nat, at: Instant)
    requires 0 < cooldown && r.now <= at
    requires Stamped(r) && Distinct(r) && YoungOwns(r, cooldown)
    ensures var r' := Step(r, cooldown, CancelAt(ticket, at)); Stamped(r') && Distinct(r') && YoungOwns(r', cooldown)
  {
  }

  lemma CancelKeepsCommits<K>(r: Run<K>, cooldown: Duration, ticket: nat, at: Instant)
    requires 0 < cooldown && r.now <= at
    requires Stamped(r) && CommitsHold(r, cooldown) && CommitsApart(r, cooldown) && OwnersLate(r, cooldown)
    ensures var r' := Step(r, cooldown, CancelAt(ticket, at)); CommitsHold(r', cooldown) && CommitsApart(r', cooldown)
  {
  }

  lemma CancelKeepsOwners<K>(r: Run<K>, cooldown: Duration, ticket: nat, at: Instant)
    requires 0 < cooldown && r.now <= at
    requires Stamped(r) && Distinct(r) && YoungOwns(r, cooldown) && OwnersLate(r, cooldown)
    ensures var r' := Step(r, cooldown, CancelAt(ticket, at)); OwnersLate(r', cooldown)
  {
  }

  lemma StepKeeps<K>(r: Run<K>, cooldown: Duration, e: Event<K>)
    requires 0 < cooldown && Inv(r, cooldown) && r.now <= e.at
    ensures Inv(Step(r, cooldown, e), cooldown)
  {
    StepKeepsJustified(r, cooldown, e);
    match e
    case ClaimAt(key, at) =>
      ClaimKeepsStamped(r, cooldown, key, at);
      ClaimKeepsDistinct(r, cooldown, key, at);
      ClaimKeepsYoung(r, cooldown, key, at);
      ClaimKeepsCommits(r, cooldown, key, at);
      ClaimKeepsOwners(r, cooldown, key, at);
    case CommitAt(ticket, at) =>
      CommitKeepsPermits(r, cooldown, ticket, at);
      CommitKeepsCommits(r, cooldown, ticket, at);
      CommitKeepsOwners(r, cooldown, ticket, at);
    case CancelAt(ticket, at) =>
      CancelKeepsPermits(r, cooldown, ticket, at);
      CancelKeepsCommits(r, cooldown, ticket, at);
      CancelKeepsOwners(r, cooldown, ticket, at);
  }

  lemma {:induction false} RunKeeps<K>(r: Run<K>, cooldown: Duration, events: seq<Event<K>>)
    requires 0 < cooldown && Inv(r, cooldown) && Clocked(r.now, events)
    ensures Inv(After(r, cooldown, events), cooldown)
    ensures After(r, cooldown, events).now == LastAt(r.now, events)
  {
    if events != [] {
      var init := events[..|events| - 1];
      RunKeeps(r, cooldown, init);
      StepKeeps(After(r, cooldown, init), cooldown, Last(events));
    }
  }

  // ---------------------------------------------------------------- main results

  /** The states a run from the empty table can reach. */
  ghost predicate Reachable<K(!new)>(r: Run<K>, cooldown: Duration) {
    exists events: seq<Event<K>> :: Clocked(0, events) && r == After(Start(), cooldown, events)
  }

  lemma ReachableInv<K(!new)>(r: Run<K>, cooldown: Duration)
    requires 0 < cooldown && Reachable(r, cooldown)
    ensures Inv(r, cooldown)
  {
    var events: seq<Event<K>> :| Clocked(0, events) && r == After(Start(), cooldown, events);
    RunKeeps(Start(), cooldown, events);
  }

  /** At most one live permit per key owns the stored stamp, and commits of one key keep their distance. */
  lemma PermitSafety<K(!new)>(r: Run<K>, cooldown: Duration)
    requires 0 < cooldown && Reachable(r, cooldown)
    ensures forall s, t :: s in r.live && t in r.live && s != t && r.live[s].key == r.live[t].key ==>
      !(Owns(r.stamps, r.live[s]) && Owns(r.stamps, r.live[t]))
    ensures CommitsApart(r, cooldown)
  {
    ReachableInv(r, cooldown);
  }

  /** The spacing of the two kinds of successful commits. */
  lemma CallbackSpacing(direct: Run<DirectKey>, server: Run<ServerKey>)
    requires Reachable(direct, DIRECT_COOLDOWN) && Reachable(server, SERVER_COOLDOWN)
    ensures CommitsApart(direct, 45 * SECOND) && CommitsApart(server, 20 * 60 * SECOND)
  {
    PermitSafety(direct, DIRECT_COOLDOWN);
    PermitSafety(server, SERVER_COOLDOWN);
  }

  /**
   * Exactly when a claim is refused, in terms of the run and not of the pruned
   * table: some permit of the key was claimed, or some commit of the key made,
   * less than a cooldown ago, and the permit has not been settled meanwhile.
   */
  lemma RefusedExactly<K(!new)>(r: Run<K>, cooldown: Duration, key: K, at: Instant)
    requires 0 < cooldown && Reachable(r, cooldown) && r.now <= at
    ensures Claimed(r.stamps, cooldown, key, at).1.None? <==>
      || (exists t :: t in r.live && r.live[t].key == key && at < r.live[t].claimedAt + cooldown)
      || (exists i :: 0 <= i < |r.commits| && r.commits[i].key == key && at < r.commits[i].at + cooldown)
  {
    ReachableInv(r, cooldown);
    if Claimed(r.stamps, cooldown, key, at).1.None? {
      assert Holder(r, key) || Settled(r, key);
    }
  }

  lemma StepStaysDisplaced<K>(r: Run<K>, cooldown: Duration, e: Event<K>, t: nat)
    requires 0 < cooldown && Stamped(r) && YoungOwns(r, cooldown) && r.now <= e.at
    requires t in r.live && !Owns(r.stamps, r.live[t])
    requires t in Step(r, cooldown, e).live
    ensures var r' := Step(r, cooldown, e); r'.live[t] == r.live[t] && !Owns(r'.stamps, r'.live[t])
  {
  }

  lemma {:induction false} StaysDisplaced<K>(r: Run<K>, cooldown: Duration, events: seq<Event<K>>, t: nat)
    requires 0 < cooldown && Inv(r, cooldown) && Clocked(r.now, events)
    requires t in r.live && !Owns(r.stamps, r.live[t])
    requires t in After(r, cooldown, events).live
    ensures var r' := After(r, cooldown, events); r'.live[t] == r.live[t] && !Owns(r'.stamps, r'.live[t])
  {
    if events != [] {
      var init := events[..|events| - 1];
      RunKeeps(r, cooldown, init);
      LiveBefore(r, cooldown, events, t);
      StaysDisplaced(r, cooldown, init, t);
      StepStaysDisplaced(After(r, cooldown, init), cooldown, Last(events), t);
    }
  }

  /** A permit that lost its stamp never owns one again, and its settlement changes nothing. */
  lemma DisplacedIsInert<K(!new)>(r: Run<K>, cooldown: Duration, events: seq<Event<K>>, t: nat, at: Instant)
    requires 0 < cooldown && Reachable(r, cooldown) && Clocked(r.now, events)
    requires t in r.live && !Owns(r.stamps, r.live[t])
    requires t in After(r, cooldown, events).live
    ensures var r' := After(r, cooldown, events);
      && !Owns(r'.stamps, r'.live[t])
      && Step(r', cooldown, CommitAt(t, at)) == r'.(now := at, live := r'.live - {t})
      && Step(r', cooldown, CancelAt(t, at)) == r'.(now := at, live := r'.live - {t})
  {
    ReachableInv(r, cooldown);
    StaysDisplaced(r, cooldown, events, t);
  }

  lemma LiveBefore<K>(r: Run<K>, cooldown: Duration, events: seq<Event<K>>, t: nat)
    requires t < r.issued && events != []
    requires t in After(r, cooldown, events).live
    ensures t in After(r, cooldown, events[..|events| - 1]).live
    ensures r.issued <= After(r, cooldown, events[..|events| - 1]).issued
  {
    IssuedGrows(r, cooldown, events[..|events| - 1]);
  }

  lemma {:induction false} IssuedGrows<K>(r: Run<K>, cooldown: Duration, events: seq<Event<K>>)
    ensures r.issued <= After(r, cooldown, events).issued
  {
    if events != [] {
      IssuedGrows(r, cooldown, events[..|events| - 1]);
    }
  }

  /** The instants at which `key` was committed, oldest first. */
  ghost function CommitTimes<K>(commits: seq<Commit<K>>, key: K): seq<Instant> {
    if commits == [] then [] else
      var rest := CommitTimes(commits[..|commits| - 1], key);
      var last := Last(commits);
      if last.key == key then rest + [last.at] else rest
  }

  lemma {:induction false} CommitTimesSpaced<K>(commits: seq<Commit<K>>, key: K, cooldown: Duration)
    requires forall i, j :: 0 <= i < j < |commits| && commits[i].key == commits[j].key ==>
      commits[i].at + cooldown <= commits[j].at
    ensures Spaced(CommitTimes(commits, key), cooldown)
    ensures CommitTimes(commits, key) != [] ==>
      Commit(key, Last(CommitTimes(commits, key))) in commits
  {
    if commits != [] {
      CommitTimesSpaced(commits[..|commits| - 1], key, cooldown);
    }
  }

  /** In any window there is one successful commit per cooldown, plus one. */
  lemma CommitRate<K(!new)>(r: Run<K>, cooldown: Duration, key: K, start: Instant, width: Duration)
    requires 0 < cooldown && Reachable(r, cooldown)
    ensures |Window(CommitTimes(r.commits, key), start, width)| <= width / cooldown + 1
  {
    ReachableInv(r, cooldown);
    CommitTimesSpaced(r.commits, key, cooldown);
    WindowRate(CommitTimes(r.commits, key), cooldown, start, width);
  }

  // ---------------------------------------------------------------- sends

  /**
   * A request is sent before its permit is committed, whether or not the commit then
   * succeeds: one send for every commit of a live permit.
   */
  ghost function Sends<K>(cooldown: Duration, events: seq<Event<K>>): seq<Commit<K>> {
    if events == [] then [] else
      var init, last := events[..|events| - 1], Last(events);
      var r := After(Start(), cooldown, init);
      Sends(cooldown, init) +
      if last.CommitAt? && last.ticket in r.live then [Commit(r.live[last.ticket].key, last.at)] else []
  }

  /** Every permit that is committed still owns its stamp. */
  ghost predicate AllOwned<K>(cooldown: Duration, events: seq<Event<K>>) {
    events == [] ||
    (var init, last := events[..|events| - 1], Last(events);
     var r := After(Start(), cooldown, init);
     && AllOwned(cooldown, init)
     && (last.CommitAt? && last.ticket in r.live ==> Owns(r.stamps, r.live[last.ticket])))
  }

  /** Every permit that is committed is committed less than a cooldown after its claim. */
  ghost predicate Prompt<K>(cooldown: Duration, events: seq<Event<K>>) {
    events == [] ||
    (var init, last := events[..|events| - 1], Last(events);
     var r := After(Start(), cooldown, init);
     && Prompt(cooldown, init)
     && (last.CommitAt? && last.ticket in r.live ==> last.at < r.live[last.ticket].claimedAt + cooldown))
  }

  /** The sends are the successful commits exactly when no permit had been displaced. */
  lemma {:induction false} SendsExactly<K>(cooldown: Duration, events: seq<Event<K>>)
    ensures |After(Start<K>(), cooldown, events).commits| <= |Sends(cooldown, events)|
    ensures Sends(cooldown, events) == After(Start(), cooldown, events).commits <==> AllOwned(cooldown, events)
  {
    if events != [] {
      var init := events[..|events| - 1];
      SendsExactly(cooldown, init);
      var before, sent := After(Start(), cooldown, init).commits, Sends(cooldown, init);
      assert forall c :: before + [c] == sent + [c] ==> (before + [c])[..|before|] == (sent + [c])[..|sent|];
    }
  }

  /** A settlement inside its own cooldown always finds its stamp. */
  lemma PromptOwns<K(!new)>(r: Run<K>, cooldown: Duration, t: nat, at: Instant)
    requires 0 < cooldown && Reachable(r, cooldown)
    requires t in r.live && r.now <= at < r.live[t].claimedAt + cooldown
    ensures Owns(r.stamps, r.live[t])
  {
    ReachableInv(r, cooldown);
  }

  lemma {:induction false} PromptIsOwned<K(!new)>(cooldown: Duration, events: seq<Event<K>>)
    requires 0 < cooldown && Clocked(0, events) && Prompt(cooldown, events)
    ensures AllOwned(cooldown, events)
  {
    if events != [] {
      var init, last := events[..|events| - 1], Last(events);
      PromptIsOwned(cooldown, init);
      RunKeeps(Start<K>(), cooldown, init);
    }
  }

  /** Requests that are settled promptly are sent a cooldown apart. */
  lemma PromptSendsApart<K(!new)>(cooldown: Duration, events: seq<Event<K>>)
    requires 0 < cooldown && Clocked(0, events) && Prompt(cooldown, events)
    ensures var sends := Sends(cooldown, events);
      forall i, j :: 0 <= i < j < |sends| && sends[i].key == sends[j].key ==> sends[i].at + cooldown <= sends[j].at
  {
    PromptIsOwned(cooldown, events);
    SendsExactly(cooldown, events);
    RunKeeps(Start<K>(), cooldown, events);
  }

  /** A request settled late: its permit was displaced meanwhile, and two sends lie four seconds apart. */
  ghost function LateRun<K>(key: K): seq<Event<K>> {
    [ClaimAt(key, 0), ClaimAt(key, 45 * SECOND), CommitAt(1, 46 * SECOND), CommitAt(0, 50 * SECOND)]
  }

  /** The four states of that run. */
  lemma LateSteps<K>(key: K)
    ensures var one := Run(0, map[key := 0], map[0 := Permit(key, 0)], 1, []);
      var two := Run(
        45 * SECOND, map[key := 45 * SECOND], map[0 := Permit(key, 0), 1 := Permit(key, 45 * SECOND)], 2, []);
      var three := Run(
        46 * SECOND, map[key := 46 * SECOND], map[0 := Permit(key, 0)], 2, [Commit(key, 46 * SECOND)]);
      var four := Run(50 * SECOND, map[key := 46 * SECOND], map[], 2, [Commit(key, 46 * SECOND)]);
      && Step(Start(), DIRECT_COOLDOWN, ClaimAt(key, 0)) == one
      && Step(one, DIRECT_COOLDOWN, ClaimAt(key, 45 * SECOND)) == two
      && Step(two, DIRECT_COOLDOWN, CommitAt(1, 46 * SECOND)) == three
      && Step(three, DIRECT_COOLDOWN, CommitAt(0, 50 * SECOND)) == four
  {
    assert YoungerThan<K>(map[], 0, DIRECT_COOLDOWN) == map[];
    assert YoungerThan(map[key := 0], 45 * SECOND, DIRECT_COOLDOWN) == map[];
    assert map[0 := Permit(key, 0), 1 := Permit(key, 45 * SECOND)] - {1} == map[0 := Permit(key, 0)];
    assert map[0 := Permit(key, 0)] - {0} == map[];
  }

  lemma OneMore<K>(cooldown: Duration, events: seq<Event<K>>, e: Event<K>)
    ensures var r := After(Start(), cooldown, events);
      && After(Start(), cooldown, events + [e]) == Step(r, cooldown, e)
      && Sends(cooldown, events + [e]) == Sends(cooldown, events) +
           if e.CommitAt? && e.ticket in r.live then [Commit(r.live[e.ticket].key, e.at)] else []
  {
    assert (events + [e])[..|events|] == events;
  }

  lemma TwoSendsOneCommit<K>(key: K)
    ensures Clocked(0, LateRun(key))
    ensures Sends(DIRECT_COOLDOWN, LateRun(key)) == [Commit(key, 46 * SECOND), Commit(key, 50 * SECOND)]
    ensures After(Start(), DIRECT_COOLDOWN, LateRun(key)).commits == [Commit(key, 46 * SECOND)]
  {
    var all := LateRun(key);
    var none, one, two, three := all[..0], all[..1], all[..2], all[..3];
    assert one == none + [all[0]] && two == one + [all[1]] && three == two + [all[2]] && all == three + [all[3]];
    LateClocked(key);
    LateSteps(key);
    OneMore(DIRECT_COOLDOWN, none, all[0]);
    OneMore(DIRECT_COOLDOWN, one, all[1]);
    OneMore(DIRECT_COOLDOWN, two, all[2]);
    OneMore(DIRECT_COOLDOWN, three, all[3]);
  }

  lemma LateClocked<K>(key: K)
    ensures Clocked(0, LateRun(key))
  {
    var all := LateRun(key);
    var none, one, two, three := all[..0], all[..1], all[..2], all[..3];
    assert one[..0] == none && two[..1] == one && three[..2] == two && all[..3] == three;
    assert Last(one) == all[0] && Last(two) == all[1] && Last(three) == all[2] && Last(all) == all[3];
    assert Clocked(0, one) && LastAt(0, one) == 0;
    assert Clocked(0, two) && LastAt(0, two) == 45 * SECOND;
    assert Clocked(0, three) && LastAt(0, three) == 46 * SECOND;
  }
}
