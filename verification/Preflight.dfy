/** The duplicate preflight of a list of download requests. */
module Preflight {
  import opened Common
  import opened Sources

  datatype Policy = Reject | Redownload

  datatype Kind = ActiveTransfer | PresentLocalFile | PreviouslyCompleted | IdentityMismatch | RequestDuplicate

  datatype Link = Link(hash: FileHash, name: string, size: nat)

  datatype Active = Active(name: string, size: nat, finalRehashPending: bool)
  datatype LocalFile = LocalFile(name: string, size: nat, path: string)
  datatype History = History(name: string, size: nat, firstAt: int, lastAt: int)
  datatype Evidence = Evidence(active: Option<Active>, local: seq<LocalFile>, history: Option<History>)

  datatype Conflict = Conflict(
    request: Link, kind: Kind, recordedName: string, recordedSize: nat,
    transferState: Option<string>, currentPaths: seq<string>, completedAt: Option<(int, int)>, redownloadAllowed: bool)

  function Bare(request: Link, kind: Kind, name: string, size: nat, allowed: bool): Conflict {
    Conflict(request, kind, name, size, None, [], None, allowed)
  }

  /** The first local file whose size differs. */
  function OddLocal(local: seq<LocalFile>, size: nat): Option<LocalFile> {
    if local == [] then None else if local[0].size != size then Some(local[0]) else OddLocal(local[1..], size)
  }

  function IdentityMismatchOf(request: Link, e: Evidence): Option<(string, nat)> {
    if e.active.Some? && e.active.value.size != request.size then Some((e.active.value.name, e.active.value.size))
    else
      match OddLocal(e.local, request.size)
      case Some(l) => Some((l.name, l.size))
      case None =>
        if e.history.Some? && e.history.value.size != request.size
        then Some((e.history.value.name, e.history.value.size))
        else None
  }

  function Paths(local: seq<LocalFile>): seq<string> {
    seq(|local|, i requires 0 <= i < |local| => local[i].path)
  }

  function ActiveConflicts(request: Link, e: Evidence): seq<Conflict> {
    if e.active.None? then [] else
      var a := e.active.value;
      [Bare(request, ActiveTransfer, a.name, a.size, false)
         .(transferState := Some(if a.finalRehashPending then "completing" else "downloading"))]
  }

  function LocalConflicts(request: Link, e: Evidence, policy: Policy): seq<Conflict> {
    if e.local == [] || policy == Redownload then [] else
      [Bare(request, PresentLocalFile, e.local[0].name, e.local[0].size, true).(currentPaths := Paths(e.local))]
  }

  function HistoryConflicts(request: Link, e: Evidence, policy: Policy): seq<Conflict> {
    if e.history.None? || policy == Redownload then [] else
      var h := e.history.value;
      [Bare(request, PreviouslyCompleted, h.name, h.size, true).(completedAt := Some((h.firstAt, h.lastAt)))]
  }

  predicate Overrideable(e: Evidence) {
    e.local != [] || e.history.Some?
  }

  // ---------------------------------------------------------------- the scan

  /** What the loop body concludes about one request. */
  datatype Verdict = Unreadable | Refused(item: Conflict) | Judged(items: seq<Conflict>, redownload: bool)

  function Judge(r: Link, earlier: Option<Link>, found: Option<Evidence>, policy: Policy): Verdict {
    if earlier.Some? then Refused(Bare(r, RequestDuplicate, earlier.value.name, earlier.value.size, false))
    else if found.None? then Unreadable
    else
      var e := found.value;
      var mismatch := IdentityMismatchOf(r, e);
      if mismatch.Some? then Refused(Bare(r, IdentityMismatch, mismatch.value.0, mismatch.value.1, false))
      else Judged(
        ActiveConflicts(r, e) + LocalConflicts(r, e, policy) + HistoryConflicts(r, e, policy),
        policy == Redownload && e.active.None? && Overrideable(e))
  }

  /** The requests seen so far by hash; a repeated hash keeps its latest request. */
  function SeenUpTo(requests: seq<Link>, k: nat): map<FileHash, Link>
    requires k <= |requests|
  {
    if k == 0 then map[] else SeenUpTo(requests, k - 1)[requests[k - 1].hash := requests[k - 1]]
  }

  function Get(seen: map<FileHash, Link>, hash: FileHash): Option<Link> {
    if hash in seen then Some(seen[hash]) else None
  }

  type Lookup = FileHash -> Option<Evidence>

  function Verdicts(requests: seq<Link>, lookup: Lookup, policy: Policy): nat -> Verdict {
    (k: nat) =>
      if k < |requests|
      then Judge(requests[k], Get(SeenUpTo(requests, k), requests[k].hash), lookup(requests[k].hash), policy)
      else Unreadable
  }

  function Items(v: Verdict): Option<seq<Conflict>> {
    match v
    case Unreadable => None
    case Refused(item) => Some([item])
    case Judged(items, _) => Some(items)
  }

  /** The conflicts of the first `k` verdicts, in order; nothing when one of them is unreadable. */
  function Gather(verdicts: nat -> Verdict, k: nat): Option<seq<Conflict>> {
    if k == 0 then Some([]) else Append(Gather(verdicts, k - 1), Items(verdicts(k - 1)))
  }

  function Append(before: Option<seq<Conflict>>, here: Option<seq<Conflict>>): Option<seq<Conflict>> {
    if before.None? || here.None? then None else Some(before.value + here.value)
  }

  /** The redownload flags stored by the first `k` verdicts. */
  function Flags(requests: seq<Link>, verdicts: nat -> Verdict, k: nat): map<FileHash, bool>
    requires k <= |requests|
  {
    if k == 0 then map[] else
      var before := Flags(requests, verdicts, k - 1);
      var v := verdicts(k - 1);
      if v.Judged? then before[requests[k - 1].hash := v.redownload] else before
  }

  /** All conflicts of a request list, in request order. */
  function AllConflicts(requests: seq<Link>, lookup: Lookup, policy: Policy): Option<seq<Conflict>> {
    Gather(Verdicts(requests, lookup, policy), |requests|)
  }

  function AllFlags(requests: seq<Link>, lookup: Lookup, policy: Policy): map<FileHash, bool> {
    Flags(requests, Verdicts(requests, lookup, policy), |requests|)
  }

  datatype Outcome = LookupFailed | Conflicts(items: seq<Conflict>) | Ready(redownload: map<FileHash, bool>)

  predicate ShouldRedownload(redownload: map<FileHash, bool>, hash: FileHash) {
    hash in redownload && redownload[hash]
  }

  method JudgeRequest(
    requests: seq<Link>, k: nat, first: Option<Link>, lookup: Lookup, policy: Policy) returns (v: Verdict)
    requires k < |requests| && first == Get(SeenUpTo(requests, k), requests[k].hash)
    ensures v == Verdicts(requests, lookup, policy)(k)
  {
    var r := requests[k];
    if first.Some? {
      return Refused(Bare(r, RequestDuplicate, first.value.name, first.value.size, false));
    }
    var found := lookup(r.hash);
    if found.None? {
      return Unreadable;
    }
    var e := found.value;
    var mismatch := IdentityMismatchOf(r, e);
    if mismatch.Some? {
      return Refused(Bare(r, IdentityMismatch, mismatch.value.0, mismatch.value.1, false));
    }
    var items := ActiveConflicts(r, e);
    items := items + LocalConflicts(r, e, policy);
    items := items + HistoryConflicts(r, e, policy);
    return Judged(items, policy == Redownload && e.active.None? && Overrideable(e));
  }

  method PreflightDownloads(requests: seq<Link>, lookup: Lookup, policy: Policy) returns (outcome: Outcome)
    ensures outcome == match AllConflicts(requests, lookup, policy)
      case None => LookupFailed
      case Some(items) => if items != [] then Conflicts(items) else Ready(AllFlags(requests, lookup, policy))
  {
    ghost var verdicts := Verdicts(requests, lookup, policy);
    var firstByHash: map<FileHash, Link> := map[];
    var conflicts: seq<Conflict> := [];
    var flags: map<FileHash, bool> := map[];
    for k := 0 to |requests|
      invariant firstByHash == SeenUpTo(requests, k)
      invariant Gather(verdicts, k) == Some(conflicts)
      invariant flags == Flags(requests, verdicts, k)
    {
      var request := requests[k];
      var first := Get(firstByHash, request.hash);
      firstByHash := firstByHash[request.hash := request];
      var v := JudgeRequest(requests, k, first, lookup, policy);
      match v {
        case Unreadable =>
          GatherFails(verdicts, k, |requests|);
          return LookupFailed;
        case Refused(item) =>
          conflicts := conflicts + [item];
        case Judged(items, redownload) =>
          conflicts := conflicts + items;
          flags := flags[request.hash := redownload];
      }
    }
    if conflicts == [] {
      outcome := Ready(flags);
    } else {
      outcome := Conflicts(conflicts);
    }
  }

  lemma {:induction false} GatherFails(verdicts: nat -> Verdict, k: nat, n: nat)
    requires k < n && verdicts(k).Unreadable?
    ensures Gather(verdicts, n).None?
  {
    if k < n - 1 {
      GatherFails(verdicts, k, n - 1);
    }
  }

  // ---------------------------------------------------------------- the two policies

  /** Keep what a redownload confirmation cannot override. */
  function Hard(items: seq<Conflict>): seq<Conflict> {
    if items == [] then []
    else if items[0].redownloadAllowed then Hard(items[1..])
    else [items[0]] + Hard(items[1..])
  }

  lemma {:induction false} HardConcat(a: seq<Conflict>, b: seq<Conflict>)
    ensures Hard(a + b) == Hard(a) + Hard(b)
  {
    if a == [] {
      assert a + b == b;
    } else {
      assert (a + b)[1..] == a[1..] + b;
      HardConcat(a[1..], b);
    }
  }

  function HardOnly(items: Option<seq<Conflict>>): Option<seq<Conflict>> {
    if items.None? then None else Some(Hard(items.value))
  }

  lemma HardAppend(a: Option<seq<Conflict>>, b: Option<seq<Conflict>>)
    ensures HardOnly(Append(a, b)) == Append(HardOnly(a), HardOnly(b))
  {
    if a.Some? && b.Some? {
      HardConcat(a.value, b.value);
    }
  }

  lemma HardOne(c: Conflict)
    ensures Hard([c]) == if c.redownloadAllowed then [] else [c]
  {
  }

  lemma EvidencePolicyAgrees(r: Link, e: Evidence)
    ensures Hard(ActiveConflicts(r, e) + LocalConflicts(r, e, Reject) + HistoryConflicts(r, e, Reject)) ==
      ActiveConflicts(r, e) + LocalConflicts(r, e, Redownload) + HistoryConflicts(r, e, Redownload)
  {
    var a, l, h := ActiveConflicts(r, e), LocalConflicts(r, e, Reject), HistoryConflicts(r, e, Reject);
    HardConcat(a + l, h);
    HardConcat(a, l);
    if a != [] {
      HardOne(a[0]);
    }
    if l != [] {
      HardOne(l[0]);
    }
    if h != [] {
      HardOne(h[0]);
    }
  }

  lemma OnePolicyAgrees(r: Link, earlier: Option<Link>, found: Option<Evidence>)
    ensures Items(Judge(r, earlier, found, Redownload)) == HardOnly(Items(Judge(r, earlier, found, Reject)))
  {
    var v := Judge(r, earlier, found, Reject);
    if v.Judged? {
      EvidencePolicyAgrees(r, found.value);
    } else if v.Refused? {
      HardOne(v.item);
    }
  }

  lemma {:induction false} GatherHard(strict: nat -> Verdict, lenient: nat -> Verdict, k: nat)
    requires forall i: nat :: i < k ==> Items(lenient(i)) == HardOnly(Items(strict(i)))
    ensures Gather(lenient, k) == HardOnly(Gather(strict, k))
  {
    if k > 0 {
      GatherHard(strict, lenient, k - 1);
      HardAppend(Gather(strict, k - 1), Items(strict(k - 1)));
    }
  }

  /** Under `Redownload` the conflicts are those `Reject` calls not overridable: all of them, in the same order. */
  lemma PoliciesAgree(requests: seq<Link>, lookup: Lookup)
    ensures AllConflicts(requests, lookup, Redownload) == HardOnly(AllConflicts(requests, lookup, Reject))
  {
    var strict, lenient := Verdicts(requests, lookup, Reject), Verdicts(requests, lookup, Redownload);
    forall i: nat | i < |requests| ensures Items(lenient(i)) == HardOnly(Items(strict(i))) {
      var r := requests[i];
      OnePolicyAgrees(r, Get(SeenUpTo(requests, i), r.hash), lookup(r.hash));
    }
    GatherHard(strict, lenient, |requests|);
  }

  lemma {:induction false} HardEmpty(items: seq<Conflict>)
    ensures Hard(items) == [] <==> forall i :: 0 <= i < |items| ==> items[i].redownloadAllowed
  {
    if items != [] {
      HardEmpty(items[1..]);
      assert items == [items[0]] + items[1..];
    }
  }

  /** The WebUI's retry: after a rejection, `Redownload` succeeds exactly when every conflict was marked overridable. */
  lemma RetrySucceeds(requests: seq<Link>, lookup: Lookup)
    requires AllConflicts(requests, lookup, Reject).Some?
    ensures AllConflicts(requests, lookup, Redownload) == Some([]) <==>
      var items := AllConflicts(requests, lookup, Reject).value;
      forall i :: 0 <= i < |items| ==> items[i].redownloadAllowed
  {
    PoliciesAgree(requests, lookup);
    HardEmpty(AllConflicts(requests, lookup, Reject).value);
  }

  // ---------------------------------------------------------------- what success means

  ghost predicate SizesMatch(r: Link, e: Evidence) {
    && (e.active.Some? ==> e.active.value.size == r.size)
    && (forall i :: 0 <= i < |e.local| ==> e.local[i].size == r.size)
    && (e.history.Some? ==> e.history.value.size == r.size)
  }

  /** A request that may proceed under the policy. */
  ghost predicate Clear(r: Link, lookup: Lookup, policy: Policy) {
    && lookup(r.hash).Some?
    && var e := lookup(r.hash).value;
       SizesMatch(r, e) && e.active.None? && (policy == Reject ==> !Overrideable(e))
  }

  ghost predicate Distinct(requests: seq<Link>) {
    forall i, j :: 0 <= i < j < |requests| ==> requests[i].hash != requests[j].hash
  }

  ghost predicate First(requests: seq<Link>, i: nat)
    requires i < |requests|
  {
    forall j :: 0 <= j < i ==> requests[j].hash != requests[i].hash
  }

  lemma {:induction false} OddLocalFinds(local: seq<LocalFile>, size: nat)
    ensures OddLocal(local, size).None? <==> forall i :: 0 <= i < |local| ==> local[i].size == size
  {
    if local != [] {
      OddLocalFinds(local[1..], size);
      assert local == [local[0]] + local[1..];
    }
  }

  lemma MismatchMeans(r: Link, e: Evidence)
    ensures IdentityMismatchOf(r, e).None? <==> SizesMatch(r, e)
  {
    OddLocalFinds(e.local, r.size);
  }

  lemma {:induction false} SeenMeans(requests: seq<Link>, k: nat, hash: FileHash)
    requires k <= |requests|
    ensures hash in SeenUpTo(requests, k) <==> exists j :: 0 <= j < k && requests[j].hash == hash
  {
    if k > 0 {
      SeenMeans(requests, k - 1, hash);
    }
  }

  lemma NoneOfThree(a: seq<Conflict>, b: seq<Conflict>, c: seq<Conflict>)
    ensures a + b + c == [] <==> a == [] && b == [] && c == []
  {
  }

  lemma CleanVerdict(r: Link, earlier: Option<Link>, lookup: Lookup, policy: Policy)
    ensures Items(Judge(r, earlier, lookup(r.hash), policy)) == Some([]) <==> earlier.None? && Clear(r, lookup, policy)
  {
    if lookup(r.hash).Some? {
      var e := lookup(r.hash).value;
      MismatchMeans(r, e);
      NoneOfThree(ActiveConflicts(r, e), LocalConflicts(r, e, policy), HistoryConflicts(r, e, policy));
    }
  }

  lemma {:induction false} GatherEmpty(verdicts: nat -> Verdict, k: nat)
    ensures Gather(verdicts, k) == Some([]) <==> forall i: nat :: i < k ==> Items(verdicts(i)) == Some([])
  {
    if k > 0 {
      GatherEmpty(verdicts, k - 1);
      var before, here := Gather(verdicts, k - 1), Items(verdicts(k - 1));
      if before.Some? && here.Some? {
        assert |before.value + here.value| == |before.value| + |here.value|;
      }
    }
  }

  /**
   * The preflight passes exactly when the hashes are distinct and every request,
   * on its own, has readable evidence of matching size, no active transfer and,
   * under `Reject`, no local or completed copy.
   */
  lemma PassesExactly(requests: seq<Link>, lookup: Lookup, policy: Policy)
    ensures AllConflicts(requests, lookup, policy) == Some([]) <==>
      Distinct(requests) && forall i :: 0 <= i < |requests| ==> Clear(requests[i], lookup, policy)
  {
    var verdicts := Verdicts(requests, lookup, policy);
    GatherEmpty(verdicts, |requests|);
    forall i: nat | i < |requests|
      ensures Items(verdicts(i)) == Some([]) <==> First(requests, i) && Clear(requests[i], lookup, policy)
    {
      CleanVerdict(requests[i], Get(SeenUpTo(requests, i), requests[i].hash), lookup, policy);
      SeenMeans(requests, i, requests[i].hash);
    }
    assert Distinct(requests) <==> forall i: nat :: i < |requests| ==> First(requests, i);
  }

  lemma {:induction false} FlagStored(requests: seq<Link>, verdicts: nat -> Verdict, i: nat, k: nat)
    requires i < k <= |requests| && Distinct(requests) && verdicts(i).Judged?
    ensures requests[i].hash in Flags(requests, verdicts, k)
    ensures Flags(requests, verdicts, k)[requests[i].hash] == verdicts(i).redownload
  {
    if i < k - 1 {
      FlagStored(requests, verdicts, i, k - 1);
    }
  }

  /** On success the redownload flag of a request says whether overridable evidence exists, under either policy. */
  lemma FlagMeansEvidence(requests: seq<Link>, lookup: Lookup, policy: Policy, i: nat)
    requires i < |requests|
    requires AllConflicts(requests, lookup, policy) == Some([])
    ensures lookup(requests[i].hash).Some?
    ensures ShouldRedownload(AllFlags(requests, lookup, policy), requests[i].hash) <==>
      Overrideable(lookup(requests[i].hash).value)
  {
    PassesExactly(requests, lookup, policy);
    var r := requests[i];
    SeenMeans(requests, i, r.hash);
    MismatchMeans(r, lookup(r.hash).value);
    FlagStored(requests, Verdicts(requests, lookup, policy), i, |requests|);
  }

  // ---------------------------------------------------------------- what is reported

  /** The latest earlier request with the hash of the i-th. */
  ghost predicate Precedes(requests: seq<Link>, j: nat, i: nat)
    requires j < i < |requests|
  {
    requests[j].hash == requests[i].hash && forall m :: j < m < i ==> requests[m].hash != requests[i].hash
  }

  /** The i-th request reported as a repetition of the j-th. */
  ghost function Against(requests: seq<Link>, j: nat, i: nat): Conflict
    requires j < i < |requests|
  {
    Bare(requests[i], RequestDuplicate, requests[j].name, requests[j].size, false)
  }

  ghost predicate FirstOdd(local: seq<LocalFile>, k: nat, size: nat) {
    k < |local| && local[k].size != size && forall j :: 0 <= j < k ==> local[j].size == size
  }

  /** The first size on record that contradicts the request: of the transfer, of a local file, of the history. */
  ghost predicate Contradicts(r: Link, e: Evidence, name: string, size: nat) {
    size != r.size &&
    if e.active.Some? && e.active.value.size != r.size then (name, size) == (e.active.value.name, e.active.value.size)
    else if exists k: nat :: FirstOdd(e.local, k, r.size) then
      exists k: nat :: FirstOdd(e.local, k, r.size) && (name, size) == (e.local[k].name, e.local[k].size)
    else e.history.Some? && (name, size) == (e.history.value.name, e.history.value.size)
  }

  ghost predicate ReportsActive(r: Link, e: Evidence, item: Conflict) {
    && e.active.Some?
    && var a := e.active.value;
       item == Conflict(r, ActiveTransfer, a.name, r.size,
                        Some(if a.finalRehashPending then "completing" else "downloading"), [], None, false)
  }

  ghost predicate ReportsLocal(r: Link, e: Evidence, item: Conflict) {
    && e.local != []
    && item == Conflict(r, PresentLocalFile, e.local[0].name, r.size, None, item.currentPaths, None, true)
    && |item.currentPaths| == |e.local|
    && forall i :: 0 <= i < |e.local| ==> item.currentPaths[i] == e.local[i].path
  }

  ghost predicate ReportsHistory(r: Link, e: Evidence, item: Conflict) {
    && e.history.Some?
    && var h := e.history.value;
       item == Conflict(r, PreviouslyCompleted, h.name, r.size, None, [], Some((h.firstAt, h.lastAt)), true)
  }

  /** What the evidence of a request that is no repetition calls for. */
  ghost predicate CalledFor(r: Link, e: Evidence, policy: Policy, item: Conflict) {
    if !SizesMatch(r, e) then
      Contradicts(r, e, item.recordedName, item.recordedSize)
      && item == Bare(r, IdentityMismatch, item.recordedName, item.recordedSize, false)
    else
      || ReportsActive(r, e, item)
      || (policy == Reject && (ReportsLocal(r, e, item) || ReportsHistory(r, e, item)))
  }

  /** The conflicts that are due for the i-th request. */
  ghost predicate Warranted(requests: seq<Link>, i: nat, lookup: Lookup, policy: Policy, item: Conflict)
    requires i < |requests|
  {
    if First(requests, i) then
      lookup(requests[i].hash).Some? && CalledFor(requests[i], lookup(requests[i].hash).value, policy, item)
    else
      exists j: nat :: j < i && Precedes(requests, j, i) && item == Against(requests, j, i)
  }

  lemma {:induction false} OddLocalIsFirst(local: seq<LocalFile>, size: nat)
    requires OddLocal(local, size).Some?
    ensures exists k: nat :: FirstOdd(local, k, size) && local[k] == OddLocal(local, size).value
  {
    if local[0].size == size {
      OddLocalIsFirst(local[1..], size);
      var k: nat :| FirstOdd(local[1..], k, size) && local[1..][k] == OddLocal(local[1..], size).value;
      assert FirstOdd(local, k + 1, size);
    } else {
      assert FirstOdd(local, 0, size);
    }
  }

  /** The mismatch found is the first contradiction on record, and the only one reported. */
  lemma MismatchContradicts(r: Link, e: Evidence, name: string, size: nat)
    requires IdentityMismatchOf(r, e).Some?
    ensures Contradicts(r, e, name, size) <==> IdentityMismatchOf(r, e).value == (name, size)
  {
    OddLocalFinds(e.local, r.size);
    if OddLocal(e.local, r.size).Some? {
      OddLocalIsFirst(e.local, r.size);
      var k: nat :| FirstOdd(e.local, k, r.size) && e.local[k] == OddLocal(e.local, r.size).value;
      assert forall m: nat :: FirstOdd(e.local, m, r.size) ==> m == k;
    }
  }

  lemma {:induction false} SeenIsLatest(requests: seq<Link>, k: nat, i: nat)
    requires k <= i < |requests| && requests[i].hash in SeenUpTo(requests, k)
    requires forall m :: k <= m < i ==> requests[m].hash != requests[i].hash
    ensures exists j: nat :: j < i && Precedes(requests, j, i) && SeenUpTo(requests, k)[requests[i].hash] == requests[j]
  {
    if requests[k - 1].hash == requests[i].hash {
      assert Precedes(requests, k - 1, i);
    } else {
      SeenIsLatest(requests, k - 1, i);
    }
  }

  lemma PrecedesOnce(requests: seq<Link>, j: nat, k: nat, i: nat)
    requires j < i < |requests| && k < i && Precedes(requests, j, i) && Precedes(requests, k, i)
    ensures j == k
  {
  }

  /** A repetition is reported, once, against the latest earlier request of its hash. */
  lemma RepetitionVerdict(requests: seq<Link>, j: nat, i: nat, lookup: Lookup, policy: Policy)
    requires j < i < |requests| && Precedes(requests, j, i)
    ensures Verdicts(requests, lookup, policy)(i) == Refused(Against(requests, j, i))
  {
    SeenMeans(requests, i, requests[i].hash);
    SeenIsLatest(requests, i, i);
    var k: nat :| k < i && Precedes(requests, k, i) && SeenUpTo(requests, i)[requests[i].hash] == requests[k];
    PrecedesOnce(requests, j, k, i);
  }

  lemma EvidenceVerdict(r: Link, e: Evidence, policy: Policy, item: Conflict)
    ensures item in Items(Judge(r, None, Some(e), policy)).value <==> CalledFor(r, e, policy, item)
  {
    if ReportsLocal(r, e, item) {
      assert item.currentPaths == Paths(e.local);
    }
    MismatchMeans(r, e);
    if IdentityMismatchOf(r, e).Some? {
      MismatchContradicts(r, e, item.recordedName, item.recordedSize);
    }
  }

  /** The i-th verdict holds exactly the conflicts that are due. */
  lemma VerdictExact(requests: seq<Link>, i: nat, lookup: Lookup, policy: Policy, item: Conflict)
    requires i < |requests|
    requires Items(Verdicts(requests, lookup, policy)(i)).Some?
    ensures item in Items(Verdicts(requests, lookup, policy)(i)).value <==> Warranted(requests, i, lookup, policy, item)
  {
    var r := requests[i];
    SeenMeans(requests, i, r.hash);
    assert Verdicts(requests, lookup, policy)(i) ==
      Judge(r, Get(SeenUpTo(requests, i), r.hash), lookup(r.hash), policy);
    if First(requests, i) {
      EvidenceVerdict(r, lookup(r.hash).value, policy, item);
    } else {
      SeenIsLatest(requests, i, i);
      var j: nat :| j < i && Precedes(requests, j, i);
      RepetitionVerdict(requests, j, i, lookup, policy);
      forall k: nat | k < i && Precedes(requests, k, i) ensures k == j {
        PrecedesOnce(requests, j, k, i);
      }
    }
  }

  lemma {:induction false} GatherReads(verdicts: nat -> Verdict, k: nat, i: nat)
    requires i < k && Gather(verdicts, k).Some?
    ensures Items(verdicts(i)).Some?
  {
    if i < k - 1 {
      GatherReads(verdicts, k - 1, i);
    }
  }

  lemma {:induction false} GatherFrom(verdicts: nat -> Verdict, k: nat, item: Conflict)
    requires Gather(verdicts, k).Some? && item in Gather(verdicts, k).value
    ensures exists i: nat :: i < k && Items(verdicts(i)).Some? && item in Items(verdicts(i)).value
  {
    if item !in Items(verdicts(k - 1)).value {
      GatherFrom(verdicts, k - 1, item);
    }
  }

  lemma {:induction false} GatherHas(verdicts: nat -> Verdict, k: nat, i: nat, item: Conflict)
    requires i < k && Gather(verdicts, k).Some?
    requires Items(verdicts(i)).Some? && item in Items(verdicts(i)).value
    ensures item in Gather(verdicts, k).value
  {
    if i < k - 1 {
      GatherHas(verdicts, k - 1, i, item);
    }
  }

  /** On a readable list exactly the conflicts that some request warrants are reported, under either policy. */
  lemma ConflictsExact(requests: seq<Link>, lookup: Lookup, policy: Policy, item: Conflict)
    requires AllConflicts(requests, lookup, policy).Some?
    ensures item in AllConflicts(requests, lookup, policy).value <==>
      exists i: nat :: i < |requests| && Warranted(requests, i, lookup, policy, item)
  {
    var verdicts := Verdicts(requests, lookup, policy);
    if item in AllConflicts(requests, lookup, policy).value {
      GatherFrom(verdicts, |requests|, item);
      var i: nat :| i < |requests| && Items(verdicts(i)).Some? && item in Items(verdicts(i)).value;
      VerdictExact(requests, i, lookup, policy, item);
    }
    if i: nat :| i < |requests| && Warranted(requests, i, lookup, policy, item) {
      GatherReads(verdicts, |requests|, i);
      VerdictExact(requests, i, lookup, policy, item);
      GatherHas(verdicts, |requests|, i, item);
    }
  }

  // ---------------------------------------------------------------- repetitions

  lemma {:induction false} SeenPrefix(requests: seq<Link>, n: nat, k: nat)
    requires k <= n <= |requests|
    ensures SeenUpTo(requests[..n], k) == SeenUpTo(requests, k)
  {
    if k > 0 {
      SeenPrefix(requests, n, k - 1);
    }
  }

  lemma {:induction false} GatherSame(a: nat -> Verdict, b: nat -> Verdict, k: nat)
    requires forall i: nat :: i < k ==> a(i) == b(i)
    ensures Gather(a, k) == Gather(b, k)
  {
    if k > 0 {
      GatherSame(a, b, k - 1);
    }
  }

  /** What the first requests are reported does not depend on those behind them. */
  lemma PrefixConflicts(requests: seq<Link>, n: nat, lookup: Lookup, policy: Policy)
    requires n <= |requests|
    ensures AllConflicts(requests[..n], lookup, policy) == Gather(Verdicts(requests, lookup, policy), n)
  {
    var part, whole := Verdicts(requests[..n], lookup, policy), Verdicts(requests, lookup, policy);
    forall i: nat | i < n ensures part(i) == whole(i) {
      SeenPrefix(requests, n, i);
    }
    GatherSame(part, whole, n);
  }

  lemma GatherRefused(verdicts: nat -> Verdict, k: nat, item: Conflict)
    requires verdicts(k) == Refused(item)
    ensures Gather(verdicts, k + 1) == Append(Gather(verdicts, k), Some([item]))
  {
  }

  /** Behind the conflicts of the first `i` requests, the next report is the single conflict `item`. */
  ghost predicate NextReport(requests: seq<Link>, i: nat, lookup: Lookup, policy: Policy, item: Conflict)
    requires i < |requests|
  {
    AllConflicts(requests[..i + 1], lookup, policy) == Append(AllConflicts(requests[..i], lookup, policy), Some([item]))
  }

  ghost predicate SameRecord(a: Link, b: Link) {
    a.name == b.name && a.size == b.size
  }

  /** The order in which the conflicts of one request are reported. */
  ghost function Rank(kind: Kind): nat {
    match kind
    case ActiveTransfer => 1
    case PresentLocalFile => 2
    case PreviouslyCompleted => 3
    case IdentityMismatch => 4
    case RequestDuplicate => 5
  }

  /** The conflicts of one request: none of a kind twice, the active transfer first, the completed copy last. */
  ghost predicate InOrder(report: seq<Conflict>, r: Link) {
    && (forall x :: 0 <= x < |report| ==> report[x].request == r)
    && forall x, y :: 0 <= x < y < |report| ==> Rank(report[x].kind) < Rank(report[y].kind)
  }

  lemma EvidenceInOrder(r: Link, e: Evidence, policy: Policy)
    ensures InOrder(ActiveConflicts(r, e) + LocalConflicts(r, e, policy) + HistoryConflicts(r, e, policy), r)
  {
    var a, l, h := ActiveConflicts(r, e), LocalConflicts(r, e, policy), HistoryConflicts(r, e, policy);
    assert |a| <= 1 && |l| <= 1 && |h| <= 1;
    assert forall x :: 0 <= x < |a + l + h| ==> (a + l + h)[x] in a || (a + l + h)[x] in l || (a + l + h)[x] in h;
  }

  lemma VerdictInOrder(r: Link, earlier: Option<Link>, found: Option<Evidence>, policy: Policy)
    requires Items(Judge(r, earlier, found, policy)).Some?
    ensures InOrder(Items(Judge(r, earlier, found, policy)).value, r)
  {
    if Judge(r, earlier, found, policy).Judged? {
      EvidenceInOrder(r, found.value, policy);
    }
  }

  /** Requests are reported one after the other: each adds its own conflicts behind those of the earlier ones. */
  lemma ReportedInOrder(requests: seq<Link>, i: nat, lookup: Lookup, policy: Policy) returns (report: seq<Conflict>)
    requires i < |requests| && AllConflicts(requests[..i + 1], lookup, policy).Some?
    ensures AllConflicts(requests[..i], lookup, policy).Some?
    ensures AllConflicts(requests[..i + 1], lookup, policy).value ==
      AllConflicts(requests[..i], lookup, policy).value + report
    ensures InOrder(report, requests[i])
  {
    PrefixConflicts(requests, i, lookup, policy);
    PrefixConflicts(requests, i + 1, lookup, policy);
    var r := requests[i];
    var earlier := Get(SeenUpTo(requests, i), r.hash);
    var verdicts := Verdicts(requests, lookup, policy);
    assert verdicts(i) == Judge(r, earlier, lookup(r.hash), policy);
    GatherNext(verdicts, i);
    report := Items(verdicts(i)).value;
    VerdictInOrder(r, earlier, lookup(r.hash), policy);
  }

  lemma GatherNext(verdicts: nat -> Verdict, k: nat)
    requires Gather(verdicts, k + 1).Some?
    ensures Gather(verdicts, k).Some? && Items(verdicts(k)).Some?
    ensures Gather(verdicts, k + 1).value == Gather(verdicts, k).value + Items(verdicts(k)).value
  {
  }

  /** A repetition is always reported, against the latest earlier request of its hash. */
  lemma RepetitionReported(requests: seq<Link>, j: nat, i: nat, lookup: Lookup, policy: Policy)
    requires j < i < |requests| && Precedes(requests, j, i)
    ensures NextReport(requests, i, lookup, policy, Against(requests, j, i))
  {
    PrefixConflicts(requests, i, lookup, policy);
    PrefixConflicts(requests, i + 1, lookup, policy);
    RepetitionVerdict(requests, j, i, lookup, policy);
    GatherRefused(Verdicts(requests, lookup, policy), i, Against(requests, j, i));
  }

  /**
   * A repetition is reported against the first request of its hash exactly when no
   * other request of the hash lies between them, or the last of those carries the
   * name and size of the first.
   */
  lemma FirstReportedExactly(requests: seq<Link>, f: nat, j: nat, i: nat, lookup: Lookup, policy: Policy)
    requires f < i < |requests| && First(requests, f) && requests[f].hash == requests[i].hash
    requires j < i && Precedes(requests, j, i)
    requires AllConflicts(requests[..i], lookup, policy).Some?
    ensures NextReport(requests, i, lookup, policy, Against(requests, f, i)) <==>
      j == f || SameRecord(requests[j], requests[f])
  {
    RepetitionReported(requests, j, i, lookup, policy);
    var before := AllConflicts(requests[..i], lookup, policy).value;
    var told, wanted := Against(requests, j, i), Against(requests, f, i);
    assert Last(before + [told]) == told && Last(before + [wanted]) == wanted;
  }

  /** Three requests of one file: the third is reported against the second, not against the first. */
  lemma ThirdAgainstSecond(a: Link, b: Link, c: Link, lookup: Lookup, policy: Policy)
    requires a.hash == b.hash == c.hash && lookup(a.hash).Some? && !SameRecord(a, b)
    ensures AllConflicts([a, b, c], lookup, policy).Some? && AllConflicts([a, b, c], lookup, policy).value != []
    ensures var last := Last(AllConflicts([a, b, c], lookup, policy).value);
      && last == Bare(c, RequestDuplicate, b.name, b.size, false)
      && last != Bare(c, RequestDuplicate, a.name, a.size, false)
  {
    var requests := [a, b, c];
    RepetitionReported(requests, 1, 2, lookup, policy);
    RepetitionReported(requests, 0, 1, lookup, policy);
    assert requests[..3] == requests && requests[..2] == [a, b] && requests[..1] == [a];
    PrefixConflicts(requests, 1, lookup, policy);
    assert Gather(Verdicts(requests, lookup, policy), 1) ==
      Append(Gather(Verdicts(requests, lookup, policy), 0), Items(Verdicts(requests, lookup, policy)(0)));
  }
}
