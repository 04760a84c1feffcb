/**
 * The direct-download driver: a bounded pool of peer workers fed from a queue of
 * sources, with a global connection budget, report classification and, for
 * loopback sources only, retry rounds until a deadline.
 */
module DirectDownloads {
  import opened Common
  import opened Sources

  const U32_MAX: nat := 0xFFFF_FFFF
  const RETRY_WINDOW: Duration := 360 * SECOND

  datatype Outcome = Completed | AcceptedButIncomplete | QueuedDetachedForUdpReask | NoNeededParts | FileNotFound
  datatype FileResult = FileResult(fileHash: FileHash, outcome: Outcome)
  datatype Report = Report(terminalError: Option<string>, files: seq<FileResult>)

  /** How a worker ends: with a report, with an error, or by panicking. */
  datatype WorkerEnd = Reported(report: Report) | Errored(message: string, retryable: bool) | Panicked

  datatype Alternate = Alternate(fileHash: FileHash, source: FoundSource, outcome: Outcome)

  /**
   * What the surroundings decide: the k-th admission, which worker ends k-th, how
   * the k-th worker ends, and the answers of the k-th manifest lookup and clock
   * reading. Nothing is assumed about them.
   */
  datatype Env = Env(
    admit: nat -> bool,
    pick: nat -> nat,
    finish: nat -> WorkerEnd,
    manifestCompleted: nat -> Option<bool>,
    clock: nat -> Instant)

  // ---------------------------------------------------------------- classification

  /** One file result together with the source whose connection produced it. */
  datatype Landing = Landing(source: FoundSource, result: FileResult)

  /** The lists kept across rounds. */
  datatype Ledger = Ledger(
    detached: seq<Endpoint>, noNeededParts: seq<FoundSource>, fileNotFound: seq<FoundSource>,
    alternates: seq<Alternate>)

  const EMPTY := Ledger([], [], [], [])

  function Relabel(l: Landing): FoundSource {
    l.source.(fileHash := l.result.fileHash)
  }

  predicate Primary(primary: FileHash, l: Landing) {
    l.result.fileHash == primary
  }

  /** The body of the report loop for one file result, apart from the manifest lookup. */
  function Land(ledger: Ledger, primary: FileHash, l: Landing): Ledger {
    var own := Primary(primary, l);
    var noted := if own then ledger else
      ledger.(alternates := ledger.alternates + [Alternate(l.result.fileHash, Relabel(l), l.result.outcome)]);
    match l.result.outcome
    case Completed => noted
    case AcceptedButIncomplete => noted
    case QueuedDetachedForUdpReask => noted.(detached := noted.detached + [EndpointOf(l.source)])
    case NoNeededParts => if own then noted.(noNeededParts := noted.noNeededParts + [Relabel(l)]) else noted
    case FileNotFound => if own then noted.(fileNotFound := noted.fileNotFound + [Relabel(l)]) else noted
  }

  function CountAccepted(accepted: nat, primary: FileHash, l: Landing): nat {
    if Primary(primary, l) && (l.result.outcome.AcceptedButIncomplete? || l.result.outcome.QueuedDetachedForUdpReask?)
       && accepted < U32_MAX
    then accepted + 1 else accepted
  }

  // Which list calls for which result, list by list.

  function ForDetached(): Landing -> Option<Endpoint> {
    (l: Landing) =>
      if l.result.outcome.QueuedDetachedForUdpReask? then Some((l.source.ip, l.source.tcpPort)) else None
  }

  function ForNoNeededParts(primary: FileHash): Landing -> Option<FoundSource> {
    (l: Landing) =>
      if l.result == FileResult(primary, NoNeededParts) then Some(l.source.(fileHash := primary)) else None
  }

  function ForFileNotFound(primary: FileHash): Landing -> Option<FoundSource> {
    (l: Landing) =>
      if l.result == FileResult(primary, FileNotFound) then Some(l.source.(fileHash := primary)) else None
  }

  function ForAlternates(primary: FileHash): Landing -> Option<Alternate> {
    (l: Landing) =>
      if l.result.fileHash == primary then None
      else Some(Alternate(l.result.fileHash, l.source.(fileHash := l.result.fileHash), l.result.outcome))
  }

  function ForAccepted(primary: FileHash): Landing -> Option<FoundSource> {
    (l: Landing) =>
      if l.result in {FileResult(primary, AcceptedButIncomplete), FileResult(primary, QueuedDetachedForUdpReask)}
      then Some(l.source) else None
  }

  function ForCompleted(primary: FileHash): Landing -> Option<FoundSource> {
    (l: Landing) => if l.result == FileResult(primary, Completed) then Some(l.source) else None
  }

  /** The entries a list calls for, in order of arrival. */
  function Collect<T>(ls: seq<Landing>, wants: Landing -> Option<T>): seq<T> {
    if ls == [] then [] else
      var before := Collect(ls[..|ls| - 1], wants);
      match wants(Last(ls))
      case Some(x) => before + [x]
      case None => before
  }

  function LedgerOf(ls: seq<Landing>, primary: FileHash): Ledger {
    Ledger(
      Collect(ls, ForDetached()), Collect(ls, ForNoNeededParts(primary)),
      Collect(ls, ForFileNotFound(primary)), Collect(ls, ForAlternates(primary)))
  }

  function AcceptedOf(ls: seq<Landing>, primary: FileHash): nat {
    var n := |Collect(ls, ForAccepted(primary))|;
    if n <= U32_MAX then n else U32_MAX
  }

  /** Processing one more result adds it to exactly the lists that call for it. */
  lemma LandAdds(ls: seq<Landing>, primary: FileHash, l: Landing)
    ensures Land(LedgerOf(ls, primary), primary, l) == LedgerOf(ls + [l], primary)
    ensures CountAccepted(AcceptedOf(ls, primary), primary, l) == AcceptedOf(ls + [l], primary)
  {
  }

  function One<T>(wanted: Option<T>): nat {
    if wanted.Some? then 1 else 0
  }

  /** The number of places that call for the result. */
  function Calls(primary: FileHash, l: Landing): nat {
    One(ForAlternates(primary)(l)) + One(ForNoNeededParts(primary)(l)) + One(ForFileNotFound(primary)(l))
    + One(ForAccepted(primary)(l)) + One(ForCompleted(primary)(l))
  }

  lemma OneCall(primary: FileHash, l: Landing)
    ensures Calls(primary, l) == 1
  {
    match l.result.outcome
    case Completed =>
    case AcceptedButIncomplete =>
    case QueuedDetachedForUdpReask =>
    case NoNeededParts =>
    case FileNotFound =>
  }

  /** A result that a list calls for stands in it once, at the place its arrival gives it. */
  lemma {:induction false} LandsInOrder<T>(ls: seq<Landing>, wants: Landing -> Option<T>, i: nat)
    requires i < |ls| && wants(ls[i]).Some?
    ensures var k := |Collect(ls[..i], wants)|;
      && Collect(ls[..i + 1], wants) == Collect(ls[..i], wants) + [wants(ls[i]).value]
      && k < |Collect(ls, wants)| && Collect(ls, wants)[k] == wants(ls[i]).value
  {
    assert ls[..i + 1][..i] == ls[..i];
    if i + 1 < |ls| {
      var init := ls[..|ls| - 1];
      LandsInOrder(init, wants, i);
      assert init[..i] == ls[..i];
    } else {
      assert ls[..i + 1] == ls;
    }
  }

  /**
   * Every result is accounted for once: exactly one place calls for it, as an
   * alternate or by its outcome, and the places together hold as many entries as
   * there were results.
   */
  lemma {:induction false} EachResultOnce(ls: seq<Landing>, primary: FileHash)
    ensures forall i :: 0 <= i < |ls| ==> Calls(primary, ls[i]) == 1
    ensures |ls| ==
      |Collect(ls, ForAlternates(primary))| + |Collect(ls, ForNoNeededParts(primary))|
      + |Collect(ls, ForFileNotFound(primary))|
      + |Collect(ls, ForAccepted(primary))| + |Collect(ls, ForCompleted(primary))|
  {
    if ls != [] {
      var init, l := ls[..|ls| - 1], Last(ls);
      EachResultOnce(init, primary);
      OneCall(primary, l);
    }
  }

  // ---------------------------------------------------------------- reports

  function Landings(source: FoundSource, files: seq<FileResult>): seq<Landing> {
    seq(|files|, i requires 0 <= i < |files| => Landing(source, files[i]))
  }

  function IsPrimaryCompletion(primary: FileHash, r: FileResult): bool {
    r.fileHash == primary && r.outcome.Completed?
  }

  /** How many manifest lookups the first `n` results cause. */
  function Lookups(primary: FileHash, files: seq<FileResult>, n: nat): nat
    requires n <= |files|
  {
    if n == 0 then 0 else Lookups(primary, files, n - 1) + if IsPrimaryCompletion(primary, files[n - 1]) then 1 else 0
  }

  /** The cross-round lists and this round's count of accepted-but-incomplete peers. */
  datatype Tally = Tally(ledger: Ledger, accepted: nat)

  function TallyFiles(t: Tally, primary: FileHash, source: FoundSource, files: seq<FileResult>, n: nat): Tally
    requires n <= |files|
  {
    if n == 0 then t else
      var before := TallyFiles(t, primary, source, files, n - 1);
      var l := Landing(source, files[n - 1]);
      Tally(Land(before.ledger, primary, l), CountAccepted(before.accepted, primary, l))
  }

  /**
   * Every result of the report is classified, also behind the one that completes
   * the primary file; only an unreadable manifest stops in the middle.
   */
  method ProcessReport(
    env: Env, primary: FileHash, source: FoundSource, files: seq<FileResult>, tally: Tally, lookups: nat)
    returns (tally': Tally, lookups': nat, done: bool, failed: bool)
    ensures failed <==>
      exists k :: lookups <= k < lookups + Lookups(primary, files, |files|) && env.manifestCompleted(k).None?
    ensures !failed ==>
      && tally' == TallyFiles(tally, primary, source, files, |files|)
      && lookups' == lookups + Lookups(primary, files, |files|)
      && (done <==> exists k :: lookups <= k < lookups' && env.manifestCompleted(k) == Some(true))
  {
    tally', lookups', done, failed := tally, lookups, false, false;
    for n := 0 to |files|
      invariant tally' == TallyFiles(tally, primary, source, files, n)
      invariant lookups' == lookups + Lookups(primary, files, n)
      invariant forall k :: lookups <= k < lookups' ==> env.manifestCompleted(k).Some?
      invariant done <==> exists k :: lookups <= k < lookups' && env.manifestCompleted(k) == Some(true)
    {
      var l := Landing(source, files[n]);
      if IsPrimaryCompletion(primary, files[n]) {
        var completed := env.manifestCompleted(lookups');
        LookupsGrow(primary, files, n + 1, |files|);
        if completed.None? {
          failed := true;
          return;
        }
        lookups' := lookups' + 1;
        if completed.value {
          done := true;
        }
      }
      tally' := Tally(Land(tally'.ledger, primary, l), CountAccepted(tally'.accepted, primary, l));
    }
  }

  lemma {:induction false} LookupsGrow(primary: FileHash, files: seq<FileResult>, n: nat, m: nat)
    requires n <= m <= |files|
    ensures Lookups(primary, files, n) <= Lookups(primary, files, m)
  {
    if n < m {
      LookupsGrow(primary, files, n, m - 1);
    }
  }

  // ---------------------------------------------------------------- joins

  /** A joined worker: its number in the round, the source it served and how it ended. */
  datatype Join = Join(worker: nat, source: FoundSource, end: WorkerEnd)

  function TallyJoin(t: Tally, primary: FileHash, j: Join): Tally {
    if j.end.Reported? then TallyFiles(t, primary, j.source, j.end.report.files, |j.end.report.files|) else t
  }

  function TallyLog(t: Tally, primary: FileHash, log: seq<Join>): Tally {
    if log == [] then t else TallyJoin(TallyLog(t, primary, log[..|log| - 1]), primary, Last(log))
  }

  function LandingsOf(log: seq<Join>): seq<Landing> {
    if log == [] then [] else
      var before := LandingsOf(log[..|log| - 1]);
      var j := Last(log);
      if j.end.Reported? then before + Landings(j.source, j.end.report.files) else before
  }

  /** The most recent error of the run: a report's terminal error or a worker's own. */
  function LastErrorOf(earlier: Option<string>, log: seq<Join>): Option<string> {
    if log == [] then earlier else ErrorAfter(LastErrorOf(earlier, log[..|log| - 1]), Last(log))
  }

  function ErrorAfter(earlier: Option<string>, j: Join): Option<string> {
    match j.end
    case Reported(r) => if r.terminalError.Some? then r.terminalError else earlier
    case Errored(message, _) => Some(message)
    case Panicked => earlier
  }

  ghost predicate RetryableSeen(log: seq<Join>) {
    exists i :: 0 <= i < |log| && log[i].end.Errored? && log[i].end.retryable
  }

  /** How many manifest lookups the reports of a log cause. */
  function LookupsIn(primary: FileHash, log: seq<Join>): nat {
    if log == [] then 0 else LookupsIn(primary, log[..|log| - 1]) + LookupsOf(primary, Last(log))
  }

  function LookupsOf(primary: FileHash, j: Join): nat {
    if j.end.Reported? then Lookups(primary, j.end.report.files, |j.end.report.files|) else 0
  }

  lemma TallyLogOne(t: Tally, primary: FileHash, log: seq<Join>, j: Join)
    ensures TallyLog(t, primary, log + [j]) == TallyJoin(TallyLog(t, primary, log), primary, j)
  {
    assert (log + [j])[..|log|] == log;
  }

  lemma LastErrorOne(earlier: Option<string>, log: seq<Join>, j: Join)
    ensures LastErrorOf(earlier, log + [j]) == ErrorAfter(LastErrorOf(earlier, log), j)
  {
    assert (log + [j])[..|log|] == log;
  }

  lemma RetryableOne(log: seq<Join>, j: Join)
    ensures RetryableSeen(log + [j]) <==> RetryableSeen(log) || (j.end.Errored? && j.end.retryable)
  {
    var longer := log + [j];
    if RetryableSeen(log) {
      var i :| 0 <= i < |log| && log[i].end.Errored? && log[i].end.retryable;
      assert longer[i] == log[i];
    }
    assert longer[|log|] == j;
  }

  lemma LookupsOne(primary: FileHash, log: seq<Join>, j: Join)
    ensures LookupsIn(primary, log + [j]) == LookupsIn(primary, log) + LookupsOf(primary, j)
  {
    assert (log + [j])[..|log|] == log;
  }

  lemma {:induction false} LogsConcat(a: seq<Join>, b: seq<Join>, earlier: Option<string>)
    ensures LandingsOf(a + b) == LandingsOf(a) + LandingsOf(b)
    ensures LastErrorOf(earlier, a + b) == LastErrorOf(LastErrorOf(earlier, a), b)
  {
    if b == [] {
      assert a + b == a;
    } else {
      var init := b[..|b| - 1];
      assert (a + b)[..|a + b| - 1] == a + init;
      LogsConcat(a, init, earlier);
      if Last(b).end.Reported? {
        var files := Landings(Last(b).source, Last(b).end.report.files);
        assert LandingsOf(a) + LandingsOf(init) + files == LandingsOf(a) + (LandingsOf(init) + files);
      }
    }
  }

  /** One manifest lookup for each result that says the primary file is complete. */
  lemma {:induction false} LookupsMean(primary: FileHash, source: FoundSource, files: seq<FileResult>, n: nat)
    requires n <= |files|
    ensures Lookups(primary, files, n) == |Collect(Landings(source, files)[..n], ForCompleted(primary))|
  {
    if n > 0 {
      LookupsMean(primary, source, files, n - 1);
      var part := Landings(source, files)[..n];
      assert part[..n - 1] == Landings(source, files)[..n - 1];
    }
  }

  /** The error text a join carries. */
  ghost predicate Carries(j: Join, message: string) {
    || (j.end.Reported? && j.end.report.terminalError == Some(message))
    || (j.end.Errored? && j.end.message == message)
  }

  ghost predicate CarriesNone(j: Join) {
    forall message :: !Carries(j, message)
  }

  /** `i` is the latest join that carries an error, and it carries this one. */
  ghost predicate Latest(log: seq<Join>, i: nat, message: string) {
    i < |log| && Carries(log[i], message) && forall k :: i < k < |log| ==> CarriesNone(log[k])
  }

  lemma SilentChangesNothing(earlier: Option<string>, j: Join)
    requires CarriesNone(j)
    ensures ErrorAfter(earlier, j) == earlier
  {
    if j.end.Reported? && j.end.report.terminalError.Some? {
      assert Carries(j, j.end.report.terminalError.value);
    } else if j.end.Errored? {
      assert Carries(j, j.end.message);
    }
  }

  /** The last error is that of the latest join that carries one; without one it is what it was. */
  lemma {:induction false} LastErrorMeans(earlier: Option<string>, log: seq<Join>, message: string)
    ensures LastErrorOf(earlier, log) == Some(message) <==>
      || (exists i :: Latest(log, i, message))
      || (earlier == Some(message) && forall k :: 0 <= k < |log| ==> CarriesNone(log[k]))
  {
    if log != [] {
      var init, last, n := log[..|log| - 1], Last(log), |log| - 1;
      LastErrorMeans(earlier, init, message);
      if m :| Carries(last, m) {
        assert LastErrorOf(earlier, log) == Some(m);
        assert !CarriesNone(log[n]);
        assert Latest(log, n, m);
      } else {
        assert CarriesNone(last);
        SilentChangesNothing(LastErrorOf(earlier, init), last);
        assert forall k :: 0 <= k < |log| ==> log[k] == if k < n then init[k] else last;
        forall i | Latest(init, i, message) ensures Latest(log, i, message) {
        }
        forall i | Latest(log, i, message) ensures Latest(init, i, message) {
        }
      }
    }
  }

  // ---------------------------------------------------------------- what the tally means

  lemma LandBoth(earlier: seq<Landing>, round: seq<Landing>, part: seq<Landing>, l: Landing, primary: FileHash)
    ensures Land(LedgerOf(earlier + part, primary), primary, l) == LedgerOf(earlier + (part + [l]), primary)
    ensures CountAccepted(AcceptedOf(round + part, primary), primary, l) == AcceptedOf(round + (part + [l]), primary)
  {
    LandAdds(earlier + part, primary, l);
    LandAdds(round + part, primary, l);
    assert earlier + part + [l] == earlier + (part + [l]);
    assert round + part + [l] == round + (part + [l]);
  }

  lemma {:induction false} TallyFilesMeans(
    earlier: seq<Landing>, round: seq<Landing>, primary: FileHash, source: FoundSource, files: seq<FileResult>, n: nat)
    requires n <= |files|
    ensures var part := Landings(source, files)[..n];
      TallyFiles(Tally(LedgerOf(earlier, primary), AcceptedOf(round, primary)), primary, source, files, n) ==
      Tally(LedgerOf(earlier + part, primary), AcceptedOf(round + part, primary))
  {
    var all := Landings(source, files);
    if n == 0 {
      assert earlier + all[..0] == earlier && round + all[..0] == round;
    } else {
      TallyFilesMeans(earlier, round, primary, source, files, n - 1);
      LandBoth(earlier, round, all[..n - 1], all[n - 1], primary);
      assert all[..n - 1] + [all[n - 1]] == all[..n];
    }
  }

  /** The driver's lists after a round are those the results call for, whatever order the workers ended in. */
  lemma {:induction false} TallyLogMeans(earlier: seq<Landing>, primary: FileHash, log: seq<Join>)
    ensures TallyLog(Tally(LedgerOf(earlier, primary), 0), primary, log) ==
      Tally(LedgerOf(earlier + LandingsOf(log), primary), AcceptedOf(LandingsOf(log), primary))
  {
    if log == [] {
      assert earlier + [] == earlier;
    } else {
      var init, j := log[..|log| - 1], Last(log);
      TallyLogMeans(earlier, primary, init);
      if j.end.Reported? {
        var files := j.end.report.files;
        TallyFilesMeans(earlier + LandingsOf(init), LandingsOf(init), primary, j.source, files, |files|);
        assert Landings(j.source, files)[..|files|] == Landings(j.source, files);
        assert earlier + LandingsOf(init) + Landings(j.source, files) == earlier + LandingsOf(log);
      }
    }
  }
}
