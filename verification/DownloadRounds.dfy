/**
 * The rounds of the direct-download driver: which sources get a worker, which
 * worker's result is processed when, and when another round follows.
 */
module DownloadRounds {
  import opened Common
  import opened Sources
  import opened DirectDownloads

  // ---------------------------------------------------------------- spawning

  /** A worker in flight: its number in the round, and the source it serves. */
  datatype Worker = Worker(number: nat, source: FoundSource)

  function Max(a: nat, b: nat): nat {
    if a <= b then b else a
  }

  /** Workers for the first `n` queued sources, numbered from `first`. */
  function Crew(queue: seq<FoundSource>, n: nat, first: nat): seq<Worker>
    requires n <= |queue|
  {
    seq(n, i requires 0 <= i < n => Worker(first + i, queue[i]))
  }

  /**
   * What one round of spawning does to the numbers: `n` sources are admitted by as
   * many calls, and it ends because the pool is full, because the queue is empty,
   * or with one more call that is denied.
   */
  ghost predicate Filled(env: Env, limit: nat, inFlight: nat, queued: nat, calls: nat, n: nat, calls': nat) {
    && n <= queued
    && (0 < n ==> inFlight + n <= limit)
    && (forall c :: calls <= c < calls + n ==> env.admit(c))
    && if inFlight + n >= limit || n == queued then calls' == calls + n
       else calls' == calls + n + 1 && !env.admit(calls + n)
  }

  /** Moves sources from the front of the queue into the pool; a denied source stays in front. */
  method SpawnPending(env: Env, active: seq<Worker>, pending: seq<FoundSource>, limit: nat, first: nat, calls: nat)
    returns (active': seq<Worker>, pending': seq<FoundSource>, calls': nat)
    ensures |pending'| <= |pending|
    ensures var n := |pending| - |pending'|;
      && Filled(env, limit, |active|, |pending|, calls, n, calls')
      && pending' == pending[n..]
      && active' == active + Crew(pending, n, first)
  {
    active', pending', calls' := active, pending, calls;
    ghost var n := 0;
    while |active'| < limit
      invariant n <= |pending| && pending' == pending[n..] && active' == active + Crew(pending, n, first)
      invariant calls' == calls + n && (0 < n ==> |active| + n <= limit)
      invariant forall c :: calls <= c < calls' ==> env.admit(c)
      decreases |pending'|
    {
      if pending' == [] {
        return;
      }
      var source := pending'[0];
      calls' := calls' + 1;
      if !env.admit(calls' - 1) {
        return;
      }
      active', pending' := active' + [Worker(first + |pending| - |pending'|, source)], pending'[1..];
      n := n + 1;
    }
  }

  // ---------------------------------------------------------------- the pool

  /** The environment answers used up so far, and the workers started. */
  datatype Cursor = Cursor(admits: nat, joins: nat, lookups: nat, workers: nat)

  /** How many sources were spawned and how often admission was asked, after one round of spawning. */
  datatype Mark = Mark(spawned: nat, admits: nat)

  /** What a round has done: sources spawned, workers in flight, joins, and a mark for each round of spawning. */
  datatype RoundState = RoundState(spawned: nat, active: seq<Worker>, log: seq<Join>, marks: seq<Mark>)

  ghost predicate Serves(sources: seq<FoundSource>, spawned: nat, number: nat, source: FoundSource) {
    number < spawned <= |sources| && sources[number] == source
  }

  /** The join reports what this very worker came back with. */
  ghost predicate Genuine(env: Env, sources: seq<FoundSource>, spawned: nat, first: nat, j: Join) {
    Serves(sources, spawned, j.worker, j.source) && j.end == env.finish(first + j.worker)
  }

  ghost predicate OncePerWorker(active: seq<Worker>, log: seq<Join>) {
    && (forall i, j :: 0 <= i < j < |active| ==> active[i].number != active[j].number)
    && (forall i, j :: 0 <= i < j < |log| ==> log[i].worker != log[j].worker)
    && (forall i, j :: 0 <= i < |active| && 0 <= j < |log| ==> active[i].number != log[j].worker)
  }

  /** Every spawned source is in flight or joined, once, and served by its own worker. */
  ghost predicate Kept(env: Env, sources: seq<FoundSource>, limit: nat, first: nat, r: RoundState) {
    && r.spawned <= |sources|
    && |r.active| <= limit
    && |r.active| + |r.log| == r.spawned
    && (forall i :: 0 <= i < |r.active| ==> Serves(sources, r.spawned, r.active[i].number, r.active[i].source))
    && (forall i :: 0 <= i < |r.log| ==> Genuine(env, sources, r.spawned, first, r.log[i]))
    && OncePerWorker(r.active, r.log)
  }

  ghost function MarkBefore(admits: nat, marks: seq<Mark>, k: nat): Mark
    requires k <= |marks|
  {
    if k == 0 then Mark(0, admits) else marks[k - 1]
  }

  /** After `k` joins the pool was filled up again, as far as sources and budget allowed. */
  ghost predicate MarkAt(env: Env, limit: nat, total: nat, admits: nat, marks: seq<Mark>, k: nat)
    requires k < |marks|
  {
    var before, after := MarkBefore(admits, marks, k), marks[k];
    && k <= before.spawned <= after.spawned
    && before.spawned <= total
    && Filled(env, limit, before.spawned - k, total - before.spawned, before.admits,
              after.spawned - before.spawned, after.admits)
  }

  ghost predicate Marked(env: Env, limit: nat, total: nat, admits: nat, marks: seq<Mark>) {
    forall k :: 0 <= k < |marks| ==> MarkAt(env, limit, total, admits, marks, k)
  }

  /** A round as far as it has come: filled at the start and again after each join, every result the worker's own. */
  ghost predicate Ran(env: Env, sources: seq<FoundSource>, limit: nat, c: Cursor, r: RoundState) {
    && Kept(env, sources, limit, c.workers, r)
    && |r.log| <= |r.marks| <= |r.log| + 1
    && Marked(env, limit, |sources|, c.admits, r.marks)
    && r.spawned == MarkBefore(c.admits, r.marks, |r.marks|).spawned
  }

  ghost function AdmitsAfter(c: Cursor, r: RoundState): nat {
    MarkBefore(c.admits, r.marks, |r.marks|).admits
  }

  lemma QueueMoves(sources: seq<FoundSource>, from: nat, n: nat)
    requires from + n <= |sources|
    ensures sources[from..][n..] == sources[from + n..]
  {
  }

  ghost function Spawned(r: RoundState, queue: seq<FoundSource>, n: nat, admits: nat): RoundState
    requires n <= |queue|
  {
    RoundState(r.spawned + n, r.active + Crew(queue, n, r.spawned), r.log, r.marks + [Mark(r.spawned + n, admits)])
  }

  lemma SpawnKeeps(
    env: Env, sources: seq<FoundSource>, limit: nat, first: nat, r: RoundState, queue: seq<FoundSource>, n: nat,
    admits: nat)
    requires Kept(env, sources, limit, first, r) && queue == sources[r.spawned..] && n <= |queue|
    requires 0 < n ==> |r.active| + n <= limit
    ensures Kept(env, sources, limit, first, Spawned(r, queue, n, admits))
  {
    var r' := Spawned(r, queue, n, admits);
    forall i | 0 <= i < |r'.active| ensures Serves(sources, r'.spawned, r'.active[i].number, r'.active[i].source) {
      assert i < |r.active| ==> Serves(sources, r.spawned, r.active[i].number, r.active[i].source);
    }
    forall i | 0 <= i < |r.log| ensures Genuine(env, sources, r'.spawned, first, r.log[i]) {
      assert Genuine(env, sources, r.spawned, first, r.log[i]);
    }
    SpawnOnce(sources, r, queue, n);
  }

  lemma SpawnOnce(sources: seq<FoundSource>, r: RoundState, queue: seq<FoundSource>, n: nat)
    requires OncePerWorker(r.active, r.log) && n <= |queue|
    requires forall i :: 0 <= i < |r.active| ==> r.active[i].number < r.spawned
    requires forall i :: 0 <= i < |r.log| ==> r.log[i].worker < r.spawned
    ensures OncePerWorker(r.active + Crew(queue, n, r.spawned), r.log)
  {
  }

  lemma MarkStays(env: Env, limit: nat, total: nat, admits: nat, marks: seq<Mark>, m: Mark, k: nat)
    requires k < |marks| && MarkAt(env, limit, total, admits, marks, k)
    ensures MarkAt(env, limit, total, admits, marks + [m], k)
  {
    assert MarkBefore(admits, marks + [m], k) == MarkBefore(admits, marks, k);
  }

  lemma MarkNext(env: Env, limit: nat, total: nat, admits: nat, marks: seq<Mark>, n: nat, calls: nat)
    requires var before := MarkBefore(admits, marks, |marks|);
      && |marks| <= before.spawned <= total
      && Filled(env, limit, before.spawned - |marks|, total - before.spawned, before.admits, n, calls)
    ensures var m := Mark(MarkBefore(admits, marks, |marks|).spawned + n, calls);
      MarkAt(env, limit, total, admits, marks + [m], |marks|)
  {
    var m := Mark(MarkBefore(admits, marks, |marks|).spawned + n, calls);
    assert MarkBefore(admits, marks + [m], |marks|) == MarkBefore(admits, marks, |marks|);
  }

  lemma SpawnRan(
    env: Env, sources: seq<FoundSource>, limit: nat, c: Cursor, r: RoundState, queue: seq<FoundSource>, n: nat,
    admits: nat)
    requires Ran(env, sources, limit, c, r) && |r.marks| == |r.log| && queue == sources[r.spawned..]
    requires Filled(env, limit, |r.active|, |queue|, AdmitsAfter(c, r), n, admits)
    ensures Ran(env, sources, limit, c, Spawned(r, queue, n, admits))
    ensures AdmitsAfter(c, Spawned(r, queue, n, admits)) == admits
  {
    SpawnKeeps(env, sources, limit, c.workers, r, queue, n, admits);
    SpawnMarks(env, limit, |sources|, c.admits, r.marks, n, admits);
  }

  lemma SpawnMarks(env: Env, limit: nat, total: nat, admits: nat, marks: seq<Mark>, n: nat, calls: nat)
    requires Marked(env, limit, total, admits, marks)
    requires var before := MarkBefore(admits, marks, |marks|);
      && |marks| <= before.spawned <= total
      && Filled(env, limit, before.spawned - |marks|, total - before.spawned, before.admits, n, calls)
    ensures Marked(env, limit, total, admits, marks + [Mark(MarkBefore(admits, marks, |marks|).spawned + n, calls)])
  {
    var m := Mark(MarkBefore(admits, marks, |marks|).spawned + n, calls);
    var longer := marks + [m];
    MarkNext(env, limit, total, admits, marks, n, calls);
    forall k | 0 <= k < |longer| ensures MarkAt(env, limit, total, admits, longer, k) {
      if k < |marks| {
        assert MarkAt(env, limit, total, admits, marks, k);
        MarkStays(env, limit, total, admits, marks, m, k);
      }
    }
  }

  /** The worker at position `i` ends. */
  ghost function JoinedAt(env: Env, first: nat, r: RoundState, i: nat): RoundState
    requires i < |r.active|
  {
    var w := r.active[i];
    RoundState(
      r.spawned, r.active[..i] + r.active[i + 1..],
      r.log + [Join(w.number, w.source, env.finish(first + w.number))], r.marks)
  }

  lemma JoinKeeps(env: Env, sources: seq<FoundSource>, limit: nat, first: nat, r: RoundState, i: nat)
    requires Kept(env, sources, limit, first, r) && i < |r.active|
    ensures Kept(env, sources, limit, first, JoinedAt(env, first, r, i))
  {
    var r' := JoinedAt(env, first, r, i);
    assert Serves(sources, r.spawned, r.active[i].number, r.active[i].source);
    forall k | 0 <= k < |r'.active| ensures r'.active[k] == r.active[if k < i then k else k + 1] {
    }
    forall k | 0 <= k < |r'.active| ensures Serves(sources, r.spawned, r'.active[k].number, r'.active[k].source) {
      assert Serves(sources, r.spawned, r.active[if k < i then k else k + 1].number, r'.active[k].source);
    }
    forall k | 0 <= k < |r'.log| ensures Genuine(env, sources, r.spawned, first, r'.log[k]) {
      assert k < |r.log| ==> Genuine(env, sources, r.spawned, first, r.log[k]);
    }
  }

  lemma JoinRan(env: Env, sources: seq<FoundSource>, limit: nat, c: Cursor, r: RoundState, i: nat)
    requires Ran(env, sources, limit, c, r) && |r.marks| == |r.log| + 1 && i < |r.active|
    ensures Ran(env, sources, limit, c, JoinedAt(env, c.workers, r, i))
  {
    JoinKeeps(env, sources, limit, c.workers, r, i);
  }

  /** The driver's own variables say what the round has done. */
  ghost predicate Tracks(
    sources: seq<FoundSource>, c: Cursor, r: RoundState, active: seq<Worker>, pending: seq<FoundSource>, admits: nat)
  {
    r.spawned <= |sources| && active == r.active && pending == sources[r.spawned..] && admits == AdmitsAfter(c, r)
  }

  /** Fill the pool from the queue. */
  method FillPool(
    env: Env, sources: seq<FoundSource>, limit: nat, ghost c: Cursor, ghost r: RoundState,
    active: seq<Worker>, pending: seq<FoundSource>, admits: nat)
    returns (active': seq<Worker>, pending': seq<FoundSource>, admits': nat, ghost r': RoundState)
    requires Ran(env, sources, limit, c, r) && |r.marks| == |r.log|
    requires Tracks(sources, c, r, active, pending, admits)
    ensures Ran(env, sources, limit, c, r') && |r'.marks| == |r'.log| + 1 && r'.log == r.log
    ensures Tracks(sources, c, r', active', pending', admits')
    ensures |active'| + |pending'| == |active| + |pending|
  {
    active', pending', admits' := SpawnPending(env, active, pending, limit, |sources| - |pending|, admits);
    ghost var n := |pending| - |pending'|;
    r' := Spawned(r, pending, n, admits');
    SpawnRan(env, sources, limit, c, r, pending, n, admits');
    QueueMoves(sources, r.spawned, n);
  }

  /** Any worker may end next, with its own result. */
  method JoinNext(
    env: Env, sources: seq<FoundSource>, limit: nat, c: Cursor, ghost r: RoundState,
    active: seq<Worker>, pending: seq<FoundSource>, admits: nat, pick: nat)
    returns (active': seq<Worker>, j: Join, ghost r': RoundState)
    requires Ran(env, sources, limit, c, r) && |r.marks| == |r.log| + 1 && active != []
    requires Tracks(sources, c, r, active, pending, admits)
    ensures Ran(env, sources, limit, c, r') && |r'.marks| == |r'.log| && r'.log == r.log + [j]
    ensures Tracks(sources, c, r', active', pending, admits) && |active'| == |active| - 1
    ensures Genuine(env, sources, r.spawned, c.workers, j)
  {
    var i := pick % |active|;
    var w := active[i];
    j := Join(w.number, w.source, env.finish(c.workers + w.number));
    active' := active[..i] + active[i + 1..];
    r' := JoinedAt(env, c.workers, r, i);
    JoinRan(env, sources, limit, c, r, i);
    assert Genuine(env, sources, r'.spawned, c.workers, r'.log[|r.log|]);
  }

  // ---------------------------------------------------------------- one round

  datatype RoundEnd = WorkerPanicked | ManifestUnreadable | PrimaryDone | Drained

  /** Each of these lookups found the file incomplete. */
  ghost predicate Quiet(env: Env, from: nat, to: nat) {
    forall k :: from <= k < to ==> env.manifestCompleted(k) == Some(false)
  }

  ghost predicate Unreadable(env: Env, from: nat, to: nat) {
    exists k :: from <= k < to && env.manifestCompleted(k).None?
  }

  ghost predicate SeenDone(env: Env, from: nat, to: nat) {
    exists k :: from <= k < to && env.manifestCompleted(k) == Some(true)
  }

  /** Nothing in the log ends the round: no panic, and no lookup that failed or found the file complete. */
  ghost predicate Uneventful(env: Env, primary: FileHash, from: nat, log: seq<Join>) {
    && (forall j :: j in log ==> !j.end.Panicked?)
    && Quiet(env, from, from + LookupsIn(primary, log))
  }

  /** What the last join of a cut round did. */
  ghost predicate Cuts(env: Env, primary: FileHash, from: nat, j: Join, end: RoundEnd) {
    var to := from + LookupsOf(primary, j);
    match end
    case WorkerPanicked => j.end.Panicked?
    case ManifestUnreadable => j.end.Reported? && Unreadable(env, from, to)
    case PrimaryDone => j.end.Reported? && !Unreadable(env, from, to) && SeenDone(env, from, to)
    case Drained => false
  }

  /** How a round ended: cut short by its last join, or drained with nothing left in flight. */
  ghost predicate EndsAs(env: Env, primary: FileHash, c: Cursor, r: RoundState, end: RoundEnd) {
    if end.Drained? then
      Uneventful(env, primary, c.lookups, r.log) && r.active == [] && |r.marks| == |r.log| + 1
    else
      && r.log != []
      && |r.marks| == |r.log|
      && var init := r.log[..|r.log| - 1];
         && Uneventful(env, primary, c.lookups, init)
         && Cuts(env, primary, c.lookups + LookupsIn(primary, init), Last(r.log), end)
  }

  /** What happened in a round decides how it ended. */
  lemma EndsOneWay(env: Env, primary: FileHash, c: Cursor, r: RoundState, e: RoundEnd, f: RoundEnd)
    requires EndsAs(env, primary, c, r, e) && EndsAs(env, primary, c, r, f)
    ensures e == f
  {
    if r.log != [] {
      assert Last(r.log) in r.log;
    }
  }

  lemma UneventfulOne(env: Env, primary: FileHash, from: nat, log: seq<Join>, j: Join)
    requires Uneventful(env, primary, from, log) && !j.end.Panicked?
    requires Quiet(env, from + LookupsIn(primary, log), from + LookupsIn(primary, log) + LookupsOf(primary, j))
    ensures Uneventful(env, primary, from, log + [j])
  {
    LookupsOne(primary, log, j);
  }

  lemma CutShort(env: Env, primary: FileHash, c: Cursor, before: seq<Join>, j: Join, r: RoundState, end: RoundEnd)
    requires Uneventful(env, primary, c.lookups, before) && r.log == before + [j] && |r.marks| == |r.log|
    requires Cuts(env, primary, c.lookups + LookupsIn(primary, before), j, end)
    ensures EndsAs(env, primary, c, r, end)
  {
    assert r.log[..|r.log| - 1] == before;
  }

  /** What the driver has counted and collected in a round. */
  datatype Progress = Progress(tally: Tally, lookups: nat, joins: nat, lastError: Option<string>, retryable: bool)

  ghost function ProgressOf(
    primary: FileHash, ledger: Ledger, c: Cursor, lastError: Option<string>, log: seq<Join>): Progress
  {
    Progress(
      TallyLog(Tally(ledger, 0), primary, log), c.lookups + LookupsIn(primary, log), c.joins + |log|,
      LastErrorOf(lastError, log), RetryableSeen(log))
  }

  lemma ProgressOne(
    primary: FileHash, ledger: Ledger, c: Cursor, lastError: Option<string>, log: seq<Join>, j: Join)
    ensures var p := ProgressOf(primary, ledger, c, lastError, log);
      var p' := ProgressOf(primary, ledger, c, lastError, log + [j]);
      && p'.tally == TallyJoin(p.tally, primary, j)
      && p'.lookups == p.lookups + LookupsOf(primary, j)
      && p'.joins == p.joins + 1
      && p'.lastError == ErrorAfter(p.lastError, j)
      && (p'.retryable <==> p.retryable || (j.end.Errored? && j.end.retryable))
  {
    TallyLogOne(Tally(ledger, 0), primary, log, j);
    LastErrorOne(lastError, log, j);
    RetryableOne(log, j);
    LookupsOne(primary, log, j);
  }

  /** One join: a report is processed whole, an error is noted, and what cuts the round short is found out. */
  method ProcessJoin(env: Env, primary: FileHash, j: Join, p: Progress) returns (p': Progress, end: RoundEnd)
    ensures if end.Drained? then !j.end.Panicked? && Quiet(env, p.lookups, p.lookups + LookupsOf(primary, j))
      else Cuts(env, primary, p.lookups, j, end)
    ensures end.Drained? || end.PrimaryDone? ==>
      p' == Progress(
        TallyJoin(p.tally, primary, j), p.lookups + LookupsOf(primary, j), p.joins + 1, ErrorAfter(p.lastError, j),
        p.retryable || (j.end.Errored? && j.end.retryable))
  {
    p', end := p.(joins := p.joins + 1), Drained;
    match j.end {
      case Panicked =>
        end := WorkerPanicked;
      case Reported(report) =>
        if report.terminalError.Some? {
          p' := p'.(lastError := report.terminalError);
        }
        var tally, lookups, done, failed := ProcessReport(env, primary, j.source, report.files, p.tally, p.lookups);
        p' := p'.(tally := tally, lookups := lookups);
        end := if failed then ManifestUnreadable else if done then PrimaryDone else Drained;
        if !failed && !done {
          forall k: nat | p.lookups <= k < lookups ensures env.manifestCompleted(k) == Some(false) {
            var answer := env.manifestCompleted(k);
            assert answer.Some? && answer != Some(true);
            assert answer == Some(answer.value);
            assert answer.value == true || answer.value == false;
          }
        }
      case Errored(message, again) =>
        p' := p'.(retryable := p.retryable || again, lastError := Some(message));
    }
  }

  /** The environment answers and worker numbers used up when the round stands here. */
  ghost function After(primary: FileHash, c: Cursor, r: RoundState): Cursor {
    Cursor(AdmitsAfter(c, r), c.joins + |r.log|, c.lookups + LookupsIn(primary, r.log), c.workers + r.spawned)
  }

  /** Between joins: the pool is filled up, nothing has ended the round, and everything joined is counted. */
  ghost predicate Standing(
    env: Env, primary: FileHash, sources: seq<FoundSource>, limit: nat, c: Cursor, ledger: Ledger,
    lastError: Option<string>,
    run: RoundState, p: Progress)
  {
    && Ran(env, sources, limit, c, run)
    && |run.marks| == |run.log| + 1
    && Uneventful(env, primary, c.lookups, run.log)
    && p == ProgressOf(primary, ledger, c, lastError, run.log)
  }

  lemma CursorIs(
    primary: FileHash, sources: seq<FoundSource>, c: Cursor, ledger: Ledger, lastError: Option<string>, run: RoundState,
    active: seq<Worker>, pending: seq<FoundSource>, admits: nat, p: Progress)
    requires Tracks(sources, c, run, active, pending, admits)
    requires p == ProgressOf(primary, ledger, c, lastError, run.log)
    ensures After(primary, c, run) == Cursor(admits, p.joins, p.lookups, c.workers + |sources| - |pending|)
  {
  }

  /** Start a round: an empty pool, filled for the first time. */
  method StartRound(
    env: Env, primary: FileHash, sources: seq<FoundSource>, limit: nat, ledger: Ledger, cursor: Cursor,
    lastError: Option<string>)
    returns (active: seq<Worker>, pending: seq<FoundSource>, admits: nat, p: Progress, ghost run: RoundState)
    requires 0 < limit
    ensures Standing(env, primary, sources, limit, cursor, ledger, lastError, run, p)
    ensures Tracks(sources, cursor, run, active, pending, admits)
  {
    p := Progress(Tally(ledger, 0), cursor.lookups, cursor.joins, lastError, false);
    run := RoundState(0, [], [], []);
    active, pending, admits, run := FillPool(env, sources, limit, cursor, run, [], sources, cursor.admits);
  }

  /** Count one join: the round goes on, or is cut short. */
  method CountJoin(
    env: Env, primary: FileHash, ghost c: Cursor, ghost ledger: Ledger, ghost lastError: Option<string>,
    ghost before: seq<Join>, ghost run: RoundState, j: Join, p: Progress)
    returns (p': Progress, end: RoundEnd)
    requires run.log == before + [j] && |run.marks| == |run.log| && Uneventful(env, primary, c.lookups, before)
    requires p == ProgressOf(primary, ledger, c, lastError, before)
    ensures if end.Drained? then Uneventful(env, primary, c.lookups, run.log) else EndsAs(env, primary, c, run, end)
    ensures end.Drained? || end.PrimaryDone? ==> p' == ProgressOf(primary, ledger, c, lastError, run.log)
  {
    ProgressOne(primary, ledger, c, lastError, before, j);
    p', end := ProcessJoin(env, primary, j, p);
    if end.Drained? {
      UneventfulOne(env, primary, c.lookups, before, j);
    } else {
      CutShort(env, primary, c, before, j, run, end);
    }
  }

  /**
   * One round. Its result is a function of what happened in it, and what happened
   * is what the surroundings decided: who was admitted, who ended when, and with
   * what.
   */
  method RunRound(
    env: Env, primary: FileHash, sources: seq<FoundSource>, limit: nat, ledger: Ledger, cursor: Cursor,
    lastError: Option<string>)
    returns (end: RoundEnd, p: Progress, cursor': Cursor, ghost run: RoundState)
    requires 0 < limit
    ensures Ran(env, sources, limit, cursor, run)
    ensures EndsAs(env, primary, cursor, run, end)
    ensures end.Drained? || end.PrimaryDone? ==>
      && p == ProgressOf(primary, ledger, cursor, lastError, run.log)
      && cursor' == After(primary, cursor, run)
  {
    end := Drained;
    var active, pending, admits;
    active, pending, admits, p, run := StartRound(env, primary, sources, limit, ledger, cursor, lastError);
    while active != []
      invariant Standing(env, primary, sources, limit, cursor, ledger, lastError, run, p)
      invariant Tracks(sources, cursor, run, active, pending, admits)
      decreases |active| + |pending|
    {
      ghost var before := run.log;
      var j;
      active, j, run := JoinNext(env, sources, limit, cursor, run, active, pending, admits, env.pick(p.joins));
      p, end := CountJoin(env, primary, cursor, ledger, lastError, before, run, j, p);
      if !end.Drained? {
        if end.PrimaryDone? {
          CursorIs(primary, sources, cursor, ledger, lastError, run, active, pending, admits, p);
        }
        cursor' := Cursor(admits, p.joins, p.lookups, cursor.workers + |sources| - |pending|);
        return;
      }
      active, pending, admits, run := FillPool(env, sources, limit, cursor, run, active, pending, admits);
    }
    CursorIs(primary, sources, cursor, ledger, lastError, run, active, pending, admits, p);
    end, cursor' := Drained, Cursor(admits, p.joins, p.lookups, cursor.workers + |sources| - |pending|);
  }

  // ---------------------------------------------------------------- no worker is lost

  ghost predicate Distinct(s: seq<nat>) {
    forall i, j :: 0 <= i < j < |s| ==> s[i] != s[j]
  }

  ghost function Elements(s: seq<nat>): set<nat> {
    if s == [] then {} else Elements(s[..|s| - 1]) + {Last(s)}
  }

  lemma {:induction false} ElementsIn(s: seq<nat>, x: nat)
    ensures x in Elements(s) <==> x in s
  {
    if s != [] {
      ElementsIn(s[..|s| - 1], x);
      assert s == s[..|s| - 1] + [Last(s)];
    }
  }

  lemma {:induction false} DistinctCounts(s: seq<nat>)
    requires Distinct(s)
    ensures |Elements(s)| == |s|
  {
    if s != [] {
      DistinctCounts(s[..|s| - 1]);
      ElementsIn(s[..|s| - 1], Last(s));
    }
  }

  ghost function Below(n: nat): (b: set<nat>)
    ensures |b| == n && forall x :: x in b <==> 0 <= x < n
  {
    if n == 0 then {} else Below(n - 1) + {n - 1}
  }

  lemma {:induction false} SameSize(a: set<nat>, b: set<nat>)
    requires a <= b && |a| == |b|
    ensures a == b
  {
    if a != {} {
      var x :| x in a;
      SameSize(a - {x}, b - {x});
    }
  }

  /** As many different numbers below `n` as there are leave none out. */
  lemma Covers(s: seq<nat>, k: nat)
    requires Distinct(s) && (forall i :: 0 <= i < |s| ==> s[i] < |s|) && k < |s|
    ensures k in s
  {
    DistinctCounts(s);
    forall x | x in Elements(s) ensures x in Below(|s|) {
      ElementsIn(s, x);
    }
    SameSize(Elements(s), Below(|s|));
    ElementsIn(s, k);
  }

  ghost function NumbersOf(r: RoundState): seq<nat> {
    seq(|r.active|, i requires 0 <= i < |r.active| => r.active[i].number)
    + seq(|r.log|, i requires 0 <= i < |r.log| => r.log[i].worker)
  }

  /** Every spawned source is in flight, or was joined with what its own worker came back with. */
  lemma EveryWorker(env: Env, sources: seq<FoundSource>, limit: nat, c: Cursor, r: RoundState, k: nat)
    requires Ran(env, sources, limit, c, r) && k < r.spawned
    ensures Worker(k, sources[k]) in r.active || Join(k, sources[k], env.finish(c.workers + k)) in r.log
  {
    var s := NumbersOf(r);
    NumbersBelow(env, sources, limit, c.workers, r);
    Covers(s, k);
    var i :| 0 <= i < |s| && s[i] == k;
    if i < |r.active| {
      assert Serves(sources, r.spawned, r.active[i].number, r.active[i].source);
      assert r.active[i] == Worker(k, sources[k]);
    } else {
      var j := r.log[i - |r.active|];
      assert Genuine(env, sources, r.spawned, c.workers, j);
      assert j == Join(k, sources[k], env.finish(c.workers + k));
    }
  }

  lemma NumbersBelow(env: Env, sources: seq<FoundSource>, limit: nat, first: nat, r: RoundState)
    requires Kept(env, sources, limit, first, r)
    ensures var s := NumbersOf(r); |s| == r.spawned && Distinct(s) && forall i :: 0 <= i < |s| ==> s[i] < r.spawned
  {
    var s := NumbersOf(r);
    forall i | 0 <= i < |s| ensures s[i] < r.spawned {
      if i < |r.active| {
        assert Serves(sources, r.spawned, r.active[i].number, r.active[i].source);
      } else {
        assert Genuine(env, sources, r.spawned, first, r.log[i - |r.active|]);
      }
    }
  }

  lemma {:induction false} MarksGrow(env: Env, limit: nat, total: nat, admits: nat, marks: seq<Mark>, k: nat)
    requires Marked(env, limit, total, admits, marks) && k <= |marks|
    ensures admits <= MarkBefore(admits, marks, k).admits
  {
    if k > 0 {
      MarksGrow(env, limit, total, admits, marks, k - 1);
      assert MarkAt(env, limit, total, admits, marks, k - 1);
    }
  }

  /** Every source had its worker, or the last word of the budget in this round was no. */
  ghost predicate RanDry(env: Env, sources: seq<FoundSource>, c: Cursor, r: RoundState) {
    r.spawned == |sources| || (c.admits < AdmitsAfter(c, r) && !env.admit(AdmitsAfter(c, r) - 1))
  }

  /** A round that is not cut short runs dry. */
  lemma DrainedIsDry(env: Env, primary: FileHash, sources: seq<FoundSource>, limit: nat, c: Cursor, r: RoundState)
    requires 0 < limit && Ran(env, sources, limit, c, r) && EndsAs(env, primary, c, r, Drained)
    ensures RanDry(env, sources, c, r)
  {
    var k := |r.log|;
    assert MarkAt(env, limit, |sources|, c.admits, r.marks, k);
    MarksGrow(env, limit, |sources|, c.admits, r.marks, k);
  }

  // ---------------------------------------------------------------- rounds

  predicate IsLoopback(s: FoundSource) {
    s.ip / 0x100_0000 == 127
  }

  function RetryDeadline(sources: seq<FoundSource>, start: Instant): Option<Instant> {
    if sources != [] && forall i :: 0 <= i < |sources| ==> IsLoopback(sources[i]) then Some(start + RETRY_WINDOW)
    else None
  }

  /** There are sources, and all of them have an address 127.x.y.z. */
  ghost predicate AllLoopback(sources: seq<FoundSource>) {
    sources != [] && forall i :: 0 <= i < |sources| ==> 0x7F00_0000 <= sources[i].ip < 0x8000_0000
  }

  /** Loopback sources alone may be retried, for 360 seconds. */
  lemma DeadlineMeans(sources: seq<FoundSource>, start: Instant)
    ensures RetryDeadline(sources, start) == if AllLoopback(sources) then Some(start + 360 * SECOND) else None
  {
    if AllLoopback(sources) {
      forall i | 0 <= i < |sources| ensures IsLoopback(sources[i]) {
      }
    } else if sources != [] {
      var i :| 0 <= i < |sources| && !(0x7F00_0000 <= sources[i].ip < 0x8000_0000);
      assert !IsLoopback(sources[i]);
    }
  }

  /** The clock read after round k: rounds are separated by a three-second sleep. */
  ghost predicate Ticks(env: Env, start: Instant) {
    start <= env.clock(0) && forall k: nat :: env.clock(k) + 3 * SECOND <= env.clock(k + 1)
  }

  lemma {:induction false} ClockAfter(env: Env, start: Instant, k: nat)
    requires Ticks(env, start)
    ensures start + k * (3 * SECOND) <= env.clock(k)
  {
    if k > 0 {
      ClockAfter(env, start, k - 1);
      assert env.clock(k - 1) + 3 * SECOND <= env.clock(k - 1 + 1);
    }
  }

  datatype Summary = Aborted | Finished(completed: bool, accepted: nat, lastError: Option<string>, ledger: Ledger)

  /** Something a caller has to act on came out of the round. */
  predicate Conclusive(completed: bool, tally: Tally) {
    completed || tally.accepted != 0 || tally.ledger.noNeededParts != [] || tally.ledger.fileNotFound != []
  }

  /** No peer has taken the primary file in `round`, and none has called it unneeded or unknown in `all` rounds. */
  ghost predicate Undecided(primary: FileHash, round: seq<Landing>, all: seq<Landing>) {
    && FileResult(primary, AcceptedButIncomplete) !in Results(round)
    && FileResult(primary, QueuedDetachedForUdpReask) !in Results(round)
    && FileResult(primary, NoNeededParts) !in Results(all)
    && FileResult(primary, FileNotFound) !in Results(all)
  }

  ghost function Results(ls: seq<Landing>): set<FileResult> {
    set l | l in ls :: l.result
  }

  lemma {:induction false} CollectsNothing<T>(ls: seq<Landing>, wants: Landing -> Option<T>)
    ensures Collect(ls, wants) == [] <==> forall l :: l in ls ==> wants(l).None?
  {
    if ls != [] {
      CollectsNothing(ls[..|ls| - 1], wants);
      assert ls == ls[..|ls| - 1] + [Last(ls)];
    }
  }

  lemma NoneWith(ls: seq<Landing>, f: FileResult)
    ensures f !in Results(ls) <==> forall l :: l in ls ==> l.result != f
  {
    if l :| l in ls && l.result == f {
      assert l.result in Results(ls);
    }
  }

  lemma NobodyAccepted(primary: FileHash, ls: seq<Landing>)
    ensures AcceptedOf(ls, primary) == 0 <==>
      && FileResult(primary, AcceptedButIncomplete) !in Results(ls)
      && FileResult(primary, QueuedDetachedForUdpReask) !in Results(ls)
  {
    CollectsNothing(ls, ForAccepted(primary));
    NoneWith(ls, FileResult(primary, AcceptedButIncomplete));
    NoneWith(ls, FileResult(primary, QueuedDetachedForUdpReask));
  }

  lemma NobodyRefused(primary: FileHash, ls: seq<Landing>)
    ensures LedgerOf(ls, primary).noNeededParts == [] <==> FileResult(primary, NoNeededParts) !in Results(ls)
    ensures LedgerOf(ls, primary).fileNotFound == [] <==> FileResult(primary, FileNotFound) !in Results(ls)
  {
    CollectsNothing(ls, ForNoNeededParts(primary));
    CollectsNothing(ls, ForFileNotFound(primary));
    NoneWith(ls, FileResult(primary, NoNeededParts));
    NoneWith(ls, FileResult(primary, FileNotFound));
  }

  /** What the driver tests in its lists, said of the results themselves. */
  lemma ConclusiveMeans(primary: FileHash, round: seq<Landing>, all: seq<Landing>, completed: bool)
    ensures Conclusive(completed, Tally(LedgerOf(all, primary), AcceptedOf(round, primary))) <==>
      completed || !Undecided(primary, round, all)
  {
    NobodyAccepted(primary, round);
    NobodyRefused(primary, all);
  }

  /** The joins of all rounds. */
  ghost function LogOf(history: seq<RoundState>): seq<Join> {
    if history == [] then [] else LogOf(history[..|history| - 1]) + Last(history).log
  }

  /** The answers used up by whole rounds, each closed by one more manifest lookup. */
  ghost function CursorAfter(primary: FileHash, history: seq<RoundState>): Cursor {
    if history == [] then Cursor(0, 0, 0, 0) else
      var c := After(primary, CursorAfter(primary, history[..|history| - 1]), Last(history));
      c.(lookups := c.lookups + 1)
  }

  ghost function LastStart(primary: FileHash, history: seq<RoundState>): Cursor
    requires history != []
  {
    CursorAfter(primary, history[..|history| - 1])
  }

  /** The lookup that closes the last round. */
  ghost function ClosingLookup(primary: FileHash, history: seq<RoundState>): nat
    requires history != []
  {
    LastStart(primary, history).lookups + LookupsIn(primary, Last(history).log)
  }

  /** The lists of all rounds, and the peers that accepted in the last one. */
  ghost function TallyOf(primary: FileHash, history: seq<RoundState>): Tally
    requires history != []
  {
    Tally(LedgerOf(LandingsOf(LogOf(history)), primary), AcceptedOf(LandingsOf(Last(history).log), primary))
  }

  /** Another round is due: the last one drained without a conclusion, saw a retryable error, and there is time. */
  ghost predicate GoesOn(
    env: Env, primary: FileHash, sources: seq<FoundSource>, start: Instant, history: seq<RoundState>)
    requires history != []
  {
    && EndsAs(env, primary, LastStart(primary, history), Last(history), Drained)
    && env.manifestCompleted(ClosingLookup(primary, history)) == Some(false)
    && Undecided(primary, LandingsOf(Last(history).log), LandingsOf(LogOf(history)))
    && AllLoopback(sources)
    && RetryableSeen(Last(history).log)
    && env.clock(|history| - 1) < start + 360 * SECOND
  }

  /** A run of the driver so far: every round over the whole source list, each after the first because it was due. */
  ghost predicate Driven(
    env: Env, primary: FileHash, sources: seq<FoundSource>, limit: nat, start: Instant, history: seq<RoundState>)
  {
    history != [] ==>
      && Driven(env, primary, sources, limit, start, history[..|history| - 1])
      && (|history| > 1 ==> GoesOn(env, primary, sources, start, history[..|history| - 1]))
      && Ran(env, sources, limit, LastStart(primary, history), Last(history))
  }

  /** The outcome after a round with this end; the closing lookup matters only to a drained one. */
  function SummaryOf(end: RoundEnd, closing: Option<bool>, t: Tally, lastError: Option<string>): Summary {
    match end
    case WorkerPanicked => Aborted
    case ManifestUnreadable => Aborted
    case PrimaryDone => Finished(true, t.accepted, lastError, t.ledger)
    case Drained => if closing.None? then Aborted else Finished(closing.value, t.accepted, lastError, t.ledger)
  }

  /** What the driver has to say about a run that ended like this. */
  ghost function Conclude(env: Env, primary: FileHash, history: seq<RoundState>, end: RoundEnd): Summary
    requires history != []
  {
    SummaryOf(end, env.manifestCompleted(ClosingLookup(primary, history)), TallyOf(primary, history),
              LastErrorOf(None, LogOf(history)))
  }

  lemma GoesOnInTime(env: Env, primary: FileHash, sources: seq<FoundSource>, start: Instant, history: seq<RoundState>)
    requires Ticks(env, start) && history != [] && GoesOn(env, primary, sources, start, history)
    ensures |history| <= 120
  {
    ClockAfter(env, start, |history| - 1);
  }

  /** One more round in the history, and what it adds. */
  lemma RoundCounts(primary: FileHash, history: seq<RoundState>, run: RoundState)
    ensures var longer := history + [run];
      && longer[..|history|] == history
      && LastStart(primary, longer) == CursorAfter(primary, history)
      && ProgressOf(primary, LedgerOf(LandingsOf(LogOf(history)), primary), CursorAfter(primary, history),
                    LastErrorOf(None, LogOf(history)), run.log).tally == TallyOf(primary, longer)
      && LastErrorOf(LastErrorOf(None, LogOf(history)), run.log) == LastErrorOf(None, LogOf(longer))
  {
    var longer := history + [run];
    assert longer[..|history|] == history;
    TallyLogMeans(LandingsOf(LogOf(history)), primary, run.log);
    LogsConcat(LogOf(history), run.log, None);
  }

  /** What the driver's variables hold between rounds. */
  ghost predicate Carried(
    primary: FileHash, history: seq<RoundState>, ledger: Ledger, cursor: Cursor, lastError: Option<string>)
  {
    && ledger == LedgerOf(LandingsOf(LogOf(history)), primary)
    && cursor == CursorAfter(primary, history)
    && lastError == LastErrorOf(None, LogOf(history))
  }

  /** The round's progress, in terms of the whole history. */
  lemma RoundCarries(
    primary: FileHash, history: seq<RoundState>, ledger: Ledger, cursor: Cursor, lastError: Option<string>,
    run: RoundState, p: Progress, cursor': Cursor)
    requires Carried(primary, history, ledger, cursor, lastError)
    requires p == ProgressOf(primary, ledger, cursor, lastError, run.log) && cursor' == After(primary, cursor, run)
    ensures var longer := history + [run];
      && p.tally == TallyOf(primary, longer)
      && p.lastError == LastErrorOf(None, LogOf(longer))
      && cursor'.lookups == ClosingLookup(primary, longer)
      && Carried(primary, longer, p.tally.ledger, cursor'.(lookups := cursor'.lookups + 1), p.lastError)
  {
    RoundCounts(primary, history, run);
  }

  /** One round, closed by a manifest lookup unless it was cut short. */
  method NextRound(
    env: Env, primary: FileHash, sources: seq<FoundSource>, limit: nat, ghost history: seq<RoundState>,
    ledger: Ledger, cursor: Cursor, lastError: Option<string>)
    returns (summary: Summary, ledger': Ledger, cursor': Cursor, retryable: bool, ghost run: RoundState, end: RoundEnd)
    requires 0 < limit && Carried(primary, history, ledger, cursor, lastError)
    ensures Ran(env, sources, limit, CursorAfter(primary, history), run)
    ensures EndsAs(env, primary, CursorAfter(primary, history), run, end)
    ensures summary == Conclude(env, primary, history + [run], end)
    ensures end.Drained? && summary.Finished? ==>
      && Carried(primary, history + [run], ledger', cursor', summary.lastError)
      && (retryable <==> RetryableSeen(run.log))
  {
    var p;
    end, p, cursor', run := RunRound(env, primary, sources, limit, ledger, cursor, lastError);
    ledger', retryable := p.tally.ledger, p.retryable;
    if end.Drained? || end.PrimaryDone? {
      RoundCarries(primary, history, ledger, cursor, lastError, run, p, cursor');
    }
    var closing := None;
    if end.Drained? {
      closing := env.manifestCompleted(cursor'.lookups);
      cursor' := cursor'.(lookups := cursor'.lookups + 1);
    }
    summary := SummaryOf(end, closing, p.tally, p.lastError);
  }

  lemma DrivenOne(
    env: Env, primary: FileHash, sources: seq<FoundSource>, limit: nat, start: Instant, history: seq<RoundState>,
    run: RoundState)
    requires Driven(env, primary, sources, limit, start, history)
    requires history != [] ==> GoesOn(env, primary, sources, start, history)
    requires Ran(env, sources, limit, CursorAfter(primary, history), run)
    ensures Driven(env, primary, sources, limit, start, history + [run])
  {
    assert (history + [run])[..|history|] == history;
  }

  /** Whether another round is due, as the driver finds out behind a round. */
  method RetryDue(
    env: Env, primary: FileHash, sources: seq<FoundSource>, start: Instant, ghost history: seq<RoundState>,
    rounds: nat, summary: Summary, retryable: bool, end: RoundEnd)
    returns (due: bool)
    requires rounds == |history| > 0 && EndsAs(env, primary, LastStart(primary, history), Last(history), end)
    requires summary == Conclude(env, primary, history, end)
    requires end.Drained? && summary.Finished? ==> (retryable <==> RetryableSeen(Last(history).log))
    ensures due <==> GoesOn(env, primary, sources, start, history)
    ensures due ==> end.Drained? && summary.Finished?
  {
    if GoesOn(env, primary, sources, start, history) {
      EndsOneWay(env, primary, LastStart(primary, history), Last(history), end, Drained);
    }
    DeadlineMeans(sources, start);
    if !end.Drained? || summary.Aborted? {
      return false;
    }
    ConclusiveMeans(primary, LandingsOf(Last(history).log), LandingsOf(LogOf(history)), summary.completed);
    var deadline := RetryDeadline(sources, start);
    if Conclusive(summary.completed, Tally(summary.ledger, summary.accepted)) || deadline.None? {
      return false;
    }
    return retryable && env.clock(rounds - 1) < deadline.value;
  }

  /** One more round of a run, and whether yet another is due. */
  method OneMoreRound(
    env: Env, primary: FileHash, sources: seq<FoundSource>, limit: nat, start: Instant, ghost history: seq<RoundState>,
    rounds: nat, ledger: Ledger, cursor: Cursor, lastError: Option<string>)
    returns (
      summary: Summary, ledger': Ledger, cursor': Cursor, due: bool, ghost history': seq<RoundState>,
      ghost end: RoundEnd)
    requires 0 < limit && rounds == |history| && Driven(env, primary, sources, limit, start, history)
    requires history != [] ==> GoesOn(env, primary, sources, start, history)
    requires Carried(primary, history, ledger, cursor, lastError)
    ensures |history'| == rounds + 1 && Driven(env, primary, sources, limit, start, history')
    ensures EndsAs(env, primary, LastStart(primary, history'), Last(history'), end)
    ensures summary == Conclude(env, primary, history', end)
    ensures due <==> GoesOn(env, primary, sources, start, history')
    ensures due ==> summary.Finished? && Carried(primary, history', ledger', cursor', summary.lastError)
  {
    var retryable, ended;
    ghost var run;
    summary, ledger', cursor', retryable, run, ended :=
      NextRound(env, primary, sources, limit, history, ledger, cursor, lastError);
    DrivenOne(env, primary, sources, limit, start, history, run);
    history', end := history + [run], ended;
    assert LastStart(primary, history') == CursorAfter(primary, history) by {
      assert history'[..|history|] == history;
    }
    due := RetryDue(env, primary, sources, start, history', rounds + 1, summary, retryable, ended);
  }

  /**
   * The driver. The run it makes, how it ends and what it reports are decided by
   * the surroundings: `history` holds its rounds, each the round those answers
   * call for, and it stops exactly when no further round is due. That is after at
   * most 121 rounds, and after one unless all sources are loopback.
   */
  method RunDirectDownloads(env: Env, primary: FileHash, sources: seq<FoundSource>, limit: nat, start: Instant)
    returns (summary: Summary, rounds: nat, ghost history: seq<RoundState>, ghost end: RoundEnd)
    requires Ticks(env, start)
    ensures 1 <= rounds <= 121 && rounds == |history|
    ensures !AllLoopback(sources) ==> rounds == 1
    ensures Driven(env, primary, sources, if limit == 0 then 1 else limit, start, history)
    ensures EndsAs(env, primary, LastStart(primary, history), Last(history), end)
    ensures !GoesOn(env, primary, sources, start, history)
    ensures summary == Conclude(env, primary, history, end)
    ensures summary.Finished? ==>
      && summary.ledger == LedgerOf(LandingsOf(LogOf(history)), primary)
      && summary.accepted == AcceptedOf(LandingsOf(Last(history).log), primary)
      && summary.lastError == LastErrorOf(None, LogOf(history))
  {
    var ledger, cursor, lastError := EMPTY, Cursor(0, 0, 0, 0), None;
    rounds, history := 0, [];
    while true
      invariant rounds == |history| <= 120
      invariant Driven(env, primary, sources, Max(1, limit), start, history)
      invariant history != [] ==> GoesOn(env, primary, sources, start, history)
      invariant Carried(primary, history, ledger, cursor, lastError)
      decreases 121 - rounds
    {
      var due;
      summary, ledger, cursor, due, history, end :=
        OneMoreRound(env, primary, sources, Max(1, limit), start, history, rounds, ledger, cursor, lastError);
      rounds := rounds + 1;
      if !due {
        return;
      }
      GoesOnInTime(env, primary, sources, start, history);
      lastError := summary.lastError;
    }
  }

  // ---------------------------------------------------------------- what a summary means

  /** The manifest lookups a finished run made. */
  ghost function LookupsMade(primary: FileHash, history: seq<RoundState>, end: RoundEnd): nat
    requires history != []
  {
    ClosingLookup(primary, history) + if end.Drained? then 1 else 0
  }

  lemma QuietJoins(env: Env, from: nat, mid: nat, to: nat)
    requires Quiet(env, from, mid) && Quiet(env, mid, to)
    ensures Quiet(env, from, to)
  {
  }

  lemma RoundQuiet(env: Env, primary: FileHash, sources: seq<FoundSource>, start: Instant, history: seq<RoundState>)
    requires history != [] && GoesOn(env, primary, sources, start, history)
    ensures Quiet(env, LastStart(primary, history).lookups, CursorAfter(primary, history).lookups)
  {
    assert CursorAfter(primary, history).lookups == ClosingLookup(primary, history) + 1;
  }

  /** Rounds that were followed by another saw no completion. */
  lemma {:induction false} EarlierQuiet(
    env: Env, primary: FileHash, sources: seq<FoundSource>, limit: nat, start: Instant, history: seq<RoundState>)
    requires Driven(env, primary, sources, limit, start, history)
    requires history != [] ==> GoesOn(env, primary, sources, start, history)
    ensures Quiet(env, 0, CursorAfter(primary, history).lookups)
  {
    if history != [] {
      EarlierQuiet(env, primary, sources, limit, start, history[..|history| - 1]);
      RoundQuiet(env, primary, sources, start, history);
      QuietJoins(env, 0, LastStart(primary, history).lookups, CursorAfter(primary, history).lookups);
    }
  }

  /** What the lookups of a drained round have seen, the closing one included. */
  lemma DrainedLookups(env: Env, primary: FileHash, history: seq<RoundState>)
    requires history != [] && Conclude(env, primary, history, Drained).Finished?
    requires EndsAs(env, primary, LastStart(primary, history), Last(history), Drained)
    ensures var from, closing := LastStart(primary, history).lookups, ClosingLookup(primary, history);
      && !Unreadable(env, from, closing + 1)
      && env.manifestCompleted(closing) == Some(Conclude(env, primary, history, Drained).completed)
      && (Conclude(env, primary, history, Drained).completed <==> SeenDone(env, from, closing + 1))
  {
    var from, closing := LastStart(primary, history).lookups, ClosingLookup(primary, history);
    assert Quiet(env, from, closing);
    assert env.manifestCompleted(closing).Some?;
  }

  /** The lookups of a round cut short by completion were readable, and one of them saw it. */
  lemma DoneLookups(env: Env, primary: FileHash, history: seq<RoundState>)
    requires history != [] && EndsAs(env, primary, LastStart(primary, history), Last(history), PrimaryDone)
    ensures var from, to := LastStart(primary, history).lookups, ClosingLookup(primary, history);
      !Unreadable(env, from, to) && SeenDone(env, from, to)
  {
    var log, from := Last(history).log, LastStart(primary, history).lookups;
    var init := log[..|log| - 1];
    assert log == init + [Last(log)];
    LookupsOne(primary, init, Last(log));
    QuietThen(env, from, from + LookupsIn(primary, init), ClosingLookup(primary, history));
  }

  lemma QuietThen(env: Env, from: nat, mid: nat, to: nat)
    requires Quiet(env, from, mid) && from <= mid <= to
    ensures Unreadable(env, from, to) <==> Unreadable(env, mid, to)
    ensures SeenDone(env, from, to) <==> SeenDone(env, mid, to)
  {
  }

  /** All lookups before the last round found the file incomplete. */
  lemma QuietUntilLast(
    env: Env, primary: FileHash, sources: seq<FoundSource>, limit: nat, start: Instant, history: seq<RoundState>)
    requires Driven(env, primary, sources, limit, start, history) && history != []
    ensures Quiet(env, 0, LastStart(primary, history).lookups)
  {
    EarlierQuiet(env, primary, sources, limit, start, history[..|history| - 1]);
  }

  /**
   * A finished run made only readable lookups and reports completion exactly when
   * one of them saw it.
   */
  lemma FinishedMeans(
    env: Env, primary: FileHash, sources: seq<FoundSource>, limit: nat, start: Instant, history: seq<RoundState>,
    end: RoundEnd)
    requires Driven(env, primary, sources, limit, start, history) && history != []
    requires EndsAs(env, primary, LastStart(primary, history), Last(history), end)
    requires Conclude(env, primary, history, end).Finished?
    ensures !Unreadable(env, 0, LookupsMade(primary, history, end))
    ensures Conclude(env, primary, history, end).completed <==> SeenDone(env, 0, LookupsMade(primary, history, end))
  {
    QuietUntilLast(env, primary, sources, limit, start, history);
    LookupsSeen(env, primary, history, end);
    QuietThen(env, 0, LastStart(primary, history).lookups, LookupsMade(primary, history, end));
  }

  lemma LookupsSeen(env: Env, primary: FileHash, history: seq<RoundState>, end: RoundEnd)
    requires history != [] && EndsAs(env, primary, LastStart(primary, history), Last(history), end)
    requires Conclude(env, primary, history, end).Finished?
    ensures var from, made := LastStart(primary, history).lookups, LookupsMade(primary, history, end);
      && !Unreadable(env, from, made)
      && (Conclude(env, primary, history, end).completed <==> SeenDone(env, from, made))
  {
    if end.PrimaryDone? {
      DoneLookups(env, primary, history);
    } else {
      DrainedLookups(env, primary, history);
    }
  }

  /** A run that finishes without completion was told so by its last lookup, and left nothing in flight. */
  lemma IncompleteMeans(env: Env, primary: FileHash, history: seq<RoundState>, end: RoundEnd)
    requires history != [] && EndsAs(env, primary, LastStart(primary, history), Last(history), end)
    requires Conclude(env, primary, history, end).Finished? && !Conclude(env, primary, history, end).completed
    ensures end == Drained && 0 < LookupsMade(primary, history, end)
    ensures env.manifestCompleted(LookupsMade(primary, history, end) - 1) == Some(false)
    ensures Last(history).active == []
  {
    OnlyDrained(env, primary, history, end);
    IncompleteDrained(env, primary, history);
  }

  lemma LastRan(
    env: Env, primary: FileHash, sources: seq<FoundSource>, limit: nat, start: Instant, history: seq<RoundState>)
    requires Driven(env, primary, sources, limit, start, history) && history != []
    ensures Ran(env, sources, limit, LastStart(primary, history), Last(history))
  {
  }

  /** A run whose last round drained had a worker for every source, or the budget's refusal as the last word. */
  lemma LastRoundDry(
    env: Env, primary: FileHash, sources: seq<FoundSource>, limit: nat, start: Instant, history: seq<RoundState>)
    requires 0 < limit && Driven(env, primary, sources, limit, start, history) && history != []
    requires EndsAs(env, primary, LastStart(primary, history), Last(history), Drained)
    ensures RanDry(env, sources, LastStart(primary, history), Last(history))
  {
    LastRan(env, primary, sources, limit, start, history);
    DrainedIsDry(env, primary, sources, limit, LastStart(primary, history), Last(history));
  }

  lemma OnlyDrained(env: Env, primary: FileHash, history: seq<RoundState>, end: RoundEnd)
    requires history != []
    requires Conclude(env, primary, history, end).Finished? && !Conclude(env, primary, history, end).completed
    ensures end == Drained
  {
  }

  lemma IncompleteDrained(env: Env, primary: FileHash, history: seq<RoundState>)
    requires history != []
    requires Conclude(env, primary, history, Drained).Finished? && !Conclude(env, primary, history, Drained).completed
    ensures env.manifestCompleted(ClosingLookup(primary, history)) == Some(false)
  {
  }

  /** An aborted run saw its last worker panic, or a lookup fail. */
  lemma AbortedMeans(env: Env, primary: FileHash, history: seq<RoundState>, end: RoundEnd)
    requires history != [] && EndsAs(env, primary, LastStart(primary, history), Last(history), end)
    requires Conclude(env, primary, history, end).Aborted?
    ensures
      || (Last(history).log != [] && Last(Last(history).log).end.Panicked?)
      || Unreadable(env, LastStart(primary, history).lookups, ClosingLookup(primary, history) + 1)
  {
    var log := Last(history).log;
    if end.ManifestUnreadable? {
      assert log == log[..|log| - 1] + [Last(log)];
      LookupsOne(primary, log[..|log| - 1], Last(log));
    }
  }
}
