/** Clock arithmetic and small containers shared by every component. */
module Common {

  /** A point of the monotonic clock, in nanoseconds. Durations use the same unit. */
  type Instant = nat
  type Duration = nat

  const SECOND: Duration := 1_000_000_000
  const MINUTE: Duration := 60 * SECOND

  datatype Option<+T> = None | Some(value: T)

  function Last<T>(s: seq<T>): T
    requires s != []
  {
    s[|s| - 1]
  }

  lemma Regroup<T>(a: seq<T>, x: T, b: seq<T>)
    ensures a + ([x] + b) == (a + [x]) + b
  {
  }

  /** `now.saturating_duration_since(earlier)`: zero when `earlier` lies in the future. */
  function Elapsed(now: Instant, earlier: Instant): (d: Duration)
    ensures earlier <= now ==> earlier + d == now
    ensures now <= earlier ==> d == 0
  {
    if earlier <= now then now - earlier else 0
  }

  /** A `HashMap::retain` that keeps the stamps younger than `limit`. */
  function YoungerThan<K>(stamps: map<K, Instant>, now: Instant, limit: Duration): (kept: map<K, Instant>)
    ensures forall k :: k in kept ==> k in stamps && kept[k] == stamps[k]
    ensures forall k :: k in stamps ==> (k in kept <==> Elapsed(now, stamps[k]) < limit)
  {
    map k | k in stamps && Elapsed(now, stamps[k]) < limit :: stamps[k]
  }

  /** Any two instants lie at least `gap` apart, in order. */
  ghost predicate Spaced(times: seq<Instant>, gap: Duration) {
    forall i, j :: 0 <= i < j < |times| ==> times[i] + gap <= times[j]
  }

  lemma {:induction false} SpacedFar(times: seq<Instant>, gap: Duration, i: nat, j: nat)
    requires Spaced(times, gap)
    requires i <= j < |times|
    ensures times[i] + (j - i) * gap <= times[j]
    decreases j
  {
    if i < j {
      SpacedFar(times, gap, i, j - 1);
      assert (j - i) * gap == (j - 1 - i) * gap + gap;
    }
  }

  /**
   * The rate a minimum spacing buys: `gap`-spaced instants that all fall into a
   * closed window of length `width` number at most `width / gap + 1`.
   */
  lemma SpacedRate(times: seq<Instant>, gap: Duration, start: Instant, width: Duration)
    requires 0 < gap
    requires Spaced(times, gap)
    requires forall i :: 0 <= i < |times| ==> start <= times[i] <= start + width
    ensures |times| <= width / gap + 1
  {
    if |times| > 0 {
      var n := |times| - 1;
      SpacedFar(times, gap, 0, n);
      assert n * gap <= width;
      MulDiv(n, gap, width);
    }
  }

  lemma MulAtLeast(k: nat, gap: nat)
    requires 1 <= k
    ensures gap <= k * gap
  {
  }

  lemma MulDiv(n: nat, gap: nat, width: nat)
    requires 0 < gap
    requires n * gap <= width
    ensures n <= width / gap
  {
    var q := width / gap;
    var excess: int := n - q;
    assert excess * gap == n * gap - q * gap;
    assert excess * gap < gap;
    if 1 <= excess {
      MulAtLeast(excess, gap);
    }
  }

  /** The members of `times` inside the closed window, in order. */
  function Window(times: seq<Instant>, start: Instant, width: Duration): (inside: seq<Instant>)
    ensures forall i :: 0 <= i < |inside| ==> start <= inside[i] <= start + width
  {
    if times == [] then [] else
      var rest := Window(times[..|times| - 1], start, width);
      var last := times[|times| - 1];
      if start <= last <= start + width then rest + [last] else rest
  }

  lemma {:induction false} WindowSpaced(times: seq<Instant>, gap: Duration, start: Instant, width: Duration)
    requires Spaced(times, gap)
    ensures Spaced(Window(times, start, width), gap)
    ensures Window(times, start, width) != [] ==>
      times != [] && Last(Window(times, start, width)) <= Last(times)
  {
    if times != [] {
      var init := times[..|times| - 1];
      WindowSpaced(init, gap, start, width);
    }
  }

  /** `SpacedRate` for an arbitrary window over a whole history. */
  lemma WindowRate(times: seq<Instant>, gap: Duration, start: Instant, width: Duration)
    requires 0 < gap
    requires Spaced(times, gap)
    ensures |Window(times, start, width)| <= width / gap + 1
  {
    WindowSpaced(times, gap, start, width);
    SpacedRate(Window(times, start, width), gap, start, width);
  }
}
