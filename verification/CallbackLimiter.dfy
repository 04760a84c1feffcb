/**
 * Per-IP limiter for inbound direct-callback requests, and the event loop that
 * consults it one request at a time.
 */
module CallbackLimiter {
  import opened Common
  import opened Sources

  const WINDOW: Duration := 180 * SECOND

  const UNSPECIFIED: Ipv4 := 0
  const BROADCAST: Ipv4 := 0xFFFF_FFFF

  datatype Entry = Entry(ip: Ipv4, at: Instant)

  /** Some tracked request of `ip` is younger than the window. */
  ghost predicate Recent(history: seq<Entry>, ip: Ipv4, now: Instant) {
    exists i :: 0 <= i < |history| && history[i].ip == ip && now < history[i].at + 180 * SECOND
  }

  ghost predicate NewestFirst(history: seq<Entry>) {
    forall i, j :: 0 <= i < j < |history| ==> history[j].at <= history[i].at
  }

  ghost function Newest(history: seq<Entry>): Instant {
    if history == [] then 0 else history[0].at
  }

  class DirectCallbackRateLimiter {
    var entries: seq<Entry>
    /** Every request ever tracked, newest first; nothing is removed from it. */
    ghost var history: seq<Entry>

    /** The deque is the recent end of the history, and what it dropped had already expired. */
    ghost predicate Valid()
      reads this
    {
      && NewestFirst(history)
      && |entries| <= |history|
      && entries == history[..|entries|]
      && forall i :: |entries| <= i < |history| ==> history[i].at + 180 * SECOND <= Newest(history)
    }

    constructor ()
      ensures Valid() && history == [] && entries == []
    {
      entries := [];
      history := [];
    }

    method AllowAt(ip: Ipv4, now: Instant) returns (allowed: bool)
      requires Valid() && Newest(history) <= now
      ensures allowed <==> !Recent(history, ip, now)
    {
      for k := 0 to |entries|
        invariant !Recent(entries[..k], ip, now)
      {
        if entries[k].ip == ip && Elapsed(now, entries[k].at) < WINDOW {
          assert history[k] == entries[k];
          return false;
        }
      }
      assert entries[..|entries|] == entries;
      return true;
    }

    method TrackAt(ip: Ipv4, now: Instant)
      requires Valid() && Newest(history) <= now
      modifies this
      ensures Valid() && history == [Entry(ip, now)] + old(history)
      ensures forall i :: 0 <= i < |entries| ==> now < entries[i].at + 180 * SECOND
    {
      entries := [Entry(ip, now)] + entries;
      history := [Entry(ip, now)] + history;
      while entries != []
        invariant |entries| <= |history| && entries == history[..|entries|]
        invariant history == [Entry(ip, now)] + old(history) && NewestFirst(history)
        invariant forall i :: |entries| <= i < |history| ==> history[i].at + WINDOW <= now
        decreases |entries|
      {
        if Elapsed(now, entries[|entries| - 1].at) >= WINDOW {
          entries := entries[..|entries| - 1];
        } else {
          break;
        }
      }
    }
  }

  // ---------------------------------------------------------------- the caller

  /** One event: the live facts the handler reads, and when it reads the clock. */
  datatype Request = Request(
    ip: Ipv4, tcpPort: nat, kadRunning: bool, firewalled: bool, askedAt: Instant, trackedAt: Instant)

  predicate TargetIsValid(ip: Ipv4, tcpPort: nat) {
    tcpPort != 0 && ip != UNSPECIFIED && ip != BROADCAST
  }

  ghost predicate Accepts(history: seq<Entry>, r: Request) {
    && r.kadRunning && r.firewalled
    && r.tcpPort != 0 && r.ip != 0 && r.ip != 0xFFFF_FFFF
    && !Recent(history, r.ip, r.askedAt)
  }

  method HandleRequest(limiter: DirectCallbackRateLimiter, r: Request) returns (accepted: bool)
    requires limiter.Valid() && Newest(limiter.history) <= r.askedAt <= r.trackedAt
    modifies limiter
    ensures limiter.Valid()
    ensures accepted <==> Accepts(old(limiter.history), r)
    ensures limiter.history ==
      if accepted then [Entry(r.ip, r.trackedAt)] + old(limiter.history) else old(limiter.history)
    ensures !accepted ==> limiter.entries == old(limiter.entries)
  {
    if !r.kadRunning {
      return false;
    }
    if !TargetIsValid(r.ip, r.tcpPort) {
      return false;
    }
    var allowed := limiter.AllowAt(r.ip, r.askedAt);
    if !allowed {
      return false;
    }
    if !r.firewalled {
      return false;
    }
    limiter.TrackAt(r.ip, r.trackedAt);
    return true;
  }

  /** The loop awaits each handler: a request is asked after its predecessor was settled. */
  ghost predicate Sequential(from: Instant, requests: seq<Request>) {
    requests == [] ||
    var init, last := requests[..|requests| - 1], requests[|requests| - 1];
    Sequential(from, init) && SettledAt(from, init) <= last.askedAt <= last.trackedAt
  }

  ghost function SettledAt(from: Instant, requests: seq<Request>): Instant {
    if requests == [] then from else requests[|requests| - 1].trackedAt
  }

  /** The unpruned history a sequence of requests produces. */
  ghost function Served(requests: seq<Request>): seq<Entry> {
    if requests == [] then [] else
      var before := Served(requests[..|requests| - 1]);
      var last := requests[|requests| - 1];
      if Accepts(before, last) then [Entry(last.ip, last.trackedAt)] + before else before
  }

  lemma {:induction false} SequentialPrefix(from: Instant, requests: seq<Request>, n: nat)
    requires Sequential(from, requests) && n <= |requests|
    ensures Sequential(from, requests[..n])
    decreases |requests| - n
  {
    if n < |requests| {
      SequentialPrefix(from, requests, n + 1);
      assert requests[..n + 1][..n] == requests[..n];
    } else {
      assert requests[..n] == requests;
    }
  }

  lemma {:induction false} ServedIsOld(requests: seq<Request>)
    requires Sequential(0, requests)
    ensures Newest(Served(requests)) <= SettledAt(0, requests)
    ensures NewestFirst(Served(requests))
  {
    if requests != [] {
      ServedIsOld(requests[..|requests| - 1]);
    }
  }

  /** The reask event loop, restricted to direct-callback requests; logs what it accepts, newest first. */
  method ServeRequests(requests: seq<Request>) returns (accepted: seq<Entry>)
    requires Sequential(0, requests)
    ensures accepted == Served(requests)
  {
    var limiter := new DirectCallbackRateLimiter();
    accepted := [];
    for k := 0 to |requests|
      invariant fresh(limiter) && limiter.Valid()
      invariant limiter.history == accepted == Served(requests[..k])
    {
      SequentialPrefix(0, requests, k);
      SequentialPrefix(0, requests, k + 1);
      assert requests[..k + 1][..k] == requests[..k];
      ServedIsOld(requests[..k]);
      var ok := HandleRequest(limiter, requests[k]);
      if ok {
        accepted := [Entry(requests[k].ip, requests[k].trackedAt)] + accepted;
      }
    }
    assert requests[..|requests|] == requests;
  }

  /** When `ip` was accepted, oldest first. */
  ghost function AcceptTimes(history: seq<Entry>, ip: Ipv4): seq<Instant> {
    if history == [] then [] else
      var older := AcceptTimes(history[1..], ip);
      if history[0].ip == ip then older + [history[0].at] else older
  }

  lemma {:induction false} LastAcceptTime(history: seq<Entry>, ip: Ipv4)
    requires AcceptTimes(history, ip) != []
    ensures Entry(ip, Last(AcceptTimes(history, ip))) in history
  {
    if history[0].ip != ip {
      LastAcceptTime(history[1..], ip);
    }
  }

  /** An acceptance adds its own time, behind the earlier ones of its address. */
  lemma AcceptTimesOne(e: Entry, before: seq<Entry>, ip: Ipv4)
    ensures AcceptTimes([e] + before, ip) == AcceptTimes(before, ip) + if e.ip == ip then [e.at] else []
  {
    assert ([e] + before)[1..] == before;
  }

  lemma SpacedOne(times: seq<Instant>, gap: Duration, t: Instant)
    requires Spaced(times, gap)
    requires times != [] ==> Last(times) + gap <= t
    ensures Spaced(times + [t], gap)
  {
    var longer := times + [t];
    forall i, j | 0 <= i < j < |longer| ensures longer[i] + gap <= longer[j] {
      if j == |times| && i < j - 1 {
        assert times[i] + gap <= times[j - 1];
      }
    }
  }

  lemma {:induction false} AcceptedApart(requests: seq<Request>, ip: Ipv4)
    requires Sequential(0, requests)
    ensures Spaced(AcceptTimes(Served(requests), ip), 180 * SECOND)
  {
    if requests != [] {
      var init, last := requests[..|requests| - 1], requests[|requests| - 1];
      AcceptedApart(init, ip);
      var before := Served(init);
      if Accepts(before, last) {
        var times := AcceptTimes(before, ip);
        AcceptTimesOne(Entry(last.ip, last.trackedAt), before, ip);
        if last.ip == ip {
          if times != [] {
            LastAcceptTime(before, ip);
          }
          SpacedOne(times, WINDOW, last.trackedAt);
        }
      }
    }
  }

  /** Whatever arrives, one address is served at most once per window plus once. */
  lemma AcceptedRate(requests: seq<Request>, ip: Ipv4, start: Instant, width: Duration)
    requires Sequential(0, requests)
    ensures |Window(AcceptTimes(Served(requests), ip), start, width)| <= width / (180 * SECOND) + 1
  {
    AcceptedApart(requests, ip);
    WindowRate(AcceptTimes(Served(requests), ip), WINDOW, start, width);
  }
}
