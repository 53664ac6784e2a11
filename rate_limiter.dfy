/**
 * The in-memory sliding-window rate limiter: per client address a list of request instants,
 * a per-minute and a per-hour limit, and a clean-up that runs at most every ten minutes.
 * The clock is a parameter of every operation.
 */
module RateLimiting {
  import opened Time
  import Text

  /** `[ts for ts in timestamps if ts > cutoff]` */
  function KeepAfter(s: seq<Instant>, cutoff: Instant): (r: seq<Instant>)
    ensures |r| <= |s|
    ensures forall t | t in r :: t in s && t > cutoff
    ensures forall t | t in s && t > cutoff :: t in r
  {
    if s == [] then []
    else (if s[0] > cutoff then [s[0]] else []) + KeepAfter(s[1..], cutoff)
  }

  /** The number of requests in the window that starts just after `cutoff` */
  function CountAfter(s: seq<Instant>, cutoff: Instant): nat
  {
    |KeepAfter(s, cutoff)|
  }

  /** Filtering with a cutoff and then with a later one is filtering with the later one. */
  lemma {:induction false} KeepAfterTwice(s: seq<Instant>, early: Instant, late: Instant)
    requires early <= late
    ensures KeepAfter(KeepAfter(s, early), late) == KeepAfter(s, late)
  {
    if s != [] {
      KeepAfterTwice(s[1..], early, late);
      assert KeepAfter(s, early) == (if s[0] > early then [s[0]] else []) + KeepAfter(s[1..], early);
      KeepAfterAppend(if s[0] > early then [s[0]] else [], KeepAfter(s[1..], early), late);
    }
  }

  lemma {:induction false} KeepAfterAppend(a: seq<Instant>, b: seq<Instant>, cutoff: Instant)
    ensures KeepAfter(a + b, cutoff) == KeepAfter(a, cutoff) + KeepAfter(b, cutoff)
  {
    if a == [] {
      assert a + b == b;
    } else {
      assert (a + b)[1..] == a[1..] + b;
      KeepAfterAppend(a[1..], b, cutoff);
    }
  }

  /** A wider window holds at least as many requests. */
  lemma {:induction false} CountAfterMonotone(s: seq<Instant>, early: Instant, late: Instant)
    requires early <= late
    ensures CountAfter(s, late) <= CountAfter(s, early)
  {
    if s != [] {
      CountAfterMonotone(s[1..], early, late);
    }
  }

  /** A request recorded at `now` falls in every window that ends at `now`. */
  lemma RecordCounts(s: seq<Instant>, now: Instant, cutoff: Instant)
    requires cutoff < now
    ensures CountAfter(s + [now], cutoff) == CountAfter(s, cutoff) + 1
  {
    KeepAfterAppend(s, [now], cutoff);
    assert KeepAfter([now], cutoff) == [now];
  }

  /** The result of `is_rate_limited` */
  datatype Verdict = Verdict(limited: bool, reason: string)

  function MinuteMessage(limit: int): string
  {
    "Rate limit exceeded: " + Text.IntToString(limit) + " requests per minute"
  }

  function HourMessage(limit: int): string
  {
    "Rate limit exceeded: " + Text.IntToString(limit) + " requests per hour"
  }

  /** The decision `is_rate_limited` takes on one address's timestamps: the minute window is
      checked first, then the hour window. */
  function Decide(ts: seq<Instant>, perMinute: int, perHour: int, now: Instant): (v: Verdict)
    ensures v.limited <==> CountAfter(ts, now - Minute) >= perMinute || CountAfter(ts, now - Hour) >= perHour
    ensures CountAfter(ts, now - Minute) >= perMinute ==> v.reason == MinuteMessage(perMinute)
    ensures CountAfter(ts, now - Minute) < perMinute && CountAfter(ts, now - Hour) >= perHour
        ==> v.reason == HourMessage(perHour)
    ensures !v.limited <==> v.reason == ""
  {
    if CountAfter(ts, now - Minute) >= perMinute then Verdict(true, MinuteMessage(perMinute))
    else if CountAfter(ts, now - Hour) >= perHour then Verdict(true, HourMessage(perHour))
    else Verdict(false, "")
  }

  /** Once an address is limited, recording another request keeps it limited. */
  lemma LimitedStaysLimited(ts: seq<Instant>, perMinute: int, perHour: int, now: Instant)
    requires Decide(ts, perMinute, perHour, now).limited
    ensures Decide(ts + [now], perMinute, perHour, now).limited
  {
    RecordCounts(ts, now, now - Minute);
    RecordCounts(ts, now, now - Hour);
  }

  /** With the limits not yet reached in either window, one more request is allowed. */
  lemma AllowedBelowLimits(ts: seq<Instant>, perMinute: int, perHour: int, now: Instant)
    requires CountAfter(ts, now - Minute) + 1 <= perMinute && CountAfter(ts, now - Hour) + 1 <= perHour
    ensures !Decide(ts, perMinute, perHour, now).limited
  {
  }

  /** What `get_rate_limit_info` reports */
  datatype Info = Info(requestsLastMinute: nat, minuteLimit: int, requestsLastHour: nat, hourLimit: int,
                       remainingMinute: nat, remainingHour: nat)

  function InfoOf(ts: seq<Instant>, perMinute: int, perHour: int, now: Instant): (i: Info)
    ensures i.requestsLastMinute <= i.requestsLastHour <= |ts|
    ensures i.minuteLimit == perMinute && i.hourLimit == perHour
    ensures i.remainingMinute == (if perMinute > i.requestsLastMinute then perMinute - i.requestsLastMinute else 0)
    ensures i.remainingHour == (if perHour > i.requestsLastHour then perHour - i.requestsLastHour else 0)
  {
    var m := CountAfter(ts, now - Minute);
    var h := CountAfter(ts, now - Hour);
    CountAfterMonotone(ts, now - Hour, now - Minute);
    Info(m, perMinute, h, perHour, if perMinute - m > 0 then perMinute - m else 0,
         if perHour - h > 0 then perHour - h else 0)
  }

  /** The report and the decision agree: an address is limited exactly when one of the
      remaining counts is 0. */
  lemma InfoAgreesWithDecide(ts: seq<Instant>, perMinute: int, perHour: int, now: Instant)
    ensures var i := InfoOf(ts, perMinute, perHour, now);
      Decide(ts, perMinute, perHour, now).limited <==> i.remainingMinute == 0 || i.remainingHour == 0
  {
  }

  type History = map<string, seq<Instant>>

  /** `self.request_history[ip]` read through the `defaultdict` */
  function TimestampsOf(h: History, ip: string): seq<Instant>
  {
    if ip in h then h[ip] else []
  }

  /** The `defaultdict` side effect of reading `self.request_history[ip]` */
  function Touch(h: History, ip: string): (r: History)
    ensures r.Keys == h.Keys + {ip}
    ensures forall a | a in r :: r[a] == TimestampsOf(h, a)
  {
    if ip in h then h else h[ip := []]
  }

  /** The clean-up loop applied to the addresses in `done` */
  function PruneSome(h: History, done: set<string>, cutoff: Instant): (r: History)
    ensures r.Keys <= h.Keys
  {
    map ip | ip in h && (ip !in done || KeepAfter(h[ip], cutoff) != []) ::
      if ip in done then KeepAfter(h[ip], cutoff) else h[ip]
  }

  /** Before the loop no address is cleaned. */
  lemma PruneNone(h: History, cutoff: Instant)
    ensures PruneSome(h, {}, cutoff) == h
  {
  }

  /** One more round of the loop cleans one more address: its list is filtered, and dropped
      when nothing is left. */
  lemma PruneStep(h: History, done: set<string>, ip: string, cutoff: Instant)
    requires ip in h && ip !in done
    ensures var p := PruneSome(h, done, cutoff);
      && ip in p && p[ip] == h[ip]
      && var kept := KeepAfter(p[ip], cutoff);
         (if kept == [] then p[ip := kept] - {ip} else p[ip := kept]) == PruneSome(h, done + {ip}, cutoff)
  {
  }

  /** The history after a clean-up with the given cutoff */
  function Prune(h: History, cutoff: Instant): (r: History)
    ensures r.Keys <= h.Keys
    ensures forall ip | ip in r :: r[ip] != [] && forall t | t in r[ip] :: t > cutoff
  {
    PruneSome(h, h.Keys, cutoff)
  }

  /** Whether `_cleanup_old_entries` at `now` does any work */
  predicate CleanupDue(lastCleanup: Instant, now: Instant)
  {
    SecondsField(now - lastCleanup) >= 600
  }

  function AfterCleanup(h: History, lastCleanup: Instant, now: Instant): History
  {
    if CleanupDue(lastCleanup, now) then Prune(h, now - Hour) else h
  }

  function NextCleanup(lastCleanup: Instant, now: Instant): Instant
  {
    if CleanupDue(lastCleanup, now) then now else lastCleanup
  }

  /** A clean-up changes no count in any window that starts an hour ago or later. */
  lemma PruneKeepsWindows(h: History, cutoff: Instant, ip: string, windowStart: Instant)
    requires cutoff <= windowStart
    ensures CountAfter(TimestampsOf(Prune(h, cutoff), ip), windowStart) == CountAfter(TimestampsOf(h, ip), windowStart)
  {
    if ip in h {
      KeepAfterTwice(h[ip], cutoff, windowStart);
      if ip !in Prune(h, cutoff) {
        assert KeepAfter(h[ip], cutoff) == [];
      }
    }
  }

  /** Hence the clean-up never changes a decision or a report at the same instant. */
  lemma CleanupKeepsDecisions(h: History, lastCleanup: Instant, now: Instant, ip: string, perMinute: int, perHour: int)
    ensures var h' := AfterCleanup(h, lastCleanup, now);
      && Decide(TimestampsOf(h', ip), perMinute, perHour, now) == Decide(TimestampsOf(h, ip), perMinute, perHour, now)
      && InfoOf(TimestampsOf(h', ip), perMinute, perHour, now) == InfoOf(TimestampsOf(h, ip), perMinute, perHour, now)
  {
    if CleanupDue(lastCleanup, now) {
      PruneKeepsWindows(h, now - Hour, ip, now - Minute);
      PruneKeepsWindows(h, now - Hour, ip, now - Hour);
    }
  }

  /** A ten-minute gap that spans whole days does not trigger a clean-up: `.seconds` drops the
      days of the difference. */
  lemma CleanupIgnoresDays(lastCleanup: Instant, now: Instant, days: int)
    requires 0 <= now - lastCleanup < 600 * Second
    ensures !CleanupDue(lastCleanup, now + days * Day)
  {
    SecondsFieldDropsDays(now - lastCleanup, days);
    SecondsFieldWithinDay(now - lastCleanup);
    assert now + days * Day - lastCleanup == now - lastCleanup + days * Day;
  }

  class RateLimiter {
    const requestsPerMinute: int
    const requestsPerHour: int
    var history: History
    var lastCleanup: Instant

    constructor (now: Instant, requestsPerMinute: int := 60, requestsPerHour: int := 1000)
      ensures this.requestsPerMinute == requestsPerMinute && this.requestsPerHour == requestsPerHour
      ensures history == map[] && lastCleanup == now
    {
      this.requestsPerMinute := requestsPerMinute;
      this.requestsPerHour := requestsPerHour;
      history := map[];
      lastCleanup := now;
    }

    /** `_cleanup_old_entries` */
    method CleanupOldEntries(now: Instant)
      modifies this`history, this`lastCleanup
      ensures history == AfterCleanup(old(history), old(lastCleanup), now)
      ensures lastCleanup == NextCleanup(old(lastCleanup), now)
    {
      if SecondsField(now - lastCleanup) < 600 {
        return;
      }
      var cutoff := now - Hour;
      ghost var h0 := history;
      var ips := history.Keys;
      ghost var done: set<string> := {};
      PruneNone(h0, cutoff);
      while ips != {}
        invariant ips + done == h0.Keys && ips !! done
        invariant history == PruneSome(h0, done, cutoff)
        decreases ips
      {
        var ip :| ip in ips;
        PruneStep(h0, done, ip, cutoff);
        var kept := KeepAfter(history[ip], cutoff);
        history := history[ip := kept];
        if kept == [] {
          history := history - {ip};
        }
        ips := ips - {ip};
        done := done + {ip};
      }
      lastCleanup := now;
    }

    /** `is_rate_limited(ip)` at `now` */
    method IsRateLimited(ip: string, now: Instant) returns (v: Verdict)
      modifies this`history, this`lastCleanup
      ensures var h := AfterCleanup(old(history), old(lastCleanup), now);
        && history == Touch(h, ip)
        && v == Decide(TimestampsOf(h, ip), requestsPerMinute, requestsPerHour, now)
      ensures lastCleanup == NextCleanup(old(lastCleanup), now)
    {
      CleanupOldEntries(now);
      var timestamps := TimestampsOf(history, ip);
      history := Touch(history, ip);
      var minuteAgo := now - Minute;
      var recent := KeepAfter(timestamps, minuteAgo);
      if |recent| >= requestsPerMinute {
        return Verdict(true, MinuteMessage(requestsPerMinute));
      }
      var hourAgo := now - Hour;
      var hourly := KeepAfter(timestamps, hourAgo);
      if |hourly| >= requestsPerHour {
        return Verdict(true, HourMessage(requestsPerHour));
      }
      return Verdict(false, "");
    }

    /** `record_request(ip)` at `now` */
    method RecordRequest(ip: string, now: Instant)
      modifies this`history
      ensures history == old(history)[ip := TimestampsOf(old(history), ip) + [now]]
      ensures forall a | a != ip :: TimestampsOf(history, a) == TimestampsOf(old(history), a)
    {
      history := history[ip := TimestampsOf(history, ip) + [now]];
    }

    /** `get_rate_limit_info(ip)` at `now` */
    method GetRateLimitInfo(ip: string, now: Instant) returns (info: Info)
      modifies this`history
      ensures history == Touch(old(history), ip)
      ensures info == InfoOf(TimestampsOf(old(history), ip), requestsPerMinute, requestsPerHour, now)
    {
      var timestamps := TimestampsOf(history, ip);
      history := Touch(history, ip);
      var minuteAgo := now - Minute;
      var hourAgo := now - Hour;
      var lastMinute := |KeepAfter(timestamps, minuteAgo)|;
      var lastHour := |KeepAfter(timestamps, hourAgo)|;
      info := Info(lastMinute, requestsPerMinute, lastHour, requestsPerHour,
                   if requestsPerMinute - lastMinute > 0 then requestsPerMinute - lastMinute else 0,
                   if requestsPerHour - lastHour > 0 then requestsPerHour - lastHour else 0);
    }
  }

  /** A request that `is_rate_limited` lets through and that is then recorded is counted in both
      windows of the next check at the same instant. */
  method CheckThenRecord(r: RateLimiter, ip: string, now: Instant) returns (v: Verdict, info: Info)
    modifies r
    ensures !v.limited ==> info.requestsLastMinute <= r.requestsPerMinute && info.requestsLastHour <= r.requestsPerHour
    ensures !v.limited ==> info.requestsLastMinute >= 1 && info.requestsLastHour >= 1
  {
    ghost var h0 := r.history;
    ghost var c0 := r.lastCleanup;
    v := r.IsRateLimited(ip, now);
    ghost var h := AfterCleanup(h0, c0, now);
    ghost var ts := TimestampsOf(h, ip);
    if !v.limited {
      r.RecordRequest(ip, now);
      assert TimestampsOf(r.history, ip) == ts + [now];
      RecordCounts(ts, now, now - Minute);
      RecordCounts(ts, now, now - Hour);
    }
    info := r.GetRateLimitInfo(ip, now);
  }
}
