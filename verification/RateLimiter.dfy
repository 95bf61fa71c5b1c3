/** The sliding-window limiter of failed authentications.

    The server keeps, per address, a list of the times of the failures it recorded; it trims
    the list at every check and drops whole lists now and then.  It is proved to decide as a
    limiter that keeps every recorded time for ever, and that limiter to admit at most
    MAX_FAILURES in any window. */
module RateLimiter {
  import opened Collections

  const MAX_FAILURES: nat := 20
  const WINDOW: real := 60.0
  const PRUNE_WINDOW: real := 120.0
  const PRUNE_INTERVAL: nat := 100

  type Times = seq<real>

  function Lookup(m: map<string, Times>, ip: string): Times {
    if ip in m then m[ip] else []
  }

  /** The times that are less than a window old. */
  function Recent(ts: Times, now: real): Times {
    if ts == [] then []
    else (if now - ts[0] < WINDOW then [ts[0]] else []) + Recent(ts[1..], now)
  }

  predicate Stale(ts: Times, now: real) {
    ts == [] || now - ts[|ts| - 1] > PRUNE_WINDOW
  }

  function Pruned(m: map<string, Times>, now: real): map<string, Times> {
    map ip | ip in m && !Stale(m[ip], now) :: m[ip]
  }

  /** What reaches the middleware; the two times are the readings of the clock by the check and
      by the record of a failure. */
  datatype Request =
    | Health
    | NoBearer
    | ValidToken
    | BadToken(ip: string, checked: real, recorded: real)

  datatype Response = Forwarded | Missing401 | Invalid401 | TooMany429

  datatype Limiter = Limiter(failures: map<string, Times>, checks: nat)

  const INITIAL := Limiter(map[], 0)

  /** Every `interval`-th check prunes first; 0 stands for a limiter that never prunes. */
  function AfterPrune(s: Limiter, now: real, interval: nat): map<string, Times> {
    if interval != 0 && (s.checks + 1) % interval == 0 then Pruned(s.failures, now) else s.failures
  }

  /** `_check_rate_limit`. */
  function Check(s: Limiter, ip: string, now: real, interval: nat): (Limiter, bool) {
    var kept := AfterPrune(s, now, interval);
    var recent := Recent(Lookup(kept, ip), now);
    (Limiter(kept[ip := recent], s.checks + 1), |recent| < MAX_FAILURES)
  }

  /** `_record_auth_failure`. */
  function Record(s: Limiter, ip: string, now: real): Limiter {
    s.(failures := s.failures[ip := Lookup(s.failures, ip) + [now]])
  }

  function Dispatch(s: Limiter, r: Request, interval: nat): (Limiter, Response) {
    match r
    case Health => (s, Forwarded)
    case NoBearer => (s, Missing401)
    case ValidToken => (s, Forwarded)
    case BadToken(ip, checked, recorded) =>
      var (s', allowed) := Check(s, ip, checked, interval);
      if !allowed then (s', TooMany429) else (Record(s', ip, recorded), Invalid401)
  }

  // ---------------------------------------------------------------- the limiter of the server

  class AuthLimiter {
    var failures: map<string, Times>
    var checks: nat

    constructor ()
      ensures State() == INITIAL
    {
      failures, checks := map[], 0;
    }

    function State(): Limiter
      reads this
    {
      Limiter(failures, checks)
    }

    method PruneAuthFailures(now: real)
      modifies this`failures
      ensures failures == Pruned(old(failures), now)
    {
      var todo := failures.Keys;
      ghost var before := failures;
      while todo != {}
        invariant todo <= failures.Keys <= before.Keys
        invariant forall ip | ip in before :: ip in failures <==> ip in todo || !Stale(before[ip], now)
        invariant forall ip | ip in failures :: failures[ip] == before[ip]
        decreases todo
      {
        var ip :| ip in todo;
        if Stale(failures[ip], now) { failures := failures - {ip}; }
        todo := todo - {ip};
      }
    }

    method CheckRateLimit(ip: string, now: real) returns (allowed: bool)
      modifies this
      ensures (State(), allowed) == Check(old(State()), ip, now, PRUNE_INTERVAL)
    {
      checks := checks + 1;
      if checks % PRUNE_INTERVAL == 0 { PruneAuthFailures(now); }
      var recent := Recent(Lookup(failures, ip), now);
      failures := failures[ip := recent];
      allowed := |recent| < MAX_FAILURES;
    }

    method RecordAuthFailure(ip: string, now: real)
      modifies this`failures
      ensures State() == Record(old(State()), ip, now)
    {
      failures := failures[ip := Lookup(failures, ip) + [now]];
    }

    method DispatchRequest(r: Request) returns (response: Response)
      modifies this
      ensures (State(), response) == Dispatch(old(State()), r, PRUNE_INTERVAL)
    {
      match r
      case Health => response := Forwarded;
      case NoBearer => response := Missing401;
      case ValidToken => response := Forwarded;
      case BadToken(ip, checked, recorded) =>
        var allowed := CheckRateLimit(ip, checked);
        if !allowed { return TooMany429; }
        RecordAuthFailure(ip, recorded);
        response := Invalid401;
    }
  }

  // ---------------------------------------------------------------- whole runs

  /** The clock never goes back: not between requests, and not within one. */
  ghost predicate Monotone(rs: seq<Request>, start: real)
    decreases |rs|
  {
    rs == [] ||
    (if rs[0].BadToken? then start <= rs[0].checked <= rs[0].recorded && Monotone(rs[1..], rs[0].recorded)
     else Monotone(rs[1..], start))
  }

  ghost function Run(s: Limiter, rs: seq<Request>, interval: nat): (Limiter, seq<Response>)
    decreases |rs|
  {
    if rs == [] then (s, [])
    else
      var (s', a) := Dispatch(s, rs[0], interval);
      var (s'', more) := Run(s', rs[1..], interval);
      (s'', [a] + more)
  }

  /** The limiter that forgets nothing: `log` holds every recorded time of every address. */
  ghost function Ideal(log: map<string, Times>, r: Request): (map<string, Times>, Response) {
    match r
    case Health => (log, Forwarded)
    case NoBearer => (log, Missing401)
    case ValidToken => (log, Forwarded)
    case BadToken(ip, checked, recorded) =>
      if |Recent(Lookup(log, ip), checked)| < MAX_FAILURES
      then (log[ip := Lookup(log, ip) + [recorded]], Invalid401)
      else (log, TooMany429)
  }

  ghost function IdealRun(log: map<string, Times>, rs: seq<Request>): (map<string, Times>, seq<Response>)
    decreases |rs|
  {
    if rs == [] then (log, [])
    else
      var (log', a) := Ideal(log, rs[0]);
      var (log'', more) := IdealRun(log', rs[1..]);
      (log'', [a] + more)
  }

  ghost predicate SortedUpTo(ts: Times, now: real) {
    && (forall i, j | 0 <= i < j < |ts| :: ts[i] <= ts[j])
    && forall i | 0 <= i < |ts| :: ts[i] <= now
  }

  /** `kept` is what is left of `all` after forgetting times that are a window old by `now`. */
  ghost predicate Forgot(all: Times, kept: Times, now: real) {
    && |kept| <= |all| && kept == all[|all| - |kept|..]
    && forall i | 0 <= i < |all| - |kept| :: now - all[i] >= WINDOW
  }

  ghost predicate RelatedAt(all: Times, kept: Times, now: real) {
    SortedUpTo(all, now) && Forgot(all, kept, now) && |kept| <= MAX_FAILURES
  }

  ghost predicate Related(s: Limiter, log: map<string, Times>, now: real) {
    forall ip :: RelatedAt(Lookup(log, ip), Lookup(s.failures, ip), now)
  }

  lemma {:induction false} RecentOfConcat(a: Times, b: Times, now: real)
    ensures Recent(a + b, now) == Recent(a, now) + Recent(b, now)
    decreases |a|
  {
    if a == [] { assert a + b == b; }
    else {
      assert (a + b)[1..] == a[1..] + b;
      RecentOfConcat(a[1..], b, now);
    }
  }

  lemma {:induction false} RecentOfOld(a: Times, now: real)
    requires forall i | 0 <= i < |a| :: now - a[i] >= WINDOW
    ensures Recent(a, now) == []
    decreases |a|
  {
    if a != [] { RecentOfOld(a[1..], now); }
  }

  /** Forgetting changes no later look at the recent times. */
  lemma {:induction false} ForgottenIsNotRecent(all: Times, kept: Times, earlier: real, now: real)
    requires Forgot(all, kept, earlier) && earlier <= now
    ensures Recent(kept, now) == Recent(all, now)
  {
    var gone := all[..|all| - |kept|];
    assert all == gone + kept;
    RecentOfOld(gone, now);
    RecentOfConcat(gone, kept, now);
  }

  lemma {:induction false} AllRecent(ts: Times, now: real)
    requires forall i | 0 <= i < |ts| :: now - ts[i] < WINDOW
    ensures Recent(ts, now) == ts
    decreases |ts|
  {
    if ts != [] {
      AllRecent(ts[1..], now);
      assert ts == [ts[0]] + ts[1..];
    }
  }

  /** In a sorted list the recent times are at the end. */
  lemma {:induction false} RecentIsSuffix(ts: Times, now: real)
    requires forall i, j | 0 <= i < j < |ts| :: ts[i] <= ts[j]
    ensures Forgot(ts, Recent(ts, now), now)
    decreases |ts|
  {
    if ts != [] {
      if now - ts[0] < WINDOW {
        AllRecent(ts, now);
      } else {
        var r := Recent(ts[1..], now);
        RecentIsSuffix(ts[1..], now);
        assert ts == [ts[0]] + ts[1..];
        assert r == ts[|ts| - |r|..];
        forall i | 0 <= i < |ts| - |r| ensures now - ts[i] >= WINDOW {
          if i > 0 { assert ts[i] == ts[1..][i - 1]; }
        }
      }
    }
  }

  /** A list that goes as a whole held only old times. */
  lemma {:induction false} StaleIsForgotten(all: Times, kept: Times, now: real)
    requires RelatedAt(all, kept, now) && Stale(kept, now)
    ensures RelatedAt(all, [], now)
  {
    forall i | 0 <= i < |all| ensures now - all[i] >= WINDOW {
      if i >= |all| - |kept| { assert all[i] <= all[|all| - 1] == kept[|kept| - 1]; }
    }
    assert all[|all|..] == [];
  }

  lemma {:induction false} PruneKeepsRelation(s: Limiter, log: map<string, Times>, now: real)
    requires Related(s, log, now)
    ensures Related(s.(failures := Pruned(s.failures, now)), log, now)
  {
    forall ip ensures RelatedAt(Lookup(log, ip), Lookup(Pruned(s.failures, now), ip), now) {
      assert RelatedAt(Lookup(log, ip), Lookup(s.failures, ip), now);
      if Stale(Lookup(s.failures, ip), now) { StaleIsForgotten(Lookup(log, ip), Lookup(s.failures, ip), now); }
    }
  }

  lemma {:induction false} TimePasses(s: Limiter, log: map<string, Times>, earlier: real, now: real)
    requires Related(s, log, earlier) && earlier <= now
    ensures Related(s, log, now)
  {
    forall ip ensures RelatedAt(Lookup(log, ip), Lookup(s.failures, ip), now) {
      assert RelatedAt(Lookup(log, ip), Lookup(s.failures, ip), earlier);
    }
  }

  lemma {:induction false} TrimKeepsRelation(all: Times, kept: Times, now: real)
    requires RelatedAt(all, kept, now)
    ensures Recent(kept, now) == Recent(all, now)
    ensures RelatedAt(all, Recent(kept, now), now)
  {
    ForgottenIsNotRecent(all, kept, now, now);
    RecentIsSuffix(all, now);
    RecentIsNoLonger(kept, now);
  }

  lemma {:induction false} RecentIsNoLonger(ts: Times, now: real)
    ensures |Recent(ts, now)| <= |ts|
    decreases |ts|
  {
    if ts != [] { RecentIsNoLonger(ts[1..], now); }
  }

  /** One check of the server and one of the limiter that forgets nothing. */
  lemma {:induction false} CheckRefines(s: Limiter, log: map<string, Times>, ip: string, now: real, interval: nat)
    requires Related(s, log, now)
    ensures
      var (s', allowed) := Check(s, ip, now, interval);
      && Lookup(s'.failures, ip) == Recent(Lookup(log, ip), now)
      && allowed == (|Recent(Lookup(log, ip), now)| < MAX_FAILURES)
      && Related(s', log, now)
  {
    PruneKeepsRelation(s, log, now);
    var kept := AfterPrune(s, now, interval);
    TrimOne(Limiter(kept, s.checks + 1), log, ip, now);
  }

  lemma {:induction false} TrimOne(s: Limiter, log: map<string, Times>, ip: string, now: real)
    requires Related(s, log, now)
    ensures Recent(Lookup(s.failures, ip), now) == Recent(Lookup(log, ip), now)
    ensures Related(s.(failures := s.failures[ip := Recent(Lookup(s.failures, ip), now)]), log, now)
  {
    var all, kept := Lookup(log, ip), Lookup(s.failures, ip);
    assert RelatedAt(all, kept, now);
    TrimKeepsRelation(all, kept, now);
    var m := s.failures[ip := Recent(kept, now)];
    forall other ensures RelatedAt(Lookup(log, other), Lookup(m, other), now) {
      assert RelatedAt(Lookup(log, other), Lookup(s.failures, other), now);
      assert other == ip ==> Lookup(m, other) == Recent(kept, now);
      assert other != ip ==> Lookup(m, other) == Lookup(s.failures, other);
    }
  }

  lemma {:induction false} RecordAt(all: Times, kept: Times, t: real)
    requires RelatedAt(all, kept, t) && |kept| < MAX_FAILURES
    ensures RelatedAt(all + [t], kept + [t], t)
  {
    assert (all + [t])[|all| - |kept|..] == all[|all| - |kept|..] + [t];
  }

  lemma {:induction false} RecordRefines(s: Limiter, log: map<string, Times>, ip: string, now: real, t: real)
    requires Related(s, log, now) && now <= t && |Lookup(s.failures, ip)| < MAX_FAILURES
    ensures Related(Record(s, ip, t), log[ip := Lookup(log, ip) + [t]], t)
  {
    TimePasses(s, log, now, t);
    assert RelatedAt(Lookup(log, ip), Lookup(s.failures, ip), t);
    RecordAt(Lookup(log, ip), Lookup(s.failures, ip), t);
    forall other
      ensures RelatedAt(Lookup(log[ip := Lookup(log, ip) + [t]], other), Lookup(Record(s, ip, t).failures, other), t)
    {
      assert RelatedAt(Lookup(log, other), Lookup(s.failures, other), t);
    }
  }

  function TimeAfter(r: Request, earlier: real): real {
    if r.BadToken? then r.recorded else earlier
  }

  lemma {:induction false} DispatchRefines(s: Limiter, log: map<string, Times>, r: Request, earlier: real, interval: nat)
    requires Related(s, log, earlier)
    requires r.BadToken? ==> earlier <= r.checked <= r.recorded
    ensures Dispatch(s, r, interval).1 == Ideal(log, r).1
    ensures Related(Dispatch(s, r, interval).0, Ideal(log, r).0, TimeAfter(r, earlier))
  {
    if r.BadToken? {
      TimePasses(s, log, earlier, r.checked);
      CheckRefines(s, log, r.ip, r.checked, interval);
      var (s', allowed) := Check(s, r.ip, r.checked, interval);
      if allowed {
        RecordRefines(s', log, r.ip, r.checked, r.recorded);
      } else {
        TimePasses(s', log, r.checked, r.recorded);
      }
    }
  }

  /** Over every run the server answers as the limiter that forgets nothing, and every list it
      keeps is short. */
  lemma {:induction false} RunRefines(s: Limiter, log: map<string, Times>, rs: seq<Request>, earlier: real, interval: nat)
    requires Related(s, log, earlier) && Monotone(rs, earlier)
    ensures Run(s, rs, interval).1 == IdealRun(log, rs).1
    ensures exists now :: Related(Run(s, rs, interval).0, IdealRun(log, rs).0, now)
    decreases |rs|
  {
    if rs != [] {
      DispatchRefines(s, log, rs[0], earlier, interval);
      RunRefines(Dispatch(s, rs[0], interval).0, Ideal(log, rs[0]).0, rs[1..], TimeAfter(rs[0], earlier), interval);
    }
  }

  lemma {:induction false} InitiallyRelated(now: real)
    ensures Related(INITIAL, map[], now)
  {
  }

  /** Pruning changes no answer, at whatever interval it runs. */
  lemma {:induction false} PruningIsInvisible(rs: seq<Request>, start: real, interval: nat)
    requires Monotone(rs, start)
    ensures Run(INITIAL, rs, interval).1 == Run(INITIAL, rs, 0).1
  {
    InitiallyRelated(start);
    RunRefines(INITIAL, map[], rs, start, interval);
    RunRefines(INITIAL, map[], rs, start, 0);
  }

  // ---------------------------------------------------------------- the bound

  /** The times in the half-open window that starts at `from`. */
  ghost function InWindow(ts: Times, from: real): Times {
    if ts == [] then []
    else (if from <= ts[0] < from + WINDOW then [ts[0]] else []) + InWindow(ts[1..], from)
  }

  ghost predicate Bounded(log: map<string, Times>) {
    forall ip, from :: |InWindow(Lookup(log, ip), from)| <= MAX_FAILURES
  }

  lemma {:induction false} WindowOfConcat(a: Times, t: real, from: real)
    ensures InWindow(a + [t], from) == InWindow(a, from) + (if from <= t < from + WINDOW then [t] else [])
    decreases |a|
  {
    if a == [] { assert a + [t] == [t] && [t][1..] == []; }
    else {
      assert (a + [t])[1..] == a[1..] + [t];
      WindowOfConcat(a[1..], t, from);
      var x, y, z := if from <= a[0] < from + WINDOW then [a[0]] else [], InWindow(a[1..], from), if from <= t < from + WINDOW then [t] else [];
      Associate(x, y, z);
    }
  }

  lemma {:induction false} WindowWithinRecent(ts: Times, from: real, now: real)
    requires now - from < WINDOW
    ensures |InWindow(ts, from)| <= |Recent(ts, now)|
    decreases |ts|
  {
    if ts != [] { WindowWithinRecent(ts[1..], from, now); }
  }

  lemma {:induction false} IdealKeepsBound(log: map<string, Times>, r: Request)
    requires Bounded(log)
    requires r.BadToken? ==> r.checked <= r.recorded
    ensures Bounded(Ideal(log, r).0)
  {
    if r.BadToken? && |Recent(Lookup(log, r.ip), r.checked)| < MAX_FAILURES {
      var log' := Ideal(log, r).0;
      forall ip, from ensures |InWindow(Lookup(log', ip), from)| <= MAX_FAILURES {
        assert |InWindow(Lookup(log, ip), from)| <= MAX_FAILURES;
        if ip == r.ip {
          WindowOfConcat(Lookup(log, ip), r.recorded, from);
          if from <= r.recorded < from + WINDOW {
            WindowWithinRecent(Lookup(log, ip), from, r.checked);
          }
        }
      }
    }
  }

  lemma {:induction false} IdealRunKeepsBound(log: map<string, Times>, rs: seq<Request>, earlier: real)
    requires Bounded(log) && Monotone(rs, earlier)
    ensures Bounded(IdealRun(log, rs).0)
    decreases |rs|
  {
    if rs != [] {
      IdealKeepsBound(log, rs[0]);
      IdealRunKeepsBound(Ideal(log, rs[0]).0, rs[1..], TimeAfter(rs[0], earlier));
    }
  }

  /** The times at which the answers `as` say that a failure of `ip` was recorded. */
  ghost function Recorded(rs: seq<Request>, answers: seq<Response>, ip: string): Times
    requires |rs| == |answers|
    decreases |rs|
  {
    if rs == [] then []
    else (if answers[0] == Invalid401 && rs[0].BadToken? && rs[0].ip == ip then [rs[0].recorded] else [])
         + Recorded(rs[1..], answers[1..], ip)
  }

  lemma {:induction false} RunLength(s: Limiter, rs: seq<Request>, interval: nat)
    ensures |Run(s, rs, interval).1| == |rs|
    decreases |rs|
  {
    if rs != [] { RunLength(Dispatch(s, rs[0], interval).0, rs[1..], interval); }
  }

  lemma {:induction false} LogIsWhatWasAnswered(log: map<string, Times>, rs: seq<Request>, ip: string)
    ensures |IdealRun(log, rs).1| == |rs|
    ensures Lookup(IdealRun(log, rs).0, ip) == Lookup(log, ip) + Recorded(rs, IdealRun(log, rs).1, ip)
    decreases |rs|
  {
    if rs != [] {
      var (log', a) := Ideal(log, rs[0]);
      LogIsWhatWasAnswered(log', rs[1..], ip);
      var answers := IdealRun(log, rs).1;
      assert answers[1..] == IdealRun(log', rs[1..]).1;
      if answers[0] == Invalid401 && rs[0].BadToken? && rs[0].ip == ip {
        assert Lookup(log', ip) == Lookup(log, ip) + [rs[0].recorded];
      } else {
        assert Lookup(log', ip) == Lookup(log, ip);
      }
    }
  }

  /** The bound: over every run of the server from its start, any half-open window of a minute
      holds at most MAX_FAILURES recorded failures of one address. */
  lemma {:induction false} SlidingWindowBound(rs: seq<Request>, start: real, ip: string, from: real)
    requires Monotone(rs, start)
    ensures |Run(INITIAL, rs, PRUNE_INTERVAL).1| == |rs|
    ensures |InWindow(Recorded(rs, Run(INITIAL, rs, PRUNE_INTERVAL).1, ip), from)| <= MAX_FAILURES
  {
    InitiallyRelated(start);
    RunRefines(INITIAL, map[], rs, start, PRUNE_INTERVAL);
    LogIsWhatWasAnswered(map[], rs, ip);
    assert Bounded(map[]);
    IdealRunKeepsBound(map[], rs, start);
    assert Lookup(IdealRun(map[], rs).0, ip) == Recorded(rs, IdealRun(map[], rs).1, ip);
  }

  /** The bound is reached, and then holds off: an attempt is refused exactly when MAX_FAILURES
      failures of its address were recorded in the minute before its check. */
  lemma {:induction false} RefusedExactlyAtTheBound(rs: seq<Request>, start: real, r: Request)
    requires Monotone(rs + [r], start) && r.BadToken?
    ensures |Run(INITIAL, rs, PRUNE_INTERVAL).1| == |rs|
    ensures
      var answers := Run(INITIAL, rs, PRUNE_INTERVAL).1;
      Dispatch(Run(INITIAL, rs, PRUNE_INTERVAL).0, r, PRUNE_INTERVAL).1 == TooMany429 <==>
        |Recent(Recorded(rs, answers, r.ip), r.checked)| >= MAX_FAILURES
  {
    InitiallyRelated(start);
    MonotonePrefix(rs, r, start);
    RunEnds(INITIAL, map[], rs, start, PRUNE_INTERVAL);
    LogIsWhatWasAnswered(map[], rs, r.ip);
    var log := IdealRun(map[], rs).0;
    DispatchRefines(Run(INITIAL, rs, PRUNE_INTERVAL).0, log, r, EndTime(rs, start), PRUNE_INTERVAL);
    assert Lookup(log, r.ip) == Recorded(rs, IdealRun(map[], rs).1, r.ip);
  }

  ghost function EndTime(rs: seq<Request>, start: real): real
    decreases |rs|
  {
    if rs == [] then start else EndTime(rs[1..], TimeAfter(rs[0], start))
  }

  lemma {:induction false} MonotonePrefix(rs: seq<Request>, r: Request, start: real)
    requires Monotone(rs + [r], start)
    ensures Monotone(rs, start)
    ensures r.BadToken? ==> EndTime(rs, start) <= r.checked <= r.recorded
    decreases |rs|
  {
    if rs == [] {
      assert (rs + [r])[0] == r;
    } else {
      assert (rs + [r])[1..] == rs[1..] + [r];
      MonotonePrefix(rs[1..], r, TimeAfter(rs[0], start));
    }
  }

  lemma {:induction false} RunEnds(s: Limiter, log: map<string, Times>, rs: seq<Request>, earlier: real, interval: nat)
    requires Related(s, log, earlier) && Monotone(rs, earlier)
    ensures Run(s, rs, interval).1 == IdealRun(log, rs).1
    ensures Related(Run(s, rs, interval).0, IdealRun(log, rs).0, EndTime(rs, earlier))
    decreases |rs|
  {
    if rs != [] {
      DispatchRefines(s, log, rs[0], earlier, interval);
      RunEnds(Dispatch(s, rs[0], interval).0, Ideal(log, rs[0]).0, rs[1..], TimeAfter(rs[0], earlier), interval);
    }
  }
}
