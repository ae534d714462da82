/** `RateLimitMiddleware`: a sliding window per client, checked against everything the client ever had admitted. */
module RateLimit {

  /** The timestamps inside the window that opens after `start`. */
  function Recent(times: seq<real>, start: real): seq<real> {
    if times == [] then [] else
      var before := Recent(times[..|times| - 1], start);
      if times[|times| - 1] > start then before + [times[|times| - 1]] else before
  }

  ghost predicate Ascending(times: seq<real>) {
    forall i, j :: 0 <= i < j < |times| ==> times[i] <= times[j]
  }

  ghost predicate UpTo(times: seq<real>, clock: real) {
    forall i :: 0 <= i < |times| ==> times[i] <= clock
  }

  /** `kept` is the end of `times`, and all that was dropped is no later than `start`. */
  ghost predicate KeepsAllAfter(kept: seq<real>, times: seq<real>, start: real) {
    && |kept| <= |times|
    && kept == times[|times| - |kept|..]
    && forall i :: 0 <= i < |times| - |kept| ==> times[i] <= start
  }

  /** Any two admissions `limit` places apart are at least a window apart; a limit of nothing admits nothing. */
  ghost predicate Spaced(times: seq<real>, limit: int, window: real) {
    && (limit <= 0 ==> times == [])
    && forall i, j :: 0 <= i < j < |times| && j - i >= limit ==> times[j] >= times[i] + window
  }

  /** What one client's stored list says about its whole history at the time `clock`. */
  ghost predicate Agrees(kept: seq<real>, times: seq<real>, clock: real, limit: int, window: real) {
    Ascending(times) && UpTo(times, clock) && Spaced(times, limit, window) && KeepsAllAfter(kept, times, clock - window)
  }

  lemma KeepsOneMore(kept: seq<real>, times: seq<real>, start: real, now: real)
    requires KeepsAllAfter(kept, times, start)
    ensures KeepsAllAfter(kept + [now], times + [now], start)
  {
  }

  /** Pruning the stored list counts like pruning the whole history, and keeps the two in agreement. */
  lemma Prune(kept: seq<real>, times: seq<real>, clock: real, now: real, limit: int, window: real)
    requires Agrees(kept, times, clock, limit, window) && clock <= now
    ensures Recent(kept, now - window) == Recent(times, now - window)
    ensures Agrees(Recent(kept, now - window), times, now, limit, window)
  {
    PruningIsHarmless(kept, times, clock - window, now - window);
  }

  /** An admission keeps them in agreement too. */
  lemma Admit(kept: seq<real>, times: seq<real>, now: real, limit: int, window: real)
    requires Agrees(kept, times, now, limit, window) && |Recent(times, now - window)| < limit
    ensures Agrees(kept + [now], times + [now], now, limit, window)
  {
    AdmittingKeepsSpacing(times, now, limit, window);
    KeepsOneMore(kept, times, now - window, now);
  }

  ghost function Within(times: seq<real>, from: real, to: real): set<int> {
    set i | 0 <= i < |times| && from <= times[i] < to
  }

  type Log = map<string, seq<real>>

  function LogOf(log: Log, client: string): seq<real> {
    if client in log then log[client] else []
  }

  ghost predicate AllAgree(requests: Log, admissions: Log, clock: real, limit: int, window: real) {
    && requests.Keys == admissions.Keys
    && forall client :: client in requests ==> Agrees(requests[client], admissions[client], clock, limit, window)
  }

  /** A client's stored list and its history after a request at `now`. */
  function NextKept(kept: seq<real>, now: real, limit: int, window: real): seq<real> {
    var recent := Recent(kept, now - window);
    if |recent| < limit then recent + [now] else recent
  }

  function NextTimes(times: seq<real>, now: real, limit: int, window: real): seq<real> {
    if |Recent(times, now - window)| < limit then times + [now] else times
  }

  function NextRequests(requests: Log, client: string, now: real, limit: int, window: real): Log {
    requests[client := NextKept(LogOf(requests, client), now, limit, window)]
  }

  function NextAdmissions(admissions: Log, client: string, now: real, limit: int, window: real): Log {
    admissions[client := NextTimes(LogOf(admissions, client), now, limit, window)]
  }

  lemma OneClient(kept: seq<real>, times: seq<real>, clock: real, now: real, limit: int, window: real)
    requires Agrees(kept, times, clock, limit, window) && clock <= now
    ensures Recent(kept, now - window) == Recent(times, now - window)
    ensures Agrees(NextKept(kept, now, limit, window), NextTimes(times, now, limit, window), now, limit, window)
  {
    Prune(kept, times, clock, now, limit, window);
    var recent := Recent(kept, now - window);
    if |recent| < limit {
      Admit(recent, times, now, limit, window);
    }
  }

  lemma NoClient(clock: real, limit: int, window: real)
    ensures Agrees([], [], clock, limit, window)
  {
  }

  lemma RequestKeepsAgreement(requests: Log, admissions: Log, clock: real, client: string, now: real, limit: int,
      window: real)
    requires AllAgree(requests, admissions, clock, limit, window) && clock <= now
    ensures AllAgree(NextRequests(requests, client, now, limit, window),
            NextAdmissions(admissions, client, now, limit, window), now, limit, window)
    ensures Recent(LogOf(requests, client), now - window) == Recent(LogOf(admissions, client), now - window)
  {
    NoClient(clock, limit, window);
    OneClient(LogOf(requests, client), LogOf(admissions, client), clock, now, limit, window);
    AgreeLater(requests, admissions, clock, now, limit, window);
  }

  // ---- the whole history ----

  datatype Request = Request(client: string, at: real)

  /** Every request since the start, refused ones too, the latest outermost. */
  datatype History = Start | Then(earlier: History, last: Request)

  datatype Tally = Tally(requests: Log, admissions: Log)

  /** The stored lists and the full histories after a sequence of requests. */
  function Run(history: History, limit: int, window: real): Tally {
    match history
    case Start => Tally(map[], map[])
    case Then(earlier, last) =>
      var tally := Run(earlier, limit, window);
      Tally(NextRequests(tally.requests, last.client, last.at, limit, window),
          NextAdmissions(tally.admissions, last.client, last.at, limit, window))
  }

  /** The monotonic clock never ran backwards, and has reached `clock`. */
  ghost predicate InOrderUpTo(history: History, clock: real) {
    history.Then? ==> history.last.at <= clock && InOrderUpTo(history.earlier, history.last.at)
  }

  lemma {:induction false} RunAgrees(history: History, clock: real, limit: int, window: real)
    requires InOrderUpTo(history, clock)
    ensures AllAgree(Run(history, limit, window).requests, Run(history, limit, window).admissions, clock, limit, window)
  {
    if history.Then? {
      var last := history.last;
      RunAgrees(history.earlier, last.at, limit, window);
      var tally := Run(history.earlier, limit, window);
      RequestKeepsAgreement(tally.requests, tally.admissions, last.at, last.client, last.at, limit, window);
      var next := Run(history, limit, window);
      AgreeLater(next.requests, next.admissions, last.at, clock, limit, window);
    }
  }

  lemma AgreeLater(requests: Log, admissions: Log, clock: real, now: real, limit: int, window: real)
    requires AllAgree(requests, admissions, clock, limit, window) && clock <= now
    ensures AllAgree(requests, admissions, now, limit, window)
  {
  }

  /** The pruned list of a client counts, in every window still to come, what its whole history counts. */
  lemma PrunedCountsAsUnpruned(history: History, clock: real, client: string, now: real, limit: int, window: real)
    requires InOrderUpTo(history, clock) && clock <= now
    ensures Recent(LogOf(Run(history, limit, window).requests, client), now - window)
            == Recent(LogOf(Run(history, limit, window).admissions, client), now - window)
  {
    RunAgrees(history, clock, limit, window);
    var tally := Run(history, limit, window);
    RequestKeepsAgreement(tally.requests, tally.admissions, clock, client, now, limit, window);
  }

  /** Safety: in any run, no half-open interval as long as the window holds more than the limit of one client. */
  lemma NoBurst(history: History, clock: real, limit: int, window: real, client: string, from: real)
    requires InOrderUpTo(history, clock)
    ensures |Within(LogOf(Run(history, limit, window).admissions, client), from, from + window)| <= if limit > 0
            then limit else 0
  {
    RunAgrees(history, clock, limit, window);
    var tally := Run(history, limit, window);
    var times := LogOf(tally.admissions, client);
    if client in tally.requests {
      assert Agrees(tally.requests[client], times, clock, limit, window);
      SpacedMeansFew(times, limit, window, from);
    } else {
      assert Within(times, from, from + window) == {};
    }
  }

  /**
   * A request is let through exactly if the client's whole unpruned history holds fewer than the limit in
   * the window that ends now; then, and only then, it becomes part of that history.
   */
  ghost predicate Served(before: Log, after: Log, request: Request, limit: int, window: real, admitted: bool) {
    && (admitted <==> |Recent(LogOf(before, request.client), request.at - window)| < limit)
    && LogOf(after, request.client) == LogOf(before, request.client) + (if admitted then [request.at] else [])
    && forall other :: other != request.client ==> LogOf(after, other) == LogOf(before, other)
  }

  lemma ServedNext(before: Log, request: Request, limit: int, window: real, admitted: bool)
    requires admitted <==> |Recent(LogOf(before, request.client), request.at - window)| < limit
    ensures Served(before, NextAdmissions(before, request.client, request.at, limit, window), request, limit, window,
            admitted)
  {
  }

  /** One request against the stored lists, pruned as they are, decides as the unpruned histories would. */
  lemma Serve(history: History, clock: real, request: Request, limit: int, window: real, admitted: bool)
    requires InOrderUpTo(history, clock) && clock <= request.at
    requires admitted <==> |Recent(LogOf(Run(history, limit, window).requests, request.client),
             request.at - window)| < limit
    ensures InOrderUpTo(Then(history, request), request.at)
    ensures Served(Run(history, limit, window).admissions, Run(Then(history, request), limit, window).admissions,
            request, limit, window, admitted)
  {
    PrunedCountsAsUnpruned(history, clock, request.client, request.at, limit, window);
    ServedNext(Run(history, limit, window).admissions, request, limit, window, admitted);
  }

  class RateLimiter {
    const maxRequests: int
    const windowSeconds: int
    var requests: Log
    ghost var history: History
    /** The latest reading of the monotonic clock. */
    ghost var clock: real

    ghost predicate Valid() reads this {
      InOrderUpTo(history, clock) && requests == Run(history, maxRequests, windowSeconds as real).requests
    }

    /** Every admission of every client, never pruned. */
    ghost function Admissions(): Log reads this {
      Run(history, maxRequests, windowSeconds as real).admissions
    }

    constructor (maxRequests: int := 120, windowSeconds: int := 60)
      ensures Valid() && this.maxRequests == maxRequests && this.windowSeconds == windowSeconds && history == Start
    {
      this.maxRequests := maxRequests;
      this.windowSeconds := windowSeconds;
      this.requests := map[];
      this.history := Start;
    }

    method Dispatch(client: string, now: real) returns (admitted: bool)
      requires Valid() && now >= clock
      modifies this
      ensures Valid() && clock == now && history == Then(old(history), Request(client, now))
      ensures Served(old(Admissions()), Admissions(), Request(client, now), maxRequests, windowSeconds as real,
              admitted)
    {
      var windowStart := now - windowSeconds as real;
      ghost var was, window := requests, windowSeconds as real;
      var recent := Recent(LogOf(requests, client), windowStart);
      requests := requests[client := recent];
      admitted := |recent| < maxRequests;
      if admitted {
        requests := requests[client := requests[client] + [now]];
      }
      assert requests == was[client := NextKept(LogOf(was, client), now, maxRequests, window)];
      Serve(history, clock, Request(client, now), maxRequests, window, admitted);
      history := Then(history, Request(client, now));
      clock := now;
    }
  }

  /** In an ascending history the window is a suffix, so what pruning dropped earlier is never missed. */
  lemma {:induction false} RecentIsFrom(times: seq<real>, start: real, n: nat)
    requires n <= |times|
    requires forall i :: 0 <= i < n ==> times[i] <= start
    requires forall i :: n <= i < |times| ==> times[i] > start
    ensures Recent(times, start) == times[n..]
  {
    if times != [] {
      var before := times[..|times| - 1];
      if n == |times| {
        RecentIsFrom(before, start, n - 1);
      } else {
        RecentIsFrom(before, start, n);
      }
    }
  }

  /** Where the window starts in an ascending history. */
  lemma WindowStart(times: seq<real>, start: real) returns (n: nat)
    requires Ascending(times)
    ensures n <= |times|
    ensures forall i :: 0 <= i < n ==> times[i] <= start
    ensures forall i :: n <= i < |times| ==> times[i] > start
    ensures Recent(times, start) == times[n..]
  {
    n := 0;
    while n < |times| && times[n] <= start
      invariant 0 <= n <= |times|
      invariant forall i :: 0 <= i < n ==> times[i] <= start
    {
      n := n + 1;
    }
    RecentIsFrom(times, start, n);
  }

  lemma PruningIsHarmless(kept: seq<real>, times: seq<real>, start: real, later: real)
    requires Ascending(times) && KeepsAllAfter(kept, times, start) && start <= later
    ensures Recent(kept, later) == Recent(times, later)
    ensures KeepsAllAfter(Recent(times, later), times, later)
  {
    var dropped := |times| - |kept|;
    var n := WindowStart(kept, later);
    forall i | 0 <= i < dropped + n ensures times[i] <= later {
      if i >= dropped {
        assert times[i] == kept[i - dropped];
      }
    }
    forall i | dropped + n <= i < |times| ensures times[i] > later {
      assert times[i] == kept[i - dropped];
    }
    RecentIsFrom(times, later, dropped + n);
  }

  lemma AdmittingKeepsSpacing(times: seq<real>, now: real, limit: int, window: real)
    requires Ascending(times) && UpTo(times, now) && Spaced(times, limit, window)
    requires |Recent(times, now - window)| < limit
    ensures Ascending(times + [now]) && UpTo(times + [now], now) && Spaced(times + [now], limit, window)
  {
    var n := WindowStart(times, now - window);
  }

  lemma SpacedMeansFew(times: seq<real>, limit: int, window: real, from: real)
    requires Ascending(times) && Spaced(times, limit, window)
    ensures |Within(times, from, from + window)| <= if limit > 0 then limit else 0
  {
    var first := 0;
    while first < |times| && times[first] < from
      invariant 0 <= first <= |times|
      invariant forall i :: 0 <= i < first ==> times[i] < from
    {
      first := first + 1;
    }
    var inside := Within(times, from, from + window);
    if limit > 0 {
      SubsetSize(inside, Positions(first, limit));
    }
  }

  function Positions(first: int, size: nat): (positions: set<int>)
    ensures |positions| == size
    ensures forall i :: i in positions <==> first <= i < first + size
  {
    if size == 0 then {} else Positions(first, size - 1) + {first + size - 1}
  }

  lemma SubsetSize(a: set<int>, b: set<int>)
    requires a <= b
    ensures |a| <= |b|
  {
    assert b == a + (b - a);
  }

  /** `Recent` counts what it should: the admissions later than the start of the window. */
  lemma {:induction false} RecentCounts(times: seq<real>, start: real)
    ensures |Recent(times, start)| == |set i | 0 <= i < |times| && times[i] > start|
  {
    var inside := set i | 0 <= i < |times| && times[i] > start;
    if times == [] {
      assert inside == {};
    } else {
      var before := times[..|times| - 1];
      RecentCounts(before, start);
      var earlier := set i | 0 <= i < |before| && before[i] > start;
      assert inside == if times[|times| - 1] > start then earlier + {|times| - 1} else earlier;
    }
  }
}
