/** Waiting for the configured media devices (host_probe.py): polling the page through bounded calls against a
    deadline. Time is real; timers fire when they are due, and only waiting takes time. */
module MediaPoll {
  import opened Commons

  datatype Counts = Counts(audioinput: int, videoinput: int, audiooutput: int)

  datatype Attempt = Attempt(counts: Counts, matched: bool)

  function Max(a: real, b: real): real { if a < b then b else a }

  function Min(a: real, b: real): real { if a < b then a else b }

  function Ceiling(x: real): int { -(-x).Floor }

  // ---- one bounded call --------------------------------------------------

  /** A list of devices, each by its kind (None for anything but an object with a kind). */
  datatype Devices = Devices(kinds: seq<Option<string>>) | NotAList

  datatype Reply =
    | Response(reason: string, attempts: Option<seq<Devices>>)
    | Malformed
    | Raises

  datatype Call = Returned(reply: Reply) | TimedOut

  /** The event loop under the calls: how long each takes to answer (None for never), how long it takes to unwind
      once cancelled, and what it answers. A stalled loop is one whose calls take no time. The clock that a poll is
      given is a callable of its own: what it says depends on the loop's time and on how often it was asked. */
  class EventLoop {
    const latency: nat -> Option<real>
    const unwind: nat -> Option<real>
    const reply: nat -> Reply
    const clock: (nat, real) -> real
    var now: real
    var calls: nat
    var asked: nat

    constructor (latency: nat -> Option<real>, unwind: nat -> Option<real>, reply: nat -> Reply, clock: (nat, real) -> real,
                 now: real)
      ensures this.now == now && calls == 0
    {
      this.latency, this.unwind, this.reply, this.clock, this.now := latency, unwind, reply, clock, now;
      calls, asked := 0, 0;
    }

    /** The clock is the loop's own time, as with `time.monotonic`. */
    ghost predicate TellsTime() { forall n: nat, t: real :: clock(n, t) == t }

    method Clock() returns (reading: real)
      modifies this`asked
      ensures reading == clock(old(asked), now) && (TellsTime() ==> reading == now)
    {
      reading := clock(asked, now);
      asked := asked + 1;
    }

    /** `asyncio.wait` on one task: whether it is done in time. */
    method Wait(due: Option<real>, timeout: real) returns (done: bool)
      requires timeout >= 0.0
      modifies this`now
      ensures old(now) <= now <= old(now) + timeout
      ensures done <==> due.Some? && due.value <= timeout
      ensures now == old(now) + if done then Max(0.0, due.value) else timeout
    {
      done := due.Some? && due.value <= timeout;
      now := now + if done then Max(0.0, due.value) else timeout;
    }

    /** `_bounded_media_rpc`: the answer, or a timeout exactly when the answer is late; in neither case longer than
        the timeout and the settling together. */
    method BoundedRpc(timeout: real, settle: real) returns (call: Call)
      modifies this
      ensures calls == old(calls) + 1
      ensures old(now) <= now <= old(now) + Max(0.001, timeout) + Max(0.0, settle)
      ensures var due := latency(old(calls));
              if due.Some? && due.value <= Max(0.001, timeout)
              then call == Returned(reply(old(calls))) && now == old(now) + Max(0.0, due.value)
              else call == TimedOut && now >= old(now) + Max(0.001, timeout)
    {
      var n := calls;
      calls := calls + 1;
      var done := Wait(latency(n), Max(0.001, timeout));
      if !done {
        var _ := Wait(unwind(n), Max(0.0, settle));
        return TimedOut;
      }
      call := Returned(reply(n));
    }
  }

  // ---- reading a reply ---------------------------------------------------

  /** `observed_media_device_counts` */
  method ObservedCounts(kinds: seq<string>) returns (counts: Counts)
    ensures counts.audioinput == multiset(kinds)["audioinput"]
    ensures counts.videoinput == multiset(kinds)["videoinput"]
    ensures counts.audiooutput == multiset(kinds)["audiooutput"]
  {
    counts := Counts(0, 0, 0);
    var i := 0;
    while i < |kinds|
      invariant 0 <= i <= |kinds|
      invariant counts.audioinput == multiset(kinds[..i])["audioinput"]
      invariant counts.videoinput == multiset(kinds[..i])["videoinput"]
      invariant counts.audiooutput == multiset(kinds[..i])["audiooutput"]
    {
      var kind := kinds[i];
      assert kinds[..i + 1] == kinds[..i] + [kind];
      if kind == "audioinput" {
        counts := counts.(audioinput := counts.audioinput + 1);
      } else if kind == "videoinput" {
        counts := counts.(videoinput := counts.videoinput + 1);
      } else if kind == "audiooutput" {
        counts := counts.(audiooutput := counts.audiooutput + 1);
      }
      i := i + 1;
    }
    assert kinds[..i] == kinds;
  }

  function Kinds(kinds: seq<Option<string>>): (names: seq<string>)
    requires forall k | k in kinds :: k.Some?
    ensures |names| == |kinds|
  {
    seq(|kinds|, i requires 0 <= i < |kinds| => kinds[i].value)
  }

  predicate DevicesFit(d: Devices) { d.Devices? && forall k | k in d.kinds :: k.Some? }

  ghost function Seen(d: Devices): Counts
    requires DevicesFit(d)
  {
    var kinds := multiset(Kinds(d.kinds));
    Counts(kinds["audioinput"], kinds["videoinput"], kinds["audiooutput"])
  }

  ghost predicate AttemptShows(attempt: Attempt, d: Devices) {
    DevicesFit(d) && !attempt.matched && attempt.counts == Seen(d)
  }

  /** The page answers with the one list that has the expected counts. */
  ghost predicate ShowsExpected(reply: Reply, expected: Counts) {
    && reply.Response? && reply.reason == "success" && reply.attempts.Some? && |reply.attempts.value| == 1
    && DevicesFit(reply.attempts.value[0]) && Seen(reply.attempts.value[0]) == expected
  }

  ghost predicate Matches(loop: EventLoop, n: nat, expected: Counts) { ShowsExpected(loop.reply(n), expected) }

  /** Call number n gets that answer in time. */
  ghost predicate Finds(loop: EventLoop, n: nat, expected: Counts, within: real) {
    loop.latency(n).Some? && loop.latency(n).value <= within && Matches(loop, n, expected)
  }

  /** `_parse_attempts`: one attempt for each list, or None for the readiness error. */
  method ParseAttempts(lists: Option<seq<Devices>>) returns (attempts: Option<seq<Attempt>>)
    ensures attempts.Some? <==> lists.Some? && forall d | d in lists.value :: DevicesFit(d)
    ensures attempts.Some? ==> |attempts.value| == |lists.value|
    ensures attempts.Some? ==> forall i | 0 <= i < |lists.value| :: AttemptShows(attempts.value[i], lists.value[i])
  {
    if lists.None? { return None; }
    var parsed: seq<Attempt> := [];
    var i := 0;
    while i < |lists.value|
      invariant 0 <= i <= |lists.value| && |parsed| == i
      invariant forall j | 0 <= j < i :: AttemptShows(parsed[j], lists.value[j])
    {
      var d := lists.value[i];
      assert d in lists.value;
      if !DevicesFit(d) { return None; }
      var counts := ObservedCounts(Kinds(d.kinds));
      parsed := parsed + [Attempt(counts, false)];
      i := i + 1;
    }
    attempts := Some(parsed);
  }

  // ---- the poll ----------------------------------------------------------

  datatype Outcome =
    | Readiness(reason: string, attempts: seq<Attempt>, matched: bool, waited: real)
    | TimeoutError(reason: string)
    | ReadinessError
    | BadBudget

  /** The reasons a page may give. */
  const PAGE_REASONS := {"success", "enumerate_timeout", "count_mismatch", "unavailable"}

  function Margin(pollMs: int): real { pollMs as real / 1000.0 }

  function MaxAttempts(timeout: real, pollMs: int): int
    requires pollMs > 0
  {
    Ceiling(timeout / Margin(pollMs)) + 1
  }

  /** `_readiness_result` */
  method ReadinessResult(reason: string, expected: Counts, attempts: seq<Attempt>, started: real, now: real) returns (r: Outcome)
    ensures r.Readiness? && r.reason == reason && |r.attempts| == |attempts| && r.waited == Max(0.0, now - started)
    ensures now >= started ==> r.waited == now - started
    ensures forall i | 0 <= i < |attempts| :: r.attempts[i] == Attempt(attempts[i].counts, attempts[i].counts == expected)
    ensures r.matched <==> reason == "success" && attempts != [] && attempts[|attempts| - 1].counts == expected
    ensures (forall i | 0 <= i < |attempts| - 1 :: attempts[i].counts != expected)
            && (reason == "success" <==> attempts != [] && attempts[|attempts| - 1].counts == expected)
            ==> LastDecides(r, expected)
  {
    var marked := attempts;
    var i := 0;
    while i < |marked|
      invariant 0 <= i <= |marked| == |attempts|
      invariant forall j | 0 <= j < i :: marked[j] == Attempt(attempts[j].counts, attempts[j].counts == expected)
      invariant forall j | i <= j < |marked| :: marked[j] == attempts[j]
    {
      marked := marked[i := marked[i].(matched := marked[i].counts == expected)];
      i := i + 1;
    }
    r := Readiness(reason, marked, reason == "success" && marked != [] && marked[|marked| - 1].matched, Max(0.0, now - started));
  }

  /** Only the last attempt can match, and it does exactly when the reason is success. */
  predicate LastDecides(r: Outcome, expected: Counts)
    requires r.Readiness?
  {
    && (r.matched <==> r.reason == "success")
    && (r.matched ==> r.attempts != [])
    && forall i | 0 <= i < |r.attempts| ::
         && (r.attempts[i].matched <==> r.attempts[i].counts == expected)
         && (r.attempts[i].matched <==> r.reason == "success" && i == |r.attempts| - 1)
  }

  datatype Look = Found(reason: string, attempts: seq<Attempt>) | Refused(outcome: Outcome)

  /** One enumeration by the page, read and checked: a single list comes with success and none with other reasons. */
  method Enumerate(loop: EventLoop, ghost expected: Counts, timeout: real, settle: real) returns (look: Look)
    modifies loop
    ensures loop.calls == old(loop.calls) + 1
    ensures old(loop.now) <= loop.now <= old(loop.now) + Max(0.001, timeout) + Max(0.0, settle)
    ensures look.Refused? ==> look.outcome in {TimeoutError("enumerate_timeout"), ReadinessError}
    ensures look.Found? ==> |look.attempts| == if look.reason == "success" then 1 else 0
    ensures look.Found? ==>
              (Matches(loop, old(loop.calls), expected)
               <==> look.reason == "success" && look.attempts[0].counts == expected)
    ensures Finds(loop, old(loop.calls), expected, timeout) ==> look.Found? && Matches(loop, old(loop.calls), expected)
  {
    hide DevicesFit, AttemptShows, Seen, Kinds;
    var call := loop.BoundedRpc(timeout, settle);
    if call.TimedOut? { return Refused(TimeoutError("enumerate_timeout")); }
    var reply := call.reply;
    if !reply.Response? || reply.reason !in PAGE_REASONS { return Refused(ReadinessError); }
    var current := ParseAttempts(reply.attempts);
    if current.None? || |current.value| != (if reply.reason == "success" then 1 else 0) { return Refused(ReadinessError); }
    ShowsIff(reply, current.value, expected);
    look := Found(reply.reason, current.value);
  }

  /** `wait_for_configured_media_devices`: whatever the page answers and however slowly, it ends within its number of
      attempts and calls, for any clock at all, and a match is what the last call answered; with a clock that tells the time also by the deadline, and the seconds
      reported are those that passed, and a first answer in time that shows the expected devices is the result. */
  method WaitForConfiguredDevices(loop: EventLoop, expected: Counts, timeout: real, pollMs: int) returns (r: Outcome)
    modifies loop
    ensures r.BadBudget? <==> timeout <= 0.0 || pollMs <= 0
    ensures r.BadBudget? ==> loop.now == old(loop.now)
    ensures !r.BadBudget? ==> old(loop.now) <= loop.now
    ensures !r.BadBudget? && loop.TellsTime() ==> loop.now <= old(loop.now) + timeout
    ensures r.Readiness? && loop.TellsTime() ==> r.waited == loop.now - old(loop.now)
    ensures !r.BadBudget? ==> loop.calls <= old(loop.calls) + 2 * MaxAttempts(timeout, pollMs)
    ensures r.Readiness? ==> |r.attempts| <= MaxAttempts(timeout, pollMs) && LastDecides(r, expected)
    ensures r.Readiness? && r.matched ==>
              loop.calls > old(loop.calls) && Matches(loop, loop.calls - 1, expected)
    ensures !r.BadBudget? && timeout > Margin(pollMs) * 2.0 && loop.TellsTime()
            && Finds(loop, old(loop.calls), expected, timeout - Margin(pollMs))
            ==> r.Readiness? && r.reason == "success" && r.matched && |r.attempts| == 1
    ensures r.TimeoutError? ==> r.reason in {"enumerate_timeout", "readiness_timeout"}
  {
    hide Margin, MaxAttempts, Finds, Matches, EventLoop.TellsTime, Max, Min, DevicesFit, LastDecides;
    if timeout <= 0.0 || pollMs <= 0 { return BadBudget; }
    var started := loop.Clock();
    var deadline := started + timeout;
    var margin := Margin(pollMs);
    MarginIsLong(pollMs);
    var maxAttempts := MaxAttempts(timeout, pollMs);
    SomeAttempts(timeout, pollMs);
    var attempts: seq<Attempt> := [];
    ghost var first := loop.TellsTime() && timeout > margin * 2.0 && Finds(loop, loop.calls, expected, timeout - margin);
    while |attempts| < maxAttempts
      invariant |attempts| <= maxAttempts && old(loop.now) <= loop.now
      invariant loop.TellsTime() ==> started == old(loop.now) && loop.now <= deadline
      invariant old(loop.calls) <= loop.calls <= old(loop.calls) + 2 * |attempts|
      invariant forall a | a in attempts :: a.counts != expected
      invariant if attempts == [] then loop.calls == old(loop.calls) && loop.now == old(loop.now)
                else !first
    {
      var reading := loop.Clock();
      var remaining := deadline - reading;
      if remaining <= margin * 2.0 { break; }
      BothFit(remaining, margin);
      ghost var n := loop.calls;
      assert first ==> n == old(loop.calls) && remaining - margin == timeout - margin;
      assert first ==> Finds(loop, n, expected, remaining - margin);
      var look := Enumerate(loop, expected, remaining - margin, margin);
      if look.Refused? { return look.outcome; }
      attempts := attempts + look.attempts;
      if look.reason != "success" {
        reading := loop.Clock();
        r := ReadinessResult(look.reason, expected, attempts, started, reading);
        return;
      }
      assert attempts[|attempts| - 1] == look.attempts[0] && n == loop.calls - 1;
      if attempts[|attempts| - 1].counts == expected {
        reading := loop.Clock();
        r := ReadinessResult("success", expected, attempts, started, reading);
        return;
      }
      reading := loop.Clock();
      remaining := deadline - reading;
      if remaining <= margin * 2.0 { break; }
      BothFit(remaining, margin);
      var call := loop.BoundedRpc(Min(remaining - margin, margin * 2.0), margin);
      if call.TimedOut? { return TimeoutError("readiness_timeout"); }
      if call.reply.Raises? { return ReadinessError; }
    }
    var end := loop.Clock();
    r := ReadinessResult("count_mismatch", expected, attempts, started, end);
  }

  lemma ShowsIff(reply: Reply, attempts: seq<Attempt>, expected: Counts)
    requires reply.Response? && reply.attempts.Some? && |attempts| == |reply.attempts.value|
    requires forall i | 0 <= i < |attempts| :: AttemptShows(attempts[i], reply.attempts.value[i])
    ensures ShowsExpected(reply, expected) <==>
              reply.reason == "success" && |attempts| == 1 && attempts[0].counts == expected
  {
  }

  /** Either call with its settling fits what remains. */
  lemma BothFit(remaining: real, margin: real)
    requires margin >= 0.001 && remaining > margin * 2.0
    ensures Max(0.001, remaining - margin) + Max(0.0, margin) <= remaining
    ensures Max(0.001, Min(remaining - margin, margin * 2.0)) + Max(0.0, margin) <= remaining
  {
  }

  lemma MarginIsLong(pollMs: int)
    requires pollMs > 0
    ensures Margin(pollMs) >= 0.001
  {
  }

  lemma SomeAttempts(timeout: real, pollMs: int)
    requires timeout > 0.0 && pollMs > 0
    ensures MaxAttempts(timeout, pollMs) >= 2
  {
    MarginIsLong(pollMs);
    var ratio := timeout / Margin(pollMs);
    assert ratio > 0.0;
  }
}
