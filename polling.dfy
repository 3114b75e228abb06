/** The exponential backoff poller every stage waits with. A remote call is an
    oracle: `server(k)` is the outcome of the (k+1)-th request. Sleeping is not
    performed; the requested delays are returned instead. */
module Polling {
  import opened Outcomes

  /** One request: it answered with a response, or it threw. */
  datatype Attempt<R> = Answered(response: R) | Failed

  /** What the condition check made of a response; it may itself throw. */
  datatype Check = Met | NotMet | Threw

  /** A run of the poller: what it returned (None for the source's `null`), how many
      requests it made, and the delays it slept for, in order. */
  datatype PollRun<R> = PollRun(response: Option<R>, requests: nat, sleeps: seq<int>)

  /** The default budget when the caller passes none. */
  const DEFAULT_POLL_ATTEMPTS: int := 10
  const DEFAULT_POLL_INTERVAL: int := 1000

  function Pow2(n: nat): (r: nat)
    ensures r >= 1
  {
    if n == 0 then 1 else 2 * Pow2(n - 1)
  }

  /** An attempt that ends the polling: it answered and the check was met. */
  predicate Satisfied<R>(a: Attempt<R>, check: R -> Check) {
    a.Answered? && check(a.response) == Met
  }

  /** The answers the poller can see: one per allowed attempt, in order. */
  function Answers<R>(server: nat -> Attempt<R>, maxAttempts: int): (answers: seq<Attempt<R>>)
    ensures |answers| == if maxAttempts < 0 then 0 else maxAttempts
    ensures forall k :: 0 <= k < |answers| ==> answers[k] == server(k)
  {
    if maxAttempts <= 0 then [] else seq(maxAttempts, k requires 0 <= k < maxAttempts => server(k))
  }

  /** The loop over the answers still to come, with `interval` the delay before its
      doubling. */
  function RunOn<R>(answers: seq<Attempt<R>>, check: R -> Check, interval: int): PollRun<R>
  {
    if answers == [] then PollRun(None, 0, [])
    else if Satisfied(answers[0], check) then PollRun(Some(answers[0].response), 1, [])
    else if |answers| > 1 then
      var rest := RunOn(answers[1..], check, interval * 2);
      PollRun(rest.response, rest.requests + 1, [interval * 2] + rest.sleeps)
    else PollRun(None, 1, [])
  }

  /** What `exponentialPolling(request, check, maxAttempts, initialInterval)` does. */
  function PollSpec<R>(server: nat -> Attempt<R>, check: R -> Check, maxAttempts: int, initialInterval: int): PollRun<R> {
    RunOn(Answers(server, maxAttempts), check, initialInterval)
  }

  /** `exponentialPolling`: the attempt loop. A request that throws, or a check that
      throws, uses up its attempt; the interval is doubled before each sleep, and
      there is no sleep after the last attempt. */
  method ExponentialPolling<R>(server: nat -> Attempt<R>, check: R -> Check, maxAttempts: int, initialInterval: int)
    returns (response: Option<R>, requests: nat, sleeps: seq<int>)
    ensures PollRun(response, requests, sleeps) == PollSpec(server, check, maxAttempts, initialInterval)
  {
    ghost var answers := Answers(server, maxAttempts);
    var pollingInterval := initialInterval;
    requests, sleeps := 0, [];
    var attempt := 1;
    while attempt <= maxAttempts
      invariant 1 <= attempt <= |answers| + 1
      invariant requests == attempt - 1
      invariant var rest := RunOn(answers[attempt - 1..], check, pollingInterval);
        PollSpec(server, check, maxAttempts, initialInterval) == PollRun(rest.response, requests + rest.requests, sleeps + rest.sleeps)
      decreases maxAttempts - attempt
    {
      requests := requests + 1;
      var outcome := server(attempt - 1);
      assert answers[attempt - 1..][0] == outcome;
      if outcome.Answered? && check(outcome.response) == Met {
        response := Some(outcome.response);
        return;
      }
      assert answers[attempt - 1..][1..] == answers[attempt..];
      if attempt < maxAttempts {
        pollingInterval := pollingInterval * 2;
        sleeps := sleeps + [pollingInterval];
        assert sleeps + RunOn(answers[attempt..], check, pollingInterval).sleeps
          == (sleeps[..|sleeps| - 1]) + ([pollingInterval] + RunOn(answers[attempt..], check, pollingInterval).sleeps);
      }
      attempt := attempt + 1;
    }
    response := None;
  }

  /** The run over `answers` returns the first satisfying one and makes no request
      after it; it never makes more requests than there are answers, and makes one
      per answer when none satisfies. */
  lemma {:induction false} RunOnResult<R>(answers: seq<Attempt<R>>, check: R -> Check, interval: int)
    ensures var run := RunOn(answers, check, interval);
      && run.requests <= |answers|
      && (forall k :: 0 <= k < run.requests - (if run.response.Some? then 1 else 0) ==> !Satisfied(answers[k], check))
      && (run.response.Some? ==>
            run.requests >= 1
            && Satisfied(answers[run.requests - 1], check)
            && run.response == Some(answers[run.requests - 1].response))
      && (run.response.None? ==> run.requests == |answers|)
    decreases |answers|
  {
    if answers != [] && !Satisfied(answers[0], check) && |answers| > 1 {
      var rest := answers[1..];
      RunOnResult(rest, check, interval * 2);
      var run := RunOn(rest, check, interval * 2);
      forall k | 1 <= k < run.requests + 1 - (if run.response.Some? then 1 else 0)
        ensures !Satisfied(answers[k], check)
      {
        assert answers[k] == rest[k - 1];
      }
      if run.response.Some? {
        assert answers[run.requests] == rest[run.requests - 1];
      }
    }
  }

  /** The delays: one after every attempt that neither succeeded nor was the last,
      and the i-th of them is the interval doubled i+1 times. */
  lemma {:induction false} RunOnSleeps<R>(answers: seq<Attempt<R>>, check: R -> Check, interval: int)
    ensures var run := RunOn(answers, check, interval);
      && |run.sleeps| == (if run.requests == 0 then 0 else run.requests - 1)
      && forall i :: 0 <= i < |run.sleeps| ==> run.sleeps[i] == interval * Pow2(i + 1)
    decreases |answers|
  {
    if answers != [] && !Satisfied(answers[0], check) && |answers| > 1 {
      RunOnSleeps(answers[1..], check, interval * 2);
      var rest := RunOn(answers[1..], check, interval * 2);
      forall i | 1 <= i < |rest.sleeps| + 1
        ensures ([interval * 2] + rest.sleeps)[i] == interval * Pow2(i + 1)
      {
        assert rest.sleeps[i - 1] == interval * 2 * Pow2(i);
      }
    }
  }

  /** The poller returns the first response, in attempt order, that satisfies the
      check, and makes no request after it; it makes at most `maxAttempts` requests,
      and exactly that many when none satisfies, returning null. Failed requests and
      thrown checks are not satisfying, so they only use up an attempt. */
  lemma PollResult<R>(server: nat -> Attempt<R>, check: R -> Check, maxAttempts: int, initialInterval: int)
    ensures var run := PollSpec(server, check, maxAttempts, initialInterval);
      && run.requests <= (if maxAttempts < 0 then 0 else maxAttempts)
      && (run.response.Some? <==> exists k :: 0 <= k < maxAttempts && Satisfied(server(k), check))
      && (run.response.Some? ==>
            run.requests >= 1
            && Satisfied(server(run.requests - 1), check)
            && run.response == Some(server(run.requests - 1).response)
            && forall k :: 0 <= k < run.requests - 1 ==> !Satisfied(server(k), check))
      && (run.response.None? ==>
            run.requests == (if maxAttempts < 0 then 0 else maxAttempts)
            && forall k :: 0 <= k < maxAttempts ==> !Satisfied(server(k), check))
  {
    var answers := Answers(server, maxAttempts);
    RunOnResult(answers, check, initialInterval);
    var run := RunOn(answers, check, initialInterval);
    if run.response.Some? {
      assert answers[run.requests - 1] == server(run.requests - 1);
    } else {
      forall k | 0 <= k < maxAttempts
        ensures !Satisfied(server(k), check)
      {
        assert answers[k] == server(k);
      }
    }
  }

  /** With no attempts allowed, nothing is requested and null is returned. */
  lemma PollNoAttempts<R>(server: nat -> Attempt<R>, check: R -> Check, maxAttempts: int, initialInterval: int)
    requires maxAttempts <= 0
    ensures PollSpec(server, check, maxAttempts, initialInterval) == PollRun(None, 0, [])
  {
  }

  /** The sleep after attempt k (1-based, k below the budget) is initialInterval * 2^k;
      there is none after a success or after the last attempt. */
  lemma PollSleeps<R>(server: nat -> Attempt<R>, check: R -> Check, maxAttempts: int, initialInterval: int)
    ensures var run := PollSpec(server, check, maxAttempts, initialInterval);
      && |run.sleeps| == (if run.requests == 0 then 0 else run.requests - 1)
      && (run.response.None? && maxAttempts >= 1 ==> |run.sleeps| == maxAttempts - 1)
      && forall i :: 0 <= i < |run.sleeps| ==> run.sleeps[i] == initialInterval * Pow2(i + 1)
  {
    RunOnSleeps(Answers(server, maxAttempts), check, initialInterval);
    RunOnResult(Answers(server, maxAttempts), check, initialInterval);
  }

  function Sum(s: seq<int>): int {
    if s == [] then 0 else s[0] + Sum(s[1..])
  }

  lemma {:induction false} SumOfDoublings(interval: int, n: nat, from: nat)
    ensures Sum(seq(n, i requires 0 <= i < n => interval * Pow2(from + i + 1))) == interval * (Pow2(from + n + 1) - Pow2(from + 1))
  {
    var s := seq(n, i requires 0 <= i < n => interval * Pow2(from + i + 1));
    if n > 0 {
      SumOfDoublings(interval, n - 1, from + 1);
      var t := seq(n - 1, i requires 0 <= i < n - 1 => interval * Pow2(from + 1 + i + 1));
      assert s[1..] == t;
      assert Pow2(from + 2) == 2 * Pow2(from + 1);
    }
  }

  /** On exhaustion the poller has slept initialInterval * (2^maxAttempts - 2) in
      all: the budget grows geometrically with the attempt count. */
  lemma PollTotalSleepOnExhaustion<R>(server: nat -> Attempt<R>, check: R -> Check, maxAttempts: int, initialInterval: int)
    requires maxAttempts >= 1
    requires forall k :: 0 <= k < maxAttempts ==> !Satisfied(server(k), check)
    ensures Sum(PollSpec(server, check, maxAttempts, initialInterval).sleeps) == initialInterval * (Pow2(maxAttempts) - 2)
  {
    PollResult(server, check, maxAttempts, initialInterval);
    PollSleeps(server, check, maxAttempts, initialInterval);
    var run := PollSpec(server, check, maxAttempts, initialInterval);
    var n := maxAttempts - 1;
    assert run.sleeps == seq(n, i requires 0 <= i < n => initialInterval * Pow2(0 + i + 1));
    SumOfDoublings(initialInterval, n, 0);
  }

  /** A first answer that satisfies the check ends polling at once, without a sleep;
      a check that is never met uses up exactly `maxAttempts` requests. */
  lemma PollBoundaryCases<R>(server: nat -> Attempt<R>, check: R -> Check, maxAttempts: int, initialInterval: int)
    ensures maxAttempts >= 1 && Satisfied(server(0), check) ==>
      PollSpec(server, check, maxAttempts, initialInterval) == PollRun(Some(server(0).response), 1, [])
    ensures (forall r :: check(r) != Met) && maxAttempts >= 0 ==>
      PollSpec(server, check, maxAttempts, initialInterval).response == None
      && PollSpec(server, check, maxAttempts, initialInterval).requests == maxAttempts
  {
    PollResult(server, check, maxAttempts, initialInterval);
  }
}
