/** Waiting for a provider job: one deadline shared by submission, status polls
    and the result fetch, doubling poll waits, rate-limit waits and
    cancellation. The provider and the clock are adversaries: a script says
    what each call answers and how long everything takes. */
module JobWait {
  import opened Prelude

  const MAX_POLL_INTERVAL := 60.0
  const RATE_LIMIT_FIRST_WAIT := 2.0
  const RATE_LIMIT_MAX_WAIT := 60.0

  datatype Reply = Answer(state: string) | RateLimited | Refusal

  /** One call as the environment plays it: what it answers, and the time taken
      by the call, before each clock read, and past the end of a wait. `luck`
      is the random draw of a rate-limit wait. */
  datatype Turn = Turn(reply: Reply, callTime: real, gap: real, gap2: real, overrun: real, luck: real)

  ghost predicate Fair(t: Turn) {
    t.callTime >= 0.0 && t.gap >= 0.0 && t.gap2 >= 0.0 && t.overrun >= 0.0 && 0.0 <= t.luck <= 1.0
  }

  ghost predicate FairScript(script: seq<Turn>) {
    forall i | 0 <= i < |script| :: Fair(script[i])
  }

  datatype Event = Polled | Asked(seconds: real) | Stopped

  function Max(a: real, b: real): real { if a < b then b else a }
  function Min(a: real, b: real): real { if a < b then a else b }

  /** All the waiting a run asked for. */
  function Waited(log: seq<Event>): real {
    if log == [] then 0.0
    else Waited(log[..|log| - 1]) + if log[|log| - 1].Asked? then log[|log| - 1].seconds else 0.0
  }

  function Polls(log: seq<Event>): nat {
    if log == [] then 0 else Polls(log[..|log| - 1]) + if log[|log| - 1].Polled? then 1 else 0
  }

  function Stops(log: seq<Event>): nat {
    if log == [] then 0 else Stops(log[..|log| - 1]) + if log[|log| - 1].Stopped? then 1 else 0
  }

  lemma Appended(log: seq<Event>, e: Event)
    ensures Waited(log + [e]) == Waited(log) + if e.Asked? then e.seconds else 0.0
    ensures Polls(log + [e]) == Polls(log) + if e.Polled? then 1 else 0
    ensures Stops(log + [e]) == Stops(log) + if e.Stopped? then 1 else 0
  {
    assert (log + [e])[..|log|] == log;
  }

  // ------------------------------------------------------------- cancellable waits

  /** The cancel event, if any, is set at a moment of the clock. */
  predicate IsSet(cancelAt: Option<real>, now: real) {
    cancelAt.Some? && cancelAt.value <= now
  }

  /** When a wait of `pause` from `now` returns: at its end, or as soon as the
      cancel arrives. */
  function Wake(now: real, pause: real, cancelAt: Option<real>, overrun: real): (end: real)
    ensures cancelAt.None? || cancelAt.value > now + pause ==> end == now + pause + overrun
    ensures cancelAt.Some? && now < cancelAt.value <= now + pause ==> end == cancelAt.value + overrun
    ensures cancelAt.Some? && cancelAt.value <= now && pause >= 0.0 ==> end == now + overrun
  {
    if IsSet(cancelAt, now + pause) then Max(now, cancelAt.value) + overrun else now + pause + overrun
  }

  /** The waiting asked for so far has all passed on the clock. */
  ghost predicate Elapsed(log: seq<Event>, start: real, now: real) {
    Waited(log) <= now - start
  }

  /** The waiting asked for so far fits between `start` and the deadline. */
  ghost predicate Within(log: seq<Event>, start: real, deadline: Option<real>) {
    deadline.Some? ==> Waited(log) <= Max(deadline.value - start, 0.0)
  }

  // ------------------------------------------------------------------- rate limits

  /** `x` times two to the power `n`. */
  function Doubled(x: real, n: nat): real {
    if n == 0 then x else 2.0 * Doubled(x, n - 1)
  }

  function RateLimitCeiling(retry: nat): real {
    Min(RATE_LIMIT_MAX_WAIT, Doubled(RATE_LIMIT_FIRST_WAIT, if retry < 16 then retry else 16))
  }

  lemma {:induction false} DoubledGrows(x: real, n: nat)
    requires x >= 0.0
    ensures Doubled(x, n) >= x
  {
    if n > 0 {
      DoubledGrows(x, n - 1);
    }
  }

  lemma FirstDoublings()
    ensures Doubled(2.0, 0) == 2.0 && Doubled(2.0, 1) == 4.0 && Doubled(2.0, 2) == 8.0
    ensures Doubled(2.0, 3) == 16.0 && Doubled(2.0, 4) == 32.0 && Doubled(2.0, 5) == 64.0
  {
    assert Doubled(2.0, 3) == 2.0 * Doubled(2.0, 2);
    assert Doubled(2.0, 5) == 2.0 * Doubled(2.0, 4);
  }

  /** The ceilings are 2, 4, 8, 16 and 32 seconds, and a minute from then on. */
  lemma CeilingsAre(retry: nat)
    ensures retry >= 5 ==> RateLimitCeiling(retry) == 60.0
    ensures retry < 5 ==> RateLimitCeiling(retry) == [2.0, 4.0, 8.0, 16.0, 32.0][retry]
  {
    FirstDoublings();
    if retry >= 5 {
      DoubledMonotone(2.0, 5, if retry < 16 then retry else 16);
    }
  }

  /** A draw between half the ceiling and the ceiling. */
  function RateLimitWait(retry: nat, luck: real): (wait: real)
    requires 0.0 <= luck <= 1.0
    ensures 1.0 <= wait <= 60.0
    ensures retry >= 5 ==> 30.0 <= wait
    ensures retry < 5 ==> [1.0, 2.0, 4.0, 8.0, 16.0][retry] <= wait <= [2.0, 4.0, 8.0, 16.0, 32.0][retry]
    ensures luck == 0.0 ==> wait <= 30.0
    ensures luck == 1.0 && retry >= 5 ==> wait == 60.0
  {
    CeilingsAre(retry);
    var half := RateLimitCeiling(retry) / 2.0;
    Scaled(luck, half);
    half + luck * half
  }

  lemma Scaled(u: real, x: real)
    requires 0.0 <= u <= 1.0 && x >= 0.0
    ensures 0.0 <= u * x <= x
  {
  }

  /** A wait of `wanted` seconds from `read` on, or of what is left to the deadline if
      that is less. */
  ghost predicate Clipped(seconds: real, wanted: real, deadline: Option<real>, read: real) {
    && seconds <= wanted && (deadline.Some? ==> read + seconds <= deadline.value)
    && (seconds == wanted || (deadline.Some? && read + seconds == deadline.value))
  }

  /** The rate-limit wait of one call of one job. */
  class RateLimit {
    const deadline: Option<real>
    const cancelAt: Option<real>
    var retries: nat

    constructor (deadline: Option<real>, cancelAt: Option<real>)
      ensures this.deadline == deadline && this.cancelAt == cancelAt && retries == 0
    {
      this.deadline, this.cancelAt, this.retries := deadline, cancelAt, 0;
    }

    /** True once the call can be made again; false when the deadline has passed
        or a cancel arrived. The wait never runs past the deadline. It is skipped
        exactly when the deadline has passed, and otherwise lasts as long as asked
        for, as long as a retry must wait, or to the deadline. */
    method Wait(atLeast: real, now: real, turn: Turn, log: seq<Event>, ghost start: real)
        returns (again: bool, end: real, log': seq<Event>)
      requires Fair(turn) && Elapsed(log, start, now) && Within(log, start, deadline)
      modifies this
      ensures end >= now && Within(log', start, deadline)
      ensures again ==>
                Elapsed(log', start, end)
                    && (end >= now + Max(atLeast, 1.0) || (deadline.Some? && end >= deadline.value))
      ensures !again ==> IsSet(cancelAt, end) || (deadline.Some? && end >= deadline.value)
      ensures log' == log <==> deadline.Some? && deadline.value <= now + turn.gap
      ensures log' != log ==> retries == old(retries) + 1 && |log'| == |log| + 1 && log'[..|log|] == log
      ensures log' != log ==> log'[|log|].Asked?
      ensures log' != log ==>
                Clipped(log'[|log|].seconds, Max(atLeast, RateLimitWait(old(retries), turn.luck)), deadline,
                  now + turn.gap)
      ensures log' != log ==> (again <==> cancelAt.None? || cancelAt.value > now + turn.gap + log'[|log|].seconds)
      ensures log' == log ==> !again && retries == old(retries) && end == now + turn.gap
      ensures Polls(log') == Polls(log) && Stops(log') == Stops(log)
    {
      var delay := Max(atLeast, RateLimitWait(retries, turn.luck));
      var read := now + turn.gap;
      if deadline.Some? {
        var remaining := deadline.value - read;
        if remaining <= 0.0 {
          return false, read, log;
        }
        delay := Min(delay, remaining);
      }
      retries := retries + 1;
      Appended(log, Asked(delay));
      log' := log + [Asked(delay)];
      end := Wake(read, delay, cancelAt, turn.overrun);
      again := !IsSet(cancelAt, read + delay);
    }
  }

  // --------------------------------------------------------------- poll schedule

  function NextPollWait(wait: real, backoff: bool): real {
    if !backoff then wait else Max(wait, Min(MAX_POLL_INTERVAL, wait * 2.0))
  }

  /** The wait after `k` polls that found the job unfinished. */
  function PollWait(first: real, k: nat): real {
    if k == 0 then first else NextPollWait(PollWait(first, k - 1), true)
  }

  /** Doubling from the first wait up to the cap; a first wait above the cap
      stays where it is. */
  lemma {:induction false} PollWaitClosedForm(first: real, k: nat)
    requires first >= 0.0
    ensures PollWait(first, k) ==
              if first >= 60.0 then first else if Doubled(first, k) < 60.0 then Doubled(first, k) else 60.0
  {
    if k > 0 {
      PollWaitClosedForm(first, k - 1);
      DoubledGrows(first, k - 1);
      Doubles(first, Doubled(first, k - 1));
    }
  }

  lemma Doubles(first: real, p: real)
    requires 0.0 <= first <= p
    ensures NextPollWait(Max(first, Min(60.0, p)), true) == Max(first, Min(60.0, 2.0 * p))
  {
  }

  /** All the ordinary waits before the poll numbered `k`, counting from 0. */
  function PollSum(first: real, k: nat): real {
    if k == 0 then 0.0 else PollSum(first, k - 1) + PollWait(first, k - 1)
  }

  /** Once the waits have doubled to the cap, each one takes the full minute. */
  lemma {:induction false} PollSumGrows(first: real, cap: nat, k: nat)
    requires first > 0.0 && Doubled(first, cap) >= 60.0
    ensures PollSum(first, k) >= 60.0 * (k as real - cap as real)
    ensures PollSum(first, k) >= 0.0
  {
    if k > 0 {
      PollSumGrows(first, cap, k - 1);
      PollWaitClosedForm(first, k - 1);
      var wait := PollWait(first, k - 1);
      DoubledGrows(first, k - 1);
      assert PollSum(first, k) == PollSum(first, k - 1) + wait && wait > 0.0;
      if k - 1 >= cap {
        DoubledMonotone(first, cap, k - 1);
        assert wait >= 60.0;
        assert k as real - cap as real == (k - 1) as real - cap as real + 1.0;
      } else {
        assert k as real <= cap as real;
      }
    }
  }

  lemma {:induction false} DoubledMonotone(x: real, a: nat, b: nat)
    requires x >= 0.0 && a <= b
    ensures Doubled(x, a) <= Doubled(x, b)
    decreases b
  {
    if a < b {
      DoubledMonotone(x, a, b - 1);
      DoubledGrows(x, b - 1);
    }
  }
}
