/** A provider job from submission to result. */
module JobRun {
  import opened Prelude
  import opened JobWait

  datatype Called = Done | Broken | CalledOff | LimitedOut | CallPending

  datatype Outcome =
    | Completed | Failed | CancelledByProvider
    | Cancelled | TimedOut | ProviderError | Unfinished

  predicate Contains(s: string, part: string) {
    part <= s || (s != [] && Contains(s[1..], part))
  }

  /** What a status text says, first match wins; None while the job runs. */
  function Verdict(state: string): Option<Outcome> {
    if Contains(state, "complet") then Some(Completed)
    else if Contains(state, "fail") || Contains(state, "error") then Some(Failed)
    else if Contains(state, "cancel") then Some(CancelledByProvider)
    else None
  }

  // ---------------------------------------------------------- what the provider says

  /** `part` is somewhere in the text. */
  ghost predicate Says(state: string, part: string) {
    exists k :: 0 <= k <= |state| && part <= state[k..]
  }

  lemma SaysFirst(s: string, part: string)
    requires part <= s
    ensures Says(s, part)
  {
    assert s[0..] == s;
  }

  lemma SaysLater(c: char, s: string, part: string)
    requires !(part <= [c] + s)
    ensures Says([c] + s, part) <==> Says(s, part)
  {
    var all := [c] + s;
    if Says(s, part) {
      var k :| 0 <= k <= |s| && part <= s[k..];
      assert all[k + 1..] == s[k..];
    }
    if Says(all, part) {
      var k :| 0 <= k <= |all| && part <= all[k..];
      assert all[0..] == all;
      assert k > 0 && s[k - 1..] == all[k..];
    }
  }

  lemma {:induction false} ContainsIsSays(s: string, part: string)
    ensures Contains(s, part) <==> Says(s, part)
  {
    if part <= s {
      SaysFirst(s, part);
    } else if s != [] {
      ContainsIsSays(s[1..], part);
      SaysLater(s[0], s[1..], part);
      assert [s[0]] + s[1..] == s;
    }
  }

  ghost predicate SaysDone(t: Turn) {
    t.reply.Answer? && Says(t.reply.state, "complet")
  }

  ghost predicate SaysFailed(t: Turn) {
    t.reply.Answer? && !SaysDone(t) && (Says(t.reply.state, "fail") || Says(t.reply.state, "error"))
  }

  ghost predicate SaysCancelled(t: Turn) {
    t.reply.Answer? && !SaysDone(t) && !SaysFailed(t) && Says(t.reply.state, "cancel")
  }

  /** The provider did not say how the job ended: it could not be asked, or the job
      has not ended. */
  ghost predicate SaysNothing(t: Turn) {
    t.reply.RateLimited? || (t.reply.Answer? && !SaysDone(t) && !SaysFailed(t) && !SaysCancelled(t))
  }

  /** An outcome is what the turn that ended the polling said. */
  ghost predicate Told(r: Outcome, t: Turn) {
    match r
    case Completed => SaysDone(t)
    case Failed => SaysFailed(t)
    case CancelledByProvider => SaysCancelled(t)
    case ProviderError => t.reply.Refusal?
    case TimedOut => SaysNothing(t)
    case Cancelled => true
    case Unfinished => false
  }

  ghost predicate SilentBefore(script: seq<Turn>, at: nat) {
    at <= |script| && forall j | 0 <= j < at :: SaysNothing(script[j])
  }

  /** The polling of a script ended at turn `at` as `r`, what that turn said and no
      turn before. */
  ghost predicate EndedAt(script: seq<Turn>, at: nat, r: Outcome) {
    SilentBefore(script, at) && if at < |script| then Told(r, script[at]) else r == Unfinished
  }

  lemma VerdictIsTold(t: Turn)
    requires t.reply.Answer?
    ensures Verdict(t.reply.state).None? <==> SaysNothing(t)
    ensures Verdict(t.reply.state).Some? ==>
              var r := Verdict(t.reply.state).value;
              Told(r, t) && (r == Completed || r == Failed || r == CancelledByProvider)
  {
    ContainsIsSays(t.reply.state, "complet");
    ContainsIsSays(t.reply.state, "fail");
    ContainsIsSays(t.reply.state, "error");
    ContainsIsSays(t.reply.state, "cancel");
  }

  predicate Past(deadline: Option<real>, now: real) {
    deadline.Some? && now >= deadline.value
  }

  /** A call was refused as rate-limited `at` times and then ended as `r`. */
  ghost predicate Calls(script: seq<Turn>, at: nat, r: Called) {
    && at <= |script| && (forall j | 0 <= j < at :: script[j].reply.RateLimited?)
    && (r == CallPending <==> at == |script|)
    && (at < |script| ==>
          && (r == Done <==> script[at].reply.Answer?)
          && (r == Broken <==> script[at].reply.Refusal?)
          && (r == CalledOff || r == LimitedOut <==> script[at].reply.RateLimited?))
  }

  ghost predicate CallEnds(script: seq<Turn>, r: Called) {
    exists at :: Calls(script, at, r)
  }

  /** The wait after a call's refusal number `k`, told in turn `t`, counting from
      zero: the growing wait, cut only by a deadline. */
  ghost predicate GrownWait(e: Event, t: Turn, k: nat, deadline: Option<real>) {
    && e.Asked? && 0.0 <= t.luck <= 1.0 && e.seconds <= RateLimitWait(k, t.luck)
    && (deadline.None? ==> e.seconds == RateLimitWait(k, t.luck))
  }

  /** The events after `before` are the waits of one call. */
  ghost predicate WaitsGrow(script: seq<Turn>, before: seq<Event>, log: seq<Event>, deadline: Option<real>) {
    && before <= log && |log| <= |before| + |script|
    && forall k | |before| <= k < |log| :: GrownWait(log[k], script[k - |before|], k - |before|, deadline)
  }

  lemma OneMoreWait(script: seq<Turn>, before: seq<Event>, log: seq<Event>, log': seq<Event>, deadline: Option<real>)
    requires WaitsGrow(script, before, log, deadline) && |log| < |before| + |script|
    requires log' == log || (|log'| == |log| + 1 && log'[..|log|] == log
                             && GrownWait(log'[|log|], script[|log| - |before|], |log| - |before|, deadline))
    ensures WaitsGrow(script, before, log', deadline)
  {
    assert log' != log ==> forall k | 0 <= k < |log| :: log'[k] == log[k];
  }

  /** One call of a job, made again while the provider refuses it as
      rate-limited. It gives up on a rate limit only at the deadline. */
  method JobCall(script: seq<Turn>, now0: real, log0: seq<Event>, deadline: Option<real>, cancelAt: Option<real>,
                 ghost start: real)
      returns (r: Called, now: real, log: seq<Event>, ghost at: nat)
    requires FairScript(script) && Elapsed(log0, start, now0) && Within(log0, start, deadline)
    ensures now >= now0 && Within(log, start, deadline)
    ensures r == Done || r == Broken || r == CallPending ==> Elapsed(log, start, now)
    ensures r == LimitedOut ==> deadline.Some? && now >= deadline.value && !IsSet(cancelAt, now)
    ensures r == CalledOff ==> IsSet(cancelAt, now)
    ensures Polls(log) == Polls(log0) && Stops(log) == Stops(log0)
    ensures Calls(script, at, r) && WaitsGrow(script, log0, log, deadline)
    ensures r == Done || r == Broken || r == CallPending ==> |log| == |log0| + at
  {
    var limit := new RateLimit(deadline, cancelAt);
    now, log, at := now0, log0, 0;
    for i := 0 to |script|
      invariant at == i && forall j | 0 <= j < i :: script[j].reply.RateLimited?
      invariant fresh(limit) && limit.deadline == deadline && limit.cancelAt == cancelAt
      invariant now >= now0 && Elapsed(log, start, now) && Within(log, start, deadline)
      invariant Polls(log) == Polls(log0) && Stops(log) == Stops(log0)
      invariant limit.retries == i && |log| == |log0| + i && WaitsGrow(script, log0, log, deadline)
    {
      now := now + script[i].callTime;
      match script[i].reply
      case Answer(_) =>
        return Done, now, log, i;
      case Refusal =>
        return Broken, now, log, i;
      case RateLimited =>
        var again;
        ghost var was := log;
        again, now, log := limit.Wait(0.0, now, script[i], log, start);
        OneMoreWait(script, log0, was, log, deadline);
        if !again {
          return if IsSet(cancelAt, now) then CalledOff else LimitedOut, now, log, i;
        }
        at := i + 1;
    }
    r := CallPending;
  }

  /** The polls of an undisturbed run: with `k` of them made, the first k - 2
      waits have all passed before the deadline. */
  ghost predicate PollsPaced(polls: int, first: real, now0: real, deadline: Option<real>) {
    polls >= 2 && deadline.Some? ==> PollSum(first, polls - 2) < deadline.value - now0
  }

  /** Where an undisturbed run stands after `k` unfinished polls, begun at `now0`. */
  ghost predicate OnPace(k: nat, first: real, wait: real, now0: real, now: real, deadline: real) {
    && wait == PollWait(first, k)
    && (now >= deadline || now - now0 >= PollSum(first, k))
    && (k >= 1 ==> PollSum(first, k - 1) < deadline - now0)
  }

  lemma KeepsPace(k: nat, first: real, wait: real, now0: real, now: real, next: real, deadline: real)
    requires OnPace(k, first, wait, now0, now, deadline) && now < deadline
    requires next >= deadline || next - now >= wait
    ensures OnPace(k + 1, first, NextPollWait(wait, true), now0, next, deadline)
  {
    assert PollSum(first, k + 1) == PollSum(first, k) + PollWait(first, k);
  }

  lemma PaceIsKept(k: nat, polls: nat, first: real, wait: real, now0: real, now: real, deadline: real)
    requires OnPace(k, first, wait, now0, now, deadline) && first >= 0.0
    requires polls == k || polls == k + 1
    ensures PollsPaced(polls, first, now0, Some(deadline))
  {
    if polls == k && k >= 2 {
      PollWaitClosedForm(first, k - 2);
      DoubledGrows(first, k - 2);
      assert PollSum(first, k - 1) == PollSum(first, k - 2) + PollWait(first, k - 2);
    }
  }

  ghost predicate Undisturbed(script: seq<Turn>, cancelAt: Option<real>) {
    cancelAt.None? && forall i | 0 <= i < |script| :: !script[i].reply.RateLimited?
  }

  /** What one turn of the poll loop leaves behind. */
  datatype Polling = Polling(now: real, wait: real, log: seq<Event>, polled: bool, exit: Option<Outcome>)

  /** A stop was sent exactly when the loop gives up on its own. */
  ghost predicate StopsWhenGivingUp(before: seq<Event>, p: Polling) {
    if p.exit == Some(Cancelled) || p.exit == Some(TimedOut) then
      Stops(p.log) == Stops(before) + 1 && p.log != [] && p.log[|p.log| - 1] == Stopped
    else Stops(p.log) == Stops(before)
  }

  ghost predicate ExitIsDue(p: Polling, deadline: Option<real>, cancelAt: Option<real>) {
    && (p.exit == Some(TimedOut) ==> deadline.Some? && p.now >= deadline.value)
    && (p.exit == Some(Cancelled) ==> IsSet(cancelAt, p.now))
    && p.exit != Some(Unfinished)
  }

  method PollOnce(limit: RateLimit, turn: Turn, wait: real, backoff: bool, now0: real, log0: seq<Event>,
                  ghost start: real)
      returns (p: Polling)
    requires Fair(turn) && wait >= 0.0 && Within(log0, start, limit.deadline)
    requires IsSet(limit.cancelAt, now0) || Elapsed(log0, start, now0)
    modifies limit
    ensures p.now >= now0 && p.wait >= wait && Within(p.log, start, limit.deadline)
    ensures StopsWhenGivingUp(log0, p) && ExitIsDue(p, limit.deadline, limit.cancelAt)
    ensures IsSet(limit.cancelAt, p.now) || p.exit == Some(TimedOut) || Elapsed(p.log, start, p.now)
    ensures p.exit.Some? && p.exit != Some(TimedOut) && p.exit != Some(Cancelled) ==> Elapsed(p.log, start, p.now)
    ensures Polls(p.log) == Polls(log0) + if p.polled then 1 else 0
    ensures p.exit.None? ==> p.wait == if p.polled then NextPollWait(wait, backoff) else wait
    ensures p.exit.None? && p.polled && limit.deadline.Some? ==> now0 < limit.deadline.value
    ensures p.exit.None? && p.polled && limit.cancelAt.None? ==> Past(limit.deadline, p.now) || p.now - now0 >= wait
    ensures !turn.reply.RateLimited? && p.exit.None? ==> p.polled
    ensures p.exit == Some(Cancelled) <==> limit.cancelAt.Some? && limit.cancelAt.value <= now0
    ensures p.exit.Some? ==> Told(p.exit.value, turn)
    ensures p.exit.None? ==> SaysNothing(turn)
    ensures turn.reply.Answer? && p.exit != Some(Cancelled) ==> limit.retries == 0
  {
    if IsSet(limit.cancelAt, now0) {
      Appended(log0, Stopped);
      return Polling(now0, wait, log0 + [Stopped], false, Some(Cancelled));
    }
    var now := now0 + turn.callTime;
    match turn.reply
    case Refusal =>
      p := Polling(now, wait, log0, false, Some(ProviderError));
    case RateLimited =>
      p := PollLimited(limit, turn, wait, now, log0, start);
    case Answer(state) =>
      limit.retries := 0;
      Appended(log0, Polled);
      VerdictIsTold(turn);
      var verdict := Verdict(state);
      if verdict.Some? {
        p := Polling(now, wait, log0 + [Polled], true, verdict);
      } else {
        p := PollAnswered(turn, wait, backoff, now + turn.gap, log0 + [Polled], limit.deadline, limit.cancelAt, start);
      }
  }

  /** A poll refused as rate-limited; a cancel that ended the wait is left to the
      next turn of the loop. */
  method PollLimited(limit: RateLimit, turn: Turn, wait: real, now0: real, log0: seq<Event>, ghost start: real)
      returns (p: Polling)
    requires Fair(turn) && wait >= 0.0 && Elapsed(log0, start, now0) && Within(log0, start, limit.deadline)
    modifies limit
    ensures p.now >= now0 && p.wait == wait && !p.polled && Within(p.log, start, limit.deadline)
    ensures StopsWhenGivingUp(log0, p) && ExitIsDue(p, limit.deadline, limit.cancelAt)
    ensures IsSet(limit.cancelAt, p.now) || p.exit == Some(TimedOut) || Elapsed(p.log, start, p.now)
    ensures p.exit.None? || p.exit == Some(TimedOut)
    ensures Polls(p.log) == Polls(log0)
  {
    var again, now, log := limit.Wait(wait, now0, turn, log0, start);
    if again || IsSet(limit.cancelAt, now) {
      p := Polling(now, wait, log, false, None);
    } else {
      Appended(log, Stopped);
      p := Polling(now, wait, log + [Stopped], false, Some(TimedOut));
    }
  }

  /** A poll that found the job unfinished. */
  method PollAnswered(turn: Turn, wait: real, backoff: bool, now0: real, log0: seq<Event>,
                      deadline: Option<real>, cancelAt: Option<real>, ghost start: real) returns (p: Polling)
    requires Fair(turn) && wait >= 0.0 && Elapsed(log0, start, now0) && Within(log0, start, deadline)
    ensures p.now >= now0 && p.wait >= wait && p.polled && Within(p.log, start, deadline)
    ensures StopsWhenGivingUp(log0, p) && ExitIsDue(p, deadline, cancelAt)
    ensures IsSet(cancelAt, p.now) || p.exit == Some(TimedOut) || Elapsed(p.log, start, p.now)
    ensures p.exit == if deadline.Some? && deadline.value <= now0 then Some(TimedOut) else None
    ensures Polls(p.log) == Polls(log0)
    ensures p.exit.None? ==> p.wait == NextPollWait(wait, backoff)
    ensures p.exit.None? && cancelAt.None? ==> Past(deadline, p.now) || p.now - now0 >= wait
  {
    if Past(deadline, now0) {
      Appended(log0, Stopped);
      p := Polling(now0, wait, log0 + [Stopped], true, Some(TimedOut));
    } else {
      var now, log := Pause(wait, now0, turn, log0, deadline, cancelAt, start);
      p := Polling(now, NextPollWait(wait, backoff), log, true, None);
    }
  }

  /** Polls until a terminal state, a cancel or the deadline. The outcome is what
      the provider said at the turn that ended the polling, and at no turn before.
      Giving up on a cancel or at the deadline sends one stop to the provider, as
      the last thing done; no other ending sends one. */
  method PollTask(script: seq<Turn>, first: real, backoff: bool, now0: real, log0: seq<Event>,
                  deadline: Option<real>, cancelAt: Option<real>, ghost start: real)
      returns (r: Outcome, now: real, log: seq<Event>, ghost at: nat)
    requires FairScript(script) && first >= 0.0
    requires Elapsed(log0, start, now0) && Within(log0, start, deadline)
    ensures now >= now0 && Within(log, start, deadline)
    ensures r == Cancelled || r == TimedOut ==> Stops(log) == Stops(log0) + 1 && log != [] && log[|log| - 1] == Stopped
    ensures r != Cancelled && r != TimedOut ==> Stops(log) == Stops(log0)
    ensures r == TimedOut ==> deadline.Some? && now >= deadline.value
    ensures r == Cancelled ==> cancelAt.Some? && now >= cancelAt.value
    ensures EndedAt(script, at, r)
    ensures r == Completed || r == Failed || r == CancelledByProvider || r == ProviderError ==> Elapsed(log, start, now)
    ensures backoff && Undisturbed(script, cancelAt) ==> PollsPaced(Polls(log) - Polls(log0), first, now0, deadline)
  {
    var limit := new RateLimit(deadline, cancelAt);
    var wait := first;
    now, log, at := now0, log0, 0;
    ghost var k := 0;
    ghost var paced := backoff && Undisturbed(script, cancelAt) && deadline.Some?;
    for i := 0 to |script|
      invariant fresh(limit) && limit.deadline == deadline && limit.cancelAt == cancelAt
      invariant at == i && SilentBefore(script, i)
      invariant now >= now0 && wait >= 0.0 && Within(log, start, deadline)
      invariant IsSet(cancelAt, now) || Elapsed(log, start, now)
      invariant Stops(log) == Stops(log0) && Polls(log) == Polls(log0) + k
      invariant paced ==> OnPace(k, first, wait, now0, now, deadline.value)
    {
      var p := PollOnce(limit, script[i], wait, backoff, now, log, start);
      if p.exit.Some? {
        if paced {
          PaceIsKept(k, Polls(p.log) - Polls(log0), first, wait, now0, now, deadline.value);
        }
        return p.exit.value, p.now, p.log, i;
      }
      if p.polled {
        if paced {
          KeepsPace(k, first, wait, now0, now, p.now, deadline.value);
        }
        k := k + 1;
      }
      now, wait, log, at := p.now, p.wait, p.log, i + 1;
    }
    if paced {
      PaceIsKept(k, k, first, wait, now0, now, deadline.value);
    }
    r := Unfinished;
  }

  /** The wait between two polls, clipped to the deadline. */
  method Pause(wait: real, now0: real, turn: Turn, log0: seq<Event>, deadline: Option<real>, cancelAt: Option<real>,
               ghost start: real)
      returns (now: real, log: seq<Event>)
    requires Fair(turn) && wait >= 0.0
    requires Elapsed(log0, start, now0) && Within(log0, start, deadline) && !Past(deadline, now0)
    ensures now >= now0 && Within(log, start, deadline)
    ensures IsSet(cancelAt, now) || Elapsed(log, start, now)
    ensures cancelAt.None? ==> Past(deadline, now) || now - now0 >= wait
    ensures Polls(log) == Polls(log0) && Stops(log) == Stops(log0)
    ensures |log| == |log0| + 1 && log[..|log0|] == log0 && log[|log0|].Asked?
    ensures deadline.Some? && deadline.value < now0 + turn.gap2 ==> log[|log0|].seconds == 0.0
    ensures deadline.None? || deadline.value >= now0 + turn.gap2 ==>
              Clipped(log[|log0|].seconds, wait, deadline, now0 + turn.gap2)
  {
    var pause := Max(wait, 0.0);
    now := now0 + turn.gap2;
    if deadline.Some? {
      pause := Min(pause, Max(deadline.value - now, 0.0));
    }
    Appended(log0, Asked(pause));
    log := log0 + [Asked(pause)];
    now := Wake(now, pause, cancelAt, turn.overrun);
  }

  /** With doubling waits and nothing in the way, a job with timeout T is polled
      at most 2 + cap + T/60 times, where `cap` doublings of the first wait reach
      the sixty-second cap. */
  lemma PollBound(polls: nat, first: real, cap: nat, now0: real, deadline: Option<real>, timeout: real)
    requires first > 0.0 && Doubled(first, cap) >= 60.0
    requires PollsPaced(polls, first, now0, deadline)
    requires deadline.Some? && deadline.value - now0 <= timeout && timeout >= 0.0
    ensures polls as real <= 2.0 + cap as real + timeout / 60.0
  {
    if polls >= 2 {
      PollSumGrows(first, cap, polls - 2);
      assert 60.0 * ((polls - 2) as real - cap as real) < timeout;
      assert (polls - 2) as real == polls as real - 2.0;
    }
  }

  /** The poll bound of a job, for every number of doublings that reaches the cap. */
  ghost predicate PollsBounded(polls: nat, first: real, timeout: real) {
    forall cap: nat | Doubled(first, cap) >= 60.0 ::
        polls as real <= 2.0 + cap as real + timeout / 60.0
  }

  lemma PacedIsBounded(polls: nat, first: real, now0: real, deadline: Option<real>, timeout: real)
    requires first > 0.0 && PollsPaced(polls, first, now0, deadline)
    requires deadline.Some? && deadline.value - now0 <= timeout && timeout >= 0.0
    ensures PollsBounded(polls, first, timeout)
  {
    forall cap: nat | Doubled(first, cap) >= 60.0
      ensures polls as real <= 2.0 + cap as real + timeout / 60.0
    {
      PollBound(polls, first, cap, now0, deadline, timeout);
    }
  }

  datatype JobEnd =
    | NotSubmitted | NotStarted(call: Called) | GaveUp(outcome: Outcome)
    | Ended(outcome: Outcome) | NoResult(call: Called) | Result

  /** Polls, and once the job is done its result. */
  method Collect(polls: seq<Turn>, fetch: seq<Turn>, now0: real, log0: seq<Event>, first: real, backoff: bool,
                 deadline: Option<real>, cancelAt: Option<real>, deleteFinished: bool, ghost start: real)
      returns (r: JobEnd, now: real, log: seq<Event>, ghost at: nat)
    requires FairScript(polls) && FairScript(fetch) && first >= 0.0
    requires Elapsed(log0, start, now0) && Within(log0, start, deadline)
    ensures now >= now0 && Within(log, start, deadline) && r != NotSubmitted && !r.NotStarted?
    ensures Stops(log) == Stops(log0) + StopsOf(r, deleteFinished)
    ensures r == GaveUp(TimedOut) || r == NoResult(LimitedOut) ==> deadline.Some? && now >= deadline.value
    ensures r == GaveUp(Cancelled) ==> cancelAt.Some? && now >= cancelAt.value
    ensures backoff && Undisturbed(polls, cancelAt) ==> PollsPaced(Polls(log) - Polls(log0), first, now0, deadline)
    ensures JobTold(r, polls, at, fetch)
  {
    var outcome;
    outcome, now, log, at := PollTask(polls, first, backoff, now0, log0, deadline, cancelAt, start);
    if outcome == TimedOut || outcome == ProviderError || outcome == Unfinished {
      return GaveUp(outcome), now, log, at;
    }
    if outcome != Completed {
      if deleteFinished {
        Appended(log, Stopped);
        log := log + [Stopped];
      }
      return if outcome == Cancelled then GaveUp(outcome) else Ended(outcome), now, log, at;
    }
    var call;
    ghost var k;
    call, now, log, k := JobCall(fetch, now, log, deadline, cancelAt, start);
    if call != Done {
      return NoResult(call), now, log, at;
    }
    if deleteFinished {
      Appended(log, Stopped);
      log := log + [Stopped];
    }
    r := Result;
  }

  /** The stops a job sends to the provider: one when it gives up on its own, and
      one more where finished jobs are deleted, a cancelled one included. */
  ghost function StopsOf(r: JobEnd, deleteFinished: bool): nat {
    var deleted := if deleteFinished then 1 else 0;
    match r
    case GaveUp(TimedOut) => 1
    case GaveUp(Cancelled) => 1 + deleted
    case Ended(_) => deleted
    case Result => deleted
    case _ => 0
  }

  /** A job that was submitted ended as the provider said; a result comes only from
      a job that said it was done and a fetch that was answered. */
  ghost predicate JobTold(r: JobEnd, polls: seq<Turn>, at: nat, fetch: seq<Turn>) {
    match r
    case NotSubmitted => true
    case NotStarted(_) => true
    case GaveUp(o) =>
      EndedAt(polls, at, o) && (o == TimedOut || o == Cancelled || o == ProviderError || o == Unfinished)
    case Ended(o) => EndedAt(polls, at, o) && (o == Failed || o == CancelledByProvider)
    case NoResult(call) => EndedAt(polls, at, Completed) && call != Done && CallEnds(fetch, call)
    case Result => EndedAt(polls, at, Completed) && CallEnds(fetch, Done)
  }

  /** A whole job: all waiting, over submission, polls and the result fetch
      together, fits in the job timeout, and so does the number of polls when
      nothing interferes; a job given up on was stopped, a cancelled one twice
      where finished jobs are deleted; nothing is stopped that was never
      submitted. How it ended is what the provider said. */
  method RunJob(submit: seq<Turn>, polls: seq<Turn>, fetch: seq<Turn>, start: real, first: real, backoff: bool,
                timeout: Option<real>, cancelAt: Option<real>, deleteFinished: bool)
      returns (r: JobEnd, now: real, log: seq<Event>, ghost at: nat)
    requires FairScript(submit) && FairScript(polls) && FairScript(fetch) && first >= 0.0
    ensures timeout.Some? ==> Waited(log) <= Max(timeout.value, 0.0)
    ensures Stops(log) == StopsOf(r, deleteFinished)
    ensures r == NotSubmitted || r.NotStarted? ==> Polls(log) == 0
    ensures r == NotSubmitted <==> cancelAt.Some? && cancelAt.value <= start
    ensures r.NotStarted? ==> r.call != Done && CallEnds(submit, r.call)
    ensures r != NotSubmitted && !r.NotStarted? ==> CallEnds(submit, Done)
    ensures JobTold(r, polls, at, fetch)
    ensures r == GaveUp(Cancelled) ==> cancelAt.Some? && now >= cancelAt.value
    ensures r == GaveUp(TimedOut) || r == NotStarted(LimitedOut) || r == NoResult(LimitedOut) ==>
              timeout.Some? && now >= start + Max(timeout.value, 0.0)
    ensures backoff && first > 0.0 && timeout.Some? && Undisturbed(polls, cancelAt) ==>
              PollsBounded(Polls(log), first, Max(timeout.value, 0.0))
  {
    now, log, at := start, [], 0;
    if IsSet(cancelAt, now) {
      return NotSubmitted, now, log, at;
    }
    var deadline := if timeout.None? then None else Some(start + Max(timeout.value, 0.0));
    var call;
    call, now, log, at := JobCall(submit, now, log, deadline, cancelAt, start);
    if call != Done {
      return NotStarted(call), now, log, at;
    }
    ghost var submitted := now;
    r, now, log, at := Collect(polls, fetch, now, log, first, backoff, deadline, cancelAt, deleteFinished, start);
    if backoff && first > 0.0 && timeout.Some? && Undisturbed(polls, cancelAt) {
      PacedIsBounded(Polls(log), first, submitted, deadline, Max(timeout.value, 0.0));
    }
  }
}
