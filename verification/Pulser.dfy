/** Batches of jobs a Pulser connection submits to a quantum platform manager
    (QPM) and follows by polling its completion queue. What the QPM answers is a
    parameter of every operation. */
module Pulser {
  import opened Prelude

  type Cid = string
  type BatchId = string
  type Counts = map<string, nat>

  datatype Status = PENDING | RUNNING | DONE | CANCELED | ERROR {
    predicate Unfinished() {
      PENDING? || RUNNING?
    }
  }

  /** `asked` counts how often the job's completion was asked for. */
  datatype Job = Job(cid: Cid, status: Status, result: Option<Counts>, failed: bool, asked: nat)

  /** The QPM's answer to one read of the completion queue. */
  datatype Poll =
    | Raised
    | Completion(ready: bool, rc: Option<int>, outcome: Option<string>, reason: Option<string>,
                 lifecycle: Option<string>, counts: Counts)

  const RUNNING_STATE := "submitted"
  const LOST_OUTCOMES := {"INVALID_RESERVATION", "MISSING_RESERVATION", "NO_LONGER_RETAINED"}
  const CANCEL_TAKEN := {"CANCELLED", "CANCEL_PENDING", "COMPLETED"}

  // ----------------------------------------------------------------------- one job

  // ----------------------------------------------------------- what an answer says

  /** The job ran. */
  ghost predicate SaysDone(p: Poll) {
    p.Completion? && p.ready && p.rc == Some(0)
  }

  /** The job was cancelled, by the QPM or by its provider. */
  ghost predicate SaysCanceled(p: Poll) {
    p.Completion? && p.ready && p.rc != Some(0) &&
    (p.outcome == Some("CANCELLED") || p.reason == Some("provider-cancelled"))
  }

  /** The job failed in another way, or its completion will never come. */
  ghost predicate SaysFailed(p: Poll) {
    p.Completion? &&
    if p.ready then
      p.rc != Some(0) && p.outcome != Some("CANCELLED") && p.reason != Some("provider-cancelled")
    else
      || p.outcome == Some("INVALID_RESERVATION") || p.outcome == Some("MISSING_RESERVATION")
      || p.outcome == Some("NO_LONGER_RETAINED")
  }

  /** The job has reached its provider and is not over. */
  ghost predicate SaysRunning(p: Poll) {
    p.Completion? && !p.ready && !SaysFailed(p) && p.lifecycle == Some("submitted")
  }

  /** What a job is after a read: a finished one is not asked, an unfinished one is
      asked once and is what the answer says, with the counts of the answer that
      says it ran. */
  ghost predicate ReadLeaves(job: Job, p: Poll, r: Job) {
    if job.status != PENDING && job.status != RUNNING then r == job
    else
      && r.cid == job.cid && r.asked == job.asked + 1
      && (r.status == DONE <==> SaysDone(p))
      && (r.status == CANCELED <==> SaysCanceled(p))
      && (r.status == ERROR <==> SaysFailed(p))
      && (r.status == RUNNING <==>
            SaysRunning(p) || (job.status == RUNNING && !SaysDone(p) && !SaysCanceled(p) && !SaysFailed(p)))
      && r.result == (if SaysDone(p) then Some(p.counts) else job.result)
      && (r.failed <==> job.failed || SaysFailed(p))
  }

  /** Reads the completion of an unfinished job and keeps what it says. */
  method Update(job: Job, read: Poll) returns (r: Job, raised: bool)
    ensures ReadLeaves(job, read, r)
    ensures raised <==> job.status.Unfinished() && read.Raised?
  {
    r, raised := job, false;
    if !job.status.Unfinished() {
      return;
    }
    r := r.(asked := r.asked + 1);
    if read.Raised? {
      raised := true;
      return;
    }
    if !read.ready {
      if read.outcome.Some? && read.outcome.value in LOST_OUTCOMES {
        r := r.(status := ERROR, failed := true);
      } else if read.lifecycle == Some(RUNNING_STATE) {
        r := r.(status := RUNNING);
      }
      return;
    }
    if read.rc == Some(0) {
      r := r.(result := Some(read.counts), status := DONE);
    } else if read.outcome == Some("CANCELLED") || read.reason == Some("provider-cancelled") {
      r := r.(status := CANCELED);
    } else {
      r := r.(status := ERROR, failed := true);
    }
  }

  // ---------------------------------------------------------------------- progress

  predicate Reaches(a: Status, b: Status) {
    a == b || a.PENDING? || (a.RUNNING? && !b.PENDING?)
  }

  /** A job only moves forward, and a finished one never changes again: not its
      outcome, and not the number of times it was asked for. */
  ghost predicate JobProgress(a: Job, b: Job) {
    && a.cid == b.cid
    && Reaches(a.status, b.status)
    && a.asked <= b.asked
    && (!a.status.Unfinished() ==> a == b)
  }

  ghost predicate JobsProgress(a: seq<Job>, b: seq<Job>) {
    |a| == |b| && forall i | 0 <= i < |a| :: JobProgress(a[i], b[i])
  }

  ghost predicate Progress(a: map<BatchId, seq<Job>>, b: map<BatchId, seq<Job>>) {
    forall id | id in a :: id in b && JobsProgress(a[id], b[id])
  }

  lemma ReadProgresses(job: Job, p: Poll, r: Job)
    requires ReadLeaves(job, p, r)
    ensures JobProgress(job, r)
  {
  }

  lemma ProgressChains(a: map<BatchId, seq<Job>>, b: map<BatchId, seq<Job>>, c: map<BatchId, seq<Job>>)
    requires Progress(a, b) && Progress(b, c)
    ensures Progress(a, c)
  {
    forall id | id in a ensures id in c && JobsProgress(a[id], c[id]) {
      assert JobsProgress(a[id], b[id]) && JobsProgress(b[id], c[id]);
      forall i | 0 <= i < |a[id]| ensures JobProgress(a[id][i], c[id][i]) {
        assert JobProgress(a[id][i], b[id][i]) && JobProgress(b[id][i], c[id][i]);
      }
    }
  }

  // ------------------------------------------------------------------ batch status

  function Statuses(jobs: seq<Job>): set<Status> {
    set j | j in jobs :: j.status
  }

  function BatchStatus(jobs: seq<Job>): Status {
    var statuses := Statuses(jobs);
    if PENDING in statuses || RUNNING in statuses then (if statuses == {PENDING} then PENDING else RUNNING)
    else if statuses == {DONE} then DONE
    else if ERROR in statuses then ERROR
    else CANCELED
  }

  ghost predicate All(jobs: seq<Job>, s: Status) {
    forall i | 0 <= i < |jobs| :: jobs[i].status == s
  }

  ghost predicate Any(jobs: seq<Job>, s: Status) {
    exists i :: 0 <= i < |jobs| && jobs[i].status == s
  }

  ghost predicate Finished(jobs: seq<Job>) {
    forall i | 0 <= i < |jobs| :: !jobs[i].status.Unfinished()
  }

  /** What each batch status says of the jobs. */
  lemma BatchStatusMeans(jobs: seq<Job>)
    requires jobs != []
    ensures BatchStatus(jobs) == PENDING <==> All(jobs, PENDING)
    ensures BatchStatus(jobs) == RUNNING <==> !All(jobs, PENDING) && !Finished(jobs)
    ensures BatchStatus(jobs) == DONE <==> All(jobs, DONE)
    ensures BatchStatus(jobs) == ERROR <==> Finished(jobs) && Any(jobs, ERROR)
    ensures BatchStatus(jobs) == CANCELED <==> Finished(jobs) && !Any(jobs, ERROR) && Any(jobs, CANCELED)
  {
    forall i | 0 <= i < |jobs| ensures jobs[i].status in Statuses(jobs) {
      assert jobs[i] in jobs;
    }
    forall s | s in Statuses(jobs) ensures Any(jobs, s) {
      var j :| j in jobs && j.status == s;
      var i :| 0 <= i < |jobs| && jobs[i] == j;
    }
    OnlyStatus(jobs, PENDING);
    OnlyStatus(jobs, DONE);
  }

  lemma OnlyStatus(jobs: seq<Job>, s: Status)
    requires jobs != []
    ensures Statuses(jobs) == {s} <==> All(jobs, s)
  {
    if Statuses(jobs) == {s} {
      forall i | 0 <= i < |jobs| ensures jobs[i].status == s {
        assert jobs[i] in jobs && jobs[i].status in Statuses(jobs);
      }
    }
    if All(jobs, s) {
      assert jobs[0] in jobs && jobs[0].status in Statuses(jobs);
      forall t | t in Statuses(jobs) ensures t == s {
        var j :| j in jobs && j.status == t;
      }
    }
  }

  lemma {:induction false} StatusMoves(a: seq<Job>, b: seq<Job>)
    requires a != [] && JobsProgress(a, b)
    ensures Reaches(BatchStatus(a), BatchStatus(b))
    ensures !BatchStatus(a).Unfinished() ==> a == b
  {
    BatchStatusMeans(a);
    BatchStatusMeans(b);
    forall i | 0 <= i < |a| ensures JobProgress(a[i], b[i]) {
    }
    if Finished(a) {
      assert a == b;
    } else if !All(a, PENDING) {
      var i :| 0 <= i < |a| && a[i].status != PENDING;
      assert JobProgress(a[i], b[i]) && b[i].status != PENDING;
    }
  }

  // -------------------------------------------------------------------- whole runs

  ghost predicate IsRun(states: seq<map<BatchId, seq<Job>>>) {
    forall i | 0 < i < |states| :: Progress(states[i - 1], states[i])
  }

  lemma {:induction false} RunProgresses(states: seq<map<BatchId, seq<Job>>>, i: nat, j: nat)
    requires IsRun(states) && i <= j < |states|
    ensures Progress(states[i], states[j])
    decreases j - i
  {
    if i < j {
      RunProgresses(states, i, j - 1);
      ProgressChains(states[i], states[j - 1], states[j]);
    } else {
      SelfProgress(states[i]);
    }
  }

  lemma SelfProgress(a: map<BatchId, seq<Job>>)
    ensures Progress(a, a)
  {
  }

  /** Over any run a batch stays on record and its status moves only from
      pending to running to one final state; from then on none of its jobs
      changes or is read again. */
  lemma RunMovesForward(states: seq<map<BatchId, seq<Job>>>, i: nat, j: nat, id: BatchId)
    requires IsRun(states) && i <= j < |states|
    requires id in states[i] && states[i][id] != []
    ensures id in states[j] && Reaches(BatchStatus(states[i][id]), BatchStatus(states[j][id]))
    ensures !BatchStatus(states[i][id]).Unfinished() ==> states[j][id] == states[i][id]
  {
    RunProgresses(states, i, j);
    StatusMoves(states[i][id], states[j][id]);
  }

  // ------------------------------------------------------------------- connection

  datatype RunAnswer = Accepted(cid: Cid) | Refused | Interrupted

  /** An answer to a cancel request; `outcome` is absent when the QPM gives none. */
  datatype CancelAnswer = CancelRaised | CancelAnswer(outcome: Option<string>)

  datatype Submission =
    | Submitted
    | NothingAccepted
    | BatchFailed(failed: seq<Cid>)
    | BatchInterrupted

  function NewJob(cid: Cid): Job {
    Job(cid, PENDING, None, false, 0)
  }

  /** A dictionary assignment: a repeated key keeps its place. */
  function Assign(jobs: seq<Job>, job: Job): seq<Job> {
    if jobs == [] then [job] else if jobs[0].cid == job.cid then [job] + jobs[1..]
        else [jobs[0]] + Assign(jobs[1..], job)
  }

  /** The jobs accepted before the first refusal. */
  function AcceptedJobs(answers: seq<RunAnswer>, n: nat): seq<Job>
    requires n <= |answers|
  {
    if n == 0 then []
    else if answers[n - 1].Accepted? then Assign(AcceptedJobs(answers, n - 1), NewJob(answers[n - 1].cid))
    else AcceptedJobs(answers, n - 1)
  }

  /** How many jobs were accepted before the first that was not. */
  ghost function Leading(answers: seq<RunAnswer>): (n: nat)
    ensures n <= |answers| && forall k | 0 <= k < n :: answers[k].Accepted?
    ensures n < |answers| ==> !answers[n].Accepted?
  {
    if answers == [] || !answers[0].Accepted? then 0 else 1 + Leading(answers[1..])
  }

  lemma LeadingIs(answers: seq<RunAnswer>, n: nat)
    requires n <= |answers| && (forall k | 0 <= k < n :: answers[k].Accepted?)
    requires n < |answers| ==> !answers[n].Accepted?
    ensures Leading(answers) == n
  {
  }

  function Cids(jobs: seq<Job>): seq<Cid> {
    seq(|jobs|, i requires 0 <= i < |jobs| => jobs[i].cid)
  }

  ghost predicate DistinctCids(jobs: seq<Job>) {
    forall i, j | 0 <= i < j < |jobs| :: jobs[i].cid != jobs[j].cid
  }

  lemma {:induction false} AssignIsDistinct(jobs: seq<Job>, job: Job)
    requires DistinctCids(jobs)
    ensures Assign(jobs, job) != [] && DistinctCids(Assign(jobs, job))
    ensures forall k | 0 <= k < |Assign(jobs, job)| :: Assign(jobs, job)[k] == job || Assign(jobs, job)[k] in jobs
    decreases |jobs|
  {
    if jobs != [] && jobs[0].cid != job.cid {
      AssignIsDistinct(jobs[1..], job);
      var rest := Assign(jobs[1..], job);
      assert forall k | 0 <= k < |rest| :: rest[k].cid != jobs[0].cid;
    }
  }

  lemma {:induction false} AcceptedAreNew(answers: seq<RunAnswer>, n: nat)
    requires n <= |answers| && forall k | 0 <= k < n :: answers[k].Accepted?
    ensures DistinctCids(AcceptedJobs(answers, n)) && (AcceptedJobs(answers, n) == [] <==> n == 0)
    ensures forall i | 0 <= i < |AcceptedJobs(answers, n)| ::
              AcceptedJobs(answers, n)[i] == NewJob(AcceptedJobs(answers, n)[i].cid)
    ensures forall i | 0 <= i < |AcceptedJobs(answers, n)| ::
              AcceptedJobs(answers, n)[i] == Job(AcceptedJobs(answers, n)[i].cid, PENDING, None, false, 0)
    decreases n
  {
    if n > 0 {
      AcceptedAreNew(answers, n - 1);
      AssignIsDistinct(AcceptedJobs(answers, n - 1), NewJob(answers[n - 1].cid));
    }
  }

  /** A cancel request that raised, or that the QPM answered with a refusal. */
  ghost predicate Unheeded(a: CancelAnswer) {
    a.CancelRaised? ||
    (a.outcome.Some? && a.outcome != Some("CANCELLED") && a.outcome != Some("CANCEL_PENDING")
     && a.outcome != Some("COMPLETED"))
  }

  /** The failures reported are those of the requests that were not heeded. */
  lemma {:induction false} FailedAre(jobs: seq<Job>, answers: Cid -> CancelAnswer, n: nat)
    requires n <= |jobs|
    ensures forall c :: c in FailedCids(jobs, answers, n) <==> c in Cids(jobs)[..n] && Unheeded(answers(c))
    decreases n
  {
    if n > 0 {
      FailedAre(jobs, answers, n - 1);
      assert Cids(jobs)[..n] == Cids(jobs)[..n - 1] + [jobs[n - 1].cid];
    }
  }

  /** The ids of the first `n` answers. */
  ghost function Given(answers: seq<RunAnswer>, n: nat): seq<Cid>
    requires n <= |answers| && forall k | 0 <= k < n :: answers[k].Accepted?
  {
    seq(n, k requires 0 <= k < n => answers[k].cid)
  }

  /** Exactly the accepted ids are recorded, in the order of the answers when no id
      is given twice. */
  lemma {:induction false} AcceptedAre(answers: seq<RunAnswer>, n: nat)
    requires n <= |answers| && forall k | 0 <= k < n :: answers[k].Accepted?
    ensures forall c :: c in Cids(AcceptedJobs(answers, n)) <==> c in Given(answers, n)
    ensures NoRepeats(Given(answers, n)) ==> Cids(AcceptedJobs(answers, n)) == Given(answers, n)
    decreases n
  {
    if n > 0 {
      AcceptedAre(answers, n - 1);
      AssignCids(AcceptedJobs(answers, n - 1), NewJob(answers[n - 1].cid));
      assert Given(answers, n) == Given(answers, n - 1) + [answers[n - 1].cid];
      if NoRepeats(Given(answers, n)) {
        NoRepeatsBefore(Given(answers, n - 1), answers[n - 1].cid);
      }
    }
  }

  ghost predicate NoRepeats(cs: seq<Cid>) {
    forall i, j | 0 <= i < j < |cs| :: cs[i] != cs[j]
  }

  lemma NoRepeatsBefore(cs: seq<Cid>, c: Cid)
    requires NoRepeats(cs + [c])
    ensures NoRepeats(cs) && c !in cs
  {
    forall i, j | 0 <= i < j < |cs| ensures cs[i] != cs[j] {
      assert (cs + [c])[i] != (cs + [c])[j];
    }
    forall i | 0 <= i < |cs| ensures cs[i] != c {
      assert (cs + [c])[i] != (cs + [c])[|cs|];
    }
  }

  lemma {:induction false} AssignCids(jobs: seq<Job>, job: Job)
    ensures Cids(Assign(jobs, job)) == Cids(jobs) + if job.cid in Cids(jobs) then [] else [job.cid]
    decreases |jobs|
  {
    if jobs == [] {
      assert Cids([job]) == [job.cid];
    } else {
      assert Cids(jobs) == [jobs[0].cid] + Cids(jobs[1..]);
      if jobs[0].cid == job.cid {
        assert Cids([job] + jobs[1..]) == [job.cid] + Cids(jobs[1..]);
      } else {
        AssignCids(jobs[1..], job);
        assert Cids([jobs[0]] + Assign(jobs[1..], job)) == [jobs[0].cid] + Cids(Assign(jobs[1..], job));
      }
    }
  }

  ghost function FailedCids(jobs: seq<Job>, answers: Cid -> CancelAnswer, n: nat): seq<Cid>
    requires n <= |jobs|
  {
    if n == 0 then []
    else FailedCids(jobs, answers, n - 1) + if Unheeded(answers(jobs[n - 1].cid)) then [jobs[n - 1].cid] else []
  }

  function UnfinishedJobs(jobs: seq<Job>, n: nat): seq<Job>
    requires n <= |jobs|
  {
    if n == 0 then [] else UnfinishedJobs(jobs, n - 1) + if jobs[n - 1].status.Unfinished() then [jobs[n - 1]] else []
  }

  /** The jobs asked to cancel are the unfinished ones, in their order. */
  lemma {:induction false} UnfinishedAre(jobs: seq<Job>, n: nat)
    requires n <= |jobs|
    ensures forall j :: j in UnfinishedJobs(jobs, n) <==>
              exists i :: 0 <= i < n && jobs[i] == j && (j.status == PENDING || j.status == RUNNING)
    ensures n > 0 && (jobs[n - 1].status == PENDING || jobs[n - 1].status == RUNNING) ==>
              UnfinishedJobs(jobs, n) == UnfinishedJobs(jobs, n - 1) + [jobs[n - 1]]
    ensures DistinctCids(jobs) ==> DistinctCids(UnfinishedJobs(jobs, n))
    decreases n
  {
    if n > 0 {
      UnfinishedAre(jobs, n - 1);
    }
  }

  /** Where a job is in its batch. */
  function Find(jobs: seq<Job>, cid: Cid): (r: Option<nat>)
    ensures r.Some? ==> r.value < |jobs| && jobs[r.value].cid == cid
    ensures r.None? ==> forall i | 0 <= i < |jobs| :: jobs[i].cid != cid
  {
    if jobs == [] then None
    else if jobs[0].cid == cid then Some(0)
    else
      var rest := Find(jobs[1..], cid);
      if rest.None? then None else Some(rest.value + 1)
  }

  /** The job has run, or its answer says so. */
  ghost predicate Fetchable(jobs: seq<Job>, polls: Cid -> Poll, cid: Cid) {
    exists i :: 0 <= i < |jobs| && jobs[i].cid == cid && HasRun(jobs[i], polls(cid))
  }

  ghost predicate HasRun(job: Job, p: Poll) {
    job.status == DONE || ((job.status == PENDING || job.status == RUNNING) && SaysDone(p))
  }

  /** The counts of a job that has run: those it has, or those of the answer that
      says it ran. */
  ghost predicate Gives(jobs: seq<Job>, polls: Cid -> Poll, cid: Cid, counts: Counts) {
    exists i :: 0 <= i < |jobs| && jobs[i].cid == cid && HasRun(jobs[i], polls(cid)) &&
      if jobs[i].status == DONE then jobs[i].result == Some(counts) else counts == polls(cid).counts
  }

  /** Each job is as it was, or as one read left it. */
  ghost predicate SomeRead(before: seq<Job>, now: seq<Job>, polls: Cid -> Poll) {
    |before| == |now| && forall i | 0 <= i < |now| ::
        now[i] == before[i] || ReadLeaves(before[i], polls(before[i].cid), now[i])
  }

  lemma ReadOnceMore(before: seq<Job>, now: seq<Job>, polls: Cid -> Poll, i: nat, job: Job)
    requires SomeRead(before, now, polls) && i < |now| && ReadLeaves(now[i], polls(now[i].cid), job)
    requires now[i] == before[i] || !now[i].status.Unfinished()
    ensures ReadLeaves(before[i], polls(before[i].cid), job) && SomeRead(before, now[i := job], polls)
  {
  }

  lemma SomeReadProgresses(before: seq<Job>, now: seq<Job>, polls: Cid -> Poll)
    requires SomeRead(before, now, polls)
    ensures JobsProgress(before, now)
  {
    forall i | 0 <= i < |now| ensures JobProgress(before[i], now[i]) {
      if now[i] != before[i] {
        ReadProgresses(before[i], polls(before[i].cid), now[i]);
      }
    }
  }

  lemma SameFind(a: seq<Job>, b: seq<Job>, cid: Cid)
    requires |a| == |b| && forall i | 0 <= i < |a| :: a[i].cid == b[i].cid
    ensures Find(a, cid) == Find(b, cid)
    decreases |a|
  {
    if a != [] {
      SameFind(a[1..], b[1..], cid);
    }
  }

  /** A result is kept exactly for a job that is done. */
  ghost predicate Kept(job: Job) {
    job.result.Some? <==> job.status.DONE?
  }

  ghost predicate BatchOk(jobs: seq<Job>) {
    jobs != [] && DistinctCids(jobs) && forall i | 0 <= i < |jobs| :: Kept(jobs[i])
  }

  ghost predicate HasResult(jobs: seq<Job>, cid: Cid, result: Counts) {
    exists i :: 0 <= i < |jobs| && jobs[i].cid == cid && jobs[i].status.DONE? && jobs[i].result == Some(result)
  }

  ghost predicate KeepsResults(before: seq<Job>, now: seq<Job>) {
    forall c, x :: HasResult(before, c, x) ==> HasResult(now, c, x)
  }

  /** Each job is as it was, or finished. */
  ghost predicate Settled(before: seq<Job>, now: seq<Job>) {
    |now| == |before| && forall i | 0 <= i < |now| :: now[i] == before[i] || !now[i].status.Unfinished()
  }

  /** The job of this id is as a read of it leaves it, the others are as before. */
  ghost predicate ReadOne(jobs: seq<Job>, before: seq<Job>, now: seq<Job>, polls: Cid -> Poll, cid: Cid) {
    |now| == |before| == |jobs| && forall i | 0 <= i < |jobs| ::
        if jobs[i].cid == cid then ReadLeaves(jobs[i], polls(cid), now[i]) else now[i] == before[i]
  }

  /** Reads one job of a batch and takes its result. */
  method FetchOne(jobs: seq<Job>, before: seq<Job>, cid: Cid, polls: Cid -> Poll)
      returns (now: seq<Job>, result: Option<Counts>)
    requires BatchOk(jobs) && SomeRead(jobs, before, polls) && Settled(jobs, before)
    ensures SomeRead(jobs, now, polls) && ReadOne(jobs, before, now, polls, cid)
    ensures result.Some? <==> Fetchable(jobs, polls, cid)
    ensures result.Some? ==> Gives(jobs, polls, cid, result.value)
    ensures result.Some? ==> HasResult(now, cid, result.value) && Settled(jobs, now)
    ensures KeepsResults(before, now)
  {
    SameFind(jobs, before, cid);
    var i := Find(before, cid);
    if i.None? {
      return before, None;
    }
    var job, raised := Update(before[i.value], polls(cid));
    ReadOnceMore(jobs, before, polls, i.value, job);
    OnlyOne(jobs, i.value, cid);
    ReadIsOk(jobs, before[i.value := job], polls);
    now := before[i.value := job];
    forall c, x | HasResult(before, c, x) ensures HasResult(now, c, x) {
      var j :| 0 <= j < |before| && before[j].cid == c && before[j].status.DONE? && before[j].result == Some(x);
      assert now[j] == before[j];
    }
    assert Kept(now[i.value]);
    if raised {
      return now, None;
    }
    result := job.result;
  }

  lemma OnlyOne(jobs: seq<Job>, i: nat, cid: Cid)
    requires DistinctCids(jobs) && i < |jobs| && jobs[i].cid == cid
    ensures forall j | 0 <= j < |jobs| && jobs[j].cid == cid :: j == i
  {
  }

  /** The jobs of these ids were read, and the others left alone. */
  ghost predicate ReadOf(before: seq<Job>, now: seq<Job>, polls: Cid -> Poll, ids: seq<Cid>) {
    |now| == |before| && forall i | 0 <= i < |now| ::
        if before[i].cid in ids then ReadLeaves(before[i], polls(before[i].cid), now[i]) else now[i] == before[i]
  }

  lemma ReadOfMore(jobs: seq<Job>, before: seq<Job>, now: seq<Job>, polls: Cid -> Poll, ids: seq<Cid>, k: nat)
    requires k < |ids| && ReadOf(jobs, before, polls, ids[..k]) && ReadOne(jobs, before, now, polls, ids[k])
    ensures ReadOf(jobs, now, polls, ids[..k + 1])
  {
    assert ids[..k + 1] == ids[..k] + [ids[k]];
  }

  /** The jobs of `ids` were read in turn up to the first that cannot be given. */
  ghost predicate ReadToGive(before: seq<Job>, now: seq<Job>, polls: Cid -> Poll, ids: seq<Cid>, n: nat) {
    && n <= |ids| && (forall k | 0 <= k < n :: Fetchable(before, polls, ids[k]))
    && (n < |ids| ==> !Fetchable(before, polls, ids[n]))
    && ReadOf(before, now, polls, if n < |ids| then ids[..n + 1] else ids)
  }

  /** The results of the first ids, each of a job that has run. */
  ghost predicate Fetched(jobs: seq<Job>, now: seq<Job>, polls: Cid -> Poll, ids: seq<Cid>, results: seq<Counts>) {
    |results| <= |ids| && forall k | 0 <= k < |results| ::
        && Fetchable(jobs, polls, ids[k]) && Gives(jobs, polls, ids[k], results[k])
        && HasResult(now, ids[k], results[k])
  }

  lemma FetchedMore(jobs: seq<Job>, before: seq<Job>, now: seq<Job>, polls: Cid -> Poll, ids: seq<Cid>,
                    results: seq<Counts>, counts: Counts)
    requires Fetched(jobs, before, polls, ids, results) && |results| < |ids| && KeepsResults(before, now)
    requires Fetchable(jobs, polls, ids[|results|]) && Gives(jobs, polls, ids[|results|], counts)
    requires HasResult(now, ids[|results|], counts)
    ensures Fetched(jobs, now, polls, ids, results + [counts])
  {
  }

  /** The results of `ids` in order, each job read first, up to the first that
      cannot be given. */
  method FetchEach(jobs: seq<Job>, ids: seq<Cid>, polls: Cid -> Poll)
      returns (now: seq<Job>, r: Option<seq<Counts>>, ghost n: nat)
    requires BatchOk(jobs)
    ensures SomeRead(jobs, now, polls)
    ensures ReadToGive(jobs, now, polls, ids, n) && (r.Some? <==> n == |ids|)
    ensures r.Some? ==> |r.value| == |ids| && Fetched(jobs, now, polls, ids, r.value)
  {
    now, n := jobs, 0;
    var results: seq<Counts> := [];
    for k := 0 to |ids|
      invariant SomeRead(jobs, now, polls) && |results| == k && ReadOf(jobs, now, polls, ids[..k])
      invariant Fetched(jobs, now, polls, ids, results) && Settled(jobs, now)
    {
      ghost var before := now;
      var result;
      now, result := FetchOne(jobs, now, ids[k], polls);
      ReadOfMore(jobs, before, now, polls, ids, k);
      if result.None? {
        return now, None, k;
      }
      FetchedMore(jobs, before, now, polls, ids, results, result.value);
      results := results + [result.value];
    }
    assert ids[..|ids|] == ids;
    r, n := Some(results), |ids|;
  }

  /** The first job that was not accepted. */
  ghost predicate FirstNotTaken(answers: seq<RunAnswer>, n: nat) {
    n < |answers| && !answers[n].Accepted? && forall k | 0 <= k < n :: answers[k].Accepted?
  }

  /** The jobs on record are those accepted before the first that was not, all
      pending, each id once. */
  ghost predicate Recorded(jobs: seq<Job>, answers: seq<RunAnswer>) {
    && BatchOk(jobs)
    && (forall i | 0 <= i < |jobs| :: jobs[i] == Job(jobs[i].cid, PENDING, None, false, 0))
    && (forall c :: c in Cids(jobs) <==> IsAccepted(answers, c))
    && jobs == AcceptedJobs(answers, Leading(answers))
  }

  /** The jobs accepted before the first that is not. */
  method Send(answers: seq<RunAnswer>) returns (n: nat, jobs: seq<Job>)
    ensures n <= |answers| && (forall k | 0 <= k < n :: answers[k].Accepted?)
    ensures n < |answers| ==> !answers[n].Accepted?
    ensures jobs == [] <==> n == 0
    ensures jobs != [] ==> Recorded(jobs, answers)
  {
    n, jobs := 0, [];
    while n < |answers| && answers[n].Accepted?
      invariant n <= |answers| && forall k | 0 <= k < n :: answers[k].Accepted?
      invariant jobs == AcceptedJobs(answers, n)
    {
      jobs := Assign(jobs, NewJob(answers[n].cid));
      n := n + 1;
    }
    AcceptedAreNew(answers, n);
    AcceptedAre(answers, n);
    FirstAccepted(answers, n);
    LeadingIs(answers, n);
  }

  /** `cancels` lists every cancel request sent, in order. */
  class Connection {
    var batches: map<BatchId, seq<Job>>
    ghost var cancels: seq<Cid>

    ghost predicate Valid()
      reads this
    {
      forall id | id in batches :: BatchOk(batches[id])
    }

    constructor ()
      ensures Valid() && batches == map[] && cancels == []
    {
      batches, cancels := map[], [];
    }

    /** One request per job, also after one fails. */
    method Cancel(jobs: seq<Job>, answers: Cid -> CancelAnswer) returns (failed: seq<Cid>)
      modifies this`cancels
      ensures cancels == old(cancels) + Cids(jobs)
      ensures failed == FailedCids(jobs, answers, |jobs|)
      ensures forall c :: c in failed <==> c in Cids(jobs) && Unheeded(answers(c))
    {
      FailedAre(jobs, answers, |jobs|);
      assert Cids(jobs)[..|jobs|] == Cids(jobs);
      failed := [];
      for i := 0 to |jobs|
        invariant cancels == old(cancels) + Cids(jobs)[..i]
        invariant failed == FailedCids(jobs, answers, i)
      {
        cancels := cancels + [jobs[i].cid];
        var answer := answers(jobs[i].cid);
        if answer.CancelRaised? || (answer.outcome.Some? && answer.outcome.value !in CANCEL_TAKEN) {
          failed := failed + [jobs[i].cid];
        }
      }
    }

    /** Sends the jobs one by one. A submission that fails part way cancels each
        accepted job once, and the batch stays on record exactly when a job was
        accepted. `id` is a new unique id. */
    method Submit(id: BatchId, answers: seq<RunAnswer>, cancelled: Cid -> CancelAnswer) returns (r: Submission)
      requires Valid() && id !in batches && answers != []
      modifies this
      ensures Valid() && Progress(old(batches), batches)
      ensures id in batches <==> answers[0].Accepted?
      ensures id in batches ==> batches == old(batches)[id := batches[id]] && Recorded(batches[id], answers)
      ensures id !in batches ==> batches == old(batches)
      ensures r == Submitted <==> forall k | 0 <= k < |answers| :: answers[k].Accepted?
      ensures r == NothingAccepted <==> !answers[0].Accepted?
      ensures r == BatchInterrupted ==> exists k: nat :: FirstNotTaken(answers, k) && answers[k].Interrupted?
      ensures r.BatchFailed? ==> exists k: nat :: FirstNotTaken(answers, k) && answers[k].Refused?
      ensures r == Submitted || r == NothingAccepted ==> cancels == old(cancels)
      ensures r.BatchFailed? || r == BatchInterrupted ==> id in batches && cancels == old(cancels) + Cids(batches[id])
      ensures r.BatchFailed? ==> r.failed == FailedCids(batches[id], cancelled, |batches[id]|)
      ensures r.BatchFailed? ==> forall c :: c in r.failed <==> c in Cids(batches[id]) && Unheeded(cancelled(c))
    {
      var n, jobs := Send(answers);
      SelfProgress(batches);
      if n == |answers| {
        batches := batches[id := jobs];
        return Submitted;
      }
      assert FirstNotTaken(answers, n);
      if jobs == [] {
        return NothingAccepted;
      }
      batches := batches[id := jobs];
      var failed := Cancel(jobs, cancelled);
      if answers[n].Interrupted? {
        return BatchInterrupted;
      }
      return BatchFailed(failed);
    }

    /** Reads every unfinished job's completion; a read that raises leaves the
        jobs after it unread. */
    method Query(id: BatchId, polls: Cid -> Poll) returns (ok: bool)
      requires Valid()
      modifies this`batches
      ensures Valid() && Progress(old(batches), batches)
      ensures id !in old(batches) ==> !ok && batches == old(batches)
      ensures id in old(batches) ==>
                && id in batches && batches == old(batches)[id := batches[id]]
                && (ok <==> NoneRaises(old(batches)[id], polls))
                && (ok ==> ReadUpTo(old(batches)[id], batches[id], polls, |batches[id]|))
                && (!ok ==> ReadToFirstRaise(old(batches)[id], batches[id], polls))
    {
      if id !in batches {
        SelfProgress(batches);
        return false;
      }
      var jobs;
      ghost var n;
      jobs, ok, n := ReadJobs(batches[id], polls);
      UpToIsSome(batches[id], jobs, polls, if ok then |jobs| else n + 1);
      ReadKeeps(batches, id, polls, jobs);
      batches := batches[id := jobs];
    }

    method GetBatchStatus(id: BatchId, polls: Cid -> Poll) returns (r: Option<Status>)
      requires Valid()
      modifies this`batches
      ensures Valid() && Progress(old(batches), batches)
      ensures r.Some? <==> id in old(batches) && NoneRaises(old(batches)[id], polls)
      ensures id !in old(batches) ==> batches == old(batches)
      ensures id in old(batches) ==>
                && id in batches && batches == old(batches)[id := batches[id]]
                && (r.Some? ==> ReadUpTo(old(batches)[id], batches[id], polls, |batches[id]|))
                && (r.None? ==> ReadToFirstRaise(old(batches)[id], batches[id], polls))
      ensures r.Some? ==> id in batches && r.value == BatchStatus(batches[id])
      ensures r.Some? ==> StatusTold(old(batches)[id], polls, r.value)
    {
      var ok := Query(id, polls);
      r := if ok then Some(BatchStatus(batches[id])) else None;
      if ok {
        BatchStatusTold(old(batches)[id], batches[id], polls);
      }
    }

    /** The results of the wanted jobs, or of all of them, each read first; given
        exactly when every one of them is there, can be read and is done. */
    method FetchResult(id: BatchId, wanted: seq<Cid>, polls: Cid -> Poll) returns (r: Option<seq<Counts>>)
      requires Valid()
      modifies this`batches
      ensures Valid() && Progress(old(batches), batches)
      ensures id !in old(batches) ==> r.None? && batches == old(batches)
      ensures id in old(batches) ==>
                id in batches && batches == old(batches)[id := batches[id]]
      ensures id in old(batches) ==>
                var jobs := old(batches)[id];
                var ids := if wanted == [] then seq(|jobs|, i requires 0 <= i < |jobs| => jobs[i].cid) else wanted;
                && (r.Some? <==> forall k | 0 <= k < |ids| :: Fetchable(jobs, polls, ids[k]))
                && (exists n: nat :: ReadToGive(jobs, batches[id], polls, ids, n))
                && (r.Some? ==> |r.value| == |ids| && forall k | 0 <= k < |ids| ::
                      Gives(jobs, polls, ids[k], r.value[k]) && HasResult(batches[id], ids[k], r.value[k]))
    {
      if id !in batches {
        SelfProgress(batches);
        return None;
      }
      var jobs := batches[id];
      var ids := if wanted == [] then Cids(jobs) else wanted;
      var now;
      ghost var n;
      now, r, n := FetchEach(jobs, ids, polls);
      ReadKeeps(batches, id, polls, now);
      batches := batches[id := now];
    }

    /** Reads every job, past failed reads, and asks for the cancellation of each
        one that is still unfinished, once. */
    method CancelBatch(id: BatchId, polls: Cid -> Poll, answers: Cid -> CancelAnswer) returns (r: Option<seq<Cid>>)
      requires Valid()
      modifies this
      ensures Valid() && Progress(old(batches), batches)
      ensures id !in old(batches) ==> r.None? && batches == old(batches) && cancels == old(cancels)
      ensures id in old(batches) ==>
                && id in batches && batches == old(batches)[id := batches[id]] && r.Some?
                && ReadUpTo(old(batches)[id], batches[id], polls, |batches[id]|)
                && cancels == old(cancels) + Cids(UnfinishedJobs(batches[id], |batches[id]|))
                && old(cancels) <= cancels && AsksOpen(batches[id], cancels[|old(cancels)|..])
                && (forall c :: c in r.value <==> StillOpen(batches[id], c) && Unheeded(answers(c)))
                && var left := UnfinishedJobs(batches[id], |batches[id]|);
                   r.value == FailedCids(left, answers, |left|)
    {
      if id !in batches {
        SelfProgress(batches);
        return None;
      }
      var jobs := ReadPast(batches[id], polls);
      UpToIsSome(batches[id], jobs, polls, |jobs|);
      ReadKeeps(batches, id, polls, jobs);
      batches := batches[id := jobs];
      var left := Open(jobs);
      OpenAre(jobs, left);
      var failed := Cancel(left, answers);
      assert cancels[|old(cancels)|..] == Cids(left);
      r := Some(failed);
    }
  }

  /** The first `n` jobs were read, and the others left alone. */
  ghost predicate ReadUpTo(before: seq<Job>, now: seq<Job>, polls: Cid -> Poll, n: nat) {
    && |now| == |before| && (forall i | 0 <= i < |now| && i < n :: ReadLeaves(before[i], polls(before[i].cid), now[i]))
    && forall i | n <= i < |now| :: now[i] == before[i]
  }

  /** Job `n` is the first whose read raises. */
  ghost predicate FirstRaise(jobs: seq<Job>, polls: Cid -> Poll, n: nat) {
    && n < |jobs| && jobs[n].status.Unfinished() && polls(jobs[n].cid).Raised?
    && NoneRaises(jobs[..n], polls)
  }

  ghost predicate ReadToFirstRaise(before: seq<Job>, now: seq<Job>, polls: Cid -> Poll) {
    exists n: nat :: FirstRaise(before, polls, n) && ReadUpTo(before, now, polls, n + 1)
  }

  lemma UpToIsSome(before: seq<Job>, now: seq<Job>, polls: Cid -> Poll, n: nat)
    requires ReadUpTo(before, now, polls, n)
    ensures SomeRead(before, now, polls)
  {
  }

  /** Reads the jobs in turn, up to a read that raises. */
  method ReadJobs(jobs: seq<Job>, polls: Cid -> Poll) returns (now: seq<Job>, ok: bool, ghost n: nat)
    ensures ok <==> NoneRaises(jobs, polls)
    ensures ok ==> ReadUpTo(jobs, now, polls, |jobs|)
    ensures !ok ==> FirstRaise(jobs, polls, n) && ReadUpTo(jobs, now, polls, n + 1)
  {
    now, n := jobs, 0;
    for i := 0 to |jobs|
      invariant n == i && ReadUpTo(jobs, now, polls, i) && NoneRaises(jobs[..i], polls)
    {
      var job, raised := Update(now[i], polls(now[i].cid));
      now := now[i := job];
      assert jobs[..i + 1] == jobs[..i] + [jobs[i]];
      if raised {
        return now, false, i;
      }
      n := i + 1;
    }
    assert jobs[..|jobs|] == jobs;
    ok := true;
  }

  /** Reads all the jobs, also past reads that raise. */
  method ReadPast(jobs: seq<Job>, polls: Cid -> Poll) returns (now: seq<Job>)
    ensures ReadUpTo(jobs, now, polls, |jobs|)
  {
    now := jobs;
    for i := 0 to |jobs|
      invariant ReadUpTo(jobs, now, polls, i)
    {
      var job, _ := Update(now[i], polls(now[i].cid));
      now := now[i := job];
    }
  }

  method Open(jobs: seq<Job>) returns (left: seq<Job>)
    ensures left == UnfinishedJobs(jobs, |jobs|)
  {
    left := [];
    for i := 0 to |jobs|
      invariant left == UnfinishedJobs(jobs, i)
    {
      if jobs[i].status.Unfinished() {
        left := left + [jobs[i]];
      }
    }
  }

  /** The ids of the jobs that have not finished, each once. */
  ghost predicate AsksOpen(jobs: seq<Job>, asked: seq<Cid>) {
    && (forall c :: c in asked <==> StillOpen(jobs, c))
    && (DistinctCids(jobs) ==> forall i, j | 0 <= i < j < |asked| :: asked[i] != asked[j])
  }

  ghost predicate NoneRaises(jobs: seq<Job>, polls: Cid -> Poll) {
    forall i | 0 <= i < |jobs| :: jobs[i].status == PENDING || jobs[i].status == RUNNING ==> !polls(jobs[i].cid).Raised?
  }

  /** A job of that id has not finished. */
  ghost predicate StillOpen(jobs: seq<Job>, c: Cid) {
    exists i :: 0 <= i < |jobs| && jobs[i].cid == c && (jobs[i].status == PENDING || jobs[i].status == RUNNING)
  }

  lemma OpenAre(jobs: seq<Job>, left: seq<Job>)
    requires left == UnfinishedJobs(jobs, |jobs|)
    ensures AsksOpen(jobs, Cids(left))
  {
    UnfinishedAre(jobs, |jobs|);
    forall c | c in Cids(left) ensures StillOpen(jobs, c) {
      var k :| 0 <= k < |left| && left[k].cid == c;
      assert left[k] in left;
    }
    forall c | StillOpen(jobs, c) ensures c in Cids(left) {
      var i :| 0 <= i < |jobs| && jobs[i].cid == c && (jobs[i].status == PENDING || jobs[i].status == RUNNING);
      assert jobs[i] in left;
      var k :| 0 <= k < |left| && left[k] == jobs[i];
      assert Cids(left)[k] == c;
    }
  }

  // ---------------------------------------------- a batch's status, from the answers

  /** The job was cancelled, before or by its answer. */
  ghost predicate WasCanceled(job: Job, p: Poll) {
    job.status == CANCELED || ((job.status == PENDING || job.status == RUNNING) && SaysCanceled(p))
  }

  ghost predicate WasLost(job: Job, p: Poll) {
    job.status == ERROR || ((job.status == PENDING || job.status == RUNNING) && SaysFailed(p))
  }

  ghost predicate IsOver(job: Job, p: Poll) {
    HasRun(job, p) || WasCanceled(job, p) || WasLost(job, p)
  }

  ghost predicate StaysPending(job: Job, p: Poll) {
    job.status == PENDING && !IsOver(job, p) && !SaysRunning(p)
  }

  /** A batch's status in terms of its jobs before the read and the answers. */
  ghost predicate StatusTold(jobs: seq<Job>, polls: Cid -> Poll, s: Status) {
    && (s == DONE <==> forall i | 0 <= i < |jobs| :: HasRun(jobs[i], polls(jobs[i].cid)))
    && (s == ERROR || s == CANCELED || s == DONE <==> forall i | 0 <= i < |jobs| :: IsOver(jobs[i], polls(jobs[i].cid)))
    && (s == ERROR ==> exists i :: 0 <= i < |jobs| && WasLost(jobs[i], polls(jobs[i].cid)))
    && (s == CANCELED ==> forall i | 0 <= i < |jobs| :: !WasLost(jobs[i], polls(jobs[i].cid)))
    && (s == PENDING <==> forall i | 0 <= i < |jobs| :: StaysPending(jobs[i], polls(jobs[i].cid)))
  }

  lemma BatchStatusTold(before: seq<Job>, now: seq<Job>, polls: Cid -> Poll)
    requires before != [] && ReadUpTo(before, now, polls, |before|)
    ensures StatusTold(before, polls, BatchStatus(now))
  {
    BatchStatusMeans(now);
    forall i | 0 <= i < |now|
      ensures now[i].status == DONE <==> HasRun(before[i], polls(before[i].cid))
      ensures now[i].status == ERROR <==> WasLost(before[i], polls(before[i].cid))
      ensures now[i].status == CANCELED <==> WasCanceled(before[i], polls(before[i].cid))
      ensures now[i].status == PENDING <==> StaysPending(before[i], polls(before[i].cid))
    {
      assert ReadLeaves(before[i], polls(before[i].cid), now[i]);
    }
  }

  /** The id was given to a job before the first job that was not taken. */
  ghost predicate IsAccepted(answers: seq<RunAnswer>, c: Cid) {
    exists k :: 0 <= k < |answers| && answers[k] == Accepted(c) && forall j | 0 <= j < k :: answers[j].Accepted?
  }

  lemma FirstAccepted(answers: seq<RunAnswer>, n: nat)
    requires n <= |answers| && (forall k | 0 <= k < n :: answers[k].Accepted?)
    requires n < |answers| ==> !answers[n].Accepted?
    ensures forall c :: IsAccepted(answers, c) <==> c in Given(answers, n)
  {
    forall c ensures IsAccepted(answers, c) <==> c in Given(answers, n) {
      if k :| 0 <= k < n && answers[k].cid == c {
        assert answers[k] == Accepted(c) && Given(answers, n)[k] == c;
      }
    }
  }

  lemma ReadKeeps(before: map<BatchId, seq<Job>>, id: BatchId, polls: Cid -> Poll, jobs: seq<Job>)
    requires id in before && (forall k | k in before :: BatchOk(before[k])) && SomeRead(before[id], jobs, polls)
    ensures
      var now := before[id := jobs];
      Progress(before, now) && forall k | k in now :: BatchOk(now[k])
  {
    var now := before[id := jobs];
    SomeReadProgresses(before[id], jobs, polls);
    SelfProgress(before);
    ReadIsOk(before[id], jobs, polls);
    forall k | k in before ensures k in now && JobsProgress(before[k], now[k]) && BatchOk(now[k]) {
      if k != id {
        assert JobsProgress(before[k], before[k]);
      }
    }
  }

  lemma ReadIsOk(before: seq<Job>, now: seq<Job>, polls: Cid -> Poll)
    requires BatchOk(before) && SomeRead(before, now, polls)
    ensures BatchOk(now)
  {
    forall i | 0 <= i < |now| ensures now[i].cid == before[i].cid && Kept(now[i]) {
      assert Kept(before[i]);
    }
  }

  // ------------------------------------------------------------- runs of a connection

  datatype Command =
    | DoSubmit(id: BatchId, answers: seq<RunAnswer>, cancelled: Cid -> CancelAnswer)
    | DoQuery(id: BatchId, polls: Cid -> Poll)
    | DoStatus(id: BatchId, polls: Cid -> Poll)
    | DoCancel(id: BatchId, polls: Cid -> Poll, cancelled: Cid -> CancelAnswer)
    | DoFetch(id: BatchId, wanted: seq<Cid>, polls: Cid -> Poll)

  /** A batch status a caller was told, and after which command. */
  datatype Told = Told(at: nat, id: BatchId, status: Status)

  /** Over the states of a run every batch stays on record, its status moves only
      forward, and once it is final no job of it changes or is asked for again. */
  ghost predicate MovesForward(history: seq<map<BatchId, seq<Job>>>) {
    forall i, j, id | 0 <= i <= j < |history| && id in history[i] ::
      && id in history[j] && history[i][id] != [] && history[j][id] != []
      && Reaches(BatchStatus(history[i][id]), BatchStatus(history[j][id]))
      && (!BatchStatus(history[i][id]).Unfinished() ==> history[j][id] == history[i][id])
  }

  lemma RunsMoveForward(history: seq<map<BatchId, seq<Job>>>)
    requires IsRun(history) && forall i, id | 0 <= i < |history| && id in history[i] :: history[i][id] != []
    ensures MovesForward(history)
  {
    forall i, j, id | 0 <= i <= j < |history| && id in history[i]
      ensures id in history[j] && Reaches(BatchStatus(history[i][id]), BatchStatus(history[j][id]))
      ensures !BatchStatus(history[i][id]).Unfinished() ==> history[j][id] == history[i][id]
    {
      RunMovesForward(history, i, j, id);
    }
  }

  ghost predicate ToldTruly(history: seq<map<BatchId, seq<Job>>>, t: Told) {
    t.at < |history| && t.id in history[t.at] && t.status == BatchStatus(history[t.at][t.id])
  }

  /** The command asks for the status of a batch on record, and no read raises. */
  ghost predicate Answered(batches: map<BatchId, seq<Job>>, command: Command) {
    command.DoStatus? && command.id in batches && NoneRaises(batches[command.id], command.polls)
  }

  ghost predicate ToldAt(told: seq<Told>, at: nat) {
    exists k :: 0 <= k < |told| && told[k].at == at
  }

  /** Any sequence of operations, whatever the QPM answers. The statuses told of a
      batch never go back, and a final one is told for good. */
  method Drive(c: Connection, commands: seq<Command>)
      returns (ghost history: seq<map<BatchId, seq<Job>>>, told: seq<Told>)
    requires c.Valid()
    modifies c
    ensures c.Valid() && |history| == |commands| + 1 && history[0] == old(c.batches) && history[|commands|] == c.batches
    ensures MovesForward(history)
    ensures forall k | 0 <= k < |told| :: ToldTruly(history, told[k])
    ensures forall k, l | 0 <= k < l < |told| && told[k].id == told[l].id :: Reaches(told[k].status, told[l].status)
    ensures forall n | 0 <= n < |commands| :: ToldAt(told, n + 1) <==> Answered(history[n], commands[n])
  {
    history, told := [c.batches], [];
    for n := 0 to |commands|
      invariant c.Valid() && |history| == n + 1 && history[0] == old(c.batches)
      invariant history[n] == c.batches && IsRun(history)
      invariant forall i, id | 0 <= i < |history| && id in history[i] :: history[i][id] != []
      invariant forall k | 0 <= k < |told| :: ToldTruly(history, told[k])
      invariant forall k, l | 0 <= k < l < |told| :: told[k].at <= told[l].at
      invariant forall k | 0 <= k < |told| :: told[k].at <= n
      invariant forall m | 0 <= m < n :: ToldAt(told, m + 1) <==> Answered(history[m], commands[m])
    {
      var status := Perform(c, commands[n]);
      ghost var before, wasTold := history, told;
      history := history + [c.batches];
      assert forall i | 0 <= i < |before| :: history[i] == before[i];
      if status.Some? {
        told := told + [Told(n + 1, commands[n].id, status.value)];
        OneMoreTold(wasTold, told);
      }
    }
    RunsMoveForward(history);
  }

  lemma OneMoreTold(before: seq<Told>, told: seq<Told>)
    requires |told| == |before| + 1 && told[..|before|] == before
    ensures forall at :: ToldAt(told, at) <==> ToldAt(before, at) || at == told[|before|].at
  {
    assert forall k | 0 <= k < |before| :: told[k] == before[k];
  }

  method Perform(c: Connection, command: Command) returns (status: Option<Status>)
    requires c.Valid()
    modifies c
    ensures c.Valid() && Progress(old(c.batches), c.batches)
    ensures status.Some? <==> Answered(old(c.batches), command)
    ensures status.Some? ==> command.id in c.batches && status.value == BatchStatus(c.batches[command.id])
  {
    status := None;
    SelfProgress(c.batches);
    match command
    case DoSubmit(id, answers, cancelled) =>
      if id !in c.batches && answers != [] {
        var _ := c.Submit(id, answers, cancelled);
      }
    case DoQuery(id, polls) =>
      var _ := c.Query(id, polls);
    case DoStatus(id, polls) =>
      status := c.GetBatchStatus(id, polls);
    case DoCancel(id, polls, cancelled) =>
      var _ := c.CancelBatch(id, polls, cancelled);
    case DoFetch(id, wanted, polls) =>
      var _ := c.FetchResult(id, wanted, polls);
  }
}
