/** Every interleaving of `client` calls with service, peer and directory
    events. One step is one locked section, one connect, or taking the connect
    lock; `Publish` releases it. */
module LifecycleRuns {
  import opened Prelude
  import opened LifecycleBinding

  type Tid = nat

  /** Where a thread is inside `client`. */
  datatype Pc =
    | Idle
    | Waiting(name: Name, expected: Option<RuntimeId>)
    | Holding(name: Name, expected: Option<RuntimeId>)
    | Connecting(name: Name, expected: Option<RuntimeId>, record: Record)
    | Connected(name: Name, expected: Option<RuntimeId>, client: Client)
  {
    predicate Locked() { Holding? || Connecting? || Connected? }
  }

  datatype Answer =
    | Returned(tid: Tid, name: Name, expected: Option<RuntimeId>, client: Client)
    | Raised(tid: Tid, error: Error)

  datatype System = System(
    shared: Shared,
    lock: Option<Tid>,
    threads: map<Tid, Pc>,
    answers: seq<Answer>,
    now: nat,
    lastLoss: nat)
  {
    function At(t: Tid): Pc { if t in threads then threads[t] else Idle }
    function Move(t: Tid, pc: Pc): System { this.(threads := threads[t := pc]) }
    function Answer(a: Answer): System { this.(answers := answers + [a]) }
    function Release(): System { this.(lock := None) }
  }

  datatype Step =
    | Call(t: Tid, name: Name, expected: Option<RuntimeId>)
    | Acquire(t: Tid)
    | Recheck(t: Tid)
    | ConnectDone(t: Tid)
    | ConnectFails(t: Tid)
    | Finish(t: Tid)
    | Installs(e: RecordEvent)
    | Disconnects(runtime: Option<RuntimeId>, handle: Option<Handle>)
    | LosesPeer(runtime: Option<RuntimeId>)
    | LosesDirectory(runtime: Option<RuntimeId>)
    | BindsDirectory(directory: nat, runtime: Option<RuntimeId>)
    | Starts
    | Closes

  function Respond(s: System, t: Tid, name: Name, expected: Option<RuntimeId>, looked: Looked): System
    requires !looked.Miss?
  {
    s.Move(t, Idle).Answer(if looked.Hit? then Returned(t, name, expected, looked.client) else Raised(t, looked.error))
  }

  function Count(xs: seq<Name>, x: Name): nat {
    if xs == [] then 0 else (if xs[0] == x then 1 else 0) + Count(xs[1..], x)
  }

  /** What a step does; a step its thread is not at does nothing. */
  function Next(s: System, step: Step): System {
    var tick := s.(now := s.now + 1);
    match step
    case Call(t, name, expected) =>
      if !s.At(t).Idle? then tick
      else
        var looked := Look(s.shared, name, expected);
        if looked.Miss? then tick.Move(t, Waiting(name, expected)) else Respond(tick, t, name, expected, looked)
    case Acquire(t) =>
      var pc := s.At(t);
      if !pc.Waiting? || s.lock.Some? then tick
      else tick.Move(t, Holding(pc.name, pc.expected)).(lock := Some(t))
    case Recheck(t) =>
      var pc := s.At(t);
      if !pc.Holding? then tick
      else
        var looked := Look(s.shared, pc.name, pc.expected);
        if !looked.Miss? then Respond(tick, t, pc.name, pc.expected, looked).Release()
        else if s.shared.record.Some? then tick.Move(t, Connecting(pc.name, pc.expected, s.shared.record.value))
        else tick
    case ConnectDone(t) =>
      var pc := s.At(t);
      if !pc.Connecting? then tick
      else if Count(pc.record.apis, pc.name) != 1 then tick.Move(t, Idle).Answer(Raised(t, NoSuchApi)).Release()
      else tick.Move(t, Connected(pc.name, pc.expected, Client(pc.name, pc.record.runtime, pc.record.handle, s.now)))
    case ConnectFails(t) =>
      if !s.At(t).Connecting? then tick
      else tick.Move(t, Idle).Answer(Raised(t, Unavailable)).Release()
    case Finish(t) =>
      var pc := s.At(t);
      if !pc.Connected? then tick
      else
        var (shared, looked) :=
            Publish(s.shared, pc.name, pc.expected, Some(pc.client.runtime), Some(pc.client.handle), pc.client);
        if looked.Miss? then tick
        else Respond(tick.(shared := shared), t, pc.name, pc.expected, looked).Release()
    case Installs(e) => tick.(shared := Install(s.shared, e).0)
    case Disconnects(runtime, handle) => tick.(shared := Disconnect(s.shared, runtime, handle))
    case LosesPeer(runtime) =>
      if runtime.Some? && runtime == s.shared.runtime
          then tick.(shared := PeerLost(s.shared, runtime), lastLoss := s.now)
      else tick
    case LosesDirectory(runtime) => tick.(shared := DirectoryLost(s.shared, runtime))
    case BindsDirectory(directory, runtime) => tick.(shared := BindDirectory(s.shared, directory, runtime))
    case Starts => tick.(shared := Begin(s.shared))
    case Closes => tick.(shared := Close(s.shared))
  }

  function Run(s: System, steps: seq<Step>): System
    decreases |steps|
  {
    if steps == [] then s else Run(Next(s, steps[0]), steps[1..])
  }

  const START := System(EMPTY, None, map[], [], 0, 0)

  // ------------------------------------------------------------------- safety

  ghost predicate ThreadOk(s: System, t: Tid) {
    var pc := s.At(t);
    && (pc.Locked() <==> s.lock == Some(t))
    && (pc.Connecting? || pc.Connected? ==> pc.name !in s.shared.clients)
    && (pc.Connected? ==> pc.client.name == pc.name && pc.client.made < s.now)
  }

  ghost predicate AnswerOk(a: Answer) {
    a.Returned? ==> a.client.name == a.name && (a.expected.Some? ==> a.client.runtime == a.expected.value)
  }

  /** The service state is consistent, the connect lock has one holder, the
      holder's name stays uncached until it publishes, and every answer names
      the runtime the caller asked for. */
  ghost predicate Safe(s: System) {
    && Consistent(s.shared)
    && (forall t :: ThreadOk(s, t))
    && (forall i | 0 <= i < |s.answers| :: AnswerOk(s.answers[i]))
  }

  /** A step that moves one thread and leaves the service state alone. */
  lemma ThreadStep(s: System, s': System, t: Tid)
    requires Safe(s) && s'.shared == s.shared && s.now <= s'.now
    requires forall u | u != t :: s'.At(u) == s.At(u)
    requires s'.lock == s.lock || s.lock == Some(t) || (s.lock == None && s'.lock == Some(t))
    requires s'.lock == s.lock || s'.lock == None || s'.lock == Some(t)
    requires ThreadOk(s', t)
    requires s'.answers == s.answers || (exists a :: AnswerOk(a) && s'.answers == s.answers + [a])
    ensures Safe(s')
  {
    forall u ensures ThreadOk(s', u) {
      assert ThreadOk(s, u) && ThreadOk(s, t);
    }
  }

  /** A step that only shrinks the client cache. */
  lemma CacheStep(s: System, s': System)
    requires Safe(s) && Consistent(s'.shared)
    requires s.now <= s'.now && s'.threads == s.threads && s'.lock == s.lock && s'.answers == s.answers
    requires forall n | n in s'.shared.clients :: n in s.shared.clients
    ensures Safe(s')
  {
    forall u ensures ThreadOk(s', u) {
      assert ThreadOk(s, u) && s'.At(u) == s.At(u);
    }
  }

  lemma CallIsSafe(s: System, t: Tid, name: Name, expected: Option<RuntimeId>)
    requires Safe(s)
    ensures Safe(Next(s, Call(t, name, expected)))
  {
    var s' := Next(s, Call(t, name, expected));
    assert ThreadOk(s, t);
    if s.At(t).Idle? {
      var looked := Look(s.shared, name, expected);
      if !looked.Miss? {
        var a := if looked.Hit? then Returned(t, name, expected, looked.client) else Raised(t, looked.error);
        assert AnswerOk(a) && s'.answers == s.answers + [a];
      }
    }
    ThreadStep(s, s', t);
  }

  lemma RecheckIsSafe(s: System, t: Tid)
    requires Safe(s)
    ensures Safe(Next(s, Recheck(t)))
  {
    var s', pc := Next(s, Recheck(t)), s.At(t);
    assert ThreadOk(s, t);
    if pc.Holding? {
      var looked := Look(s.shared, pc.name, pc.expected);
      if !looked.Miss? {
        var a := if looked.Hit? then Returned(t, pc.name, pc.expected, looked.client) else Raised(t, looked.error);
        assert AnswerOk(a) && s'.answers == s.answers + [a];
      }
    }
    ThreadStep(s, s', t);
  }

  lemma ConnectIsSafe(s: System, t: Tid, step: Step)
    requires Safe(s) && (step == Acquire(t) || step == ConnectDone(t) || step == ConnectFails(t))
    ensures Safe(Next(s, step))
  {
    var s' := Next(s, step);
    assert ThreadOk(s, t);
    if s'.answers != s.answers {
      var a := if step.ConnectFails? then Raised(t, Unavailable) else Raised(t, NoSuchApi);
      assert AnswerOk(a) && s'.answers == s.answers + [a];
    }
    ThreadStep(s, s', t);
  }

  /** The client a thread publishes is always its own. */
  lemma FinishInsertsOwnClient(s: System, t: Tid)
    requires Safe(s) && s.At(t).Connected?
    ensures
      var pc, s' := s.At(t), Next(s, Finish(t));
      var last := s'.answers[|s'.answers| - 1];
      && s'.At(t).Idle? && s'.lock == None
      && |s'.answers| == |s.answers| + 1
      && (last.Raised? ==> s'.shared == s.shared)
      && (last.Returned? ==>
            && last == Returned(t, pc.name, pc.expected, pc.client)
            && s'.shared == s.shared.(clients := s.shared.clients[pc.name := pc.client]))
  {
    assert ThreadOk(s, t);
  }

  lemma FinishIsSafe(s: System, t: Tid)
    requires Safe(s)
    ensures Safe(Next(s, Finish(t)))
  {
    var s', pc := Next(s, Finish(t)), s.At(t);
    assert ThreadOk(s, t);
    if pc.Connected? {
      FinishInsertsOwnClient(s, t);
      forall u ensures ThreadOk(s', u) {
        assert ThreadOk(s, u);
      }
      assert AnswerOk(s'.answers[|s.answers|]);
    } else {
      ThreadStep(s, s', t);
    }
  }

  lemma EventIsSafe(s: System, step: Step)
    requires Safe(s)
    requires step.Installs? || step.Disconnects? || step.LosesPeer? || step.LosesDirectory? || step.BindsDirectory?
              || step.Starts? || step.Closes?
    ensures Safe(Next(s, step))
  {
    CacheStep(s, Next(s, step));
  }

  lemma StepIsSafe(s: System, step: Step)
    requires Safe(s)
    ensures Safe(Next(s, step))
  {
    match step
    case Call(t, name, expected) => CallIsSafe(s, t, name, expected);
    case Recheck(t) => RecheckIsSafe(s, t);
    case Finish(t) => FinishIsSafe(s, t);
    case Acquire(t) => ConnectIsSafe(s, t, step);
    case ConnectDone(t) => ConnectIsSafe(s, t, step);
    case ConnectFails(t) => ConnectIsSafe(s, t, step);
    case _ => EventIsSafe(s, step);
  }

  /** In every interleaving: an absent record means an empty cache, every cached
      client carries the installed identity, at most one thread is between
      taking the connect lock and publishing, and no call is answered with a
      client of a runtime it did not name. */
  lemma {:induction false} EveryRunIsSafe(s: System, steps: seq<Step>)
    requires Safe(s)
    ensures Safe(Run(s, steps))
    decreases |steps|
  {
    if steps != [] {
      StepIsSafe(s, steps[0]);
      EveryRunIsSafe(Next(s, steps[0]), steps[1..]);
    }
  }

  lemma StartIsSafe()
    ensures Safe(START)
  {
  }

  // ------------------------------------------------------------- single flight

  /** The step empties the client cache. */
  predicate Clears(s: System, step: Step) {
    match step
    case Installs(e) => Install(s.shared, e).1.None?
    case Disconnects(runtime, handle) => runtime == s.shared.runtime && handle == s.shared.handle
    case LosesPeer(runtime) => runtime.Some? && runtime == s.shared.runtime
    case LosesDirectory(runtime) =>
      !(s.shared.directoryRuntime.Some? && runtime.Some? && s.shared.directoryRuntime != runtime)
    case Closes => s.shared.started
    case _ => false
  }

  /** The step ends a connection attempt with an error. */
  predicate FailsConnect(s: System, step: Step) {
    (step.ConnectDone? || step.ConnectFails? || step.Finish?)
    && |Next(s, step).answers| > |s.answers|
    && Next(s, step).answers[|s.answers|].Raised?
  }

  /** The step opens a connection for `name`. */
  predicate Opens(s: System, step: Step, name: Name) {
    step.ConnectDone? && !s.At(step.t).Connected? && Next(s, step).At(step.t).Connected? && s.At(step.t).Connecting?
    && s.At(step.t).name == name
  }

  ghost predicate Undisturbed(s: System, steps: seq<Step>)
    decreases |steps|
  {
    steps == [] ||
    (!Clears(s, steps[0]) && !FailsConnect(s, steps[0]) && Undisturbed(Next(s, steps[0]), steps[1..]))
  }

  ghost function Opened(s: System, steps: seq<Step>, name: Name): nat
    decreases |steps|
  {
    if steps == [] then 0
    else (if Opens(s, steps[0], name) then 1 else 0) + Opened(Next(s, steps[0]), steps[1..], name)
  }

  /** A connection for `name` is cached or about to be. */
  predicate Live(s: System, name: Name) {
    name in s.shared.clients
    || (s.lock.Some? && s.At(s.lock.value).Connected? && s.At(s.lock.value).name == name)
  }

  lemma OpensOnce(s: System, step: Step, name: Name)
    requires Safe(s) && !Clears(s, step) && !FailsConnect(s, step)
    ensures Opens(s, step, name) ==> !Live(s, name)
    ensures Opens(s, step, name) || Live(s, name) ==> Live(Next(s, step), name)
  {
    if s.lock.Some? {
      assert ThreadOk(s, s.lock.value);
    }
    match step
    case Call(t, _, _) => assert ThreadOk(s, t);
    case Acquire(t) => assert ThreadOk(s, t);
    case Recheck(t) => assert ThreadOk(s, t);
    case ConnectDone(t) => assert ThreadOk(s, t);
    case ConnectFails(t) => assert ThreadOk(s, t);
    case Finish(t) =>
      assert ThreadOk(s, t);
      if s.At(t).Connected? {
        FinishInsertsOwnClient(s, t);
      }
    case _ =>
  }

  /** While nothing clears the cache and no connect fails, a binding is connected
      at most once, however many threads call; not at all if it was cached. */
  lemma {:induction false} SingleFlight(s: System, steps: seq<Step>, name: Name)
    requires Safe(s) && Undisturbed(s, steps)
    ensures Opened(s, steps, name) <= if Live(s, name) then 0 else 1
    decreases |steps|
  {
    if steps != [] {
      OpensOnce(s, steps[0], name);
      StepIsSafe(s, steps[0]);
      SingleFlight(Next(s, steps[0]), steps[1..], name);
    }
  }

  lemma CachedStays(s: System, step: Step, name: Name)
    requires Safe(s) && !Clears(s, step) && !FailsConnect(s, step)
    ensures name in s.shared.clients ==>
      name in Next(s, step).shared.clients && Next(s, step).shared.clients[name] == s.shared.clients[name]
    ensures |s.answers| <= |Next(s, step).answers| <= |s.answers| + 1
    ensures s.answers == Next(s, step).answers[..|s.answers|]
    ensures forall i | |s.answers| <= i < |Next(s, step).answers| ::
      var a := Next(s, step).answers[i];
      a.Returned? && a.name == name ==>
        name in Next(s, step).shared.clients && Next(s, step).shared.clients[name] == a.client
  {
    match step
    case Finish(t) =>
      assert ThreadOk(s, t);
      if s.At(t).Connected? {
        FinishInsertsOwnClient(s, t);
      }
    case _ =>
  }

  /** In such a stretch every caller of a binding gets the one cached client. */
  lemma {:induction false} CallersShareOneClient(s: System, steps: seq<Step>, name: Name)
    requires Safe(s) && Undisturbed(s, steps)
    ensures name in s.shared.clients ==>
      name in Run(s, steps).shared.clients && Run(s, steps).shared.clients[name] == s.shared.clients[name]
    ensures |s.answers| <= |Run(s, steps).answers| && s.answers == Run(s, steps).answers[..|s.answers|]
    ensures forall i | |s.answers| <= i < |Run(s, steps).answers| ::
      var a := Run(s, steps).answers[i];
      a.Returned? && a.name == name ==>
        name in Run(s, steps).shared.clients && Run(s, steps).shared.clients[name] == a.client
    decreases |steps|
  {
    if steps != [] {
      var s', end := Next(s, steps[0]), Run(s, steps);
      CachedStays(s, steps[0], name);
      StepIsSafe(s, steps[0]);
      CallersShareOneClient(s', steps[1..], name);
      assert end.answers[..|s'.answers|] == s'.answers;
      forall i | |s.answers| <= i < |end.answers|
        ensures var a := end.answers[i];
          a.Returned? && a.name == name ==> name in end.shared.clients && end.shared.clients[name] == a.client
      {
        if i < |s'.answers| {
          assert end.answers[i] == s'.answers[i];
        }
      }
    }
  }

  // ------------------------------------------------------------ what a run installs

  /** A record event that is installed. */
  ghost predicate Installable(e: RecordEvent) {
    e.serviceMatches && e.runtime.Some? && e.handle.Some?
  }

  /** The last record event installed by a run. */
  ghost function LastInstalled(steps: seq<Step>): (r: Option<RecordEvent>)
    ensures r.Some? ==> Installable(r.value)
  {
    if steps == [] then None
    else
      var last := steps[|steps| - 1];
      if last.Installs? && Installable(last.e) then Some(last.e) else LastInstalled(steps[..|steps| - 1])
  }

  /** Whether a run leaves the binding started. */
  ghost predicate LeavesStarted(steps: seq<Step>) {
    steps != [] &&
    var last := steps[|steps| - 1];
    last.Starts? || (!last.Closes? && LeavesStarted(steps[..|steps| - 1]))
  }

  /** The runtime of the directory a run last heard of. */
  ghost function LastDirectoryRuntime(steps: seq<Step>): Option<RuntimeId> {
    if steps == [] then None
    else
      var last := steps[|steps| - 1];
      if last.BindsDirectory? then last.runtime
      else if last.Installs? && Installable(last.e) && last.e.directoryRuntime.Some? then last.e.directoryRuntime
      else LastDirectoryRuntime(steps[..|steps| - 1])
  }

  /** The directory `found` is no other than the one lost. */
  ghost predicate MayBeLost(known: Option<RuntimeId>, lost: Option<RuntimeId>) {
    known.None? || lost.None? || known == lost
  }

  /** The last step of a run takes the installed service away: the service itself
      disconnected, its directory was lost, or the binding was closed. */
  ghost predicate Withdraws(steps: seq<Step>)
    requires steps != []
  {
    var before, last := steps[..|steps| - 1], steps[|steps| - 1];
    match last
    case Disconnects(runtime, handle) =>
      if LastInstalled(before).None? then runtime.None? && handle.None?
      else runtime == LastInstalled(before).value.runtime && handle == LastInstalled(before).value.handle
    case LosesDirectory(runtime) => MayBeLost(LastDirectoryRuntime(before), runtime)
    case Closes => LeavesStarted(before)
    case _ => false
  }

  /** The service is available: it was installed and not withdrawn since. */
  ghost predicate InService(steps: seq<Step>) {
    steps != [] &&
    var last := steps[|steps| - 1];
    (last.Installs? && Installable(last.e)) || (!Withdraws(steps) && InService(steps[..|steps| - 1]))
  }

  /** The identity and availability of the service, read off the history of a run
      alone. */
  ghost predicate HeldAfter(s: Shared, steps: seq<Step>) {
    var e := LastInstalled(steps);
    && s.started == LeavesStarted(steps) && s.directoryRuntime == LastDirectoryRuntime(steps)
    && s.runtime == (if e.None? then None else e.value.runtime)
    && s.handle == (if e.None? then None else e.value.handle)
    && (InService(steps) ==>
          e.Some? && s.record == Some(Record(e.value.runtime.value, e.value.handle.value, e.value.apis)))
    && (!InService(steps) ==> s.record.None?)
  }

  lemma ThreadsLeaveHeld(s: System, step: Step)
    requires step.Call? || step.Acquire? || step.Recheck? || step.ConnectDone? || step.ConnectFails? || step.Finish?
    ensures Next(s, step).shared == s.shared.(clients := Next(s, step).shared.clients)
  {
  }

  lemma HeldStep(s: System, before: seq<Step>, last: Step)
    requires HeldAfter(s.shared, before)
    ensures HeldAfter(Next(s, last).shared, before + [last])
  {
    var all := before + [last];
    assert all[..|all| - 1] == before && all[|all| - 1] == last;
    match last
    case Installs(e) =>
    case Disconnects(_, _) =>
    case LosesPeer(_) =>
    case LosesDirectory(_) =>
    case BindsDirectory(_, _) =>
    case Starts =>
    case Closes =>
    case _ => ThreadsLeaveHeld(s, last);
  }

  /** What the binding holds is what the history of the run says. */
  lemma {:induction false} BindingIsHistory(steps: seq<Step>)
    ensures HeldAfter(Run(START, steps).shared, steps)
    decreases |steps|
  {
    if steps != [] {
      var before, last := steps[..|steps| - 1], steps[|steps| - 1];
      BindingIsHistory(before);
      RunAppends(START, before, last);
      HeldStep(Run(START, before), before, last);
      assert steps == before + [last];
    }
  }

  // -------------------------------------------------------------- an absent service

  ghost predicate NoInstall(steps: seq<Step>) {
    forall i | 0 <= i < |steps| :: steps[i].Installs? ==> !Installable(steps[i].e)
  }

  /** The answers of a run from `n` on are all errors. */
  ghost predicate AllRaised(answers: seq<Answer>, n: nat) {
    forall i | n <= i < |answers| :: answers[i].Raised?
  }

  lemma AbsentStep(s: System, step: Step)
    requires s.shared.record.None? && (step.Installs? ==> !Installable(step.e))
    ensures Next(s, step).shared.record.None?
    ensures |s.answers| <= |Next(s, step).answers| && AllRaised(Next(s, step).answers, |s.answers|)
  {
  }

  /** Without a record every call is answered with an error, until a record is
      installed. */
  lemma {:induction false} AbsentServiceRaises(s: System, steps: seq<Step>)
    requires s.shared.record.None? && NoInstall(steps)
    ensures Run(s, steps).shared.record.None?
    ensures |s.answers| <= |Run(s, steps).answers| && AllRaised(Run(s, steps).answers, |s.answers|)
    decreases |steps|
  {
    if steps != [] {
      var s' := Next(s, steps[0]);
      AbsentStep(s, steps[0]);
      AbsentServiceRaises(s', steps[1..]);
      AnswersStay(s', steps[1..]);
      forall i | |s.answers| <= i < |Run(s, steps).answers| ensures Run(s, steps).answers[i].Raised? {
        if i < |s'.answers| {
          assert Run(s, steps).answers[..|s'.answers|][i] == s'.answers[i];
        }
      }
    }
  }

  lemma {:induction false} AnswersStay(s: System, steps: seq<Step>)
    ensures |s.answers| <= |Run(s, steps).answers| && Run(s, steps).answers[..|s.answers|] == s.answers
    decreases |steps|
  {
    if steps != [] {
      AnswersGrow(s, steps[0]);
      AnswersStay(Next(s, steps[0]), steps[1..]);
    }
  }

  lemma AnswersGrow(s: System, step: Step)
    ensures s.answers <= Next(s, step).answers
  {
  }

  /** Once the service disconnected, its directory is lost or the binding is
      closed, no call gets a client until the next record is installed. */
  lemma WithdrawnServiceRaises(before: seq<Step>, last: Step, steps: seq<Step>)
    requires Withdraws(before + [last]) && NoInstall(steps)
    ensures
      var s := Run(START, before);
      AllRaised(Run(s, [last] + steps).answers, |s.answers|)
  {
    var s := Run(START, before);
    var all := before + [last];
    assert all[..|before|] == before;
    BindingIsHistory(all);
    RunAppends(START, before, last);
    assert ([last] + steps)[1..] == steps;
    var s' := Next(s, last);
    assert s'.answers == s.answers;
    AbsentServiceRaises(s', steps);
  }

  // ---------------------------------------------------------------- a call by itself

  /** The steps of one call that finds the cache empty, from call to answer. */
  function CallSteps(t: Tid, name: Name, expected: Option<RuntimeId>): seq<Step> {
    [Call(t, name, expected), Acquire(t), Recheck(t), ConnectDone(t), Finish(t)]
  }

  lemma CallReachesConnect(s: System, t: Tid, name: Name, expected: Option<RuntimeId>)
    requires s.lock.None? && s.At(t).Idle? && s.shared.record.Some? && name !in s.shared.clients
    requires expected.Some? ==> expected == s.shared.runtime
    ensures Next(Next(Next(s, Call(t, name, expected)), Acquire(t)), Recheck(t))
            == s.(lock := Some(t), now := s.now + 3,
                  threads := s.threads[t := Connecting(name, expected, s.shared.record.value)])
  {
    var s1 := Next(s, Call(t, name, expected));
    assert s1 == s.(now := s.now + 1, threads := s.threads[t := Waiting(name, expected)]);
    var s2 := Next(s1, Acquire(t));
    assert s2 == s.(lock := Some(t), now := s.now + 2, threads := s.threads[t := Holding(name, expected)]);
    assert s2.threads[t := Connecting(name, expected, s.shared.record.value)]
           == s.threads[t := Connecting(name, expected, s.shared.record.value)];
  }

  /** How a call that holds the connect lock ends when nobody disturbs it. */
  ghost predicate EndsWell(s: System, end: System, t: Tid, name: Name, expected: Option<RuntimeId>, made: Client) {
    && end.answers == s.answers + [Returned(t, name, expected, made)]
    && end.shared == s.shared.(clients := s.shared.clients[name := made]) && end.lock.None?
  }

  lemma ConnectEnds(s: System, t: Tid, name: Name, expected: Option<RuntimeId>, record: Record)
    requires s.At(t) == Connecting(name, expected, record) && s.lock == Some(t) && name !in s.shared.clients
    requires s.shared.record == Some(record) && s.shared.runtime == Some(record.runtime)
    requires s.shared.handle == Some(record.handle) && (expected.Some? ==> expected == s.shared.runtime)
    ensures
      var end := Next(Next(s, ConnectDone(t)), Finish(t));
      if multiset(record.apis)[name] == 1 then
        EndsWell(s, end, t, name, expected, Client(name, record.runtime, record.handle, s.now))
      else
        end.answers == s.answers + [Raised(t, NoSuchApi)] && end.shared == s.shared && end.lock.None?
  {
    CountIsMultiplicity(record.apis, name);
  }

  /** A call nobody disturbs connects from the installed record: it gets a client of
      that record's identity exactly when the record exposes one binding of the
      name, and the client is cached. */
  lemma CallConnects(s: System, t: Tid, name: Name, expected: Option<RuntimeId>)
    requires Safe(s) && s.lock.None? && s.At(t).Idle? && s.shared.record.Some? && name !in s.shared.clients
    requires expected.Some? ==> expected == s.shared.runtime
    ensures
      var record, end := s.shared.record.value, Run(s, CallSteps(t, name, expected));
      if multiset(record.apis)[name] == 1 then
        EndsWell(s, end, t, name, expected, Client(name, record.runtime, record.handle, s.now + 3))
      else
        end.answers == s.answers + [Raised(t, NoSuchApi)] && end.shared == s.shared && end.lock.None?
  {
    CallReachesConnect(s, t, name, expected);
    var s3 := Next(Next(Next(s, Call(t, name, expected)), Acquire(t)), Recheck(t));
    ConnectEnds(s3, t, name, expected, s.shared.record.value);
    FiveSteps(s, Call(t, name, expected), Acquire(t), Recheck(t), ConnectDone(t), Finish(t));
  }

  lemma OneStep(s: System, a: Step, rest: seq<Step>)
    ensures Run(s, [a] + rest) == Run(Next(s, a), rest)
  {
    assert ([a] + rest)[1..] == rest;
  }

  lemma FiveSteps(s: System, a: Step, b: Step, c: Step, d: Step, e: Step)
    ensures Run(s, [a, b, c, d, e]) == Next(Next(Next(Next(Next(s, a), b), c), d), e)
  {
    var s1 := Next(s, a);
    var s2 := Next(s1, b);
    var s3 := Next(s2, c);
    assert [a, b, c, d, e] == [a] + ([b] + ([c] + ([d] + ([e] + []))));
    OneStep(s, a, [b] + ([c] + ([d] + ([e] + []))));
    OneStep(s1, b, [c] + ([d] + ([e] + [])));
    OneStep(s2, c, [d] + ([e] + []));
    OneStep(s3, d, [e] + []);
    OneStep(Next(s3, d), e, []);
  }

  lemma {:induction false} CountIsMultiplicity(xs: seq<Name>, x: Name)
    ensures Count(xs, x) == multiset(xs)[x]
  {
    if xs != [] {
      CountIsMultiplicity(xs[1..], x);
      assert xs == [xs[0]] + xs[1..];
    }
  }

  /** A call answered at once: from the cache, or with the error that says why. */
  lemma CallAnswersAtOnce(s: System, t: Tid, name: Name, expected: Option<RuntimeId>)
    requires Safe(s) && s.At(t).Idle?
    requires s.shared.record.None? || name in s.shared.clients || (expected.Some? && expected != s.shared.runtime)
    ensures
      var end := Next(s, Call(t, name, expected));
      end.shared == s.shared && end.At(t).Idle? &&
      end.answers == s.answers + [
        if expected.Some? && s.shared.runtime.Some? && expected != s.shared.runtime then Raised(t, RuntimeChanged)
        else if s.shared.record.None? then Raised(t, Unavailable)
        else Returned(t, name, expected, s.shared.clients[name])]
  {
  }

  // --------------------------------------------------------- losing the transport

  /** Every cached client was connected after the QPM's peer was last lost. */
  ghost predicate Fresh(s: System) {
    forall n | n in s.shared.clients :: s.lastLoss <= s.shared.clients[n].made
  }

  /** A thread could publish now. */
  predicate CanPublish(s: System, t: Tid) {
    s.At(t).Connected?
    && Publish(s.shared, s.At(t).name, s.At(t).expected, Some(s.At(t).client.runtime), Some(s.At(t).client.handle),
       s.At(t).client).1.Hit?
  }

  /** The step publishes a client connected before the peer was last lost. */
  predicate PublishesLate(s: System, step: Step) {
    step.Finish? && CanPublish(s, step.t) && s.At(step.t).client.made < s.lastLoss
  }

  /** One step: the cache is fresh afterwards exactly when it was fresh or is
      cleared, and the step does not publish late. */
  lemma FreshStep(s: System, step: Step)
    requires Safe(s)
    ensures Fresh(Next(s, step)) <==> (Fresh(s) || Clears(s, step)) && !PublishesLate(s, step)
  {
    if step.Finish? {
      FreshFinish(s, step.t);
    } else if Clears(s, step) {
      assert Next(s, step).shared.clients == map[];
    } else {
      assert Next(s, step).shared.clients == s.shared.clients && Next(s, step).lastLoss == s.lastLoss;
    }
  }

  lemma FreshFinish(s: System, t: Tid)
    requires Safe(s)
    ensures Fresh(Next(s, Finish(t))) <==> Fresh(s) && !PublishesLate(s, Finish(t))
  {
    var s', pc := Next(s, Finish(t)), s.At(t);
    assert ThreadOk(s, t);
    if pc.Connected? {
      FinishInsertsOwnClient(s, t);
      if CanPublish(s, t) {
        assert s'.shared.clients == s.shared.clients[pc.name := pc.client] && pc.name !in s.shared.clients;
        forall n | n in s.shared.clients ensures n in s'.shared.clients && s'.shared.clients[n] == s.shared.clients[n] {
        }
        assert s'.shared.clients[pc.name] == pc.client;
      }
    }
  }

  ghost predicate ClearsSometime(s: System, steps: seq<Step>)
    decreases |steps|
  {
    steps != [] && (Clears(s, steps[0]) || ClearsSometime(Next(s, steps[0]), steps[1..]))
  }

  /** A client is published late and the cache is not cleared after that. */
  ghost predicate LeavesStale(s: System, steps: seq<Step>)
    decreases |steps|
  {
    steps != [] &&
    ((PublishesLate(s, steps[0]) && !ClearsSometime(Next(s, steps[0]), steps[1..]))
        || LeavesStale(Next(s, steps[0]), steps[1..]))
  }

  /** A whole run: it ends with a fresh cache exactly when it started with one or
      cleared it, and cleared it again after every late publication. */
  lemma {:induction false} FreshRun(s: System, steps: seq<Step>)
    requires Safe(s)
    ensures Fresh(Run(s, steps)) <==> (Fresh(s) || ClearsSometime(s, steps)) && !LeavesStale(s, steps)
    decreases |steps|
  {
    if steps != [] {
      FreshStep(s, steps[0]);
      StepIsSafe(s, steps[0]);
      FreshRun(Next(s, steps[0]), steps[1..]);
    }
  }

  ghost predicate AlwaysFresh(s: System, steps: seq<Step>)
    decreases |steps|
  {
    Fresh(s) && (steps != [] ==> AlwaysFresh(Next(s, steps[0]), steps[1..]))
  }

  ghost predicate NeverLate(s: System, steps: seq<Step>)
    decreases |steps|
  {
    steps != [] ==> !PublishesLate(s, steps[0]) && NeverLate(Next(s, steps[0]), steps[1..])
  }

  /** No state of a run holds a stale client exactly when no thread publishes a
      client it connected before the last loss. */
  lemma {:induction false} AlwaysFreshRun(s: System, steps: seq<Step>)
    requires Safe(s) && Fresh(s)
    ensures AlwaysFresh(s, steps) <==> NeverLate(s, steps)
    decreases |steps|
  {
    if steps != [] {
      FreshStep(s, steps[0]);
      StepIsSafe(s, steps[0]);
      if Fresh(Next(s, steps[0])) {
        AlwaysFreshRun(Next(s, steps[0]), steps[1..]);
      }
    }
  }

  /** A loss while a client is connected and not yet published makes its
      publication late. */
  lemma LossDuringConnectGoesStale(s: System, t: Tid)
    requires Safe(s) && CanPublish(s, t)
    ensures !Fresh(Run(s, [LosesPeer(s.shared.runtime), Finish(t)]))
  {
    assert ThreadOk(s, t);
    var lost := Next(s, LosesPeer(s.shared.runtime));
    StepIsSafe(s, LosesPeer(s.shared.runtime));
    FinishInsertsOwnClient(lost, t);
    var end := Next(lost, Finish(t));
    assert Run(s, [LosesPeer(s.shared.runtime), Finish(t)]) == end by {
      assert [LosesPeer(s.shared.runtime), Finish(t)][1..] == [Finish(t)];
      assert Run(lost, [Finish(t)]) == Run(end, []);
    }
    assert end.shared.clients[s.At(t).name] == s.At(t).client;
  }

  const READY := RecordEvent(true, Some(7), Some(1), [0], None)
  const SERVICE := EMPTY.(started := true, record := Some(Record(7, 1, [0])), runtime := Some(7), handle := Some(1))
  const CONNECTING := System(SERVICE, Some(0), map[0 := Connecting(0, None, Record(7, 1, [0]))], [], 5, 0)
  const CONNECTED := System(SERVICE, Some(0), map[0 := Connected(0, None, Client(0, 7, 1, 5))], [], 6, 0)

  const BEGUN := START.(shared := EMPTY.(started := true), now := 1)

  lemma FirstCallReachesConnecting()
    ensures Next(START, Starts) == BEGUN
    ensures Next(Next(Next(Next(BEGUN, Installs(READY)), Call(0, 0, None)), Acquire(0)), Recheck(0)) == CONNECTING
  {
    var s1 := Next(BEGUN, Installs(READY));
    assert s1 == System(SERVICE, None, map[], [], 2, 0);
    var s2 := Next(s1, Call(0, 0, None));
    assert s2 == System(SERVICE, None, map[0 := Waiting(0, None)], [], 3, 0);
    var s3 := Next(s2, Acquire(0));
    assert s3 == System(SERVICE, Some(0), map[0 := Holding(0, None)], [], 4, 0);
  }

  lemma FirstConnectIsMade()
    ensures Next(CONNECTING, ConnectDone(0)) == CONNECTED
  {
    assert [0][1..] == [];
    assert Count([0], 0) == 1;
  }

  ghost predicate Reachable(s: System) {
    exists steps :: Run(START, steps) == s
  }

  lemma ReachableNext(s: System, step: Step)
    requires Reachable(s)
    ensures Reachable(Next(s, step))
  {
    var steps :| Run(START, steps) == s;
    RunAppends(START, steps, step);
    assert Run(START, steps + [step]) == Next(s, step);
  }

  lemma ConnectedIsReachable()
    ensures Reachable(CONNECTED)
  {
    assert Run(START, []) == START;
    ReachableNext(START, Starts);
    FirstCallReachesConnecting();
    ReachableNext(BEGUN, Installs(READY));
    ReachableNext(Next(BEGUN, Installs(READY)), Call(0, 0, None));
    ReachableNext(Next(Next(BEGUN, Installs(READY)), Call(0, 0, None)), Acquire(0));
    ReachableNext(Next(Next(Next(BEGUN, Installs(READY)), Call(0, 0, None)), Acquire(0)), Recheck(0));
    ReachableNext(CONNECTING, ConnectDone(0));
    FirstConnectIsMade();
  }

  /** Such a state is reached from the start. */
  lemma StaleClientIsReachable()
    ensures exists s :: Reachable(s) && !Fresh(s)
  {
    ConnectedIsReachable();
    var steps :| Run(START, steps) == CONNECTED;
    StartIsSafe();
    EveryRunIsSafe(START, steps);
    var loss := [LosesPeer(Some(7)), Finish(0)];
    RunJoins(START, steps, loss);
    assert CanPublish(CONNECTED, 0);
    LossDuringConnectGoesStale(CONNECTED, 0);
    assert Reachable(Run(CONNECTED, loss));
  }

  lemma {:induction false} RunJoins(s: System, a: seq<Step>, b: seq<Step>)
    ensures Run(s, a + b) == Run(Run(s, a), b)
    decreases |a|
  {
    if a == [] {
      assert a + b == b;
    } else {
      assert (a + b)[1..] == a[1..] + b;
      RunJoins(Next(s, a[0]), a[1..], b);
    }
  }

  lemma {:induction false} RunAppends(s: System, steps: seq<Step>, step: Step)
    ensures Run(s, steps + [step]) == Next(Run(s, steps), step)
    decreases |steps|
  {
    if steps == [] {
      assert Run(s, [step]) == Run(Next(s, step), [step][1..]);
    } else {
      assert (steps + [step])[1..] == steps[1..] + [step];
      RunAppends(Next(s, steps[0]), steps[1..], step);
    }
  }
}
