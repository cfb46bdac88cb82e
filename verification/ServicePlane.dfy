/** Starting, watching and stopping the processes of a service plane through a
    state record that outlives any one command. */
module ServicePlane {
  import opened Prelude

  /** A process identity: its pid with what tells it from a later process of the
      same pid. */
  type Proc = nat

  datatype Answer = Alive | Dead | Mismatch | Unknown {
    predicate Gone() {
      Dead? || Mismatch?
    }
  }

  datatype Probed = Probed(proc: Proc, answer: Answer)

  /** One turn of the environment: the processes that end by themselves, whether
      a probe answers, whether a reused pid explains a process that is gone, and
      whether the action asked for works. */
  datatype Turn = Turn(deaths: set<Proc>, answers: bool, reused: bool, works: bool)

  /** Everything outside the commands. `script` is any behaviour at all; probes
      that answer tell the truth. */
  class World {
    const script: nat -> Turn
    var clock: nat
    var live: set<Proc>
    var next: Proc
    ghost var log: seq<Probed>

    ghost predicate Valid()
      reads this
    {
      forall p | p in live :: p < next
    }

    /** Every probe answers and no process ends by itself. */
    ghost predicate Steady() {
      forall n :: script(n).deaths == {} && script(n).answers
    }

    /** Besides, every action works. */
    ghost predicate Kind() {
      Steady() && forall n :: script(n).works
    }

    /** Every action works, no process ends by itself, and no probe answers. */
    ghost predicate Mute() {
      forall n :: script(n) == Turn({}, false, false, true)
    }

    constructor (script: nat -> Turn)
      ensures Valid() && live == {} && log == [] && clock == 0 && this.script == script
    {
      this.script := script;
      clock, live, next, log := 0, {}, 0, [];
    }

    method Tick() returns (t: Turn)
      requires Valid()
      modifies this
      ensures Valid() && live <= old(live) && next == old(next) && log == old(log)
      ensures t == script(old(clock)) && clock == old(clock) + 1 && live == old(live) - t.deaths
    {
      t := script(clock);
      clock, live := clock + 1, live - t.deaths;
    }

    /** Any fallible action that ends no process on purpose: a file, a connection
        record, an environment. */
    method Act() returns (ok: bool)
      requires Valid()
      modifies this
      ensures Valid() && live <= old(live) && next == old(next) && log == old(log)
      ensures clock == old(clock) + 1 && ok == script(old(clock)).works
      ensures live == old(live) - script(old(clock)).deaths
    {
      var t := Tick();
      ok := t.works;
    }

    method Probe(p: Proc) returns (a: Answer)
      requires Valid()
      modifies this
      ensures Valid() && live <= old(live) && next == old(next)
      ensures log == old(log) + [Probed(p, a)]
      ensures a.Alive? ==> p in live
      ensures a.Gone() ==> p !in live
      ensures clock == old(clock) + 1 && live == old(live) - script(old(clock)).deaths
      ensures a.Unknown? <==> !script(old(clock)).answers
      ensures a.Alive? <==> script(old(clock)).answers && p in live
      ensures a.Mismatch? <==> script(old(clock)).answers && p !in live && script(old(clock)).reused
    {
      var t := Tick();
      a := if !t.answers then Unknown else if p in live then Alive else if t.reused then Mismatch else Dead;
      log := log + [Probed(p, a)];
    }

    /** A termination that reports success leaves the process gone. */
    method Terminate(p: Proc) returns (ok: bool)
      requires Valid()
      modifies this
      ensures Valid() && live <= old(live) && next == old(next) && log == old(log)
      ensures ok ==> p !in live
      ensures clock == old(clock) + 1 && ok == script(old(clock)).works
      ensures live == old(live) - script(old(clock)).deaths - if ok then {p} else {}
    {
      var t := Tick();
      ok := t.works;
      if ok {
        live := live - {p};
      }
    }

    method Launch() returns (p: Option<Proc>)
      requires Valid()
      modifies this
      ensures Valid() && log == old(log) && next >= old(next)
      ensures p.None? ==> live <= old(live)
      ensures p.Some? ==> p.value == old(next) && next == old(next) + 1 && live <= old(live) + {p.value}
      ensures clock == old(clock) + 1 && (p.Some? <==> script(old(clock)).works)
      ensures live == old(live) - script(old(clock)).deaths + if p.Some? then {p.value} else {}
      ensures p.None? ==> next == old(next)
    {
      var t := Tick();
      if !t.works {
        return None;
      }
      p := Some(next);
      live, next := live + {next}, next + 1;
    }
  }

  // ----------------------------------------------------------------------- records

  datatype Role = Prte | Directory | Qpm

  datatype Phase = Starting | Ready | NotReady | Gone | Stale | Stopped | Failed

  /** `proc` is present once both the pid and the identity are on record; `files`
      says whether the component still has its control files. */
  datatype Component = Component(role: Role, proc: Option<Proc>, phase: Phase, files: bool)

  datatype PlaneState = PlaneStarting | PlaneReady | PlaneStale | PlaneDegraded | PlaneStopped | PlaneError

  datatype Plane = Plane(state: PlaneState, dryRun: bool, roles: seq<Role>, components: seq<Component>) {
    predicate HasDirectory() {
      Directory in roles
    }
  }

  /** `p` is on record as a component that was not stopped. */
  ghost predicate Held(cs: seq<Component>, p: Proc) {
    exists i :: 0 <= i < |cs| && cs[i].proc == Some(p) && !cs[i].phase.Stopped?
  }

  ghost predicate Distinct(cs: seq<Component>) {
    forall i, j | 0 <= i < j < |cs| :: cs[i].proc.Some? && cs[j].proc.Some? ==> cs[i].proc != cs[j].proc
  }

  predicate AllStopped(cs: seq<Component>) {
    forall i | 0 <= i < |cs| :: cs[i].phase.Stopped?
  }

  /** A directory component was recorded, which a plane that failed early may lack. */
  predicate RecordsDirectory(cs: seq<Component>) {
    exists i :: 0 <= i < |cs| && cs[i].role.Directory?
  }

  ghost predicate AllKnown(cs: seq<Component>, known: set<Proc>) {
    forall i | 0 <= i < |cs| :: cs[i].proc.Some? ==> cs[i].proc.value in known
  }

  ghost predicate SameButFiles(a: Plane, b: Plane) {
    && b == a.(components := b.components)
    && |a.components| == |b.components|
    && forall i | 0 <= i < |a.components| :: b.components[i] == a.components[i].(files := b.components[i].files)
  }

  /** What every command keeps of the record of a plane. */
  ghost predicate WellKept(p: Plane, next: Proc) {
    && Distinct(p.components)
    && (p.state.PlaneStopped? ==> AllStopped(p.components))
    && forall i | 0 <= i < |p.components| ::
         p.components[i].proc.Some? ==> !p.dryRun && p.components[i].proc.value < next
  }

  /** The last answer to a probe of `p`. */
  ghost function LastAnswer(log: seq<Probed>, p: Proc): Option<Answer> {
    if log == [] then None
    else if log[|log| - 1].proc == p then Some(log[|log| - 1].answer)
    else LastAnswer(log[..|log| - 1], p)
  }

  lemma {:induction false} LastAnswerKeeps(log: seq<Probed>, more: seq<Probed>, p: Proc)
    requires forall k | 0 <= k < |more| :: more[k].proc != p
    ensures LastAnswer(log + more, p) == LastAnswer(log, p)
    decreases |more|
  {
    if more == [] {
      assert log + more == log;
    } else {
      assert (log + more)[..|log + more| - 1] == log + more[..|more| - 1];
      LastAnswerKeeps(log, more[..|more| - 1], p);
    }
  }

  /** A component that a probe of this stretch of the log could not tell about. */
  ghost predicate Unanswered(log: seq<Probed>, c: Component) {
    exists k :: 0 <= k < |log| && c.proc == Some(log[k].proc) && log[k].answer.Unknown?
  }

  // ---------------------------------------------------------------------- liveness

  datatype Liveness = Missing | Observed(answer: Answer)

  /** The answer to a probe made in turn `t` of a process that runs or not. */
  ghost predicate AnswersTruly(a: Answer, t: Turn, runs: bool) {
    && (a.Unknown? <==> !t.answers) && (a.Alive? <==> t.answers && runs)
    && (a.Mismatch? <==> t.answers && !runs && t.reused)
  }

  /** A component without a recorded identity is not probed. */
  method Verify(w: World, c: Component) returns (s: Liveness)
    requires w.Valid()
    modifies w
    ensures w.Valid() && w.live <= old(w.live) && w.next == old(w.next)
    ensures s.Missing? <==> c.proc.None?
    ensures c.proc.None? ==> w.live == old(w.live) && w.clock == old(w.clock)
    ensures c.proc.Some? ==> w.clock == old(w.clock) + 1 && w.live == old(w.live) - w.script(old(w.clock)).deaths
    ensures c.proc.Some? ==> AnswersTruly(s.answer, w.script(old(w.clock)), c.proc.value in w.live)
    ensures w.log == old(w.log) + if c.proc.Some? then [Probed(c.proc.value, s.answer)] else []
    ensures c.proc.Some? && s.answer.Gone() ==> c.proc.value !in w.live
  {
    if c.proc.None? {
      return Missing;
    }
    var a := w.Probe(c.proc.value);
    s := Observed(a);
  }

  /** A component looked at from `clock` on: its process answers as alive and its
      readiness check works; of a dry run only the check counts. */
  ghost predicate ReadyFrom(w: World, c: Component, dryRun: bool, live: set<Proc>, clock: nat) {
    if dryRun then w.script(clock).works
    else
      && c.proc.Some? && w.script(clock).answers && c.proc.value in live - w.script(clock).deaths
      && w.script(clock + 1).works
  }

  method ComponentReady(w: World, c: Component, dryRun: bool) returns (ready: bool)
    requires w.Valid()
    modifies w
    ensures w.Valid() && w.live <= old(w.live) && w.next == old(w.next)
    ensures old(w.log) <= w.log && forall k | |old(w.log)| <= k < |w.log| :: c.proc == Some(w.log[k].proc)
    ensures ready && !dryRun ==> c.proc.Some? && LastAnswer(w.log, c.proc.value) == Some(Alive)
    ensures ready <==> ReadyFrom(w, c, dryRun, old(w.live), old(w.clock))
  {
    if !dryRun {
      var s := Verify(w, c);
      if s != Observed(Alive) {
        return false;
      }
    }
    ready := w.Act();
  }

  /** The recorded component is as good as gone: it was stopped, it has no
      recorded identity, or the last probe found it gone. */
  ghost predicate SafeToReplace(log: seq<Probed>, c: Component) {
    c.phase.Stopped? || c.proc.None?
        || (LastAnswer(log, c.proc.value).Some? && LastAnswer(log, c.proc.value).value.Gone())
  }

  method Active(w: World, plane: Plane) returns (active: bool)
    requires w.Valid() && WellKept(plane, w.next)
    modifies w
    ensures w.Valid() && w.live <= old(w.live) && w.next == old(w.next)
    ensures !active ==> forall i | 0 <= i < |plane.components| :: SafeToReplace(w.log, plane.components[i])
    ensures !active ==> forall p | Held(plane.components, p) :: p !in w.live
    ensures active ==> SomeStillThere(w.log, plane)
  {
    var cs := plane.components;
    for i := 0 to |cs|
      invariant w.Valid() && w.live <= old(w.live) && w.next == old(w.next)
      invariant forall j | 0 <= j < i :: SafeToReplace(w.log, cs[j])
      invariant forall j | 0 <= j < i :: cs[j].phase.Stopped? || cs[j].proc.None? || cs[j].proc.value !in w.live
    {
      if cs[i].phase.Stopped? {
        continue;
      }
      ghost var before := w.log;
      var ready := ComponentReady(w, cs[i], plane.dryRun);
      if ready {
        return true;
      }
      var s := Verify(w, cs[i]);
      if s == Observed(Alive) || s == Observed(Unknown) {
        return true;
      }
      assert w.log == before + w.log[|before|..];
      forall j | 0 <= j < i ensures SafeToReplace(w.log, cs[j]) {
        if cs[j].proc.Some? {
          LastAnswerKeeps(before, w.log[|before|..], cs[j].proc.value);
        }
      }
    }
    return false;
  }

  /** Why a command was refused: the component is ready, or the last probe found
      it alive or could not tell. */
  ghost predicate StillThere(log: seq<Probed>, c: Component, dryRun: bool) {
    || (dryRun && c.proc.None?)
    || (c.proc.Some? && LastAnswer(log, c.proc.value).Some? && !LastAnswer(log, c.proc.value).value.Gone())
  }

  ghost predicate SomeStillThere(log: seq<Probed>, plane: Plane) {
    exists i ::
        0 <= i < |plane.components| && !plane.components[i].phase.Stopped?
            && StillThere(log, plane.components[i], plane.dryRun)
  }

  // ---------------------------------------------------------------------- stopping

  /** The probes since `before`, all of one component. */
  ghost predicate OnlyProbes(before: seq<Probed>, now: seq<Probed>, c: Component) {
    before <= now && forall k | |before| <= k < |now| :: c.proc == Some(now[k].proc)
  }

  /** A probe of the component found it alive or could not tell. */
  ghost predicate FoundThere(probes: seq<Probed>, c: Component) {
    exists k :: 0 <= k < |probes| && c.proc == Some(probes[k].proc) && !probes[k].answer.Gone()
  }

  lemma FoundMore(probes: seq<Probed>, more: seq<Probed>, c: Component)
    ensures FoundThere(probes, c) || FoundThere(more, c) ==> FoundThere(probes + more, c)
  {
    var all := probes + more;
    assert forall k | 0 <= k < |probes| :: all[k] == probes[k];
    if FoundThere(more, c) {
      var k :| 0 <= k < |more| && c.proc == Some(more[k].proc) && !more[k].answer.Gone();
      assert all[|probes| + k] == more[k];
    }
  }

  /** The process ended by itself between two turns. */
  ghost predicate DiedAlone(w: World, p: Proc, from: nat, to: nat) {
    exists n :: from <= n < to && p in w.script(n).deaths
  }

  /** Of what ran at `from`, only the component's process was ended on purpose. */
  ghost predicate EndsOnly(w: World, live: set<Proc>, from: nat, now: set<Proc>, to: nat, c: Component) {
    from <= to && forall p | p in live && p !in now && c.proc != Some(p) :: DiedAlone(w, p, from, to)
  }

  /** A probe of a service begun at `clock` finds it gone, or its termination works;
      without a recorded identity there is nothing to do. */
  ghost predicate ServiceGoes(w: World, c: Component, dryRun: bool, live: set<Proc>, clock: nat) {
    || dryRun || c.proc.None?
    || (w.script(clock).answers
        && (c.proc.value !in live - w.script(clock).deaths || w.script(clock + 1).works))
  }

  /** The same of the virtual machine, which is asked to shut down and probed again
      before it is terminated. */
  ghost predicate PrteGoes(w: World, c: Component, dryRun: bool, live: set<Proc>, clock: nat) {
    || dryRun || c.proc.None?
    || (w.script(clock).answers
        && (|| c.proc.value !in live - w.script(clock).deaths
            || (w.script(clock + 2).answers
                && (|| c.proc.value in w.script(clock + 1).deaths + w.script(clock + 2).deaths
                    || w.script(clock + 3).works))))
  }

  /** Both probes come before anything is discarded; a failed termination still
      discards the control files. */
  method StopPrte(w: World, c: Component, dryRun: bool) returns (ok: bool, files: bool)
    requires w.Valid()
    modifies w
    ensures w.Valid() && w.live <= old(w.live) && w.next == old(w.next)
    ensures OnlyProbes(old(w.log), w.log, c)
    ensures files <==> c.files && Unanswered(w.log[|old(w.log)|..], c)
    ensures ok && !dryRun && c.proc.Some? ==> c.proc.value !in w.live
    ensures Unanswered(w.log[|old(w.log)|..], c) ==> !ok
    ensures dryRun || c.proc.None? ==> ok && w.log == old(w.log)
    ensures ok <==> PrteGoes(w, c, dryRun, old(w.live), old(w.clock))
    ensures EndsOnly(w, old(w.live), old(w.clock), w.live, w.clock, c)
    ensures w.Steady() && !dryRun && c.proc.Some? && c.proc.value in old(w.live)
              && !w.script(old(w.clock) + 3).works ==>
              !ok && !files && w.live == old(w.live)
  {
    if dryRun {
      return true, false;
    }
    var s := Verify(w, c);
    if s == Observed(Unknown) {
      assert w.log[|old(w.log)|..][0].answer.Unknown?;
      return false, c.files;
    }
    if s != Observed(Alive) {
      return true, false;
    }
    var _ := w.Act();
    var again := Verify(w, c);
    if again == Observed(Unknown) {
      assert w.log[|old(w.log)|..][1].answer.Unknown?;
      return false, c.files;
    }
    ok := true;
    if again == Observed(Alive) {
      ok := w.Terminate(c.proc.value);
    }
    files := false;
  }

  method StopService(w: World, c: Component, dryRun: bool) returns (ok: bool, files: bool)
    requires w.Valid()
    modifies w
    ensures w.Valid() && w.live <= old(w.live) && w.next == old(w.next)
    ensures OnlyProbes(old(w.log), w.log, c)
    ensures files <==> !ok && c.files
    ensures ok && !dryRun && c.proc.Some? ==> c.proc.value !in w.live
    ensures Unanswered(w.log[|old(w.log)|..], c) ==> !ok
    ensures dryRun || c.proc.None? ==> ok && w.log == old(w.log) && w.live == old(w.live)
    ensures ok <==> ServiceGoes(w, c, dryRun, old(w.live), old(w.clock))
    ensures !ok ==> FoundThere(w.log[|old(w.log)|..], c)
    ensures EndsOnly(w, old(w.live), old(w.clock), w.live, w.clock, c)
  {
    if !dryRun {
      var s := Verify(w, c);
      assert c.proc.Some? ==> w.log[|old(w.log)|..][0] == Probed(c.proc.value, s.answer);
      if s == Observed(Unknown) {
        return false, c.files;
      }
      if s == Observed(Alive) {
        ok := w.Terminate(c.proc.value);
        if !ok {
          return false, c.files;
        }
      }
    }
    return true, false;
  }

  /** What stopping did to one component: stopped and without control files only
      when its process is gone, and failed with its control files kept when a
      probe did not answer. */
  ghost predicate StopKept(c: Component, r: Component, dryRun: bool, live: set<Proc>, probes: seq<Probed>) {
    && r.proc == c.proc && r.role == c.role
    && (r.phase.Stopped? || r.phase.Failed?)
    && (r.phase.Stopped? ==> !r.files && (!dryRun && c.proc.Some? ==> c.proc.value !in live))
    && (Unanswered(probes, c) ==> r.phase.Failed? && r.files == c.files)
    && (r.phase.Failed? && !c.role.Prte? ==> FoundThere(probes, c))
  }

  /** A stop begun at `clock` gets rid of the component. */
  ghost predicate Stops(w: World, c: Component, dryRun: bool, live: set<Proc>, clock: nat) {
    if c.role.Prte? then
      w.script(clock).works && PrteGoes(w, c, dryRun, live - w.script(clock).deaths, clock + 1)
    else ServiceGoes(w, c, dryRun, live, clock)
  }

  /** An environment that lets a stop of the virtual machine begun at `clock` reach
      the termination and fail there. */
  ghost predicate Botched(w: World, clock: nat) {
    w.Steady() && w.script(clock).works && !w.script(clock + 4).works
  }

  /** A virtual machine on record that runs. */
  ghost predicate Running(c: Component, live: set<Proc>) {
    c.role.Prte? && c.proc.Some? && c.proc.value in live
  }

  method StopOne(w: World, c: Component, dryRun: bool) returns (r: Component)
    requires w.Valid()
    modifies w
    ensures w.Valid() && w.live <= old(w.live) && w.next == old(w.next)
    ensures OnlyProbes(old(w.log), w.log, c)
    ensures StopKept(c, r, dryRun, w.live, w.log[|old(w.log)|..])
    ensures r.phase.Stopped? <==> Stops(w, c, dryRun, old(w.live), old(w.clock))
    ensures EndsOnly(w, old(w.live), old(w.clock), w.live, w.clock, c)
    ensures !c.role.Prte? && (dryRun || c.proc.None?) ==>
              r == c.(phase := Stopped, files := false) && w.live == old(w.live)
    ensures Botched(w, old(w.clock)) && Running(c, old(w.live)) && !dryRun ==>
              r == c.(phase := Failed, files := false) && w.live == old(w.live)
  {
    var ok, files := true, c.files;
    if c.role.Prte? {
      ok := w.Act();
      if ok {
        ok, files := StopPrte(w, c, dryRun);
      }
    } else {
      ok, files := StopService(w, c, dryRun);
    }
    r := if ok then c.(phase := Stopped, files := files) else c.(phase := Failed, files := files);
  }

  /** The components from `n` on were stopped, in reverse order. */
  ghost predicate StoppedFrom(cs: seq<Component>, now: seq<Component>, n: nat, dryRun: bool, live: set<Proc>,
                              probes: seq<Probed>) {
    && |now| == |cs| && n <= |cs|
    && (forall i | 0 <= i < n :: now[i] == cs[i])
    && (forall i | n <= i < |cs| :: StopKept(cs[i], now[i], dryRun, live, probes))
  }

  lemma MoreProbes(c: Component, r: Component, dryRun: bool, live: set<Proc>, live': set<Proc>, probes: seq<Probed>,
                   more: seq<Probed>)
    requires StopKept(c, r, dryRun, live, probes) && live' <= live
    requires forall k | 0 <= k < |more| :: c.proc != Some(more[k].proc)
    ensures StopKept(c, r, dryRun, live', probes + more)
  {
    FoundMore(probes, more, c);
    if Unanswered(probes + more, c) {
      var k :| 0 <= k < |probes + more| && c.proc == Some((probes + more)[k].proc)
          && (probes + more)[k].answer.Unknown?;
      assert k < |probes|;
      assert Unanswered(probes, c);
    }
  }

  lemma EarlierProbes(c: Component, r: Component, dryRun: bool, live: set<Proc>, probes: seq<Probed>, more: seq<Probed>)
    requires StopKept(c, r, dryRun, live, more)
    requires forall k | 0 <= k < |probes| :: c.proc != Some(probes[k].proc)
    ensures StopKept(c, r, dryRun, live, probes + more)
  {
    FoundMore(probes, more, c);
    if Unanswered(probes + more, c) {
      var k :| 0 <= k < |probes + more| && c.proc == Some((probes + more)[k].proc)
          && (probes + more)[k].answer.Unknown?;
      assert more[k - |probes|] == (probes + more)[k];
      assert Unanswered(more, c);
    }
  }

  /** Every probe was of a component from `n` on. */
  ghost predicate ProbesOf(cs: seq<Component>, n: nat, probes: seq<Probed>) {
    forall k | 0 <= k < |probes| :: Owned(cs, n, probes[k].proc)
  }

  ghost predicate Owned(cs: seq<Component>, n: nat, p: Proc) {
    exists i :: n <= i < |cs| && cs[i].proc == Some(p)
  }

  lemma StepBack(cs: seq<Component>, was: seq<Component>, r: Component, n: nat, dryRun: bool,
                 live: set<Proc>, live': set<Proc>, probes: seq<Probed>, more: seq<Probed>)
    requires n < |cs| && Distinct(cs) && StoppedFrom(cs, was, n + 1, dryRun, live, probes)
    requires ProbesOf(cs, n + 1, probes)
    requires live' <= live && StopKept(cs[n], r, dryRun, live', more)
    requires forall k | 0 <= k < |more| :: cs[n].proc == Some(more[k].proc)
    ensures StoppedFrom(cs, was[n := r], n, dryRun, live', probes + more) && ProbesOf(cs, n, probes + more)
  {
    var now := was[n := r];
    forall k | 0 <= k < |probes| ensures cs[n].proc != Some(probes[k].proc) {
      assert Owned(cs, n + 1, probes[k].proc);
    }
    EarlierProbes(cs[n], r, dryRun, live', probes, more);
    forall i | n < i < |cs| ensures StopKept(cs[i], now[i], dryRun, live', probes + more) {
      MoreProbes(cs[i], was[i], dryRun, live, live', probes, more);
    }
    forall k | 0 <= k < |probes + more| ensures Owned(cs, n, (probes + more)[k].proc) {
      if k < |probes| {
        assert Owned(cs, n + 1, probes[k].proc);
      } else {
        assert cs[n].proc == Some(more[k - |probes|].proc);
      }
    }
  }

  ghost predicate NoneIdentified(cs: seq<Component>) {
    forall i | 0 <= i < |cs| :: !cs[i].role.Prte? && cs[i].proc.None?
  }

  /** Services only, none of them with a recorded identity. */
  ghost predicate Unidentified(plane: Plane) {
    !plane.HasDirectory() && NoneIdentified(plane.components)
  }

  ghost predicate RunningAlone(cs: seq<Component>, live: set<Proc>) {
    |cs| == 1 && Running(cs[0], live)
  }

  /** A plane of nothing but a running virtual machine. */
  ghost predicate OnlyPrte(plane: Plane, live: set<Proc>) {
    !plane.HasDirectory() && !plane.dryRun && RunningAlone(plane.components, live)
  }

  /** Of what ran at `from`, only processes of these components were ended on
      purpose. */
  ghost predicate EndsOwn(w: World, live: set<Proc>, from: nat, now: set<Proc>, to: nat, cs: seq<Component>) {
    from <= to && forall p | p in live && p !in now && !Owned(cs, 0, p) :: DiedAlone(w, p, from, to)
  }

  lemma Later(w: World, p: Proc, from: nat, mid: nat, to: nat)
    requires from <= mid <= to
    ensures DiedAlone(w, p, from, mid) || DiedAlone(w, p, mid, to) ==> DiedAlone(w, p, from, to)
  {
    if DiedAlone(w, p, from, mid) {
      var n :| from <= n < mid && p in w.script(n).deaths;
      assert from <= n < to;
    }
  }

  lemma EndsMore(w: World, live: set<Proc>, from: nat, was: set<Proc>, mid: nat, now: set<Proc>, to: nat,
                 cs: seq<Component>, i: nat)
    requires i < |cs| && EndsOwn(w, live, from, was, mid, cs) && EndsOnly(w, was, mid, now, to, cs[i])
    ensures EndsOwn(w, live, from, now, to, cs)
  {
    forall p | p in live && p !in now && !Owned(cs, 0, p) ensures DiedAlone(w, p, from, to) {
      Later(w, p, from, mid, to);
    }
  }

  /** The components in reverse order, each one tried. */
  method StopInTurn(w: World, cs: seq<Component>, dryRun: bool) returns (r: seq<Component>)
    requires w.Valid() && Distinct(cs)
    modifies w
    ensures w.Valid() && w.live <= old(w.live) && w.next == old(w.next) && old(w.log) <= w.log
    ensures StoppedFrom(cs, r, 0, dryRun, w.live, w.log[|old(w.log)|..])
    ensures EndsOwn(w, old(w.live), old(w.clock), w.live, w.clock, cs)
    ensures w.Kind() ==> AllStopped(r)
    ensures NoneIdentified(cs) ==> AllStopped(r) && w.live == old(w.live)
    ensures Botched(w, old(w.clock)) && RunningAlone(cs, old(w.live)) && !dryRun ==>
              w.live == old(w.live) && r == [cs[0].(phase := Failed, files := false)]
  {
    ghost var botched := Botched(w, w.clock) && RunningAlone(cs, w.live) && !dryRun;
    r := cs;
    var n := |cs|;
    ghost var probes: seq<Probed> := [];
    while n > 0
      invariant 0 <= n <= |cs| && w.Valid() && w.live <= old(w.live) && w.next == old(w.next)
      invariant w.log == old(w.log) + probes
      invariant StoppedFrom(cs, r, n, dryRun, w.live, probes) && ProbesOf(cs, n, probes)
      invariant EndsOwn(w, old(w.live), old(w.clock), w.live, w.clock, cs)
      invariant w.Kind() ==> forall i | n <= i < |cs| :: r[i].phase.Stopped?
      invariant NoneIdentified(cs) ==> w.live == old(w.live) && forall i | n <= i < |cs| :: r[i].phase.Stopped?
      invariant botched ==> w.live == old(w.live)
      invariant botched && n == 1 ==> w.clock == old(w.clock)
      invariant botched && n == 0 ==> r == [cs[0].(phase := Failed, files := false)]
    {
      n := n - 1;
      ghost var before, live, clock := w.log, w.live, w.clock;
      var c := StopOne(w, cs[n], dryRun);
      EndsMore(w, old(w.live), old(w.clock), live, clock, w.live, w.clock, cs, n);
      ghost var more := w.log[|before|..];
      assert w.log == before + more;
      StepBack(cs, r, c, n, dryRun, live, w.live, probes, more);
      probes := probes + more;
      r := r[n := c];
    }
    assert w.log[|old(w.log)|..] == probes;
  }

  lemma EndsAfter(w: World, live: set<Proc>, from: nat, was: set<Proc>, mid: nat, now: set<Proc>, to: nat,
                  cs: seq<Component>)
    requires from <= mid && (forall p | p in live && p !in was :: DiedAlone(w, p, from, mid))
    requires EndsOwn(w, was, mid, now, to, cs)
    ensures EndsOwn(w, live, from, now, to, cs)
  {
    forall p | p in live && p !in now && !Owned(cs, 0, p) ensures DiedAlone(w, p, from, to) {
      Later(w, p, from, mid, to);
    }
  }

  /** `ok` is that no component failed and the directory record was withdrawn. */
  method StopComponents(w: World, plane: Plane) returns (r: seq<Component>, ok: bool)
    requires w.Valid() && Distinct(plane.components)
    modifies w
    ensures w.Valid() && w.live <= old(w.live) && w.next == old(w.next) && old(w.log) <= w.log
    ensures StoppedFrom(plane.components, r, 0, plane.dryRun, w.live, w.log[|old(w.log)|..])
    ensures ok ==> AllStopped(r)
    ensures plane.dryRun || !plane.HasDirectory() ==> (ok <==> AllStopped(r))
    ensures plane.HasDirectory() && !plane.dryRun ==> (ok <==> AllStopped(r) && w.script(old(w.clock)).works)
    ensures EndsOwn(w, old(w.live), old(w.clock), w.live, w.clock, plane.components)
    ensures w.Kind() ==> ok
    ensures Unidentified(plane) ==> ok && w.live == old(w.live)
    ensures Botched(w, old(w.clock)) && OnlyPrte(plane, old(w.live)) ==>
              !ok && w.live == old(w.live) && r == [plane.components[0].(phase := Failed, files := false)]
  {
    ok := true;
    if plane.HasDirectory() && !plane.dryRun {
      ok := w.Act();
    }
    ghost var live, clock := w.live, w.clock;
    r := StopInTurn(w, plane.components, plane.dryRun);
    EndsAfter(w, old(w.live), old(w.clock), live, clock, w.live, w.clock, plane.components);
    ok := ok && AllStopped(r);
  }

  // -------------------------------------------------------------------- the commands

  /** `Abandoned` is a failure between recording the new plane and starting it. */
  datatype StartResult = Refused | NotPrepared | Abandoned | Started | StartFailed

  /** An environment that lets the virtual machine start from `clock` on. */
  ghost predicate Answering(w: World, clock: nat) {
    w.Steady() && w.script(clock).works && w.script(clock + 1).works
  }

  ghost predicate Obliging(w: World, clock: nat) {
    w.script(clock).works && w.script(clock + 1).works && Answering(w, clock + 2)
  }

  /** The component was started in its role: ready, and identified unless dry. */
  ghost predicate IsUp(c: Component, role: Role, dryRun: bool) {
    c.role == role && c.phase.Ready? && c.files && (c.proc.None? <==> dryRun)
  }

  ghost predicate Up(cs: seq<Component>, roles: seq<Role>, dryRun: bool) {
    |cs| == |roles| && forall i | 0 <= i < |cs| :: IsUp(cs[i], roles[i], dryRun)
  }

  /** Components of the planned roles, in their order. */
  ghost predicate HasRoles(cs: seq<Component>, roles: seq<Role>) {
    |cs| <= |roles| && forall i | 0 <= i < |cs| :: cs[i].role == roles[i]
  }

  ghost predicate AllLive(cs: seq<Component>, live: set<Proc>) {
    forall i | 0 <= i < |cs| :: cs[i].proc.Some? ==> cs[i].proc.value in live
  }

  /** What was started of a plane was stopped again, or could not be. */
  ghost predicate GivenUp(cs: seq<Component>, roles: seq<Role>) {
    HasRoles(cs, roles) && forall i | 0 <= i < |cs| :: cs[i].phase.Stopped? || cs[i].phase.Failed?
  }

  /** A process launched at `clock` and probed in the next turn is confirmed. */
  ghost predicate Confirmed(w: World, p: Proc, clock: nat) {
    w.script(clock).works && w.script(clock + 1).answers && p !in w.script(clock + 1).deaths
  }

  /** The same of the directory, published before and after. */
  ghost predicate Published(w: World, p: Proc, clock: nat) {
    w.script(clock).works && Confirmed(w, p, clock + 1) && w.script(clock + 3).works
  }

  datatype Command = DoStart(roles: seq<Role>, dryRun: bool) | DoStatus | DoStop

  /** The phase a status command gives a component by the last answer of a probe:
      never stopped, ready only when alive, gone when gone, and stale where nothing
      can be told. */
  ghost predicate SeenAs(c: Component, phase: Phase, dryRun: bool, log: seq<Probed>) {
    if dryRun then phase.Ready? || phase.Stale?
    else if c.proc.None? then phase.Stale?
    else
      match LastAnswer(log, c.proc.value)
      case None => false
      case Some(Alive) => phase.Ready? || phase == if c.phase.Starting? then Starting else NotReady
      case Some(Unknown) => phase.Stale?
      case Some(_) => phase.Gone?
  }

  lemma SeenStill(c: Component, phase: Phase, dryRun: bool, log: seq<Probed>, more: seq<Probed>)
    requires SeenAs(c, phase, dryRun, log) && forall k | 0 <= k < |more| :: c.proc != Some(more[k].proc)
    ensures SeenAs(c, phase, dryRun, log + more)
  {
    if c.proc.Some? {
      LastAnswerKeeps(log, more, c.proc.value);
    }
  }

  /** The components up to `n` are as they were last seen, the others as before. */
  ghost predicate SeenUpTo(cs: seq<Component>, now: seq<Component>, n: nat, dryRun: bool, log: seq<Probed>) {
    && |now| == |cs| && n <= |cs|
    && (forall j | 0 <= j < n :: now[j] == cs[j].(phase := now[j].phase) && SeenAs(cs[j], now[j].phase, dryRun, log))
    && forall j | n <= j < |cs| :: now[j] == cs[j]
  }

  lemma SeenMore(cs: seq<Component>, now: seq<Component>, n: nat, dryRun: bool, before: seq<Probed>, log: seq<Probed>,
                 phase: Phase)
    requires n < |cs| && Distinct(cs) && SeenUpTo(cs, now, n, dryRun, before)
    requires OnlyProbes(before, log, cs[n]) && SeenAs(cs[n], phase, dryRun, log)
    ensures SeenUpTo(cs, now[n := cs[n].(phase := phase)], n + 1, dryRun, log)
  {
    var more := log[|before|..];
    assert log == before + more;
    forall j | 0 <= j < n ensures SeenAs(cs[j], now[j].phase, dryRun, log) {
      assert forall k | 0 <= k < |more| :: more[k] == log[|before| + k];
      SeenStill(cs[j], now[j].phase, dryRun, before, more);
    }
  }

  ghost predicate SomeIs(cs: seq<Component>, n: nat, phase: Phase)
    requires n <= |cs|
  {
    exists j :: 0 <= j < n && cs[j].phase == phase
  }

  /** The state of a plane is what its components show together. */
  ghost predicate StateSays(plane: Plane) {
    var cs := plane.components;
    if |cs| == |plane.roles| && forall j | 0 <= j < |cs| :: cs[j].phase.Ready? then plane.state.PlaneReady?
    else if SomeIs(cs, |cs|, Stale) then plane.state.PlaneStale?
    else if SomeIs(cs, |cs|, Starting) then plane.state.PlaneStarting?
    else plane.state.PlaneDegraded?
  }

  lemma TakenOver(cs: seq<Component>, known: set<Proc>, live: set<Proc>)
    requires forall p | p in known && p in live :: Held(cs, p)
    requires AllStopped(cs)
    ensures forall p | p in known :: p !in live
  {
  }

  /** `known` is every process that was ever put on record. */
  class Manager {
    const world: World
    var plane: Option<Plane>
    ghost var known: set<Proc>

    /** A process that was put on record and still runs is on record, and not as
        stopped; a plane on record as stopped has only stopped components, and
        nothing is on record that was not put there. */
    ghost predicate Safe()
      reads this, world
    {
      && world.Valid()
      && (forall p | p in known :: p < world.next)
      && (plane.Some? ==> WellKept(plane.value, world.next))
      && (forall p | p in known && p in world.live :: plane.Some? && Held(plane.value.components, p))
      && (plane.Some? ==> AllKnown(plane.value.components, known))
    }

    constructor (script: nat -> Turn)
      ensures Safe() && plane.None? && known == {} && fresh(world) && world.script == script && world.clock == 0
    {
      plane, known := None, {};
      world := new World(script);
    }

    /** A new plane takes the place of a recorded one only when that was stopped,
        or the last probe of each component that was not found it gone. */
    method Start(roles: seq<Role>, dryRun: bool) returns (r: StartResult, ghost seen: seq<Probed>)
      requires Safe()
      modifies this, world
      ensures Safe() && known >= old(known)
      ensures r.Refused? ==> plane == old(plane)
      ensures r.Refused? ==>
                && old(plane).Some? && !old(plane).value.state.PlaneStopped?
                && SomeStillThere(seen, old(plane).value)
      ensures !r.Refused? && old(plane).Some? && !old(plane).value.state.PlaneStopped? ==>
                forall i | 0 <= i < |old(plane).value.components| ::
                  SafeToReplace(seen, old(plane).value.components[i])
      ensures r.NotPrepared? ==>
                && old(plane).Some? == plane.Some?
                && (plane.Some? ==> SameButFiles(old(plane).value, plane.value))
      ensures r.Abandoned? ==> plane == Some(Plane(PlaneStarting, dryRun, roles, []))
      ensures !r.Refused? ==> forall p | p in old(known) :: p !in world.live
      ensures r.Started? || r.StartFailed? ==>
                plane.Some? && plane.value.roles == roles && plane.value.dryRun == dryRun
      ensures r.Started? ==> plane.value.state.PlaneReady? && Up(plane.value.components, roles, dryRun)
      ensures r.StartFailed? ==> plane.value.state.PlaneError? && GivenUp(plane.value.components, roles)
      ensures world.Kind() ==> r.Refused? || (r.Started? && AllLive(plane.value.components, world.live))
      ensures old(plane).None? && world.Mute() && roles == [Qpm] && !dryRun ==>
                && r.StartFailed? && known == old(known) && world.live == old(world.live) + {old(world.next)}
                && plane.value.roles == roles && Unidentified(plane.value)
      ensures old(plane).None? && Obliging(world, old(world.clock)) && roles == [Prte] && !dryRun ==>
                && r.Started? && world.clock == old(world.clock) + 5
                && OnlyPrte(plane.value, world.live) && plane.value.components[0].files
    {
      var clear;
      clear, seen := Replaceable();
      if !clear {
        r := Refused;
        return;
      }
      if plane.Some? {
        var discarded := Discard();
        if !discarded {
          r := NotPrepared;
          return;
        }
      }
      var prepared := world.Act();
      if !prepared {
        r := NotPrepared;
        return;
      }
      plane := Some(Plane(PlaneStarting, dryRun, roles, []));
      var written := world.Act();
      if !written {
        r := Abandoned;
        return;
      }
      r := Bring(roles);
    }

    /** Brings the plane just recorded up, or stops what was started of it. */
    method Bring(roles: seq<Role>) returns (r: StartResult)
      requires Safe() && plane.Some? && plane.value == Plane(PlaneStarting, plane.value.dryRun, roles, [])
      modifies this, world
      ensures Safe() && known >= old(known) && (r.Started? || r.StartFailed?)
      ensures forall p | p in old(known) && p !in old(world.live) :: p !in world.live
      ensures plane.Some?
      ensures plane.value.roles == old(plane).value.roles && plane.value.dryRun == old(plane).value.dryRun
      ensures r.Started? ==> plane.value.state.PlaneReady? && Up(plane.value.components, roles, plane.value.dryRun)
      ensures r.StartFailed? ==> plane.value.state.PlaneError? && GivenUp(plane.value.components, roles)
      ensures world.Kind() ==> r.Started? && AllLive(plane.value.components, world.live)
      ensures world.Mute() && roles == [Qpm] && !old(plane).value.dryRun ==>
                && r.StartFailed? && known == old(known) && world.live == old(world.live) + {old(world.next)}
                && plane.value.roles == roles && Unidentified(plane.value)
      ensures Answering(world, old(world.clock)) && roles == [Prte] && !old(plane).value.dryRun ==>
                && r.Started? && world.clock == old(world.clock) + 3
                && OnlyPrte(plane.value, world.live) && plane.value.components[0].files
    {
      var ok := LaunchAll(roles);
      if ok {
        plane := Some(plane.value.(state := PlaneReady));
        r := Started;
        return;
      }
      plane := Some(plane.value.(state := PlaneError));
      var _ := StopAll();
      r := StartFailed;
    }

    /** Whether the recorded plane, if any, may be replaced; then no process ever on
        record still runs. */
    method Replaceable() returns (clear: bool, ghost seen: seq<Probed>)
      requires Safe()
      modifies world
      ensures Safe() && world.next == old(world.next)
      ensures clear ==> forall p | p in known :: p !in world.live
      ensures !clear ==> plane.Some? && !plane.value.state.PlaneStopped? && SomeStillThere(seen, plane.value)
      ensures clear && plane.Some? && !plane.value.state.PlaneStopped? ==>
                forall i | 0 <= i < |plane.value.components| :: SafeToReplace(seen, plane.value.components[i])
      ensures plane.None? ==> clear && world.live == old(world.live) && world.clock == old(world.clock)
    {
      clear, seen := true, world.log;
      if plane.Some? && !plane.value.state.PlaneStopped? {
        var active := Active(world, plane.value);
        clear, seen := !active, world.log;
      } else if plane.Some? {
        TakenOver(plane.value.components, known, world.live);
      }
    }

    /** Starts the components in turn, up to the first that fails. */
    method LaunchAll(roles: seq<Role>) returns (ok: bool)
      requires Safe() && plane.Some? && plane.value.state.PlaneStarting? && plane.value.components == []
      modifies this, world
      ensures Safe() && known >= old(known)
      ensures plane.Some? && plane.value == old(plane).value.(components := plane.value.components)
      ensures ok ==> Up(plane.value.components, roles, plane.value.dryRun)
      ensures HasRoles(plane.value.components, roles)
      ensures world.Kind() ==> ok && AllLive(plane.value.components, world.live)
      ensures forall p | p in old(known) && p !in old(world.live) :: p !in world.live
      ensures world.Mute() && roles == [Qpm] && !plane.value.dryRun ==>
                && !ok && known == old(known) && world.live == old(world.live) + {old(world.next)}
                && plane.value.components == [Component(Qpm, None, Starting, true)]
      ensures Answering(world, old(world.clock)) && roles == [Prte] && !plane.value.dryRun ==>
                && ok && world.clock == old(world.clock) + 3 && old(world.next) in world.live
                && plane.value.components == [Component(Prte, Some(old(world.next)), Ready, true)]
    {
      ghost var lost := world.Mute() && roles == [Qpm] && !plane.value.dryRun;
      ghost var answered := Answering(world, world.clock) && roles == [Prte] && !plane.value.dryRun;
      ok := world.Act();
      var i := 0;
      while i < |roles| && ok
        invariant 0 <= i <= |roles| && Safe() && known >= old(known)
        invariant plane.Some? && plane.value == old(plane).value.(components := plane.value.components)
        invariant ok ==> Up(plane.value.components, roles[..i], plane.value.dryRun)
        invariant HasRoles(plane.value.components, roles)
        invariant world.Kind() ==> ok && AllLive(plane.value.components, world.live)
        invariant forall p | p in old(known) && p !in old(world.live) :: p !in world.live
        invariant lost ==> known == old(known) && (ok <==> i == 0)
        invariant lost && i == 0 ==>
          world.live == old(world.live) && world.next == old(world.next) && plane.value.components == []
        invariant lost && i == 1 ==>
          && world.live == old(world.live) + {old(world.next)}
          && plane.value.components == [Component(Qpm, None, Starting, true)]
        invariant answered ==> ok
        invariant answered && i == 0 ==>
          world.clock == old(world.clock) + 1 && world.next == old(world.next) && plane.value.components == []
        invariant answered && i == 1 ==>
          && world.clock == old(world.clock) + 3 && old(world.next) in world.live
          && plane.value.components == [Component(Prte, Some(old(world.next)), Ready, true)]
        decreases |roles| - i
      {
        ok := LaunchNext(roles, i);
        i := i + 1;
      }
      assert roles[..|roles|] == roles;
    }

    /** Starts the next component. */
    method LaunchNext(roles: seq<Role>, i: nat) returns (ok: bool)
      requires Safe() && plane.Some? && plane.value.state.PlaneStarting? && i < |roles|
      requires Up(plane.value.components, roles[..i], plane.value.dryRun)
      modifies this, world
      ensures Safe() && known >= old(known)
      ensures plane.Some? && plane.value == old(plane).value.(components := plane.value.components)
      ensures ok ==> Up(plane.value.components, roles[..i + 1], plane.value.dryRun)
      ensures HasRoles(plane.value.components, roles)
      ensures world.Kind() && AllLive(old(plane).value.components, old(world.live)) ==>
                ok && AllLive(plane.value.components, world.live)
      ensures forall p | p in old(known) && p !in old(world.live) :: p !in world.live
      ensures world.Mute() && !plane.value.dryRun && roles[i].Qpm? ==>
                && !ok && known == old(known) && world.live == old(world.live) + {old(world.next)}
                && plane.value.components == old(plane).value.components + [Component(roles[i], None, Starting, true)]
      ensures world.Steady() && world.script(old(world.clock)).works && !plane.value.dryRun && roles[i].Prte? ==>
                && ok && world.clock == old(world.clock) + 2 && old(world.next) in world.live
                && plane.value.components
                   == old(plane).value.components + [Component(roles[i], Some(old(world.next)), Ready, true)]
    {
      ok := StartComponent(roles[i]);
      assert roles[..i + 1] == roles[..i] + [roles[i]];
    }

    /** Control files of a plane being replaced are removed; nothing else changes. */
    method Discard() returns (ok: bool)
      requires Safe() && plane.Some?
      requires forall p | p in known :: p !in world.live
      modifies this`plane, world
      ensures Safe() && world.live <= old(world.live) && world.next == old(world.next)
      ensures plane.Some? && SameButFiles(old(plane).value, plane.value)
      ensures ok ==> forall i | 0 <= i < |plane.value.components| :: !plane.value.components[i].files
      ensures !ok ==> plane == old(plane) && plane.value.HasDirectory() && !plane.value.dryRun
      ensures world.Kind() ==> ok
    {
      var cs := plane.value.components;
      if plane.value.HasDirectory() && !plane.value.dryRun {
        ok := world.Act();
        if !ok {
          return false;
        }
      }
      ok := true;
      plane := Some(plane.value.(components := seq(|cs|, i requires 0 <= i < |cs| => cs[i].(files := false))));
    }

    /** One component; the directory's connection record is published before it
        starts and again once it is ready, and either can fail. */
    method StartComponent(role: Role) returns (ok: bool)
      requires Safe() && plane.Some? && plane.value.state.PlaneStarting?
      modifies this, world
      ensures Safe() && known >= old(known)
      ensures plane.Some? && plane.value == old(plane).value.(components := plane.value.components)
      ensures ok ==> plane.value.components == old(plane).value.components + [
                Component(role, if plane.value.dryRun then None else Some(old(world.next)), Ready, true)]
      ensures !ok ==>
                || plane.value.components == old(plane).value.components
                || (|plane.value.components| == |old(plane).value.components| + 1
                    && old(plane).value.components <= plane.value.components
                    && plane.value.components[|old(plane).value.components|].role == role)
      ensures !role.Directory? ==> (ok <==> plane.value.dryRun || Confirmed(world, old(world.next), old(world.clock)))
      ensures role.Directory? ==> (ok <==> plane.value.dryRun || Published(world, old(world.next), old(world.clock)))
      ensures world.Kind() ==>
                ok && old(world.live) <= world.live && (plane.value.dryRun || old(world.next) in world.live)
      ensures forall p | p in old(known) && p !in old(world.live) :: p !in world.live
      ensures world.Mute() && !plane.value.dryRun && role.Qpm? ==>
                && !ok && known == old(known) && world.live == old(world.live) + {old(world.next)}
                && plane.value.components == old(plane).value.components + [Component(role, None, Starting, true)]
      ensures world.Steady() && world.script(old(world.clock)).works && !plane.value.dryRun && role.Prte? ==>
                && ok && world.clock == old(world.clock) + 2 && old(world.next) in world.live
                && plane.value.components
                   == old(plane).value.components + [Component(role, Some(old(world.next)), Ready, true)]
    {
      var publishes := role.Directory? && !plane.value.dryRun;
      if publishes {
        ok := world.Act();
        if !ok {
          return;
        }
      }
      ok := StartOne(role);
      if ok && publishes {
        ok := world.Act();
      }
    }

    /** Records the component, launches it, and records its identity once a probe
        confirms the process. */
    method StartOne(role: Role) returns (ok: bool)
      requires Safe() && plane.Some? && plane.value.state.PlaneStarting?
      modifies this, world
      ensures Safe() && known >= old(known)
      ensures plane.Some? && plane.value == old(plane).value.(components := plane.value.components)
      ensures plane.value.components == old(plane).value.components + [
                if plane.value.dryRun then Component(role, None, Ready, true)
                else if ok then Component(role, Some(old(world.next)), Ready, true)
                else Component(role, None, Starting, true)]
      ensures ok <==> plane.value.dryRun || Confirmed(world, old(world.next), old(world.clock))
      ensures known == if ok && !plane.value.dryRun then old(known) + {old(world.next)} else old(known)
      ensures ok && !plane.value.dryRun ==> old(world.next) in world.live && world.clock == old(world.clock) + 2
      ensures world.Steady() ==> old(world.live) <= world.live
      ensures forall p | p in old(known) && p !in old(world.live) :: p !in world.live
      ensures world.Mute() && !plane.value.dryRun ==>
                && !ok && known == old(known) && world.live == old(world.live) + {old(world.next)}
                && plane.value.components == old(plane).value.components + [Component(role, None, Starting, true)]
      ensures world.Steady() && world.script(old(world.clock)).works && !plane.value.dryRun ==>
                && ok && world.clock == old(world.clock) + 2 && old(world.next) in world.live
                && plane.value.components
                   == old(plane).value.components + [Component(role, Some(old(world.next)), Ready, true)]
    {
      var cs := plane.value.components;
      var c := Component(role, None, Starting, true);
      HeldGrows(cs, known);
      plane := Some(plane.value.(components := cs + [c]));
      if plane.value.dryRun {
        plane := Some(plane.value.(components := cs + [c.(phase := Ready)]));
        return true;
      }
      var p := world.Launch();
      if p.None? {
        return false;
      }
      var a := world.Probe(p.value);
      if !a.Alive? {
        return false;
      }
      var started := c.(proc := p, phase := Ready);
      plane := Some(plane.value.(components := cs + [started]));
      assert plane.value.components[|cs|] == started && Held(plane.value.components, p.value);
      known := known + {p.value};
      return true;
    }

    /** Stops the components of the plane on record. */
    method StopAll() returns (ok: bool)
      requires Safe() && plane.Some? && !plane.value.state.PlaneStopped?
      modifies this`plane, world
      ensures Safe() && world.live <= old(world.live) && old(world.log) <= world.log
      ensures plane.Some? && plane.value == old(plane).value.(components := plane.value.components)
      ensures StoppedFrom(old(plane).value.components, plane.value.components, 0, plane.value.dryRun, world.live,
                world.log[|old(world.log)|..])
      ensures ok ==> AllStopped(plane.value.components)
      ensures plane.value.dryRun || !plane.value.HasDirectory() ==> (ok <==> AllStopped(plane.value.components))
      ensures plane.value.HasDirectory() && !plane.value.dryRun ==>
                (ok <==> AllStopped(plane.value.components) && world.script(old(world.clock)).works)
      ensures EndsOwn(world, old(world.live), old(world.clock), world.live, world.clock, old(plane).value.components)
      ensures world.Kind() ==> ok
      ensures Unidentified(old(plane).value) ==> ok && world.live == old(world.live)
      ensures Botched(world, old(world.clock)) && OnlyPrte(old(plane).value, old(world.live)) ==>
                && !ok && world.live == old(world.live)
                && plane.value.components == [old(plane).value.components[0].(phase := Failed, files := false)]
    {
      var cs, done := StopComponents(world, plane.value);
      KeptAfterStop(plane.value, cs, known, world.live, world.next, world.log[|old(world.log)|..]);
      plane := Some(plane.value.(components := cs));
      ok := done;
    }

    /** Reports stopped only when every component was, and otherwise fails with
        the plane on record in error. */
    method Stop() returns (ok: bool)
      requires Safe() && plane.Some?
      modifies this`plane, world
      ensures Safe() && plane.Some?
      ensures ok <==> plane.value.state.PlaneStopped?
      ensures !ok ==> plane.value.state.PlaneError?
      ensures ok ==> AllStopped(plane.value.components) && forall p | p in known :: p !in world.live
      ensures old(plane).value.state.PlaneStopped? ==> plane == old(plane) && ok && world.live == old(world.live)
      ensures plane.value == old(plane).value.(components := plane.value.components, state := plane.value.state)
      ensures !old(plane).value.state.PlaneStopped? ==>
                && old(world.log) <= world.log
                && StoppedFrom(old(plane).value.components, plane.value.components, 0, plane.value.dryRun, world.live,
                   world.log[|old(world.log)|..])
                && (plane.value.dryRun || !plane.value.HasDirectory() ==> (ok <==> AllStopped(plane.value.components)))
                && (plane.value.HasDirectory() && !plane.value.dryRun ==>
                      (ok <==> AllStopped(plane.value.components) && world.script(old(world.clock)).works))
                && EndsOwn(world, old(world.live), old(world.clock), world.live, world.clock,
                     old(plane).value.components)
                && (world.Kind() ==> ok)
                && (Unidentified(old(plane).value) ==> ok && world.live == old(world.live))
                && (Botched(world, old(world.clock)) && OnlyPrte(old(plane).value, old(world.live)) ==>
                      && !ok && world.live == old(world.live)
                      && plane.value.components == [old(plane).value.components[0].(phase := Failed, files := false)])
    {
      if plane.value.state.PlaneStopped? {
        TakenOver(plane.value.components, known, world.live);
        return true;
      }
      ok := StopAll();
      plane := Some(plane.value.(state := if ok then PlaneStopped else PlaneError));
      if ok {
        TakenOver(plane.value.components, known, world.live);
      }
    }

    /** The phase of a component as a status command sees it; never stopped, and
        ready only if the last probe found it alive. */
    method Observe(c: Component, dryRun: bool) returns (phase: Phase)
      requires world.Valid()
      modifies world
      ensures world.Valid() && world.live <= old(world.live) && world.next == old(world.next)
      ensures OnlyProbes(old(world.log), world.log, c)
      ensures SeenAs(c, phase, dryRun, world.log)
      ensures phase.Ready? <==> ReadyFrom(world, c, dryRun, old(world.live), old(world.clock))
    {
      var ready := ComponentReady(world, c, dryRun);
      if ready {
        return Ready;
      }
      if dryRun {
        return Stale;
      }
      var s := Verify(world, c);
      if s.Missing? {
        return Stale;
      }
      match s.answer
      case Dead => return Gone;
      case Mismatch => return Gone;
      case Unknown => return Stale;
      case Alive => return if c.phase.Starting? then Starting else NotReady;
    }

    /** Every component as it is seen now, and what they show together. */
    method ObserveAll(p: Plane) returns (now: seq<Component>, allReady: bool, starting: bool, stale: bool)
      requires world.Valid() && Distinct(p.components)
      modifies world
      ensures world.Valid() && world.live <= old(world.live) && world.next == old(world.next)
      ensures SeenUpTo(p.components, now, |p.components|, p.dryRun, world.log)
      ensures allReady <==> |now| == |p.roles| && forall j | 0 <= j < |now| :: now[j].phase.Ready?
      ensures (stale <==> SomeIs(now, |now|, Stale)) && (starting <==> SomeIs(now, |now|, Starting))
    {
      var cs := p.components;
      now, allReady, starting, stale := cs, |cs| == |p.roles|, false, false;
      for i := 0 to |cs|
        invariant world.Valid() && world.live <= old(world.live) && world.next == old(world.next)
        invariant SeenUpTo(cs, now, i, p.dryRun, world.log)
        invariant allReady <==> |cs| == |p.roles| && forall j | 0 <= j < i :: now[j].phase.Ready?
        invariant (stale <==> SomeIs(now, i, Stale)) && (starting <==> SomeIs(now, i, Starting))
      {
        ghost var before, log := now, world.log;
        var phase := Observe(cs[i], p.dryRun);
        SeenMore(cs, now, i, p.dryRun, log, world.log, phase);
        now := now[i := cs[i].(phase := phase)];
        assert forall j | 0 <= j < i :: now[j] == before[j];
        assert now[i].phase == phase;
        allReady := allReady && phase.Ready?;
        starting, stale := starting || phase.Starting?, stale || phase.Stale?;
      }
    }

    /** A status command changes nothing but what the record says of liveness; it
        reports ready only when every planned component is. */
    method Status() returns (ok: bool)
      requires Safe() && plane.Some?
      modifies this`plane, world
      ensures Safe() && plane.Some? && world.live <= old(world.live)
      ensures old(plane).value.state.PlaneStopped? ==> plane == old(plane) && ok
      ensures !ok ==> plane == old(plane)
      ensures plane.value == old(plane).value.(components := plane.value.components, state := plane.value.state)
      ensures !ok ==> RecordsDirectory(old(plane).value.components) && !old(plane).value.dryRun && !world.Kind()
      ensures ok && !old(plane).value.state.PlaneStopped? ==>
                && StateSays(plane.value)
                && SeenUpTo(old(plane).value.components, plane.value.components, |plane.value.components|,
                     plane.value.dryRun, world.log)
    {
      if plane.value.state.PlaneStopped? {
        return true;
      }
      var now, allReady, starting, stale := ObserveAll(plane.value);
      if RecordsDirectory(plane.value.components) && !plane.value.dryRun {
        var published := world.Act();
        if !published {
          return false;
        }
      }
      KeptAfterStatus(plane.value, now, known, world.live, world.next);
      plane := Some(plane.value.(
        components := now,
        state := if allReady then PlaneReady else if stale then PlaneStale else if starting then PlaneStarting
            else PlaneDegraded));
      return true;
    }

    /** Any sequence of commands, in any environment, keeps every running recorded
        process on record. */
    method Drive(commands: seq<Command>)
      requires Safe()
      modifies this, world
      ensures Safe()
      ensures forall p | p in world.live :: p in known <==> plane.Some? && Held(plane.value.components, p)
    {
      for i := 0 to |commands|
        invariant Safe()
      {
        match commands[i]
        case DoStart(roles, dryRun) =>
          var _, _ := Start(roles, dryRun);
        case DoStatus =>
          if plane.Some? {
            var _ := Status();
          }
        case DoStop =>
          if plane.Some? {
            var _ := Stop();
          }
      }
    }
  }

  /** A component whose process was launched but never identified: its start fails,
      a stop then reports the plane stopped, and the process still runs, on
      nobody's record. */
  method LostProcess() returns (m: Manager, p: Proc)
    ensures m.Safe() && m.plane.Some? && m.plane.value.state.PlaneStopped? && AllStopped(m.plane.value.components)
    ensures p in m.world.live && p !in m.known
  {
    m := new Manager(_ => Turn({}, false, false, true));
    p := m.world.next;
    var r, _ := m.Start([Qpm], false);
    var ok := m.Stop();
  }

  /** A virtual machine started without trouble whose termination fails: the stop
      fails and its process still runs, but its control files are gone. */
  method FilesOfRunningProcessRemoved() returns (m: Manager, p: Proc)
    ensures m.Safe() && p in m.world.live && m.plane.Some? && m.plane.value.state.PlaneError?
    ensures m.plane.value.components == [Component(Prte, Some(p), Failed, false)]
  {
    m := new Manager(n => Turn({}, true, false, n != 9));
    var r, _ := m.Start([Prte], false);
    var before := m.plane.value.components[0];
    assert before.files;
    p := before.proc.value;
    var ok := m.Stop();
  }

  lemma KeptAfterStatus(plane: Plane, now: seq<Component>, known: set<Proc>, live: set<Proc>, next: Proc)
    requires WellKept(plane, next) && !plane.state.PlaneStopped?
    requires |now| == |plane.components|
    requires forall j | 0 <= j < |now| ::
              now[j] == plane.components[j].(phase := now[j].phase) && !now[j].phase.Stopped?
    requires forall p | p in known && p in live :: Held(plane.components, p)
    ensures Distinct(now)
    ensures forall i | 0 <= i < |now| :: now[i].proc.Some? ==> !plane.dryRun && now[i].proc.value < next
    ensures forall p | p in known && p in live :: Held(now, p)
  {
    forall j | 0 <= j < |now| ensures now[j].proc == plane.components[j].proc {
    }
    forall p | p in known && p in live ensures Held(now, p) {
      var i :| 0 <= i < |plane.components| && plane.components[i].proc == Some(p)
          && !plane.components[i].phase.Stopped?;
      assert now[i].proc == Some(p);
    }
  }

  lemma HeldGrows(cs: seq<Component>, known: set<Proc>)
    ensures forall p, c | p in known && Held(cs, p) :: Held(cs + [c], p)
  {
    forall p, c | p in known && Held(cs, p) ensures Held(cs + [c], p) {
      var i :| 0 <= i < |cs| && cs[i].proc == Some(p) && !cs[i].phase.Stopped?;
      assert (cs + [c])[i] == cs[i];
    }
  }

  lemma KeptAfterStop(plane: Plane, cs: seq<Component>, known: set<Proc>, live: set<Proc>, next: Proc,
                      probes: seq<Probed>)
    requires WellKept(plane, next) && !plane.state.PlaneStopped?
    requires forall p | p in known && p in live :: Held(plane.components, p)
    requires StoppedFrom(plane.components, cs, 0, plane.dryRun, live, probes)
    ensures WellKept(plane.(components := cs), next)
    ensures forall p | p in known && p in live :: Held(cs, p)
  {
    forall i | 0 <= i < |cs| ensures StopKept(plane.components[i], cs[i], plane.dryRun, live, probes) {
    }
    forall p | p in known && p in live ensures Held(cs, p) {
      var i :| 0 <= i < |plane.components| && plane.components[i].proc == Some(p)
          && !plane.components[i].phase.Stopped?;
      assert StopKept(plane.components[i], cs[i], plane.dryRun, live, probes);
    }
  }
}
