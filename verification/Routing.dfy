/** Routing of contract calls to libraries, and task lookups that follow the
    library a circuit ran through. */
module Routing {
  import opened Prelude
  import opened Comprehensions
  import opened Records
  import opened Text

  type Name = string

  datatype Call =
    | BackendInfo | DeviceInfo | DynamicBackendInfo | CalibrationSnapshot | CouplingGraph
    | RunCircuit | TaskTiming | TaskMetadata
  {
    predicate Execution() {
      RunCircuit? || TaskTiming? || TaskMetadata?
    }
  }

  // ------------------------------------------------------------------- library names

  /** The named library, or none for no name, a blank one or "default". */
  function Normalize(lib: Option<string>): Option<Name> {
    match lib
    case None => None
    case Some(text) =>
      var name := Lower(Strip(text));
      if name == "" || name == "default" then None else Some(name)
  }

  predicate Normal(name: Name) {
    Normalize(Some(name)) == Some(name)
  }

  /** The names of the two drivers. */
  lemma FactoryNamesAreNormal()
    ensures Normal("qrmi") && Normal("qdmi")
  {
    assert Lower("qrmi") == "qrmi";
    assert Lower("qdmi") == "qdmi";
  }

  // ------------------------------------------------------------------------- routing

  /** `drivers` gives the calls each driver implements. */
  datatype Frontend = Frontend(
    drivers: map<Name, set<Call>>,
    caps: map<Call, seq<Name>>,
    wired: set<Name>,
    preference: Option<Name>,
    owner: Option<Name>)
  {
    predicate Serves(call: Call, name: Name) {
      name in wired && name in drivers && call in drivers[name]
    }
  }

  function Server(f: Frontend, call: Call): Name -> bool {
    (n: Name) => f.Serves(call, n)
  }

  function Candidates(f: Frontend, call: Call): seq<Name> {
    Filter(Server(f, call), if call in f.caps then f.caps[call] else [])
  }

  lemma CandidatesCover(f: Frontend, call: Call)
    ensures forall n :: n in Candidates(f, call) <==> Covers(f, call, n)
  {
    FilterMembers(Server(f, call), if call in f.caps then f.caps[call] else []);
  }

  /** The chosen driver, or none when the call is not implemented. */
  function Route(f: Frontend, call: Call, lib: Option<string>): Option<Name> {
    var cands := Candidates(f, call);
    if cands == [] then None
    else
      match Normalize(lib)
      case Some(name) =>
        if name !in f.wired then None
        else if name !in f.drivers then None
        else if name !in cands then None
        else Some(name)
      case None =>
        if call.Execution() && f.owner.Some? && f.owner.value in cands then f.owner
        else if |cands| == 1 then Some(cands[0])
        else if f.preference.Some? && f.preference.value in cands then f.preference
        else Some(cands[0])
  }

  ghost predicate Covers(f: Frontend, call: Call, name: Name) {
    call in f.caps && name in f.caps[call] && name in f.wired && name in f.drivers && call in f.drivers[name]
  }

  /** A call is routed exactly when some library covers it, and the named one
      does if one is named; the driver chosen always covers the call. */
  lemma RouteIsSound(f: Frontend, call: Call, lib: Option<string>)
    ensures Route(f, call, lib).Some? <==>
            match Normalize(lib) {
              case Some(name) => Covers(f, call, name)
              case None => exists n :: Covers(f, call, n)
            }
    ensures Route(f, call, lib).Some? ==> Covers(f, call, Route(f, call, lib).value)
    ensures Route(f, call, lib).Some? && Normalize(lib).Some? ==> Route(f, call, lib) == Normalize(lib)
  {
    var cands := Candidates(f, call);
    CandidatesCover(f, call);
    if cands != [] {
      assert Covers(f, call, cands[0]);
    }
  }

  /** The library a caller names. */
  ghost predicate Names(lib: Option<string>, name: Name) {
    lib.Some? && name == Lower(Strip(lib.value)) && name != "" && name != "default"
  }

  /** The call goes to the owner of the execution family. */
  ghost predicate OwnerTakes(f: Frontend, call: Call) {
    && (call == RunCircuit || call == TaskTiming || call == TaskMetadata)
    && f.owner.Some? && Covers(f, call, f.owner.value)
  }

  /** The first listed library that covers the call. */
  ghost predicate FirstCovering(f: Frontend, call: Call, k: int) {
    && call in f.caps && 0 <= k < |f.caps[call]| && Covers(f, call, f.caps[call][k])
    && forall j | 0 <= j < k :: !Covers(f, call, f.caps[call][j])
  }

  /** Where every call goes: to the named library if it covers the call, and without
      a name to the owner, to the preferred library or to the first listed, the first
      of these that covers it. */
  lemma RouteIsExact(f: Frontend, call: Call, lib: Option<string>)
    ensures
      var r := Route(f, call, lib);
      && (forall name | Names(lib, name) :: r == if Covers(f, call, name) then Some(name) else None)
      && ((forall name :: !Names(lib, name)) ==>
            && (OwnerTakes(f, call) ==> r == f.owner)
            && (!OwnerTakes(f, call) && f.preference.Some? && Covers(f, call, f.preference.value) ==> r == f.preference)
            && (!OwnerTakes(f, call) && !(f.preference.Some? && Covers(f, call, f.preference.value)) ==>
                  if r.None? then forall n :: !Covers(f, call, n)
                  else exists k :: FirstCovering(f, call, k) && r == Some(f.caps[call][k])))
  {
    RouteIsSound(f, call, lib);
    CandidatesCover(f, call);
    if lib.Some? && Normalize(lib).Some? {
      assert Names(lib, Normalize(lib).value);
    }
    if Candidates(f, call) != [] {
      var k := FirstCandidate(f, call);
      assert FirstCovering(f, call, k);
    }
  }

  lemma FirstCandidate(f: Frontend, call: Call) returns (k: nat)
    requires Candidates(f, call) != []
    ensures FirstCovering(f, call, k) && Candidates(f, call)[0] == f.caps[call][k]
  {
    var listed := if call in f.caps then f.caps[call] else [];
    k := FirstKept(Server(f, call), listed);
  }

  lemma {:induction false} FirstKept<T>(p: T -> bool, s: seq<T>) returns (k: nat)
    requires Filter(p, s) != []
    ensures k < |s| && Filter(p, s)[0] == s[k] && p(s[k]) && forall j | 0 <= j < k :: !p(s[j])
    decreases |s|
  {
    if p(s[0]) {
      k := 0;
    } else {
      k := FirstKept(p, s[1..]);
      k := k + 1;
    }
  }

  /** Calls of the execution family, left to the frontend, never split: each goes
      to the owner whenever the owner covers it. */
  lemma ExecutionStaysWithOwner(f: Frontend, call: Call, owner: Name)
    requires call == RunCircuit || call == TaskTiming || call == TaskMetadata
    requires f.owner == Some(owner)
    ensures Route(f, call, None) == Some(owner) <==> Covers(f, call, owner)
  {
    CandidatesCover(f, call);
    if Covers(f, call, owner) {
      assert owner in Candidates(f, call);
    } else {
      RouteIsSound(f, call, None);
    }
  }

  // -------------------------------------------------------------------- task lookups

  ghost predicate NormalNames(f: Frontend) {
    forall n | n in f.drivers :: Normal(n)
  }

  /** Naming the driver that ran a circuit reaches that driver or fails. */
  lemma NamedLookupIsExact(f: Frontend, call: Call, ran: Name)
    requires Normal(ran)
    ensures Route(f, call, Some(ran)) == if Covers(f, call, ran) then Some(ran) else None
  {
    RouteIsSound(f, call, Some(ran));
  }

  /** For a driver whose name is not its own normal form the lookup can reach
      another driver, although the one that ran the circuit covers the call. */
  lemma OtherNamesCanStray(ran: Name) returns (f: Frontend, other: Name)
    requires !Normal(ran)
    ensures other != ran && Route(f, RunCircuit, None) == Some(ran) && Covers(f, TaskTiming, ran)
    ensures Route(f, TaskTiming, Some(ran)) == Some(other)
  {
    other := if Normalize(Some(ran)).Some? then Normalize(Some(ran)).value else ran + "'";
    f := Frontend(map[ran := {RunCircuit, TaskTiming}, other := {TaskTiming}],
                  map[RunCircuit := [ran], TaskTiming := [ran, other]],
                  {ran, other}, None, Some(other));
    assert f.caps[TaskTiming] == [ran, other] && f.caps[RunCircuit] == [ran];
    assert Covers(f, TaskTiming, other);
    CandidatesCover(f, TaskTiming);
    assert other in Candidates(f, TaskTiming);
    RouteIsSound(f, TaskTiming, Some(ran));
    RouteIsSound(f, RunCircuit, None);
  }

  const TASK_LIBRARY_LIMIT: nat := 1024

  /** `libraries.history` lists, in order, each circuit that was routed and the
      driver that ran it. */
  class QRC {
    const frontend: Frontend
    const libraries: Bounded<Name>

    ghost predicate Valid()
      reads this, libraries
    {
      && libraries.Valid() && libraries.limit == 1024 && NormalNames(frontend)
      && forall i | 0 <= i < |libraries.history| :: Normal(libraries.history[i].value)
    }

    constructor (frontend: Frontend)
      requires NormalNames(frontend)
      ensures Valid() && libraries.history == [] && this.frontend == frontend && fresh(libraries)
    {
      this.frontend := frontend;
      libraries := new Bounded<Name>(TASK_LIBRARY_LIMIT);
    }

    /** Remembers the library of a run and dispatches it; the driver that runs
        the circuit is the one remembered. A run that cannot be routed fails and
        leaves the record alone. */
    method Run(cid: Option<Cid>, lib: Option<string>) returns (ran: Option<Name>)
      requires Valid()
      modifies libraries
      ensures Valid()
      ensures ran == Route(frontend, RunCircuit, lib)
      ensures libraries.history == old(libraries.history) +
                if ran.Some? && cid.Some? then [Entry(cid.value, ran.value)] else []
    {
      RouteIsSound(frontend, RunCircuit, lib);
      var named := Route(frontend, RunCircuit, lib);
      if named.Some? {
        libraries.Put(cid, named.value);
      }
      ran := Route(frontend, RunCircuit, lib);
    }

    method TaskLibrary(cid: Option<Cid>, lib: Option<string>) returns (r: Option<string>)
      requires Valid()
      ensures r == if lib.Some? || cid.None? then lib
                   else if Recent(libraries.history, cid.value, 1024)
                        then Latest(libraries.history, cid.value)
                   else None
    {
      if lib.Some? || cid.None? {
        return lib;
      }
      r := libraries.Get(cid);
    }

    /** A task lookup that names no library reaches the driver that last ran the
        circuit, when that is among the remembered ones and covers the call, and
        otherwise fails; it never reaches another driver. */
    method TaskLookup(call: Call, cid: Option<Cid>, lib: Option<string>) returns (driver: Option<Name>)
      requires Valid() && (call.TaskTiming? || call.TaskMetadata?)
      ensures lib.None? && cid.Some? && Recent(libraries.history, cid.value, 1024) ==>
                var ran := Latest(libraries.history, cid.value).value;
                driver == if Covers(frontend, call, ran) then Some(ran) else None
      ensures lib.Some? || cid.None? || !Recent(libraries.history, cid.value, 1024) ==>
                driver == Route(frontend, call, lib)
      ensures driver.Some? ==> Covers(frontend, call, driver.value)
      ensures driver.Some? && Normalize(lib).Some? ==> driver == Normalize(lib)
    {
      var chosen := TaskLibrary(cid, lib);
      driver := Route(frontend, call, chosen);
      RouteIsSound(frontend, call, chosen);
      if lib.None? && cid.Some? && Recent(libraries.history, cid.value, 1024) {
        LatestIsPut(libraries.history, cid.value);
        NamedLookupIsExact(frontend, call, chosen.value);
      }
    }
  }

  lemma {:induction false} LatestIsPut<V>(history: seq<Entry<V>>, cid: Cid)
    requires Latest(history, cid).Some?
    ensures exists i :: 0 <= i < |history| && history[i].cid == cid && history[i].value == Latest(history, cid).value
    decreases |history|
  {
    if history[|history| - 1].cid != cid {
      LatestIsPut(history[..|history| - 1], cid);
    }
  }
}
