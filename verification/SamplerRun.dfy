/** The sampler's scatter and gather: pubs grouped by shots, their circuits
    flattened and run in chunks, the results cut apart and put back in place.
    The backend answers the circuits of one run in their order, and may answer
    the same circuit differently each time. */
module SamplerRun {
  import opened Comprehensions
  import opened Ordering

  type Circuit = nat
  type Memory = nat

  /** A pub: its shots and its bound circuits. */
  datatype Pub = Pub(shots: nat, circuits: seq<Circuit>)

  /** What running one circuit for some shots leaves; the first argument is its
      place among all the circuits run for that many shots. */
  type Backend = (nat, Circuit, nat) -> Memory

  /** The circuits run one after another from place `base` on. */
  function RunAll(backend: Backend, base: nat, circuits: seq<Circuit>, shots: nat): (r: seq<Memory>)
    ensures |r| == |circuits|
  {
    seq(|circuits|, i requires 0 <= i < |circuits| => backend(base + i, circuits[i], shots))
  }

  function Flatten<T>(xs: seq<seq<T>>): seq<T> {
    if xs == [] then [] else Flatten(xs[..|xs| - 1]) + xs[|xs| - 1]
  }

  lemma RunAllJoins(backend: Backend, a: seq<Circuit>, b: seq<Circuit>, shots: nat)
    ensures RunAll(backend, 0, a + b, shots) == RunAll(backend, 0, a, shots) + RunAll(backend, |a|, b, shots)
  {
  }

  /** Chunks of at most `maxCircuits`, one run each; 0 means no limit. */
  method RunCircuits(backend: Backend, circuits: seq<Circuit>, shots: nat, maxCircuits: nat)
      returns (results: seq<seq<Memory>>)
    ensures Flatten(results) == RunAll(backend, 0, circuits, shots)
    ensures maxCircuits > 0 ==> forall i | 0 <= i < |results| :: |results[i]| <= maxCircuits
  {
    if maxCircuits == 0 {
      results := [RunAll(backend, 0, circuits, shots)];
      FlattenOne(results[0]);
      return;
    }
    results := [];
    var pos := 0;
    assert circuits[..0] == [];
    while pos < |circuits|
      invariant 0 <= pos <= |circuits|
      invariant Flatten(results) == RunAll(backend, 0, circuits[..pos], shots)
      invariant forall i | 0 <= i < |results| :: |results[i]| <= maxCircuits
    {
      var end := if pos + maxCircuits <= |circuits| then pos + maxCircuits else |circuits|;
      var chunk := RunAll(backend, pos, circuits[pos..end], shots);
      RunAllJoins(backend, circuits[..pos], circuits[pos..end], shots);
      assert circuits[..pos] + circuits[pos..end] == circuits[..end];
      assert (results + [chunk])[..|results|] == results;
      results := results + [chunk];
      pos := end;
    }
    assert circuits[..pos] == circuits;
  }

  lemma FlattenOne<T>(x: seq<T>)
    ensures Flatten([x]) == x
  {
    assert [x][..0] == [];
  }

  /** The circuits that the first `n` pubs want run for `shots`. */
  function Ahead(pubs: seq<Pub>, n: nat, shots: nat): nat
    requires n <= |pubs|
  {
    if n == 0 then 0 else Ahead(pubs, n - 1, shots) + if pubs[n - 1].shots == shots then |pubs[n - 1].circuits| else 0
  }

  /** What a pub's result should be: its own circuits, run at their own places. */
  function Expected<R>(backend: Backend, post: (Pub, seq<Memory>) -> R, pubs: seq<Pub>, i: nat): R
    requires i < |pubs|
  {
    var Pub(shots, circuits) := pubs[i];
    var place := Ahead(pubs, i, shots);
    post(pubs[i], seq(|circuits|, j requires 0 <= j < |circuits| => backend(place + j, circuits[j], shots)))
  }

  /** The same within one group. */
  function Placed<R>(backend: Backend, post: (Pub, seq<Memory>) -> R, group: seq<Pub>, shots: nat, k: nat): R
    requires k < |group|
  {
    post(group[k], RunAll(backend, |AllCircuits(group[..k])|, group[k].circuits, shots))
  }

  function AllCircuits(pubs: seq<Pub>): seq<Circuit> {
    if pubs == [] then [] else AllCircuits(pubs[..|pubs| - 1]) + pubs[|pubs| - 1].circuits
  }

  /** The circuits of a pub sit where the earlier pubs' circuits end. */
  lemma {:induction false} OwnSlice(pubs: seq<Pub>, i: nat)
    requires i < |pubs|
    ensures |AllCircuits(pubs[..i + 1])| <= |AllCircuits(pubs)|
    ensures |AllCircuits(pubs[..i + 1])| == |AllCircuits(pubs[..i])| + |pubs[i].circuits|
    ensures AllCircuits(pubs)[|AllCircuits(pubs[..i])|..|AllCircuits(pubs[..i + 1])|] == pubs[i].circuits
    decreases |pubs|
  {
    assert pubs[..i + 1][..i] == pubs[..i];
    if i < |pubs| - 1 {
      var front := pubs[..|pubs| - 1];
      OwnSlice(front, i);
      assert front[..i] == pubs[..i] && front[..i + 1] == pubs[..i + 1];
    } else {
      assert pubs[..i + 1] == pubs;
    }
  }

  /** Cutting the memory at a pub's place gives the runs of its own circuits. */
  lemma OwnMemory(backend: Backend, pubs: seq<Pub>, shots: nat, i: nat)
    requires i < |pubs|
    ensures
      var start := |AllCircuits(pubs[..i])|;
      var end := start + |pubs[i].circuits|;
      && end == |AllCircuits(pubs[..i + 1])| && end <= |AllCircuits(pubs)|
      && RunAll(backend, 0, AllCircuits(pubs), shots)[start..end] == RunAll(backend, start, pubs[i].circuits, shots)
  {
    OwnSlice(pubs, i);
    var start := |AllCircuits(pubs[..i])|;
    RunAllSlice(backend, AllCircuits(pubs), shots, start, start + |pubs[i].circuits|);
  }

  lemma RunAllSlice(backend: Backend, circuits: seq<Circuit>, shots: nat, a: nat, b: nat)
    requires a <= b <= |circuits|
    ensures RunAll(backend, 0, circuits, shots)[a..b] == RunAll(backend, a, circuits[a..b], shots)
  {
  }

  /** Results for pubs that all want the same shots. */
  method RunPubs<R>(backend: Backend, post: (Pub, seq<Memory>) -> R, pubs: seq<Pub>, shots: nat, maxCircuits: nat)
      returns (results: seq<R>)
    requires forall i | 0 <= i < |pubs| :: pubs[i].shots == shots
    ensures |results| == |pubs|
    ensures forall i | 0 <= i < |pubs| :: results[i] == Placed(backend, post, pubs, shots, i)
  {
    var flat := FlattenCircuits(pubs);
    var chunks := RunCircuits(backend, flat, shots, maxCircuits);
    var memory := Flatten(chunks);
    results := [];
    var start: nat := 0;
    for i := 0 to |pubs|
      invariant start == |AllCircuits(pubs[..i])|
      invariant |results| == i && forall k | 0 <= k < i :: results[k] == Placed(backend, post, pubs, shots, k)
    {
      OwnMemory(backend, pubs, shots, i);
      var end := start + |pubs[i].circuits|;
      results := results + [post(pubs[i], memory[start..end])];
      start := end;
    }
  }

  method FlattenCircuits(pubs: seq<Pub>) returns (flat: seq<Circuit>)
    ensures flat == AllCircuits(pubs)
  {
    flat := [];
    for i := 0 to |pubs|
      invariant flat == AllCircuits(pubs[..i])
    {
      assert pubs[..i + 1][..i] == pubs[..i];
      flat := flat + pubs[i].circuits;
    }
    assert pubs[..|pubs|] == pubs;
  }

  // ------------------------------------------------------------------ grouping

  /** The first `n` pubs that want `shots`, in order. */
  function IndicesOf(pubs: seq<Pub>, n: nat, shots: nat): (r: seq<nat>)
    requires n <= |pubs|
    ensures Increasing(r)
    ensures forall k | 0 <= k < |r| :: r[k] < n && pubs[r[k]].shots == shots
  {
    if n == 0 then [] else IndicesOf(pubs, n - 1, shots) + if pubs[n - 1].shots == shots then [n - 1] else []
  }

  lemma {:induction false} IndicesCover(pubs: seq<Pub>, n: nat, shots: nat, i: nat)
    requires i < n <= |pubs| && pubs[i].shots == shots
    ensures i in IndicesOf(pubs, n, shots)
  {
    if i < n - 1 {
      IndicesCover(pubs, n - 1, shots, i);
    }
  }

  /** Up to its own place, a group is the pubs before it that want its shots. */
  lemma {:induction false} IndicesPrefix(pubs: seq<Pub>, n: nat, shots: nat, k: nat)
    requires n <= |pubs| && k < |IndicesOf(pubs, n, shots)|
    ensures IndicesOf(pubs, n, shots)[..k] == IndicesOf(pubs, IndicesOf(pubs, n, shots)[k], shots)
  {
    var before := IndicesOf(pubs, n - 1, shots);
    if k < |before| {
      IndicesPrefix(pubs, n - 1, shots, k);
      assert IndicesOf(pubs, n, shots)[..k] == before[..k];
    } else {
      assert IndicesOf(pubs, n, shots)[..k] == before;
    }
  }

  lemma SelectMore(pubs: seq<Pub>, indices: seq<nat>, i: nat)
    requires i < |pubs| && forall k | 0 <= k < |indices| :: indices[k] < |pubs|
    ensures Select(pubs, indices + [i]) == Select(pubs, indices) + [pubs[i]]
  {
  }

  lemma AllCircuitsMore(pubs: seq<Pub>, pub: Pub)
    ensures |AllCircuits(pubs + [pub])| == |AllCircuits(pubs)| + |pub.circuits|
  {
    assert (pubs + [pub])[..|pubs|] == pubs;
  }

  lemma {:induction false} GroupIsAhead(pubs: seq<Pub>, n: nat, shots: nat)
    requires n <= |pubs|
    ensures |AllCircuits(Select(pubs, IndicesOf(pubs, n, shots)))| == Ahead(pubs, n, shots)
  {
    if n > 0 {
      GroupIsAhead(pubs, n - 1, shots);
      var before := IndicesOf(pubs, n - 1, shots);
      if pubs[n - 1].shots == shots {
        SelectMore(pubs, before, n - 1);
        AllCircuitsMore(Select(pubs, before), pubs[n - 1]);
      } else {
        assert IndicesOf(pubs, n, shots) == before;
      }
    }
  }

  /** A pub's place within its group is its place among the pubs of its shots. */
  lemma PlacedIsExpected<R>(backend: Backend, post: (Pub, seq<Memory>) -> R, pubs: seq<Pub>, shots: nat, k: nat)
    requires k < |IndicesOf(pubs, |pubs|, shots)|
    ensures
      var indices := IndicesOf(pubs, |pubs|, shots);
      Placed(backend, post, Select(pubs, indices), shots, k) == Expected(backend, post, pubs, indices[k])
  {
    var indices := IndicesOf(pubs, |pubs|, shots);
    IndicesPrefix(pubs, |pubs|, shots, k);
    GroupIsAhead(pubs, indices[k], shots);
    assert Select(pubs, indices)[..k] == Select(pubs, indices[..k]);
  }

  /** A dictionary in insertion order: the shots seen, and the pubs under each. */
  datatype Groups = Groups(order: seq<nat>, lists: map<nat, seq<nat>>)

  ghost predicate Grouped(g: Groups, pubs: seq<Pub>, n: nat)
    requires n <= |pubs|
  {
    && NoDuplicates(g.order)
    && (forall s: nat {:trigger Listed(g, pubs, n, s)} :: Listed(g, pubs, n, s))
    && (forall i: nat {:trigger Seen(g, pubs, i)} | i < n :: Seen(g, pubs, i))
  }

  ghost predicate Listed(g: Groups, pubs: seq<Pub>, n: nat, s: nat)
    requires n <= |pubs|
  {
    (s in g.order <==> s in g.lists) && (s in g.lists ==> g.lists[s] == IndicesOf(pubs, n, s))
  }

  ghost predicate Seen(g: Groups, pubs: seq<Pub>, i: nat)
    requires i < |pubs|
  {
    pubs[i].shots in g.lists
  }

  function Add(g: Groups, shots: nat, i: nat): Groups {
    if shots in g.lists then Groups(g.order, g.lists[shots := g.lists[shots] + [i]])
    else Groups(g.order + [shots], g.lists[shots := [i]])
  }

  lemma OrderGrows(order: seq<nat>, s: nat)
    requires NoDuplicates(order) && s !in order
    ensures NoDuplicates(order + [s])
  {
  }

  lemma IndicesNext(pubs: seq<Pub>, n: nat, s: nat)
    requires n < |pubs|
    ensures IndicesOf(pubs, n + 1, s) == IndicesOf(pubs, n, s) + if pubs[n].shots == s then [n] else []
  {
  }

  lemma AddGroups(g: Groups, pubs: seq<Pub>, n: nat)
    requires n < |pubs| && Grouped(g, pubs, n)
    ensures Grouped(Add(g, pubs[n].shots, n), pubs, n + 1)
  {
    var shots := pubs[n].shots;
    var g' := Add(g, shots, n);
    assert Listed(g, pubs, n, shots);
    if shots !in g.lists {
      OrderGrows(g.order, shots);
      forall i: nat | i < n ensures pubs[i].shots != shots {
        assert Seen(g, pubs, i);
      }
      NoneBefore(pubs, n, shots);
    }
    var m := n + 1;
    forall s: nat ensures Listed(g', pubs, m, s) {
      assert Listed(g, pubs, n, s);
      IndicesNext(pubs, n, s);
    }
    forall i: nat | i < n + 1 ensures Seen(g', pubs, i) {
      if i < n {
        assert Seen(g, pubs, i);
      }
    }
  }

  method GroupByShots(pubs: seq<Pub>) returns (g: Groups)
    ensures Grouped(g, pubs, |pubs|)
  {
    g := Groups([], map[]);
    for i := 0 to |pubs|
      invariant Grouped(g, pubs, i)
    {
      var shots := pubs[i].shots;
      AddGroups(g, pubs, i);
      if shots in g.lists {
        g := Groups(g.order, g.lists[shots := g.lists[shots] + [i]]);
      } else {
        g := Groups(g.order + [shots], g.lists[shots := [i]]);
      }
    }
  }

  lemma {:induction false} NoneBefore(pubs: seq<Pub>, n: nat, shots: nat)
    requires n <= |pubs| && forall i | 0 <= i < n :: pubs[i].shots != shots
    ensures IndicesOf(pubs, n, shots) == []
  {
    if n > 0 {
      NoneBefore(pubs, n - 1, shots);
    }
  }

  datatype Slot<R> = Empty | Filled(result: R)

  /** Fill the slots of one group from its results. */
  method Scatter<R>(slots: seq<Slot<R>>, indices: seq<nat>, results: seq<R>) returns (filled: seq<Slot<R>>)
    requires |results| == |indices| && Increasing(indices)
    requires forall k | 0 <= k < |indices| :: indices[k] < |slots| && slots[indices[k]].Empty?
    ensures |filled| == |slots|
    ensures forall k | 0 <= k < |indices| :: filled[indices[k]] == Filled(results[k])
    ensures forall i | 0 <= i < |slots| && i !in indices :: filled[i] == slots[i]
  {
    filled := slots;
    for k := 0 to |indices|
      invariant |filled| == |slots|
      invariant forall j | 0 <= j < k :: filled[indices[j]] == Filled(results[j])
      invariant forall j | k <= j < |indices| :: filled[indices[j]].Empty?
      invariant forall i | 0 <= i < |slots| && i !in indices :: filled[i] == slots[i]
    {
      filled := filled[indices[k] := Filled(results[k])];
    }
  }

  /** The slots of pubs whose shots are in `done` are filled, the others empty. */
  ghost predicate FilledFor<R(!new)>(backend: Backend, post: (Pub, seq<Memory>) -> R, pubs: seq<Pub>,
                                     slots: seq<Slot<R>>, done: seq<nat>) {
    && |slots| == |pubs|
    && (forall i | 0 <= i < |pubs| ::
          slots[i] == if pubs[i].shots in done then Filled(Expected(backend, post, pubs, i)) else Empty)
  }

  /** Every slot is filled exactly once, with the result of its own pub, for any
      list of pubs, any shots and any chunk size. */
  method Run<R(!new)>(backend: Backend, post: (Pub, seq<Memory>) -> R, pubs: seq<Pub>, maxCircuits: nat)
      returns (slots: seq<Slot<R>>)
    ensures |slots| == |pubs|
    ensures forall i | 0 <= i < |pubs| :: slots[i] == Filled(Expected(backend, post, pubs, i))
  {
    var groups := GroupByShots(pubs);
    slots := seq(|pubs|, _ => Empty);
    for g := 0 to |groups.order|
      invariant FilledFor(backend, post, pubs, slots, groups.order[..g])
    {
      var shots := groups.order[g];
      assert shots in groups.order && Listed(groups, pubs, |pubs|, shots);
      FirstSeen(groups.order, g);
      assert groups.order[..g + 1] == groups.order[..g] + [shots];
      slots := RunGroup(backend, post, pubs, shots, groups.lists[shots], maxCircuits, slots, groups.order[..g]);
    }
    assert groups.order[..|groups.order|] == groups.order;
    forall i: nat | i < |pubs| ensures pubs[i].shots in groups.order {
      assert Seen(groups, pubs, i) && Listed(groups, pubs, |pubs|, pubs[i].shots);
    }
  }

  lemma FirstSeen(order: seq<nat>, g: nat)
    requires NoDuplicates(order) && g < |order|
    ensures order[g] !in order[..g]
  {
  }

  /** Run the pubs of one group and put their results in place. */
  method RunGroup<R(!new)>(backend: Backend, post: (Pub, seq<Memory>) -> R, pubs: seq<Pub>, shots: nat,
                           indices: seq<nat>, maxCircuits: nat,
                     slots: seq<Slot<R>>, ghost done: seq<nat>) returns (filled: seq<Slot<R>>)
    requires shots !in done && indices == IndicesOf(pubs, |pubs|, shots)
    requires FilledFor(backend, post, pubs, slots, done)
    ensures FilledFor(backend, post, pubs, filled, done + [shots])
  {
    var chosen := Select(pubs, indices);
    var results := RunPubs(backend, post, chosen, shots, maxCircuits);
    filled := Scatter(slots, indices, results);
    forall i | 0 <= i < |pubs|
      ensures filled[i] == if pubs[i].shots in done + [shots] then Filled(Expected(backend, post, pubs, i)) else Empty
    {
      if pubs[i].shots == shots {
        IndicesCover(pubs, |pubs|, shots, i);
        var k := IndexOf(indices, i);
        PlacedIsExpected(backend, post, pubs, shots, k);
        assert filled[indices[k]] == Filled(results[k]);
      } else {
        assert i !in indices;
      }
    }
  }
}
