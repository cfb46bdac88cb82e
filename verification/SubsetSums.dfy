/** Sums over every choice of a subset. */
module SubsetSums {
  import opened Ordering

  type Term = set<nat> -> int

  /** The sum of `f` over `chosen` extended by each subset of `from`. */
  ghost function Sum(from: seq<nat>, chosen: set<nat>, f: Term): int {
    if from == [] then f(chosen)
    else Sum(from[1..], chosen, f) + Sum(from[1..], chosen + {from[0]}, f)
  }

  /** `x` is one of the sets `Sum(from, chosen, _)` ranges over. */
  ghost predicate InRange(from: seq<nat>, chosen: set<nat>, x: set<nat>) {
    chosen <= x <= chosen + Elements(from)
  }

  lemma RangeSplits(from: seq<nat>, chosen: set<nat>, x: set<nat>)
    requires from != []
    ensures InRange(from[1..], chosen, x) ==> InRange(from, chosen, x)
    ensures InRange(from[1..], chosen + {from[0]}, x) ==> InRange(from, chosen, x)
    ensures InRange(from, chosen, x) && from[0] in x ==> InRange(from[1..], chosen + {from[0]}, x)
    ensures InRange(from, chosen, x) && from[0] !in x ==> InRange(from[1..], chosen, x)
  {
    assert Elements(from) == {from[0]} + Elements(from[1..]);
  }

  lemma {:induction false} SumCongruent(from: seq<nat>, chosen: set<nat>, f: Term, g: Term)
    requires forall x | InRange(from, chosen, x) :: f(x) == g(x)
    ensures Sum(from, chosen, f) == Sum(from, chosen, g)
  {
    if from == [] {
      assert InRange(from, chosen, chosen);
    } else {
      forall x ensures InRange(from[1..], chosen, x) || InRange(from[1..], chosen + {from[0]}, x) ==> f(x) == g(x) {
        RangeSplits(from, chosen, x);
      }
      SumCongruent(from[1..], chosen, f, g);
      SumCongruent(from[1..], chosen + {from[0]}, f, g);
    }
  }

  lemma {:induction false} SumAdds(from: seq<nat>, chosen: set<nat>, f: Term, g: Term, h: Term)
    requires forall x | InRange(from, chosen, x) :: h(x) == f(x) + g(x)
    ensures Sum(from, chosen, h) == Sum(from, chosen, f) + Sum(from, chosen, g)
  {
    if from == [] {
      assert InRange(from, chosen, chosen);
    } else {
      forall x
        ensures InRange(from[1..], chosen, x) || InRange(from[1..], chosen + {from[0]}, x) ==> h(x) == f(x) + g(x)
      {
        RangeSplits(from, chosen, x);
      }
      SumAdds(from[1..], chosen, f, g, h);
      SumAdds(from[1..], chosen + {from[0]}, f, g, h);
    }
  }

  lemma {:induction false} SumOfZeros(from: seq<nat>, chosen: set<nat>, f: Term)
    requires forall x | InRange(from, chosen, x) :: f(x) == 0
    ensures Sum(from, chosen, f) == 0
  {
    if from == [] {
      assert InRange(from, chosen, chosen);
    } else {
      forall x ensures InRange(from[1..], chosen, x) || InRange(from[1..], chosen + {from[0]}, x) ==> f(x) == 0 {
        RangeSplits(from, chosen, x);
      }
      SumOfZeros(from[1..], chosen, f);
      SumOfZeros(from[1..], chosen + {from[0]}, f);
    }
  }

  /** A sum with one term that may be nonzero is that term. */
  lemma {:induction false} SumOfOne(from: seq<nat>, chosen: set<nat>, f: Term, only: set<nat>)
    requires NoDuplicates(from) && chosen !! Elements(from)
    requires InRange(from, chosen, only)
    requires forall x | InRange(from, chosen, x) && x != only :: f(x) == 0
    ensures Sum(from, chosen, f) == f(only)
  {
    if from == [] {
      assert only == chosen;
    } else {
      var q, rest := from[0], from[1..];
      forall x ensures (InRange(rest, chosen, x) || InRange(rest, chosen + {q}, x)) && x != only ==> f(x) == 0 {
        RangeSplits(from, chosen, x);
      }
      RangeSplits(from, chosen, only);
      assert q !in Elements(rest);
      assert Elements(from) == {q} + Elements(rest);
      if q in only {
        SumOfZeros(rest, chosen, f);
        SumOfOne(rest, chosen + {q}, f, only);
      } else {
        SumOfOne(rest, chosen, f, only);
        SumOfZeros(rest, chosen + {q}, f);
      }
    }
  }
}
