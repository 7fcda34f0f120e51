/**
  The star/crown reward counters. A legendary (efsane) day earns a star; when
  the stars reach the weekly target they are exchanged for a crown. The source
  keeps the pair incrementally: Forward on completion and undo, Backward (a
  hand-written inverse that borrows a crown when there are no stars) on deletion.
  Derived gives the pair that L legendary days should produce.
*/
module Rewards {

  datatype Reward = Reward(star: int, crown: int)

  /** The step applied when a legendary day is added. */
  function Forward(r: Reward, target: int): (r': Reward)
    ensures r'.crown == r.crown || r'.crown == r.crown + 1
    ensures r.star >= 0 ==> (r'.crown == r.crown + 1 <==> r'.star == 0)
    ensures r.star >= 0 && target > 0 ==> 0 <= r'.star < target
  {
    if r.star + 1 >= target then Reward(0, r.crown + 1)
    else Reward(r.star + 1, r.crown)
  }

  /** The step applied when a legendary day is deleted. */
  function Backward(r: Reward, target: int): (r': Reward)
    ensures r'.crown == r.crown || r'.crown == r.crown - 1
    ensures r.crown >= 0 ==> r'.crown >= 0
    ensures 0 <= r.star < target ==> 0 <= r'.star < target
    ensures r'.crown == r.crown - 1 <==> r.star <= 0 && r.crown > 0
  {
    if r.star > 0 then Reward(r.star - 1, r.crown)
    else if r.crown > 0 then Reward(target - 1, r.crown - 1)
    else Reward(0, r.crown)
  }

  /** The pair that a count of legendary days produces: stars L mod T, crowns L div T. */
  function Derived(count: nat, target: int): (r: Reward)
    requires target > 0
    ensures 0 <= r.star < target && r.crown >= 0
    ensures r.crown * target + r.star == count
  {
    Reward(count % target, count / target)
  }

  /** A positive multiple of a positive number is at least that number. */
  lemma MultipleAtLeast(k: int, target: int)
    requires k >= 1 && target > 0
    ensures k * target >= target
  {
  }

  /** Quotient and remainder are determined by the division identity. */
  lemma DivModUnique(n: int, target: int, q: int, s: int)
    requires target > 0 && 0 <= s < target && n == q * target + s
    ensures n / target == q && n % target == s
  {
    var q', s' := n / target, n % target;
    if q' < q {
      assert (q - q') * target == s' - s;
      MultipleAtLeast(q - q', target);
    } else if q' > q {
      assert (q' - q) * target == s - s';
      MultipleAtLeast(q' - q, target);
    }
  }

  /** One more legendary day moves the derived pair exactly one Forward step. */
  lemma ForwardDerived(count: nat, target: int)
    requires target > 0
    ensures Forward(Derived(count, target), target) == Derived(count + 1, target)
  {
    var d := Derived(count, target);
    if d.star + 1 >= target {
      DivModUnique(count + 1, target, d.crown + 1, 0);
    } else {
      DivModUnique(count + 1, target, d.crown, d.star + 1);
    }
  }

  /** Backward undoes Forward for every pair whose star count is in range. */
  lemma BackwardForward(r: Reward, target: int)
    requires 0 <= r.star < target && r.crown >= 0
    ensures Backward(Forward(r, target), target) == r
  {
  }

  /**
    Forward undoes Backward when the stars are in range and the pair is not
    (0, 0): deleting a legendary day and then undoing restores both counters.
  */
  lemma ForwardBackward(r: Reward, target: int)
    requires 0 <= r.star < target && r.crown >= 0 && r != Reward(0, 0)
    ensures Forward(Backward(r, target), target) == r
  {
  }

  /** One legendary day fewer moves the derived pair exactly one Backward step. */
  lemma BackwardDerived(count: nat, target: int)
    requires target > 0
    ensures Backward(Derived(count + 1, target), target) == Derived(count, target)
  {
    ForwardDerived(count, target);
    BackwardForward(Derived(count, target), target);
  }

  /** From (0, 0), Backward leaves the counters at (0, 0). */
  lemma BackwardAtZero(target: int)
    ensures Backward(Reward(0, 0), target) == Reward(0, 0)
  {
  }

  /** A weekly target of 7: seven legendary days make one crown; deleting one gives six stars back. */
  lemma WeekOfSeven()
    ensures Derived(7, 7) == Reward(0, 1)
    ensures Backward(Derived(7, 7), 7) == Reward(6, 0) == Derived(6, 7)
  {
  }
}
