/** The STRICT_PACK feasibility check that runs before a stage reserves any GPU.

    Every placement group must fit whole on one node.  `Packable` says what that means: some
    assignment of demands to nodes keeps each node's load within its capacity.  The search explores
    far fewer states: it tries one node per distinct capacity, re-sorts the capacities after each
    placement and remembers the states it has decided. */
module StagePlacement {
  import opened Sequences

  /** What `nodeOf` puts on one node. */
  ghost function Load(demands: seq<int>, nodeOf: seq<nat>, node: nat): int
    requires |nodeOf| == |demands|
  {
    if demands == [] then 0
    else (if nodeOf[0] == node then demands[0] else 0) + Load(demands[1..], nodeOf[1..], node)
  }

  ghost predicate Assigns(nodeOf: seq<nat>, demands: seq<int>, capacities: seq<int>) {
    && |nodeOf| == |demands|
    && (forall i :: 0 <= i < |nodeOf| ==> nodeOf[i] < |capacities|)
    && (forall n :: 0 <= n < |capacities| ==> Load(demands, nodeOf, n) <= capacities[n])
  }

  ghost predicate Packable(demands: seq<int>, capacities: seq<int>) {
    exists nodeOf :: Assigns(nodeOf, demands, capacities)
  }

  ghost predicate NonNegative(s: seq<int>) {
    forall i :: 0 <= i < |s| ==> s[i] >= 0
  }

  function Place(capacities: seq<int>, node: nat, demand: int): (r: seq<int>)
    requires node < |capacities|
  {
    capacities[node := capacities[node] - demand]
  }

  // ----- the assignment, one demand at a time -----

  lemma PackableFirst(demands: seq<int>, capacities: seq<int>)
    requires demands != []
    ensures Packable(demands, capacities) <==>
            exists n: nat :: n < |capacities| && Packable(demands[1..], Place(capacities, n, demands[0]))
  {
    if Packable(demands, capacities) {
      var nodeOf :| Assigns(nodeOf, demands, capacities);
      var placed := Place(capacities, nodeOf[0], demands[0]);
      forall n | 0 <= n < |placed| ensures Load(demands[1..], nodeOf[1..], n) <= placed[n] {
        assert Load(demands, nodeOf, n) <= capacities[n];
      }
      assert Assigns(nodeOf[1..], demands[1..], placed);
    }
    if n: nat :| n < |capacities| && Packable(demands[1..], Place(capacities, n, demands[0])) {
      var placed := Place(capacities, n, demands[0]);
      var rest :| Assigns(rest, demands[1..], placed);
      var nodeOf := [n] + rest;
      assert nodeOf[1..] == rest;
      forall m | 0 <= m < |capacities| ensures Load(demands, nodeOf, m) <= capacities[m] {
        assert Load(demands[1..], rest, m) <= placed[m];
      }
      assert Assigns(nodeOf, demands, capacities);
    }
  }

  lemma PackableNone(capacities: seq<int>)
    ensures Packable([], capacities) <==> NonNegative(capacities)
  {
    if NonNegative(capacities) {
      assert Assigns([], [], capacities);
    }
    if Packable([], capacities) {
      var nodeOf :| Assigns(nodeOf, [], capacities);
      forall i | 0 <= i < |capacities| ensures capacities[i] >= 0 {
        assert Load([], nodeOf, i) <= capacities[i];
      }
    }
  }

  /** The total-GPU check that runs before the search rejects no instance that can be packed. */
  lemma {:induction false} PackableWithinTotal(demands: seq<int>, capacities: seq<int>)
    requires Packable(demands, capacities)
    ensures Sum(demands) <= Sum(capacities)
  {
    if demands == [] {
      PackableNone(capacities);
      SumNonNegative(capacities);
    } else {
      PackableFirst(demands, capacities);
      var n: nat :| n < |capacities| && Packable(demands[1..], Place(capacities, n, demands[0]));
      SumUpdate(capacities, n, capacities[n] - demands[0]);
      PackableWithinTotal(demands[1..], Place(capacities, n, demands[0]));
    }
  }

  lemma {:induction false} SumNonNegative(s: seq<int>)
    requires NonNegative(s)
    ensures Sum(s) >= 0
  {
    if s != [] {
      SumNonNegative(s[1..]);
    }
  }

  // ----- order of demands and of nodes does not matter -----

  lemma PackableSwap(x: int, y: int, rest: seq<int>, capacities: seq<int>)
    requires Packable([x, y] + rest, capacities)
    ensures Packable([y, x] + rest, capacities)
  {
    PackableCons(x, [y] + rest, capacities);
    assert [x] + ([y] + rest) == [x, y] + rest && [y] + ([x] + rest) == [y, x] + rest;
    var n: nat :| n < |capacities| && Packable([y] + rest, Place(capacities, n, x));
    PackableCons(y, rest, Place(capacities, n, x));
    var m: nat :| m < |capacities| && Packable(rest, Place(Place(capacities, n, x), m, y));
    assert Place(Place(capacities, n, x), m, y) == Place(Place(capacities, m, y), n, x);
    PackableCons(x, rest, Place(capacities, m, y));
    PackableCons(y, [x] + rest, capacities);
  }

  lemma PackableCons(x: int, rest: seq<int>, capacities: seq<int>)
    ensures Packable([x] + rest, capacities) <==>
            exists n: nat :: n < |capacities| && Packable(rest, Place(capacities, n, x))
  {
    var demands := [x] + rest;
    assert demands[0] == x && demands[1..] == rest;
    PackableFirst(demands, capacities);
    if Packable(demands, capacities) {
      var n: nat :| n < |capacities| && Packable(demands[1..], Place(capacities, n, demands[0]));
      assert Packable(rest, Place(capacities, n, x));
    }
    if n: nat :| n < |capacities| && Packable(rest, Place(capacities, n, x)) {
      assert Packable(demands[1..], Place(capacities, n, demands[0]));
    }
  }

  lemma {:induction false} PackableInsert(x: int, sorted: seq<int>, capacities: seq<int>)
    requires Descending(sorted)
    ensures Packable([x] + sorted, capacities) <==> Packable(InsertDescending(x, sorted), capacities)
    decreases |sorted|
  {
    if sorted != [] && x < sorted[0] {
      var inserted := InsertDescending(x, sorted);
      assert inserted == [sorted[0]] + InsertDescending(x, sorted[1..]);
      assert inserted[1..] == InsertDescending(x, sorted[1..]);
      assert [x] + sorted == [x, sorted[0]] + sorted[1..];
      var swapped := [sorted[0], x] + sorted[1..];
      assert swapped[1..] == [x] + sorted[1..];
      if Packable([x] + sorted, capacities) {
        PackableSwap(x, sorted[0], sorted[1..], capacities);
      }
      if Packable(swapped, capacities) {
        PackableSwap(sorted[0], x, sorted[1..], capacities);
      }
      PackableFirst(swapped, capacities);
      PackableFirst(inserted, capacities);
      forall n: nat | n < |capacities|
        ensures Packable(swapped[1..], Place(capacities, n, sorted[0])) <==>
                Packable(inserted[1..], Place(capacities, n, sorted[0]))
      {
        PackableInsert(x, sorted[1..], Place(capacities, n, sorted[0]));
      }
    }
  }

  lemma {:induction false} PackableSorted(demands: seq<int>, capacities: seq<int>)
    ensures Packable(demands, capacities) <==> Packable(SortDescending(demands), capacities)
    decreases |demands|
  {
    if demands != [] {
      var first, rest, sorted := demands[0], demands[1..], SortDescending(demands[1..]);
      assert demands == [first] + rest;
      PackableCons(first, rest, capacities);
      PackableCons(first, sorted, capacities);
      if Packable(demands, capacities) {
        var n: nat :| n < |capacities| && Packable(rest, Place(capacities, n, first));
        PackableSorted(rest, Place(capacities, n, first));
      }
      if Packable([first] + sorted, capacities) {
        var n: nat :| n < |capacities| && Packable(sorted, Place(capacities, n, first));
        PackableSorted(rest, Place(capacities, n, first));
      }
      PackableInsert(first, sorted, capacities);
    }
  }

  // ----- the search, seen as a set of choices -----

  /** Placing the demands in order, each on a node that still has room for it. */
  ghost predicate Fits(demands: seq<int>, remaining: seq<int>)
    decreases |demands|
  {
    demands == [] ||
    exists n: nat :: n < |remaining| && remaining[n] >= demands[0] &&
                     Fits(demands[1..], Place(remaining, n, demands[0]))
  }

  /** Which node holds which capacity is irrelevant; this is what makes skipping equal capacities,
      re-sorting and caching by capacities complete. */
  lemma {:induction false} FitsPermuted(demands: seq<int>, a: seq<int>, b: seq<int>)
    requires multiset(a) == multiset(b)
    requires Fits(demands, a)
    ensures Fits(demands, b)
    decreases |demands|
  {
    if demands != [] {
      var n: nat :| n < |a| && a[n] >= demands[0] && Fits(demands[1..], Place(a, n, demands[0]));
      var m := PlacePermuted(demands[0], a, b, n);
      FitsPermuted(demands[1..], Place(a, n, demands[0]), Place(b, m, demands[0]));
    }
  }

  lemma PlacePermuted(demand: int, a: seq<int>, b: seq<int>, n: nat) returns (m: nat)
    requires multiset(a) == multiset(b) && n < |a|
    ensures m < |b| && b[m] == a[n] && multiset(Place(a, n, demand)) == multiset(Place(b, m, demand))
  {
    m := SameMultisetMember(a, b, n);
    SameMultisetUpdate(a, n, b, m, a[n] - demand);
  }

  /** For demands that are not negative, room at every step is the same as room at the end. */
  lemma {:induction false} FitsIffPackable(demands: seq<int>, capacities: seq<int>)
    requires NonNegative(demands) && NonNegative(capacities)
    ensures Fits(demands, capacities) <==> Packable(demands, capacities)
    decreases |demands|
  {
    if demands == [] {
      PackableNone(capacities);
    } else {
      PackableFirst(demands, capacities);
      forall n: nat | n < |capacities|
        ensures capacities[n] >= demands[0] && Fits(demands[1..], Place(capacities, n, demands[0])) <==>
                Packable(demands[1..], Place(capacities, n, demands[0]))
      {
        var placed := Place(capacities, n, demands[0]);
        if Packable(demands[1..], placed) {
          PackableLeavesRoom(demands[1..], placed);
          assert placed[n] >= 0;
        }
        if capacities[n] >= demands[0] {
          FitsIffPackable(demands[1..], placed);
        }
      }
    }
  }

  lemma {:induction false} PackableLeavesRoom(demands: seq<int>, capacities: seq<int>)
    requires NonNegative(demands) && Packable(demands, capacities)
    ensures NonNegative(capacities)
    decreases |demands|
  {
    if demands == [] {
      PackableNone(capacities);
    } else {
      PackableFirst(demands, capacities);
      var n: nat :| n < |capacities| && Packable(demands[1..], Place(capacities, n, demands[0]));
      PackableLeavesRoom(demands[1..], Place(capacities, n, demands[0]));
      forall i | 0 <= i < |capacities| ensures capacities[i] >= 0 {
        assert Place(capacities, n, demands[0])[i] >= 0;
      }
    }
  }

  // ----- negative demands -----

  /** A negative GPU request can reach the check (see StageRequests).  Sorted demands put it last,
      where it fits on any node, so acceptance is decided by the other demands alone. */
  lemma {:induction false} NegativeTailAlwaysFits(demands: seq<int>, k: nat, remaining: seq<int>)
    requires k <= |demands| && NonNegative(demands[..k])
    requires forall i :: k <= i < |demands| ==> demands[i] < 0
    requires NonNegative(remaining) && remaining != []
    ensures Fits(demands, remaining) <==> Packable(demands[..k], remaining)
    decreases |demands|
  {
    if k == 0 {
      assert demands[..k] == [];
      PackableNone(remaining);
      if demands != [] {
        assert remaining[0] >= demands[0];
        var placed := Place(remaining, 0, demands[0]);
        NegativeTailAlwaysFits(demands[1..], 0, placed);
        assert demands[1..][..0] == [];
        PackableNone(placed);
      }
    } else {
      var head := demands[..k];
      assert head[1..] == demands[1..][..k - 1] && head[0] == demands[0];
      PackableFirst(head, remaining);
      forall n: nat | n < |remaining|
        ensures remaining[n] >= demands[0] && Fits(demands[1..], Place(remaining, n, demands[0])) <==>
                Packable(head[1..], Place(remaining, n, demands[0]))
      {
        var placed := Place(remaining, n, demands[0]);
        if Packable(head[1..], placed) {
          PackableLeavesRoom(head[1..], placed);
          assert placed[n] >= 0;
        }
        if remaining[n] >= demands[0] {
          NegativeTailAlwaysFits(demands[1..], k - 1, placed);
        }
      }
    }
  }

  /** With a negative demand the search and the assignment question really differ. */
  lemma NegativeDemandCounterexample()
    ensures Packable([5, -5], [0])
    ensures !Fits(SortDescending([5, -5]), [0])
  {
    CancellingDemandsPack();
    SortedFiveFirst();
    assert [5, -5][0] == 5 && forall n: nat :: n < |[0]| ==> [0][n] < 5;
  }

  lemma CancellingDemandsPack()
    ensures Packable([5, -5], [0])
  {
    assert [5, -5][1..] == [-5] && [0, 0][1..] == [0] && [-5][1..] == [] && [0][1..] == [];
    assert Load([-5], [0], 0) == -5 + Load([], [], 0);
    assert Load([5, -5], [0, 0], 0) == 5 + Load([-5], [0], 0);
    assert Assigns([0, 0], [5, -5], [0]);
  }

  lemma SortedFiveFirst()
    ensures SortDescending([5, -5]) == [5, -5]
  {
    assert [5, -5][1..] == [-5] && [-5][1..] == [];
    assert SortDescending([-5]) == [-5];
  }

  // ----- the search itself -----

  /** `can_strict_pack` with the dictionary that its `@cache` decorator keeps. */
  class StrictPackSearch {
    const demands: seq<int>
    var cache: map<(nat, seq<int>), bool>

    ghost predicate Valid()
      reads this
    {
      forall key :: key in cache ==>
        key.0 <= |demands| && cache[key] == Fits(demands[key.0..], key.1)
    }

    constructor (demands: seq<int>)
      ensures Valid() && this.demands == demands
    {
      this.demands := demands;
      this.cache := map[];
    }

    method CanStrictPack(requestIndex: nat, remaining: seq<int>) returns (found: bool)
      requires Valid() && requestIndex <= |demands|
      modifies this`cache
      ensures Valid()
      ensures found == Fits(demands[requestIndex..], remaining)
      decreases |demands| - requestIndex, 1
    {
      if (requestIndex, remaining) in cache {
        return cache[(requestIndex, remaining)];
      }
      found := Search(requestIndex, remaining);
      cache := cache[(requestIndex, remaining) := found];
    }

    method Search(requestIndex: nat, remaining: seq<int>) returns (found: bool)
      requires Valid() && requestIndex <= |demands|
      modifies this`cache
      ensures Valid()
      ensures found == Fits(demands[requestIndex..], remaining)
      decreases |demands| - requestIndex, 0
    {
      if requestIndex == |demands| {
        return true;
      }
      var demand := demands[requestIndex];
      ghost var rest := demands[requestIndex + 1..];
      assert demands[requestIndex..][1..] == rest;
      var triedCapacities: set<int> := {};
      for nodeIndex := 0 to |remaining|
        invariant Valid()
        invariant forall n: nat :: n < nodeIndex && remaining[n] >= demand ==> remaining[n] in triedCapacities
        invariant forall n: nat :: n < |remaining| && remaining[n] in triedCapacities ==>
                    !Fits(rest, Place(remaining, n, demand))
      {
        var capacity := remaining[nodeIndex];
        if capacity < demand || capacity in triedCapacities {
          continue;
        }
        triedCapacities := triedCapacities + {capacity};
        var nextRemaining := SortDescending(Place(remaining, nodeIndex, demand));
        var packed := CanStrictPack(requestIndex + 1, nextRemaining);
        SameAfterPlacing(rest, remaining, nodeIndex, demand);
        if packed {
          assert Fits(rest, Place(remaining, nodeIndex, demand));
          return true;
        }
      }
      return false;
    }
  }

  /** One node stands for all nodes of its capacity, and for their sorted list. */
  lemma SameAfterPlacing(rest: seq<int>, remaining: seq<int>, node: nat, demand: int)
    requires node < |remaining|
    ensures forall n: nat :: n < |remaining| && remaining[n] == remaining[node] ==>
              Fits(rest, Place(remaining, n, demand)) ==
              Fits(rest, SortDescending(Place(remaining, node, demand)))
  {
    forall n: nat | n < |remaining| && remaining[n] == remaining[node]
      ensures Fits(rest, Place(remaining, n, demand)) ==
              Fits(rest, SortDescending(Place(remaining, node, demand)))
    {
      var a, b := Place(remaining, n, demand), Place(remaining, node, demand);
      SameMultisetUpdate(remaining, n, remaining, node, remaining[node] - demand);
      FitsOfPermutation(rest, a, b);
      FitsOfPermutation(rest, b, SortDescending(b));
    }
  }

  lemma FitsOfPermutation(demands: seq<int>, a: seq<int>, b: seq<int>)
    requires multiset(a) == multiset(b)
    ensures Fits(demands, a) == Fits(demands, b)
  {
    if Fits(demands, a) {
      FitsPermuted(demands, a, b);
    }
    if Fits(demands, b) {
      FitsPermuted(demands, b, a);
    }
  }
}
