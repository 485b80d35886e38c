/**
 * The greedy online clusterer of `paint_preprocess` (src/paint.rs), run once
 * over the whole image to find the background and once per custom colour
 * over the remaining pixels. A `HashMap<Rgb<u8>, i32>` maps each
 * representative colour to how many scanned colours joined it.
 */
module Clusterer {
  import opened ColorOps
  import opened Optional

  /**
   * What one pass of the clusterer leaves behind. `owner[i]` is the
   * representative the `i`-th scanned colour joined (or founded):
   * - every scanned colour is within `bound` of its representative;
   * - a representative's count is the number of scanned colours that joined it;
   * - every representative is a scanned colour that owns its own founding pixel;
   * - two representatives are never within `bound` of each other, so a new
   *   key is only ever inserted where no existing one is close enough.
   */
  ghost predicate IsClustering(colors: seq<Color>, counts: map<Color, nat>, owner: seq<Color>, bound: nat)
  {
    && Assigned(colors, counts, owner, bound)
    && Counted(counts, owner)
    && Founded(colors, counts, owner)
    && Separated(counts, bound)
  }

  ghost predicate Assigned(colors: seq<Color>, counts: map<Color, nat>, owner: seq<Color>, bound: nat)
  {
    && |owner| == |colors|
    && (forall i :: 0 <= i < |colors| ==> owner[i] in counts)
    && (forall i {:trigger Difference(colors[i], owner[i])} :: 0 <= i < |colors| ==> Difference(colors[i], owner[i]) <= bound)
  }

  ghost predicate Counted(counts: map<Color, nat>, owner: seq<Color>)
  {
    forall k :: k in counts ==> counts[k] == multiset(owner)[k]
  }

  ghost predicate Founded(colors: seq<Color>, counts: map<Color, nat>, owner: seq<Color>)
    requires |owner| == |colors|
  {
    forall k :: k in counts ==> exists i :: 0 <= i < |colors| && colors[i] == k && owner[i] == k
  }

  ghost predicate Separated(counts: map<Color, nat>, bound: nat)
  {
    forall k1, k2 {:trigger Difference(k1, k2)} :: k1 in counts && k2 in counts && k1 != k2 ==> Difference(k1, k2) > bound
  }

  /** A colour with no representative within `bound` founds a new one: a fresh key, never a reset count. */
  lemma FoundPreserves(colors: seq<Color>, counts: map<Color, nat>, owner: seq<Color>, bound: nat, c: Color)
    requires IsClustering(colors, counts, owner, bound)
    requires forall k :: k in counts ==> Difference(c, k) > bound
    ensures c !in counts
    ensures IsClustering(colors + [c], counts[c := 1], owner + [c], bound)
  {
    var colors', counts', owner' := colors + [c], counts[c := 1], owner + [c];
    assert multiset(owner)[c] == 0;
    assert Counted(counts', owner');
    forall k | k in counts'
      ensures exists i :: 0 <= i < |colors'| && colors'[i] == k && owner'[i] == k
    {
      if k == c {
        assert colors'[|colors|] == k && owner'[|colors|] == k;
      } else {
        var i :| 0 <= i < |colors| && colors[i] == k && owner[i] == k;
        assert colors'[i] == k && owner'[i] == k;
      }
    }
    forall k1, k2 | k1 in counts' && k2 in counts' && k1 != k2
      ensures Difference(k1, k2) > bound
    {
      DifferenceSymmetric(k1, k2);
    }
  }

  /** A colour within `bound` of representative `b` joins it: one more in `b`'s count, nothing else changes. */
  lemma JoinPreserves(colors: seq<Color>, counts: map<Color, nat>, owner: seq<Color>, bound: nat, c: Color, b: Color)
    requires IsClustering(colors, counts, owner, bound)
    requires b in counts && Difference(c, b) <= bound
    ensures IsClustering(colors + [c], counts[b := counts[b] + 1], owner + [b], bound)
  {
    var colors', counts', owner' := colors + [c], counts[b := counts[b] + 1], owner + [b];
    assert Counted(counts', owner');
    forall k | k in counts'
      ensures exists i :: 0 <= i < |colors'| && colors'[i] == k && owner'[i] == k
    {
      var i :| 0 <= i < |colors| && colors[i] == k && owner[i] == k;
      assert colors'[i] == k && owner'[i] == k;
    }
  }

  /** The map the pass builds from the representatives the colours joined: each key with how many joined it. */
  function CountsOf(owner: seq<Color>): (counts: map<Color, nat>)
    ensures forall k :: k in counts <==> k in owner
  {
    map k | k in owner :: multiset(owner)[k]
  }

  /** No representative of `counts` lies within `bound` of `c`. */
  predicate FarFromAll(counts: map<Color, nat>, c: Color, bound: nat)
  {
    forall k :: k in counts ==> Difference(c, k) > bound
  }

  /**
   * The choice the pass makes for colour `c` given the map so far: when
   * every representative is farther than `bound`, `c` founds itself;
   * otherwise it joins a representative at the smallest distance, which is
   * then within `bound` (ties between equally near keys are left open, as
   * the hash map's visiting order decides them).
   */
  predicate Chooses(counts: map<Color, nat>, c: Color, o: Color, bound: nat)
  {
    if FarFromAll(counts, c, bound) then o == c
    else o in counts && Difference(c, o) <= bound && forall k :: k in counts ==> Difference(c, o) <= Difference(c, k)
  }

  /**
   * `owner` is what a run of the greedy pass over `colors` chooses, colour
   * by colour: each colour makes its choice against the map built from the
   * choices before it.
   */
  predicate IsRun(colors: seq<Color>, owner: seq<Color>, bound: nat)
    decreases |colors|
  {
    && |owner| == |colors|
    && (colors != [] ==>
          var n := |colors| - 1;
          IsRun(colors[..n], owner[..n], bound) && Chooses(CountsOf(owner[..n]), colors[n], owner[n], bound))
  }

  /** One more colour extends a run by its choice against the map so far. */
  lemma RunSnoc(colors: seq<Color>, owner: seq<Color>, c: Color, o: Color, bound: nat)
    requires IsRun(colors, owner, bound) && Chooses(CountsOf(owner), c, o, bound)
    ensures IsRun(colors + [c], owner + [o], bound)
  {
    assert (colors + [c])[..|colors|] == colors;
    assert (owner + [o])[..|owner|] == owner;
  }

  /** Founding adds a key with count 1; joining adds one to the key's count. */
  lemma CountsOfSnoc(owner: seq<Color>, o: Color)
    ensures CountsOf(owner + [o])
         == if o in owner then CountsOf(owner)[o := CountsOf(owner)[o] + 1] else CountsOf(owner)[o := 1]
  {
    var before, after := CountsOf(owner), CountsOf(owner + [o]);
    var expected := if o in owner then before[o := before[o] + 1] else before[o := 1];
    assert multiset(owner + [o]) == multiset(owner) + multiset{o};
    assert after.Keys == expected.Keys;
    forall k | k in after
      ensures after[k] == expected[k]
    {
    }
  }

  /** Every run of the greedy pass leaves a clustering: the choices keep all four of its conditions. */
  lemma {:induction false} RunIsClustering(colors: seq<Color>, owner: seq<Color>, bound: nat)
    requires IsRun(colors, owner, bound)
    ensures IsClustering(colors, CountsOf(owner), owner, bound)
    decreases |colors|
  {
    if colors == [] {
      assert CountsOf(owner) == map[];
    } else {
      var prior, c, before, o := LastChoice(colors, owner, bound);
      RunIsClustering(prior, before, bound);
      ChoiceKeepsClustering(prior, before, c, o, bound);
    }
  }

  /** A non-empty run is a shorter run followed by one more choice. */
  lemma LastChoice(colors: seq<Color>, owner: seq<Color>, bound: nat)
      returns (prior: seq<Color>, c: Color, before: seq<Color>, o: Color)
    requires colors != [] && IsRun(colors, owner, bound)
    ensures colors == prior + [c] && owner == before + [o]
    ensures IsRun(prior, before, bound) && Chooses(CountsOf(before), c, o, bound)
  {
    var n := |colors| - 1;
    prior, c, before, o := colors[..n], colors[n], owner[..n], owner[n];
    assert colors == prior + [c] && owner == before + [o];
  }

  /** One greedy choice, founding or joining, keeps the clustering conditions. */
  lemma ChoiceKeepsClustering(colors: seq<Color>, owner: seq<Color>, c: Color, o: Color, bound: nat)
    requires IsClustering(colors, CountsOf(owner), owner, bound)
    requires Chooses(CountsOf(owner), c, o, bound)
    ensures IsClustering(colors + [c], CountsOf(owner + [o]), owner + [o], bound)
  {
    var prior := CountsOf(owner);
    CountsOfSnoc(owner, o);
    if FarFromAll(prior, c, bound) {
      FoundPreserves(colors, prior, owner, bound, c);
    } else {
      JoinPreserves(colors, prior, owner, bound, c, o);
    }
  }

  /** `c` is the representative with a top count after some run of the greedy pass over `colors`. */
  ghost predicate IsDominant(colors: seq<Color>, c: Color, bound: nat)
  {
    exists owner :: IsRun(colors, owner, bound) && IsTop(CountsOf(owner), c)
  }

  /**
   * The greedy order matters: over black, (1,0,0) and (2,0,0) with tolerance
   * 1 the middle colour joins black, (2,0,0) is then too far and founds its
   * own key, and black alone has the top count, although (1,0,0) is within
   * the tolerance of all three.
   */
  lemma ThreeShadesRun(owner: seq<Color>)
    requires IsRun([Color(0, 0, 0), Color(1, 0, 0), Color(2, 0, 0)], owner, 1)
    ensures owner == [Color(0, 0, 0), Color(0, 0, 0), Color(2, 0, 0)]
  {
    var a, d := Color(0, 0, 0), Color(2, 0, 0);
    var prior, _, before, o := LastChoice([a, Color(1, 0, 0), d], owner, 1);
    LastOfSnoc([a, Color(1, 0, 0)], d, prior);
    TwoShadesRun(before);
    ChooseSingle(CountsOf(before), d, o, 1);
  }

  /** Black, then (1,0,0) within tolerance 1 of it: the second colour joins black. */
  lemma TwoShadesRun(owner: seq<Color>)
    requires IsRun([Color(0, 0, 0), Color(1, 0, 0)], owner, 1)
    ensures owner == [Color(0, 0, 0), Color(0, 0, 0)]
  {
    var a, b := Color(0, 0, 0), Color(1, 0, 0);
    var prior, _, before, o := LastChoice([a, b], owner, 1);
    LastOfSnoc([a], b, prior);
    FirstChoice(a, before, 1);
    ChooseSingle(CountsOf(before), b, o, 1);
  }

  /** The first colour of a scan always founds its own representative. */
  lemma FirstChoice(c: Color, owner: seq<Color>, bound: nat)
    requires IsRun([c], owner, bound)
    ensures owner == [c]
  {
    var prior, _, before, o := LastChoice([c], owner, bound);
    assert before == [];
    assert CountsOf(before) == map[];
  }

  lemma ThreeShadesTop(owner: seq<Color>, c: Color)
    requires owner == [Color(0, 0, 0), Color(0, 0, 0), Color(2, 0, 0)]
    requires IsTop(CountsOf(owner), c)
    ensures c == Color(0, 0, 0)
  {
    var a, d := Color(0, 0, 0), Color(2, 0, 0);
    assert multiset(owner) == multiset{a, a, d};
    assert CountsOf(owner)[a] == 2 && CountsOf(owner)[d] == 1;
  }

  /** Peeling the last colour off a concrete scan leaves the colours before it. */
  lemma LastOfSnoc(front: seq<Color>, x: Color, prior: seq<Color>)
    requires exists y :: front + [x] == prior + [y]
    ensures prior == front
  {
    var y :| front + [x] == prior + [y];
    assert |prior| == |front|;
    forall i | 0 <= i < |front|
      ensures prior[i] == front[i]
    {
      assert (front + [x])[i] == (prior + [y])[i];
    }
  }

  /** The choice against a map with at most one key `a`: join `a` when within `bound`, found otherwise. */
  lemma ChooseSingle(counts: map<Color, nat>, c: Color, o: Color, bound: nat)
    requires Chooses(counts, c, o, bound)
    requires counts.Keys <= {Color(0, 0, 0)}
    ensures o == (if counts.Keys != {} && Difference(c, Color(0, 0, 0)) <= bound then Color(0, 0, 0) else c)
  {
  }

  /** With that scan the clusterer's dominant colour is black. */
  lemma ThreeShadesDominant(c: Color)
    requires IsDominant([Color(0, 0, 0), Color(1, 0, 0), Color(2, 0, 0)], c, 1)
    ensures c == Color(0, 0, 0)
  {
    var owner :| IsRun([Color(0, 0, 0), Color(1, 0, 0), Color(2, 0, 0)], owner, 1) && IsTop(CountsOf(owner), c);
    ThreeShadesRun(owner);
    ThreeShadesTop(owner, c);
  }

  /** `c` is a key whose count no other key exceeds. */
  ghost predicate IsTop(counts: map<Color, nat>, c: Color)
  {
    c in counts && forall k :: k in counts ==> counts[k] <= counts[c]
  }

  /**
   * The inner scan over the map: the representative at the smallest
   * distance from `c`, visiting keys in an arbitrary order (the hash map's)
   * and keeping a key only when it is strictly closer.
   */
  method NearestRepresentative(counts: map<Color, nat>, c: Color) returns (best: Option<Color>, bestValue: nat)
    ensures best.None? <==> counts.Keys == {}
    ensures best.None? ==> bestValue == Unbounded
    ensures best.Some? ==> best.value in counts && bestValue == Difference(c, best.value)
    ensures forall k :: k in counts ==> bestValue <= Difference(c, k)
  {
    best, bestValue := None, Unbounded;
    var unvisited := counts.Keys;
    while unvisited != {}
      invariant unvisited <= counts.Keys
      invariant best.None? <==> unvisited == counts.Keys
      invariant best.None? ==> bestValue == Unbounded
      invariant best.Some? ==> best.value in counts && bestValue == Difference(c, best.value)
      invariant forall k :: k in counts && k !in unvisited ==> bestValue <= Difference(c, k)
      decreases unvisited
    {
      var k :| k in unvisited;
      var diff := Difference(c, k);
      if diff < bestValue {
        best, bestValue := Some(k), diff;
      }
      unvisited := unvisited - {k};
    }
  }

  /**
   * One clustering pass: each colour joins its nearest representative when
   * that one is within `bound`, and otherwise founds a new representative
   * with count 1.
   */
  method Cluster(colors: seq<Color>, bound: nat) returns (counts: map<Color, nat>, ghost owner: seq<Color>)
    ensures IsRun(colors, owner, bound) && counts == CountsOf(owner)
    ensures IsClustering(colors, counts, owner, bound)
    ensures Separated(counts, bound)
    ensures colors == [] <==> counts.Keys == {}
  {
    counts, owner := map[], [];
    for i := 0 to |colors|
      invariant IsRun(colors[..i], owner, bound) && counts == CountsOf(owner)
    {
      var c := colors[i];
      assert colors[..i + 1] == colors[..i] + [c];
      var best, bestValue := NearestRepresentative(counts, c);
      if bestValue > bound || best.None? {
        assert FarFromAll(counts, c, bound);
        assert c !in owner by {
          assert Difference(c, c) == 0;
        }
        RunSnoc(colors[..i], owner, c, c, bound);
        CountsOfSnoc(owner, c);
        counts, owner := counts[c := 1], owner + [c];
      } else {
        var b := best.value;
        assert !FarFromAll(counts, c, bound);
        RunSnoc(colors[..i], owner, c, b, bound);
        CountsOfSnoc(owner, b);
        counts, owner := counts[b := counts[b] + 1], owner + [b];
      }
    }
    assert colors[..|colors|] == colors;
    RunIsClustering(colors, owner, bound);
    ClusteringKeys(colors, counts, owner, bound);
  }

  /** Every representative is one of the scanned colours, with a positive count. */
  predicate KeysScanned(colors: seq<Color>, counts: map<Color, nat>)
  {
    forall k :: k in counts ==> k in colors && counts[k] > 0
  }

  /** Every representative is a scanned colour with a positive count, and only an empty scan has none. */
  lemma ClusteringKeys(colors: seq<Color>, counts: map<Color, nat>, owner: seq<Color>, bound: nat)
    requires IsClustering(colors, counts, owner, bound)
    ensures KeysScanned(colors, counts)
    ensures colors == [] <==> counts.Keys == {}
  {
    forall k | k in counts
      ensures k in colors && counts[k] > 0
    {
      var i := FoundedAt(colors, counts, owner, k);
      assert owner[i] in multiset(owner);
    }
    if colors != [] {
      assert owner[0] in counts;
    }
  }

  /**
   * `max_by_key` over the counts: a representative whose count no other
   * beats (on a tie the later visited key wins, in the map's order).
   */
  method MostCommon(counts: map<Color, nat>) returns (top: Color)
    requires counts.Keys != {}
    ensures top in counts
    ensures forall k :: k in counts ==> counts[k] <= counts[top]
  {
    var unvisited := counts.Keys;
    top :| top in unvisited;
    unvisited := unvisited - {top};
    while unvisited != {}
      invariant unvisited <= counts.Keys
      invariant top in counts
      invariant forall k :: k in counts && k !in unvisited ==> counts[k] <= counts[top]
      decreases unvisited
    {
      var k :| k in unvisited;
      if counts[k] >= counts[top] {
        top := k;
      }
      unvisited := unvisited - {k};
    }
  }

  /** Cluster, then take the top representative: the background, or the next custom colour. */
  method Dominant(colors: seq<Color>, bound: nat) returns (top: Color)
    requires |colors| > 0
    ensures IsDominant(colors, top, bound)
  {
    var counts, owner := Cluster(colors, bound);
    top := MostCommon(counts);
    DominantOfRun(colors, owner, top, bound);
  }

  /** A top-count key of a greedy run over `colors` is dominant for it. */
  lemma DominantOfRun(colors: seq<Color>, owner: seq<Color>, top: Color, bound: nat)
    requires IsRun(colors, owner, bound) && IsTop(CountsOf(owner), top)
    ensures IsDominant(colors, top, bound)
  {
  }

  /** The dominant colour is one of the scanned colours: it is the colour at index `i`. */
  lemma DominantIsScanned(colors: seq<Color>, c: Color, bound: nat) returns (i: nat)
    requires IsDominant(colors, c, bound)
    ensures i < |colors| && colors[i] == c
  {
    var owner :| IsRun(colors, owner, bound) && IsTop(CountsOf(owner), c);
    RunIsClustering(colors, owner, bound);
    i := FoundedAt(colors, CountsOf(owner), owner, c);
  }

  /**
   * With a zero tolerance clusters are exact colours, so the dominant colour
   * is a most frequent colour of the scan.
   */
  lemma ExactBoundDominantIsMode(colors: seq<Color>, c: Color)
    requires IsDominant(colors, c, 0)
    ensures c in multiset(colors)
    ensures forall i :: 0 <= i < |colors| ==> multiset(colors)[colors[i]] <= multiset(colors)[c]
  {
    var owner :| IsRun(colors, owner, 0) && IsTop(CountsOf(owner), c);
    RunIsClustering(colors, owner, 0);
    var j := FoundedAt(colors, CountsOf(owner), owner, c);
    ExactMode(colors, CountsOf(owner), owner, c, j);
  }

  lemma ExactMode(colors: seq<Color>, counts: map<Color, nat>, owner: seq<Color>, c: Color, j: nat)
    requires Assigned(colors, counts, owner, 0) && Counted(counts, owner) && IsTop(counts, c)
    requires j < |colors| && colors[j] == c
    ensures c in multiset(colors)
    ensures forall i :: 0 <= i < |colors| ==> multiset(colors)[colors[i]] <= multiset(colors)[c]
  {
    ExactOwners(colors, counts, owner);
    TopCountIsMode(colors, counts, c, j);
  }

  /** A representative owns the pixel that founded it: the index of that pixel. */
  lemma FoundedAt(colors: seq<Color>, counts: map<Color, nat>, owner: seq<Color>, k: Color) returns (i: nat)
    requires |owner| == |colors| && Founded(colors, counts, owner) && k in counts
    ensures i < |colors| && colors[i] == k && owner[i] == k
  {
    i :| 0 <= i < |colors| && colors[i] == k && owner[i] == k;
  }

  /** With a zero bound every colour joins a representative equal to itself. */
  lemma ExactOwners(colors: seq<Color>, counts: map<Color, nat>, owner: seq<Color>)
    requires Assigned(colors, counts, owner, 0)
    ensures owner == colors
  {
    forall i | 0 <= i < |colors|
      ensures owner[i] == colors[i]
    {
      assert Difference(colors[i], owner[i]) <= 0;
    }
  }

  lemma TopCountIsMode(colors: seq<Color>, counts: map<Color, nat>, c: Color, j: nat)
    requires Counted(counts, colors) && IsTop(counts, c)
    requires forall i :: 0 <= i < |colors| ==> colors[i] in counts
    requires j < |colors| && colors[j] == c
    ensures c in multiset(colors)
    ensures forall i :: 0 <= i < |colors| ==> multiset(colors)[colors[i]] <= multiset(colors)[c]
  {
    forall i | 0 <= i < |colors|
      ensures multiset(colors)[colors[i]] <= multiset(colors)[c]
    {
      var x := colors[i];
      assert counts[x] <= counts[c];
    }
  }
}
