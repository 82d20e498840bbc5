/** The array-backed union-find inside `correlate_assets`: path halving and linking of the
    larger root under the smaller one.
 */
module UnionFind {

  /** Every parent index is at most its own index. */
  ghost predicate Downward(p: seq<nat>) {
    forall i :: 0 <= i < |p| ==> p[i] <= i
  }

  ghost function Root(p: seq<nat>, i: nat): (r: nat)
    requires Downward(p) && i < |p|
    ensures r <= i && p[r] == r
    decreases i
  {
    if p[i] == i then i else Root(p, p[i])
  }

  /** Two forests over the same indices with the same roots. */
  ghost predicate SameRoots(p: seq<nat>, q: seq<nat>) {
    && Downward(p) && Downward(q) && |p| == |q|
    && forall i :: 0 <= i < |p| ==> Root(q, i) == Root(p, i)
  }

  /** Path halving moves no element to another tree. */
  lemma {:induction false} HalvingKeepsRoot(p: seq<nat>, i: nat, j: nat)
    requires Downward(p) && i < |p| && j < |p|
    ensures Downward(p[i := p[p[i]]])
    ensures Root(p[i := p[p[i]]], j) == Root(p, j)
    decreases j
  {
    var q := p[i := p[p[i]]];
    if j == i {
      if p[p[i]] != i {
        HalvingKeepsRoot(p, i, p[p[i]]);
      }
    } else if p[j] != j {
      HalvingKeepsRoot(p, i, p[j]);
    }
  }

  lemma HalvingKeepsRoots(p: seq<nat>, i: nat)
    requires Downward(p) && i < |p|
    ensures SameRoots(p, p[i := p[p[i]]])
  {
    HalvingKeepsRoot(p, i, i);
    forall j: nat | j < |p| ensures Root(p[i := p[p[i]]], j) == Root(p, j) {
      HalvingKeepsRoot(p, i, j);
    }
  }

  /** Linking root `hi` under the smaller root `lo` moves exactly the tree of `hi`. */
  lemma {:induction false} LinkingMerges(p: seq<nat>, lo: nat, hi: nat, j: nat)
    requires Downward(p) && lo < hi < |p| && p[lo] == lo && p[hi] == hi && j < |p|
    ensures Downward(p[hi := lo])
    ensures Root(p[hi := lo], j) == if Root(p, j) == hi then lo else Root(p, j)
    decreases j
  {
    if j != hi && p[j] != j {
      LinkingMerges(p, lo, hi, p[j]);
    }
  }

  /** The parents after a walk from `i` to its root: every visited element skips one ancestor. */
  ghost function Halve(p: seq<nat>, i: nat): seq<nat>
    requires Downward(p) && i < |p|
    decreases i
  {
    if p[i] == i then p else Halve(p[i := p[p[i]]], p[p[i]])
  }

  /** `find`: returns the root and halves the path it walks. */
  method Find(parents: array<nat>, start: nat) returns (index: nat)
    requires Downward(parents[..]) && start < parents.Length
    modifies parents
    ensures SameRoots(old(parents[..]), parents[..])
    ensures parents[..] == Halve(old(parents[..]), start)
    ensures index == Root(old(parents[..]), start)
  {
    index := start;
    while parents[index] != index
      invariant index < parents.Length
      invariant SameRoots(old(parents[..]), parents[..])
      invariant Halve(old(parents[..]), start) == Halve(parents[..], index)
      invariant Root(old(parents[..]), start) == Root(old(parents[..]), index)
      decreases index
    {
      ghost var before := parents[..];
      HalvingKeepsRoots(before, index);
      parents[index] := parents[parents[index]];
      assert parents[..] == before[index := before[before[index]]];
      assert Root(before, index) == Root(before, before[before[index]]);
      index := parents[index];
    }
    assert Root(parents[..], index) == index;
  }

  /** `union`: afterwards both trees have the smaller of the two roots. */
  method Union(parents: array<nat>, left: nat, right: nat)
    requires Downward(parents[..]) && left < parents.Length && right < parents.Length
    modifies parents
    ensures Downward(parents[..])
    ensures var p := old(parents[..]); var l, r := Root(p, left), Root(p, right);
            forall i :: 0 <= i < parents.Length ==>
              Root(parents[..], i) == if Root(p, i) == l || Root(p, i) == r then (if l <= r then l else r) else Root(p, i)
  {
    var leftRoot := Find(parents, left);
    var rightRoot := Find(parents, right);
    if leftRoot != rightRoot {
      var hi: nat := if leftRoot >= rightRoot then leftRoot else rightRoot;
      var lo: nat := if leftRoot <= rightRoot then leftRoot else rightRoot;
      ghost var before := parents[..];
      assert Root(before, hi) == hi && Root(before, lo) == lo;
      forall j: nat | j < |before|
        ensures Downward(before[hi := lo]) && Root(before[hi := lo], j) == if Root(before, j) == hi then lo else Root(before, j)
      {
        LinkingMerges(before, lo, hi, j);
      }
      parents[hi] := lo;
      assert parents[..] == before[hi := lo];
    }
  }
}
