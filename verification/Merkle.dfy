/** The merkle root: pairwise digests, the last one doubled on odd levels. */
module Merkle {
  import opened Ledger

  function PadEven(level: seq<Digest>): seq<Digest>
    requires level != []
  {
    if |level| % 2 == 1 then level + [level[|level| - 1]] else level
  }

  function Parents(level: seq<Digest>): seq<Digest> {
    seq(|level| / 2, i requires 0 <= i < |level| / 2 => Pair(level[2 * i], level[2 * i + 1]))
  }

  function Root(level: seq<Digest>): Digest
    requires level != []
    decreases |level|
  {
    if |level| == 1 then level[0] else Root(Parents(PadEven(level)))
  }

  function Leaves(txids: seq<TxId>): seq<Digest> {
    seq(|txids|, i requires 0 <= i < |txids| => Leaf(txids[i]))
  }

  function MerkleRoot(txids: seq<TxId>): Digest {
    if txids == [] then ZeroDigest else Root(Leaves(txids))
  }

  method ComputeRoot(txids: seq<TxId>) returns (root: Digest)
    ensures root == MerkleRoot(txids)
  {
    if txids == [] { return ZeroDigest; }
    var level := Leaves(txids);
    while |level| > 1
      invariant level != [] && Root(level) == MerkleRoot(txids)
      decreases |level|
    {
      ghost var before := level;
      if |level| % 2 == 1 { level := level + [level[|level| - 1]]; }
      assert level == PadEven(before);
      level := NextLevel(level);
    }
    return level[0];
  }

  method NextLevel(level: seq<Digest>) returns (next: seq<Digest>)
    requires |level| % 2 == 0
    ensures next == Parents(level)
  {
    next := [];
    var i := 0;
    while i < |level|
      invariant i % 2 == 0 && 0 <= i <= |level|
      invariant |next| == i / 2
      invariant forall k :: 0 <= k < i / 2 ==> next[k] == Pair(level[2 * k], level[2 * k + 1])
    {
      next := next + [Pair(level[i], level[i + 1])];
      i := i + 2;
    }
  }

  /** The roots of up to three identifiers: zero for none, the identifier itself for one, and for an
      odd number the last one paired with itself. */
  lemma SmallRoots(a: TxId, b: TxId, c: TxId)
    ensures MerkleRoot([]) == ZeroDigest && MerkleRoot([a]) == Leaf(a)
    ensures MerkleRoot([a, b]) == Pair(Leaf(a), Leaf(b))
    ensures MerkleRoot([a, b, c]) == Pair(Pair(Leaf(a), Leaf(b)), Pair(Leaf(c), Leaf(c)))
  {
    var x, y, z := Leaf(a), Leaf(b), Leaf(c);
    assert Leaves([a, b]) == [x, y] && Leaves([a, b, c]) == [x, y, z];
    assert Parents([x, y]) == [Pair(x, y)] && Parents([x, y, z, z]) == [Pair(x, y), Pair(z, z)];
    assert Parents([Pair(x, y), Pair(z, z)]) == [Pair(Pair(x, y), Pair(z, z))];
    assert Root([x, y]) == Pair(x, y) && PadEven([x, y, z]) == [x, y, z, z];
    assert Root([x, y, z]) == Root([Pair(x, y), Pair(z, z)]);
    assert Root([Pair(x, y), Pair(z, z)]) == Root([Pair(Pair(x, y), Pair(z, z))]);
  }

  function Depth(d: Digest): nat {
    match d
    case Pair(l, _) => 1 + Depth(l)
    case _ => 0
  }

  predicate Level(level: seq<Digest>, d: nat) {
    level != [] && forall i :: 0 <= i < |level| ==> Depth(level[i]) == d
  }

  lemma ParentsLevel(level: seq<Digest>, d: nat)
    requires Level(level, d)
    ensures Level(Parents(PadEven(level)), d + 1)
  {
  }

  lemma {:induction false} RootDepth(level: seq<Digest>, d: nat)
    requires Level(level, d)
    ensures Depth(Root(level)) >= d && (|level| > 1 ==> Depth(Root(level)) > d)
    decreases |level|
  {
    if |level| > 1 {
      ParentsLevel(level, d);
      RootDepth(Parents(PadEven(level)), d + 1);
    }
  }

  lemma ParentsKeepDistinct(level: seq<Digest>)
    requires |level| > 1 && NoRepeats(level)
    ensures NoRepeats(Parents(PadEven(level)))
  {
    var up := Parents(PadEven(level));
    forall i, j | 0 <= i < j < |up| ensures up[i] != up[j] {
      assert up[i].left == level[2 * i] && up[j].left == level[2 * j];
    }
  }

  lemma PaddingIsInjective(a: seq<Digest>, b: seq<Digest>)
    requires a != [] && b != [] && NoRepeats(a) && NoRepeats(b) && PadEven(a) == PadEven(b)
    ensures a == b
  {
    var n := |PadEven(a)|;
    assert PadEven(a)[n - 1] == PadEven(b)[n - 1] && PadEven(a)[n - 2] == PadEven(b)[n - 2];
    assert forall i :: 0 <= i < |a| ==> a[i] == PadEven(a)[i];
    assert forall i :: 0 <= i < |b| ==> b[i] == PadEven(b)[i];
  }

  lemma ParentsInjective(a: seq<Digest>, b: seq<Digest>)
    requires |a| % 2 == 0 && |b| % 2 == 0 && Parents(a) == Parents(b)
    ensures a == b
  {
    assert |Parents(a)| == |Parents(b)|;
    forall i | 0 <= i < |a| ensures a[i] == b[i] {
      assert Parents(a)[i / 2] == Parents(b)[i / 2];
    }
  }

  lemma ChildrenAreEqual(a: seq<Digest>, b: seq<Digest>)
    requires a != [] && b != [] && NoRepeats(a) && NoRepeats(b)
    requires Parents(PadEven(a)) == Parents(PadEven(b))
    ensures a == b
  {
    ParentsInjective(PadEven(a), PadEven(b));
    PaddingIsInjective(a, b);
  }

  /** Lists without repetition, of any two lengths, have different roots unless they are equal. */
  lemma {:induction false} RootIsInjective(a: seq<Digest>, b: seq<Digest>, d: nat)
    requires Level(a, d) && Level(b, d) && NoRepeats(a) && NoRepeats(b) && Root(a) == Root(b)
    ensures a == b
    decreases |a|
  {
    RootDepth(a, d);
    RootDepth(b, d);
    if |a| > 1 {
      var up, vp := Parents(PadEven(a)), Parents(PadEven(b));
      assert Root(up) == Root(vp);
      ParentsKeepDistinct(a);
      ParentsKeepDistinct(b);
      ParentsLevel(a, d);
      ParentsLevel(b, d);
      RootIsInjective(up, vp, d + 1);
      ChildrenAreEqual(a, b);
    }
  }

  /** The root commits to a list of distinct transaction identifiers. */
  lemma MerkleRootCommits(a: seq<TxId>, b: seq<TxId>)
    requires NoRepeats(a) && NoRepeats(b) && MerkleRoot(a) == MerkleRoot(b)
    ensures a == b
  {
    if a != [] && b != [] {
      RootIsInjective(Leaves(a), Leaves(b), 0);
      assert |Leaves(a)| == |Leaves(b)|;
      forall i | 0 <= i < |a| ensures a[i] == b[i] { assert Leaves(a)[i] == Leaves(b)[i]; }
    } else if a != [] {
      EmptyRootIsUnique(a);
    } else if b != [] {
      EmptyRootIsUnique(b);
    }
  }

  lemma {:induction false} RootIsNotZero(level: seq<Digest>)
    requires level != [] && forall i :: 0 <= i < |level| ==> level[i] != ZeroDigest
    ensures Root(level) != ZeroDigest
    decreases |level|
  {
    if |level| > 1 { RootIsNotZero(Parents(PadEven(level))); }
  }

  lemma EmptyRootIsUnique(txids: seq<TxId>)
    requires txids != []
    ensures MerkleRoot(txids) != ZeroDigest
  {
    RootIsNotZero(Leaves(txids));
  }

  /** It does not commit to lists with repetitions: repeating the last identifier of an odd list
      longer than one changes nothing. */
  lemma RepeatedLastCollides(txids: seq<TxId>)
    requires |txids| > 1 && |txids| % 2 == 1
    ensures MerkleRoot(txids) == MerkleRoot(txids + [txids[|txids| - 1]])
  {
    assert PadEven(Leaves(txids)) == Leaves(txids + [txids[|txids| - 1]]);
  }

  // ---------- exactly which lists share a root ----------

  /** The identifiers under a digest, from left to right. */
  function Under(d: Digest): seq<TxId> {
    match d
    case ZeroDigest => []
    case Leaf(t) => [t]
    case Pair(l, r) => Under(l) + Under(r)
  }

  /** Neighbouring groups joined; an odd last group is joined with itself. */
  function Joined(groups: seq<seq<TxId>>): seq<seq<TxId>> {
    seq((|groups| + 1) / 2, i requires 0 <= i < (|groups| + 1) / 2 =>
      groups[2 * i] + groups[if 2 * i + 1 < |groups| then 2 * i + 1 else 2 * i])
  }

  /** The list with its tail doubled until its length is a power of two: groups of one are joined
      over and over, a last group without neighbour with itself. */
  function PaddedGroups(groups: seq<seq<TxId>>): seq<TxId>
    requires groups != []
    decreases |groups|
  {
    if |groups| == 1 then groups[0] else PaddedGroups(Joined(groups))
  }

  function Padded(txids: seq<TxId>): seq<TxId> {
    if txids == [] then [] else PaddedGroups(seq(|txids|, i requires 0 <= i < |txids| => [txids[i]]))
  }

  function AllUnder(level: seq<Digest>): seq<seq<TxId>> {
    seq(|level|, i requires 0 <= i < |level| => Under(level[i]))
  }

  lemma UnderParents(level: seq<Digest>)
    requires level != []
    ensures AllUnder(Parents(PadEven(level))) == Joined(AllUnder(level))
  {
    var padded := PadEven(level);
    var up, joined, groups := Parents(padded), Joined(AllUnder(level)), AllUnder(level);
    assert |up| == |joined|;
    forall i | 0 <= i < |up| ensures Under(up[i]) == joined[i] {
      assert up[i] == Pair(padded[2 * i], padded[2 * i + 1]);
      assert padded[2 * i] == level[2 * i];
      assert padded[2 * i + 1] == level[if 2 * i + 1 < |level| then 2 * i + 1 else 2 * i];
    }
  }

  lemma {:induction false} RootCoversPadded(level: seq<Digest>)
    requires level != []
    ensures Under(Root(level)) == PaddedGroups(AllUnder(level))
    decreases |level|
  {
    if |level| > 1 {
      UnderParents(level);
      hide Joined, Under;
      RootCoversPadded(Parents(PadEven(level)));
    }
  }

  /** A complete tree of leaves of this depth. */
  predicate Complete(d: Digest, depth: nat) {
    if depth == 0 then d.Leaf? else d.Pair? && Complete(d.left, depth - 1) && Complete(d.right, depth - 1)
  }

  lemma {:induction false} RootIsComplete(level: seq<Digest>, depth: nat) returns (top: nat)
    requires level != [] && forall i :: 0 <= i < |level| ==> Complete(level[i], depth)
    ensures Complete(Root(level), top)
    decreases |level|
  {
    if |level| == 1 { top := depth; } else { top := RootIsComplete(Parents(PadEven(level)), depth + 1); }
  }

  function Pow2(k: nat): (p: nat)
    ensures p >= 1
  {
    if k == 0 then 1 else 2 * Pow2(k - 1)
  }

  lemma {:induction false} CompleteSize(d: Digest, depth: nat)
    requires Complete(d, depth)
    ensures |Under(d)| == Pow2(depth)
  {
    if depth > 0 {
      CompleteSize(d.left, depth - 1);
      CompleteSize(d.right, depth - 1);
    }
  }

  lemma {:induction false} Pow2IsInjective(j: nat, k: nat)
    requires Pow2(j) == Pow2(k)
    ensures j == k
  {
    if j > 0 && k > 0 { Pow2IsInjective(j - 1, k - 1); }
  }

  lemma {:induction false} UnderIsInjective(a: Digest, b: Digest, depth: nat)
    requires Complete(a, depth) && Complete(b, depth) && Under(a) == Under(b)
    ensures a == b
    decreases depth
  {
    if depth > 0 {
      CompleteSize(a.left, depth - 1);
      CompleteSize(b.left, depth - 1);
      var n := |Under(a.left)|;
      assert Under(a.left) == Under(a)[..n] == Under(b.left) && Under(a.right) == Under(a)[n..] == Under(b.right);
      UnderIsInjective(a.left, b.left, depth - 1);
      UnderIsInjective(a.right, b.right, depth - 1);
    } else {
      assert a == Leaf(Under(a)[0]) && b == Leaf(Under(b)[0]);
    }
  }

  /** The root is a complete tree over the padded list. */
  lemma RootUnder(txids: seq<TxId>) returns (depth: nat)
    requires txids != []
    ensures Complete(MerkleRoot(txids), depth) && Under(MerkleRoot(txids)) == Padded(txids)
  {
    RootCoversPadded(Leaves(txids));
    assert AllUnder(Leaves(txids)) == seq(|txids|, i requires 0 <= i < |txids| => [txids[i]]);
    depth := RootIsComplete(Leaves(txids), 0);
  }

  /** What the root commits to, exactly: two lists of any lengths, with or without repetitions,
      have the same root if and only if they are the same once padded. */
  lemma SameRootExactly(a: seq<TxId>, b: seq<TxId>)
    ensures MerkleRoot(a) == MerkleRoot(b) <==> Padded(a) == Padded(b)
  {
    if a != [] && b != [] {
      var j := RootUnder(a);
      var k := RootUnder(b);
      if Padded(a) == Padded(b) {
        CompleteSize(MerkleRoot(a), j);
        CompleteSize(MerkleRoot(b), k);
        Pow2IsInjective(j, k);
        UnderIsInjective(MerkleRoot(a), MerkleRoot(b), j);
      }
    } else if a != [] {
      var j := RootUnder(a);
      CompleteSize(MerkleRoot(a), j);
    } else if b != [] {
      var k := RootUnder(b);
      CompleteSize(MerkleRoot(b), k);
    }
  }
}
