/** The bottom-up merge sort of the z-order list, first on sequences, then on the links. */
module ZSort {
  import opened Distinctness
  import opened Plane
  import opened ZOrder
  import opened Rings

  // --- On sequences ---

  ghost function Merge(g: Grid, p: seq<Node>, q: seq<Node>): (r: seq<Node>)
    ensures |r| == |p| + |q|
    decreases |p| + |q|
  {
    if p == [] then q
    else if q == [] then p
    else if Key(g, p[0]) <= Key(g, q[0]) then [p[0]] + Merge(g, p[1..], q)
    else [q[0]] + Merge(g, p, q[1..])
  }

  ghost function Least(m: nat, n: nat): nat { if m < n then m else n }

  ghost function Block(s: seq<Node>, k: nat): seq<Node> {
    s[..Least(k, |s|)]
  }

  ghost function Beyond(s: seq<Node>, k: nat): (r: seq<Node>)
    ensures |r| == |s| - Least(k, |s|)
    ensures Block(s, k) + r == s
  {
    s[Least(k, |s|)..]
  }

  /** One pass: neighbouring blocks of k nodes are merged pairwise. */
  ghost function MergePass(g: Grid, s: seq<Node>, k: nat): (r: seq<Node>)
    requires k > 0
    ensures |r| == |s|
    decreases |s|
  {
    if s == [] then [] else
      var rest := Beyond(s, k);
      Merge(g, Block(s, k), Block(rest, k)) + MergePass(g, Beyond(rest, k), k)
  }

  /** The nodes of s with code c, in order. */
  ghost function WithCode(g: Grid, s: seq<Node>, c: nat): seq<Node> {
    if s == [] then []
    else if Key(g, s[0]) == c then [s[0]] + WithCode(g, s[1..], c)
    else WithCode(g, s[1..], c)
  }

  /** r is a stable rearrangement of s: nodes with equal codes keep their order. */
  ghost predicate Stable(g: Grid, s: seq<Node>, r: seq<Node>) {
    && multiset(s) == multiset(r)
    && forall c: nat :: WithCode(g, s, c) == WithCode(g, r, c)
  }

  ghost predicate BlocksSorted(g: Grid, s: seq<Node>, k: nat)
    requires k > 0
    decreases |s|
  {
    s == [] || (ZSorted(g, Block(s, k)) && BlocksSorted(g, Beyond(s, k), k))
  }

  lemma {:induction false} MergeElements(g: Grid, p: seq<Node>, q: seq<Node>)
    ensures multiset(Merge(g, p, q)) == multiset(p) + multiset(q)
    decreases |p| + |q|
  {
    if p != [] && q != [] {
      assert p == [p[0]] + p[1..] && q == [q[0]] + q[1..];
      if Key(g, p[0]) <= Key(g, q[0]) {
        MergeElements(g, p[1..], q);
      } else {
        MergeElements(g, p, q[1..]);
      }
    }
  }

  lemma SortedCons(g: Grid, n: Node, s: seq<Node>, p: seq<Node>, q: seq<Node>)
    requires ZSorted(g, s) && multiset(s) == multiset(p) + multiset(q)
    requires forall k :: 0 <= k < |p| ==> Key(g, n) <= Key(g, p[k])
    requires forall k :: 0 <= k < |q| ==> Key(g, n) <= Key(g, q[k])
    ensures ZSorted(g, [n] + s)
  {
    forall k | 0 <= k < |s|
      ensures Key(g, n) <= Key(g, s[k])
    {
      assert s[k] in multiset(s);
      assert s[k] in p || s[k] in q;
    }
  }

  lemma {:induction false} MergeSorted(g: Grid, p: seq<Node>, q: seq<Node>)
    requires ZSorted(g, p) && ZSorted(g, q)
    ensures ZSorted(g, Merge(g, p, q))
    decreases |p| + |q|
  {
    if p != [] && q != [] {
      if Key(g, p[0]) <= Key(g, q[0]) {
        MergeSorted(g, p[1..], q);
        MergeElements(g, p[1..], q);
        SortedCons(g, p[0], Merge(g, p[1..], q), p[1..], q);
      } else {
        MergeSorted(g, p, q[1..]);
        MergeElements(g, p, q[1..]);
        SortedCons(g, q[0], Merge(g, p, q[1..]), p, q[1..]);
      }
    }
  }

  lemma {:induction false} WithCodeAppend(g: Grid, s: seq<Node>, t: seq<Node>, c: nat)
    ensures WithCode(g, s + t, c) == WithCode(g, s, c) + WithCode(g, t, c)
  {
    if s == [] {
      assert s + t == t;
    } else {
      assert (s + t)[1..] == s[1..] + t;
      WithCodeAppend(g, s[1..], t, c);
    }
  }

  lemma {:induction false} WithCodeNone(g: Grid, s: seq<Node>, c: nat)
    requires forall k :: 0 <= k < |s| ==> Key(g, s[k]) != c
    ensures WithCode(g, s, c) == []
  {
    if s != [] {
      WithCodeNone(g, s[1..], c);
    }
  }

  lemma {:induction false} MergeStable(g: Grid, p: seq<Node>, q: seq<Node>, c: nat)
    requires ZSorted(g, p)
    ensures WithCode(g, Merge(g, p, q), c) == WithCode(g, p, c) + WithCode(g, q, c)
    decreases |p| + |q|
  {
    if p == [] {
    } else if q == [] {
    } else if Key(g, p[0]) <= Key(g, q[0]) {
      MergeStable(g, p[1..], q, c);
      assert Merge(g, p, q)[1..] == Merge(g, p[1..], q);
    } else {
      MergeStable(g, p, q[1..], c);
      assert Merge(g, p, q)[1..] == Merge(g, p, q[1..]);
      if Key(g, q[0]) == c {
        WithCodeNone(g, p, c);
      }
    }
  }

  lemma StableStep(g: Grid, p: seq<Node>, q: seq<Node>, t: seq<Node>, t': seq<Node>, c: nat)
    requires ZSorted(g, p) && WithCode(g, t', c) == WithCode(g, t, c)
    ensures WithCode(g, Merge(g, p, q) + t', c) == WithCode(g, p + (q + t), c)
  {
    var wp, wq, wt := WithCode(g, p, c), WithCode(g, q, c), WithCode(g, t, c);
    WithCodeAppend(g, Merge(g, p, q), t', c);
    MergeStable(g, p, q, c);
    WithCodeAppend(g, q, t, c);
    WithCodeAppend(g, p, q + t, c);
    assert (wp + wq) + wt == wp + (wq + wt);
  }

  lemma {:induction false} PassStable(g: Grid, s: seq<Node>, k: nat, c: nat)
    requires k > 0 && BlocksSorted(g, s, k)
    ensures WithCode(g, MergePass(g, s, k), c) == WithCode(g, s, c)
    decreases |s|
  {
    if s != [] {
      var p, rest := Block(s, k), Beyond(s, k);
      var q, t := Block(rest, k), Beyond(rest, k);
      PassStable(g, t, k, c);
      StableStep(g, p, q, t, MergePass(g, t, k), c);
    }
  }

  lemma {:induction false} PassElements(g: Grid, s: seq<Node>, k: nat)
    requires k > 0
    ensures multiset(MergePass(g, s, k)) == multiset(s)
    decreases |s|
  {
    if s != [] {
      var p, rest := Block(s, k), Beyond(s, k);
      var q, t := Block(rest, k), Beyond(rest, k);
      PassElements(g, t, k);
      MergeElements(g, p, q);
      assert multiset(s) == multiset(p + rest) == multiset(p) + multiset(q + t);
    }
  }

  lemma {:induction false} PassSorted(g: Grid, s: seq<Node>, k: nat)
    requires k > 0 && BlocksSorted(g, s, k)
    ensures BlocksSorted(g, MergePass(g, s, k), 2 * k)
    decreases |s|
  {
    if s != [] {
      var p, rest := Block(s, k), Beyond(s, k);
      var q, t := Block(rest, k), Beyond(rest, k);
      PassSorted(g, t, k);
      assert ZSorted(g, q);
      MergeSorted(g, p, q);
      var m, n := Merge(g, p, q), MergePass(g, t, k);
      assert |m| == Least(2 * k, |s|);
      assert Block(m + n, 2 * k) == m && Beyond(m + n, 2 * k) == n;
    }
  }

  lemma {:induction false} SingletonsSorted(g: Grid, s: seq<Node>)
    ensures BlocksSorted(g, s, 1)
  {
    if s != [] {
      assert Beyond(s, 1) == s[1..];
      SingletonsSorted(g, s[1..]);
    }
  }

  lemma OneBlockSorted(g: Grid, s: seq<Node>, k: nat)
    requires |s| <= k && 0 < k && BlocksSorted(g, s, k)
    ensures ZSorted(g, s)
  {
    if s != [] {
      assert Block(s, k) == s;
    }
  }

  // --- On the links ---

  /** `nextZ` leads through s; where it leads from the last node does not matter. */
  ghost predicate Through(s: seq<Node>)
    reads s`nextZ
  {
    forall k :: 0 <= k < |s| - 1 ==> s[k].nextZ == s[k + 1]
  }

  ghost predicate Ends(s: seq<Node>)
    reads s`nextZ
  {
    s != [] ==> s[|s| - 1].nextZ == null
  }

  ghost predicate Forward(s: seq<Node>)
    reads s`nextZ
  {
    Through(s) && Ends(s)
  }

  ghost predicate Backward(s: seq<Node>)
    reads s`prevZ
  {
    && (|s| > 0 ==> s[0].prevZ == null)
    && (forall k :: 0 < k < |s| ==> s[k].prevZ == s[k - 1])
  }

  ghost predicate Apart(s: seq<Node>, t: seq<Node>) {
    NodeSet(s) !! NodeSet(t)
  }

  ghost function Head(s: seq<Node>): Node? {
    if s == [] then null else s[0]
  }

  ghost function Last(s: seq<Node>): Node? {
    if s == [] then null else s[|s| - 1]
  }

  /** The output list so far: first node `list`, last node `tail`, linked both ways inside. */
  ghost predicate Output(out: seq<Node>, list: Node?, tail: Node?)
    reads out`nextZ, out`prevZ
  {
    Distinct(out) && Through(out) && Backward(out) && list == Head(out) && tail == Last(out)
  }

  /** Counts off up to k nodes from p; q is the node after them. */
  method CountOff(p: Node, k: nat, ghost rem: seq<Node>) returns (size: nat, q: Node?)
    requires k > 0 && Forward(rem) && |rem| > 0 && rem[0] == p
    ensures size == Least(k, |rem|) && q == Head(rem[size..])
  {
    q := p;
    size := 0;
    var i := 0;
    while i < k
      invariant 0 <= i <= k && size == i && i < |rem| && q == rem[i]
    {
      assert q.nextZ == if i + 1 < |rem| then rem[i + 1] else null;
      size := size + 1;
      q := q.nextZ;
      if q == null {
        return;
      }
      i := i + 1;
    }
  }

  /** The lists a merge works on share no node. */
  ghost predicate Separate(out: seq<Node>, p: seq<Node>, q: seq<Node>) {
    && Distinct(p) && Distinct(q)
    && Apart(out, p) && Apart(out, q) && Apart(p, q)
  }

  lemma MoveFirst(out: seq<Node>, p: seq<Node>, q: seq<Node>)
    requires Separate(out, p, q) && p != []
    ensures Separate(out + [p[0]], p[1..], q)
    ensures p[0] !in out && p[0] in NodeSet(p) && NodeSet(p[1..]) <= NodeSet(p)
    ensures NodeSet(out + [p[0]]) == NodeSet(out) + {p[0]}
  {
    TailNodes(p);
    AppendNodes(out, p[0]);
    assert p[0] in NodeSet(p);
  }

  lemma TakeLeft(g: Grid, p: seq<Node>, q: seq<Node>)
    requires p != [] && (q == [] || Key(g, p[0]) <= Key(g, q[0]))
    ensures Merge(g, p, q) == [p[0]] + Merge(g, p[1..], q)
  {
    if q == [] {
      assert p == [p[0]] + p[1..];
      assert Merge(g, p[1..], q) == p[1..];
    }
  }

  lemma TakeRight(g: Grid, p: seq<Node>, rs: seq<Node>, k: nat)
    requires rs != [] && k > 0 && (p == [] || Key(g, p[0]) > Key(g, rs[0]))
    ensures Merge(g, p, Block(rs, k)) == [rs[0]] + Merge(g, p, Block(rs[1..], k - 1))
    ensures Beyond(rs, k) == Beyond(rs[1..], k - 1)
  {
    assert Block(rs, k) == [rs[0]] + Block(rs[1..], k - 1);
    assert Block(rs, k)[1..] == Block(rs[1..], k - 1);
  }

  lemma Shift(out: seq<Node>, e: Node, todo: seq<Node>, goal: seq<Node>)
    requires out + ([e] + todo) == goal
    ensures (out + [e]) + todo == goal
  {
  }

  lemma NothingLeft(g: Grid, out: seq<Node>, rs: seq<Node>, k: nat)
    requires k == 0 || rs == []
    ensures Beyond(rs, k) == rs && out + Merge(g, [], Block(rs, k)) == out
  {
  }

  /** Moves e, the first node of p, to the end of the output list; `after` is what followed it. */
  method Take(e: Node, list: Node?, tail: Node?, ghost out: seq<Node>, ghost p: seq<Node>, ghost q: seq<Node>)
    returns (after: Node?, list': Node?)
    requires p != [] && e == p[0] && Separate(out, p, q)
    requires Output(out, list, tail) && Through(p) && Through(q)
    modifies NodeSet(out)`nextZ, NodeSet(p)`prevZ
    ensures Output(out + [e], list', e) && Separate(out + [e], p[1..], q)
    ensures NodeSet(p[1..]) <= NodeSet(p) && NodeSet(out + [e]) <= NodeSet(out) + NodeSet(p)
    ensures Through(p[1..]) && Through(q)
    ensures old(Ends(p)) ==> Ends(p[1..]) && after == Head(p[1..])
    ensures old(Ends(q)) ==> Ends(q)
    ensures |p| > 1 ==> after == p[1]
  {
    MoveFirst(out, p, q);
    after, list' := e.nextZ, list;
    assert tail != null ==> tail in NodeSet(out);
    if tail != null {
      tail.nextZ := e;
    } else {
      list' := e;
    }
    e.prevZ := tail;
    ghost var r := out + [e];
    assert forall k :: 0 <= k < |out| ==> r[k] == out[k];
    assert Through(r) && Backward(r);
  }

  /** What the merge loop knows of its lists: the output, a block of nodes and the nodes after it. */
  ghost predicate Merging(g: Grid, out: seq<Node>, list: Node?, tail: Node?, ps: seq<Node>, rs: seq<Node>)
    reads out`nextZ, out`prevZ, ps`nextZ, rs`nextZ, ps`z, rs`z
  {
    && Separate(out, ps, rs)
    && Output(out, list, tail) && Through(ps) && Forward(rs)
    && ZStored(g, ps) && ZStored(g, rs)
  }

  lemma SeparateSwap(out: seq<Node>, p: seq<Node>, q: seq<Node>)
    requires Separate(out, p, q)
    ensures Separate(out, q, p)
  {
  }

  lemma StoredTail(g: Grid, s: seq<Node>)
    requires ZStored(g, s) && s != []
    ensures ZStored(g, s[1..])
  {
  }

  method StepLeft(e: Node, list: Node?, tail: Node?, ghost g: Grid, ghost out: seq<Node>, ghost ps: seq<Node>,
                  ghost rs: seq<Node>)
    returns (after: Node?, list': Node?)
    requires ps != [] && e == ps[0] && Merging(g, out, list, tail, ps, rs)
    modifies NodeSet(out)`nextZ, NodeSet(ps)`prevZ
    ensures Merging(g, out + [e], list', e, ps[1..], rs)
    ensures NodeSet(ps[1..]) <= NodeSet(ps) && NodeSet(out + [e]) <= NodeSet(out) + NodeSet(ps)
    ensures |ps| > 1 ==> after == ps[1]
  {
    StoredTail(g, ps);
    after, list' := Take(e, list, tail, out, ps, rs);
  }

  method StepRight(e: Node, list: Node?, tail: Node?, ghost g: Grid, ghost out: seq<Node>, ghost ps: seq<Node>,
                   ghost rs: seq<Node>)
    returns (after: Node?, list': Node?)
    requires rs != [] && e == rs[0] && Merging(g, out, list, tail, ps, rs)
    modifies NodeSet(out)`nextZ, NodeSet(rs)`prevZ
    ensures Merging(g, out + [e], list', e, ps, rs[1..])
    ensures NodeSet(rs[1..]) <= NodeSet(rs) && NodeSet(out + [e]) <= NodeSet(out) + NodeSet(rs)
    ensures after == Head(rs[1..])
  {
    StoredTail(g, rs);
    SeparateSwap(out, ps, rs);
    after, list' := Take(e, list, tail, out, rs, ps);
    SeparateSwap(out + [e], rs[1..], ps);
  }

  /** One step of the merge: the smaller first node, the left one on ties, goes to the output. */
  method MergeStep(a: Node?, q: Node?, pSize: nat, qSize: nat, list: Node?, tail: Node?,
                   ghost g: Grid, ghost out: seq<Node>, ghost ps: seq<Node>, ghost rs: seq<Node>)
    returns (e: Node, a': Node?, q': Node?, pSize': nat, qSize': nat, list': Node?,
             ghost ps': seq<Node>, ghost rs': seq<Node>)
    requires pSize > 0 || (qSize > 0 && q != null)
    requires pSize == |ps| && (pSize > 0 ==> a == ps[0]) && q == Head(rs)
    requires Merging(g, out, list, tail, ps, rs)
    modifies NodeSet(out)`nextZ, NodeSet(ps)`prevZ, NodeSet(rs)`prevZ
    ensures pSize' == |ps'| && (pSize' > 0 ==> a' == ps'[0]) && q' == Head(rs')
    ensures Merging(g, out + [e], list', e, ps', rs')
    ensures NodeSet(ps') <= NodeSet(ps) && NodeSet(rs') <= NodeSet(rs)
    ensures NodeSet(out + [e]) <= NodeSet(out) + NodeSet(ps) + NodeSet(rs)
    ensures Merge(g, ps, Block(rs, qSize)) == [e] + Merge(g, ps', Block(rs', qSize'))
    ensures Beyond(rs', qSize') == Beyond(rs, qSize)
    ensures pSize' + qSize' < pSize + qSize
  {
    a', q', pSize', qSize', ps', rs' := a, q, pSize, qSize, ps, rs;
    if pSize > 0 && (qSize == 0 || q == null || a.z <= q.z) {
      TakeLeft(g, ps, Block(rs, qSize));
      e := a;
      a', list' := StepLeft(e, list, tail, g, out, ps, rs);
      pSize', ps' := pSize - 1, ps[1..];
    } else {
      TakeRight(g, ps, rs, qSize);
      e := q;
      q', list' := StepRight(e, list, tail, g, out, ps, rs);
      qSize', rs' := qSize - 1, rs[1..];
    }
  }

  /** Merges the block of pSize nodes at p with the block of up to k nodes at q. */
  method MergeBlocks(p0: Node, q0: Node?, pSize0: nat, k: nat, list0: Node?, tail0: Node?, ghost g: Grid,
                     ghost out0: seq<Node>, ghost p: seq<Node>, ghost rest: seq<Node>)
    returns (q: Node?, list: Node?, tail: Node?)
    requires k > 0 && |p| == pSize0 > 0 && p0 == p[0] && q0 == Head(rest)
    requires Merging(g, out0, list0, tail0, p, rest)
    modifies NodeSet(out0)`nextZ, NodeSet(p)`nextZ, NodeSet(p)`prevZ, NodeSet(rest)`nextZ, NodeSet(rest)`prevZ
    ensures q == Head(Beyond(rest, k))
    ensures Merging(g, out0 + Merge(g, p, Block(rest, k)), list, tail, [], Beyond(rest, k))
  {
    var a: Node?, pSize: nat, qSize: nat := p0, pSize0, k;
    q, list, tail := q0, list0, tail0;
    ghost var out, ps, rs := out0, p, rest;
    ghost var goal := out0 + Merge(g, p, Block(rest, k));
    while pSize > 0 || (qSize > 0 && q != null)
      invariant pSize == |ps| && (pSize > 0 ==> a == ps[0]) && q == Head(rs)
      invariant Merging(g, out, list, tail, ps, rs)
      invariant NodeSet(ps) <= NodeSet(p) && NodeSet(rs) <= NodeSet(rest)
      invariant NodeSet(out) <= NodeSet(out0) + NodeSet(p) + NodeSet(rest)
      invariant out + Merge(g, ps, Block(rs, qSize)) == goal
      invariant Beyond(rs, qSize) == Beyond(rest, k)
      decreases pSize + qSize
    {
      var e: Node;
      e, a, q, pSize, qSize, list, ps, rs := MergeStep(a, q, pSize, qSize, list, tail, g, out, ps, rs);
      Shift(out, e, Merge(g, ps, Block(rs, qSize)), goal);
      tail, out := e, out + [e];
    }
    NothingLeft(g, out, rs, qSize);
  }

  lemma SameNodes(p: seq<Node>, q: seq<Node>)
    requires multiset(p) == multiset(q)
    ensures NodeSet(p) == NodeSet(q)
  {
    assert forall n :: n in p <==> n in multiset(p);
    assert forall n :: n in q <==> n in multiset(q);
  }

  lemma PartsApart(p: seq<Node>, q: seq<Node>)
    requires Distinct(p + q)
    ensures Distinct(p) && Distinct(q) && Apart(p, q)
    ensures NodeSet(p + q) == NodeSet(p) + NodeSet(q)
  {
    var s := p + q;
    assert forall i :: 0 <= i < |p| ==> p[i] == s[i];
    assert forall i :: 0 <= i < |q| ==> q[i] == s[|p| + i];
  }

  lemma PartsForward(p: seq<Node>, q: seq<Node>)
    requires Forward(p + q)
    ensures Through(p) && Forward(q)
  {
    var s := p + q;
    assert forall i :: 0 <= i < |p| ==> p[i] == s[i];
    assert forall i :: 0 <= i < |q| ==> q[i] == s[|p| + i];
  }

  lemma PartsStored(g: Grid, p: seq<Node>, q: seq<Node>)
    requires ZStored(g, p + q)
    ensures ZStored(g, p) && ZStored(g, q)
  {
    assert forall n :: n in p ==> n in p + q;
    assert forall n :: n in q ==> n in p + q;
  }

  /** Cutting a list into a block and the rest keeps what merging needs. */
  lemma CutBlock(g: Grid, out: seq<Node>, list: Node?, tail: Node?, rem: seq<Node>, k: nat)
    requires Output(out, list, tail) && Forward(rem) && ZStored(g, rem)
    requires Distinct(rem) && Apart(out, rem)
    ensures Merging(g, out, list, tail, Block(rem, k), Beyond(rem, k))
    ensures NodeSet(rem) == NodeSet(Block(rem, k)) + NodeSet(Beyond(rem, k))
  {
    var p, q := Block(rem, k), Beyond(rem, k);
    PartsApart(p, q);
    PartsForward(p, q);
    PartsStored(g, p, q);
  }

  lemma MergeNodes(g: Grid, p: seq<Node>, q: seq<Node>)
    ensures NodeSet(Merge(g, p, q)) == NodeSet(p) + NodeSet(q)
  {
    MergeElements(g, p, q);
    SameNodes(Merge(g, p, q), p + q);
  }

  lemma BeyondNodes(rest: seq<Node>, k: nat)
    ensures NodeSet(rest) == NodeSet(Block(rest, k)) + NodeSet(Beyond(rest, k))
  {
    assert rest == Block(rest, k) + Beyond(rest, k);
  }

  lemma PassFacts(g: Grid, s: seq<Node>, r: seq<Node>, k: nat)
    requires k > 0 && BlocksSorted(g, r, k) && Stable(g, s, r)
    ensures BlocksSorted(g, MergePass(g, r, k), 2 * k) && Stable(g, s, MergePass(g, r, k))
    ensures NodeSet(MergePass(g, r, k)) == NodeSet(r)
  {
    var m := MergePass(g, r, k);
    PassSorted(g, r, k);
    PassElements(g, r, k);
    forall c: nat
      ensures WithCode(g, s, c) == WithCode(g, m, c)
    {
      PassStable(g, r, k, c);
    }
    SameNodes(m, r);
  }

  /** What the pass loop knows between pairs of blocks. */
  ghost predicate Passing(g: Grid, out: seq<Node>, list: Node?, tail: Node?, rem: seq<Node>)
    reads out`nextZ, out`prevZ, rem`nextZ, rem`z
  {
    && Output(out, list, tail)
    && Forward(rem) && Distinct(rem) && ZStored(g, rem)
    && Apart(out, rem)
  }

  ghost function Pair(g: Grid, rem: seq<Node>, k: nat): (r: seq<Node>)
    ensures |r| == Least(2 * k, |rem|)
  {
    Merge(g, Block(rem, k), Block(Beyond(rem, k), k))
  }

  ghost function BeyondPair(rem: seq<Node>, k: nat): seq<Node> {
    Beyond(Beyond(rem, k), k)
  }

  lemma PairNodes(g: Grid, rem: seq<Node>, k: nat)
    ensures NodeSet(Pair(g, rem, k)) + NodeSet(BeyondPair(rem, k)) == NodeSet(rem)
  {
    BeyondNodes(rem, k);
    BeyondNodes(Beyond(rem, k), k);
    MergeNodes(g, Block(rem, k), Block(Beyond(rem, k), k));
  }

  /** Merges the next pair of blocks. */
  method MergePair(p: Node, k: nat, list: Node?, tail: Node?, ghost g: Grid, ghost out: seq<Node>, ghost rem: seq<Node>)
    returns (p': Node?, list': Node?, tail': Node?)
    requires k > 0 && rem != [] && p == rem[0] && Passing(g, out, list, tail, rem)
    modifies NodeSet(out)`nextZ, NodeSet(rem)`nextZ, NodeSet(rem)`prevZ
    ensures p' == Head(BeyondPair(rem, k))
    ensures Passing(g, out + Pair(g, rem, k), list', tail', BeyondPair(rem, k))
  {
    CutBlock(g, out, list, tail, rem, k);
    var pSize, q := CountOff(p, k, rem);
    p', list', tail' := MergeBlocks(p, q, pSize, k, list, tail, g, out, Block(rem, k), Beyond(rem, k));
  }

  lemma PassUnfold(g: Grid, out: seq<Node>, rem: seq<Node>, k: nat)
    requires k > 0 && rem != []
    ensures out + MergePass(g, rem, k) == (out + Pair(g, rem, k)) + MergePass(g, BeyondPair(rem, k), k)
    ensures |BeyondPair(rem, k)| < |rem|
  {
  }

  lemma AppendedNodes(s: seq<Node>, t: seq<Node>)
    ensures NodeSet(s + t) == NodeSet(s) + NodeSet(t)
  {
  }

  lemma PairMoves(g: Grid, out: seq<Node>, rem: seq<Node>, k: nat, all: set<Node>)
    requires NodeSet(out) + NodeSet(rem) == all
    ensures NodeSet(out + Pair(g, rem, k)) + NodeSet(BeyondPair(rem, k)) == all
  {
    PairNodes(g, rem, k);
    AppendedNodes(out, Pair(g, rem, k));
  }

  method Finish(head: Node?, tail: Node?, ghost out: seq<Node>) returns (list: Node)
    requires out != [] && Output(out, head, tail)
    modifies NodeSet(out)`nextZ
    ensures list == out[0] && ZLinks(out)
  {
    assert tail in NodeSet(out);
    tail.nextZ := null;
    list := head;
  }

  lemma LinksForward(r: seq<Node>)
    requires ZLinks(r)
    ensures Forward(r) && Distinct(r)
  {
  }

  /** One pass over the whole list. */
  method PassLinks(first: Node, k: nat, ghost g: Grid, ghost s: seq<Node>) returns (list: Node, numMerges: nat)
    requires k > 0 && s != [] && first == s[0] && Forward(s) && Distinct(s) && ZStored(g, s)
    modifies NodeSet(s)`nextZ, NodeSet(s)`prevZ
    ensures list == MergePass(g, s, k)[0] && ZLinks(MergePass(g, s, k))
    ensures numMerges <= 1 <==> |s| <= 2 * k
  {
    var p: Node?, head: Node?, tail: Node? := first, null, null;
    numMerges := 0;
    ghost var out, rem := [], s;
    ghost var all := NodeSet(s);
    while p != null
      invariant p == Head(rem) && Passing(g, out, head, tail, rem)
      invariant NodeSet(out) + NodeSet(rem) == all
      invariant out + MergePass(g, rem, k) == MergePass(g, s, k)
      invariant numMerges == 0 ==> |out| == 0
      invariant numMerges == 1 ==> |out| <= 2 * k && (rem != [] ==> |out| == 2 * k)
      invariant numMerges > 1 ==> |out| > 2 * k
      decreases |rem|
    {
      numMerges := numMerges + 1;
      PassUnfold(g, out, rem, k);
      PairMoves(g, out, rem, k, all);
      assert NodeSet(out) <= all && NodeSet(rem) <= all;
      p, head, tail := MergePair(p, k, head, tail, g, out, rem);
      out, rem := out + Pair(g, rem, k), BeyondPair(rem, k);
    }
    assert out == MergePass(g, s, k);
    list := Finish(head, tail, out);
  }

  lemma StoredSame(g: Grid, s: seq<Node>, t: seq<Node>)
    requires ZStored(g, s) && NodeSet(s) == NodeSet(t)
    ensures ZStored(g, t)
  {
    assert forall n :: n in t ==> n in NodeSet(t);
  }

  /** What sortLinked knows between passes: r rearranges s stably, in sorted blocks of k nodes. */
  ghost predicate Sorting(g: Grid, s: seq<Node>, r: seq<Node>, k: nat) {
    k > 0 && r != [] && |r| == |s| && BlocksSorted(g, r, k) && Stable(g, s, r)
  }

  lemma PassedList(g: Grid, s: seq<Node>, r: seq<Node>, k: nat) returns (r': seq<Node>)
    requires Sorting(g, s, r, k)
    ensures r' == MergePass(g, r, k)
    ensures Sorting(g, s, r', 2 * k) && NodeSet(r') == NodeSet(r)
  {
    r' := MergePass(g, r, k);
    PassFacts(g, s, r, k);
  }

  method SortPass(first: Node, k: nat, ghost g: Grid, ghost s: seq<Node>, ghost r: seq<Node>)
    returns (list: Node, numMerges: nat, ghost r': seq<Node>)
    requires Sorting(g, s, r, k) && first == r[0] && Forward(r) && Distinct(r) && ZStored(g, r)
    modifies NodeSet(r)`nextZ, NodeSet(r)`prevZ
    ensures Sorting(g, s, r', 2 * k) && list == r'[0] && ZLinks(r') && ZStored(g, r')
    ensures NodeSet(r') == NodeSet(r)
    ensures numMerges <= 1 <==> |r'| <= 2 * k
  {
    list, numMerges := PassLinks(first, k, g, r);
    assert ZStored(g, r);
    r' := PassedList(g, s, r, k);
    StoredSame(g, r, r');
  }

  /** sortLinked: doubles the block size until one pass merges a single pair of blocks. */
  method SortLinked(first: Node, ghost g: Grid, ghost s: seq<Node>) returns (list: Node, ghost r: seq<Node>)
    requires s != [] && first == s[0] && Forward(s) && Distinct(s) && ZStored(g, s)
    modifies NodeSet(s)`nextZ, NodeSet(s)`prevZ
    ensures ZLinks(r) && list == r[0]
    ensures ZSorted(g, r) && Stable(g, s, r)
  {
    list, r := first, s;
    var inSize: nat := 1;
    SingletonsSorted(g, s);
    ghost var all := NodeSet(s);
    while true
      invariant Sorting(g, s, r, inSize) && list == r[0]
      invariant Forward(r) && Distinct(r) && ZStored(g, r) && NodeSet(r) == all
      decreases |s| - inSize
    {
      var numMerges;
      list, numMerges, r := SortPass(list, inSize, g, s, r);
      LinksForward(r);
      if numMerges <= 1 {
        OneBlockSorted(g, r, 2 * inSize);
        return;
      }
      inSize := inSize * 2;
    }
  }
}
