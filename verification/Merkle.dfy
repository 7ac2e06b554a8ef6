/** The parent block's Merkle tree: the branch sent to miners, and the root of
    the block that is submitted. */
module Merkle {
  import opened Basics
  import opened ByteOrder

  /** A node is a 256-bit number, hashed as its 32 bytes, lowest first. */
  const NODE := 32

  function Ser(node: nat): Bytes { LittleEndian(node, NODE) }

  /** The double SHA-256, which this model leaves open but for its length. */
  ghost predicate Digest(hash: Bytes -> Bytes) {
    forall data :: |hash(data)| == NODE
  }

  function Parent(hash: Bytes -> Bytes, left: nat, right: nat): nat {
    FromLittleEndian(hash(Ser(left) + Ser(right)))
  }

  /** The level above; a node without a sibling is its own. */
  function NextLevel(hash: Bytes -> Bytes, nodes: seq<nat>): (next: seq<nat>)
    ensures |next| == (|nodes| + 1) / 2
  {
    seq((|nodes| + 1) / 2, i requires 0 <= i < (|nodes| + 1) / 2 =>
      Parent(hash, nodes[2 * i], if 2 * i + 1 < |nodes| then nodes[2 * i + 1] else nodes[2 * i]))
  }

  /** The duplicate-last Merkle root. */
  function Root(hash: Bytes -> Bytes, nodes: seq<nat>): nat
    requires nodes != []
    decreases |nodes|
  {
    if |nodes| == 1 then nodes[0] else Root(hash, NextLevel(hash, nodes))
  }

  /** The siblings on the way up from the first leaf. */
  function Branch(hash: Bytes -> Bytes, nodes: seq<nat>): seq<nat>
    decreases |nodes|
  {
    if |nodes| <= 1 then [] else [nodes[1]] + Branch(hash, NextLevel(hash, nodes))
  }

  function Fold(hash: Bytes -> Bytes, merkle: Bytes, branch: seq<nat>, n: nat): Bytes
    requires n <= |branch|
  {
    if n == 0 then merkle else hash(Fold(hash, merkle, branch, n - 1) + Ser(branch[n - 1]))
  }

  function Sibling(index: nat): nat { if index % 2 == 0 then index + 1 else index - 1 }

  method NextNodes(hash: Bytes -> Bytes, nodes: seq<nat>) returns (next: seq<nat>)
    ensures next == NextLevel(hash, nodes)
  {
    next := [];
    var offset := 0;
    while offset < |nodes|
      invariant offset == 2 * |next| && |next| <= (|nodes| + 1) / 2
      invariant next == NextLevel(hash, nodes)[..|next|]
    {
      var left := nodes[offset];
      var right := if offset + 1 < |nodes| then nodes[offset + 1] else nodes[offset];
      next := next + [Parent(hash, left, right)];
      offset := offset + 2;
    }
  }

  method BuildBranch(hash: Bytes -> Bytes, txids: seq<nat>) returns (branch: seq<nat>)
    ensures branch == Branch(hash, txids)
  {
    var nodes := txids;
    var index := 0;
    branch := [];
    while |nodes| > 1
      invariant index == 0
      invariant Branch(hash, txids) == branch + Branch(hash, nodes)
      decreases |nodes|
    {
      var sibling := Sibling(index);
      if sibling >= |nodes| {
        sibling := index;
      }
      branch := branch + [nodes[sibling]];
      nodes := NextNodes(hash, nodes);
      index := index / 2;
    }
  }

  method CoinbaseRoot(hash: Bytes -> Bytes, coinbase: Bytes, branch: seq<nat>) returns (merkle: Bytes)
    ensures merkle == Fold(hash, hash(coinbase), branch, |branch|)
  {
    merkle := hash(coinbase);
    for n := 0 to |branch|
      invariant merkle == Fold(hash, hash(coinbase), branch, n)
    {
      merkle := hash(merkle + Ser(branch[n]));
    }
  }

  // ----- The branch proves the root, whatever the coinbase

  lemma {:induction false} FoldFirst(hash: Bytes -> Bytes, merkle: Bytes, first: nat, rest: seq<nat>, n: nat)
    requires n <= |rest|
    ensures Fold(hash, merkle, [first] + rest, n + 1) == Fold(hash, hash(merkle + Ser(first)), rest, n)
    decreases n
  {
    if n == 0 {
      assert Fold(hash, merkle, [first] + rest, 0) == merkle;
    } else {
      FoldFirst(hash, merkle, first, rest, n - 1);
    }
  }

  lemma NextLevelReplaced(hash: Bytes -> Bytes, nodes: seq<nat>, leaf: nat)
    requires |nodes| > 1
    ensures NextLevel(hash, nodes[0 := leaf]) == NextLevel(hash, nodes)[0 := Parent(hash, leaf, nodes[1])]
  {
    var a, b := NextLevel(hash, nodes[0 := leaf]), NextLevel(hash, nodes)[0 := Parent(hash, leaf, nodes[1])];
    forall i | 0 <= i < |a| ensures a[i] == b[i] {
      if i > 0 {
        assert nodes[0 := leaf][2 * i] == nodes[2 * i];
      }
    }
  }

  /** One level: the root is the root of the level above, where `parent`,
      what the first two nodes hash to, comes first. */
  lemma BranchStep(hash: Bytes -> Bytes, nodes: seq<nat>, x: nat, parent: nat)
    requires |nodes| > 1 && parent == Parent(hash, x, nodes[1])
    ensures Root(hash, nodes[0 := x]) == Root(hash, NextLevel(hash, nodes)[0 := parent])
  {
    NextLevelReplaced(hash, nodes, x);
  }

  lemma FoldStep(hash: Bytes -> Bytes, nodes: seq<nat>, leaf: Bytes)
    requires |nodes| > 1
    ensures var branch, up := Branch(hash, nodes), Branch(hash, NextLevel(hash, nodes));
            Fold(hash, leaf, branch, |branch|) == Fold(hash, hash(leaf + Ser(nodes[1])), up, |up|)
  {
    var up := Branch(hash, NextLevel(hash, nodes));
    FoldFirst(hash, leaf, nodes[1], up, |up|);
  }

  lemma SerBytes(leaf: Bytes)
    requires |leaf| == NODE
    ensures Ser(FromLittleEndian(leaf)) == leaf
  {
    BytesAsNumber(leaf);
  }

  /** Folding the branch from any first leaf gives the root with that leaf. */
  lemma {:induction false} BranchProvesRoot(hash: Bytes -> Bytes, nodes: seq<nat>, leaf: Bytes)
    requires Digest(hash) && nodes != [] && |leaf| == NODE
    ensures var branch := Branch(hash, nodes);
            Fold(hash, leaf, branch, |branch|) == Ser(Root(hash, nodes[0 := FromLittleEndian(leaf)]))
    decreases |nodes|
  {
    SerBytes(leaf);
    if |nodes| > 1 {
      var x, parent := FromLittleEndian(leaf), hash(leaf + Ser(nodes[1]));
      BranchProvesRoot(hash, NextLevel(hash, nodes), parent);
      FoldStep(hash, nodes, leaf);
      BranchStep(hash, nodes, x, FromLittleEndian(parent));
    }
  }

  // ----- The block that is submitted

  function Txid(hash: Bytes -> Bytes, tx: Bytes): nat { FromLittleEndian(hash(tx)) }

  function Txids(hash: Bytes -> Bytes, txs: seq<Bytes>): (ids: seq<nat>)
    ensures |ids| == |txs|
  {
    seq(|txs|, i requires 0 <= i < |txs| => Txid(hash, txs[i]))
  }

  /** The block built from a template: its header's root, as 32 bytes, and its
      transactions, the coinbase first. */
  datatype ParentBlock = ParentBlock(root: Bytes, txs: seq<Bytes>)

  /** The header commits to the transactions the block holds. */
  ghost predicate Commits(hash: Bytes -> Bytes, block: ParentBlock) {
    block.txs != [] && block.root == Ser(Root(hash, Txids(hash, block.txs)))
  }

  /** A submission: the template's block with the miner's coinbase swapped in
      and the header the miner hashed. */
  function Submission(template: seq<Bytes>, coinbase: Bytes, headerRoot: Bytes): ParentBlock
    requires template != []
  {
    ParentBlock(headerRoot, template[0 := coinbase])
  }

  /** With the root folded from that coinbase along the job's branch, the
      submitted block commits to its own transactions. */
  lemma SubmissionCommits(hash: Bytes -> Bytes, template: seq<Bytes>, coinbase: Bytes)
    requires Digest(hash) && template != []
    ensures var branch := Branch(hash, Txids(hash, template));
            Commits(hash, Submission(template, coinbase, Fold(hash, hash(coinbase), branch, |branch|)))
  {
    var ids := Txids(hash, template);
    BranchProvesRoot(hash, ids, hash(coinbase));
    assert Txids(hash, template[0 := coinbase]) == ids[0 := Txid(hash, coinbase)];
  }

  /** The branch does not depend on the coinbase it was built with. */
  lemma {:induction false} BranchIgnoresCoinbase(hash: Bytes -> Bytes, nodes: seq<nat>, leaf: nat)
    requires nodes != []
    ensures Branch(hash, nodes[0 := leaf]) == Branch(hash, nodes)
    decreases |nodes|
  {
    if |nodes| > 1 {
      NextLevelReplaced(hash, nodes, leaf);
      BranchIgnoresCoinbase(hash, NextLevel(hash, nodes), Parent(hash, leaf, nodes[1]));
    }
  }

  // ----- The coinbase a miner rolls

  datatype Split = Split(coinb1: Bytes, coinb2: Bytes) | Unsplittable

  predicate OccursAt(data: Bytes, marker: Bytes, i: nat) {
    i + |marker| <= |data| && data[i..i + |marker|] == marker
  }

  /** Where `marker` first occurs at or after `from`; past the end if nowhere. */
  function Find(data: Bytes, marker: Bytes, from: nat): (i: nat)
    requires from <= |data| + 1
    ensures from <= i <= |data| + 1
    ensures i <= |data| ==> OccursAt(data, marker, i)
    ensures forall k :: from <= k < i ==> !OccursAt(data, marker, k)
    decreases |data| + 1 - from
  {
    if from > |data| || OccursAt(data, marker, from) then from else Find(data, marker, from + 1)
  }

  /** The coinbase on either side of its one placeholder. */
  function SplitCoinbase(coinbase: Bytes, placeholder: Bytes): Split {
    var at := Find(coinbase, placeholder, 0);
    if at > |coinbase| || Find(coinbase, placeholder, at + 1) <= |coinbase| then Unsplittable
    else Split(coinbase[..at], coinbase[at + |placeholder|..])
  }

  /** A coinbase splits exactly when its placeholder occurs once. */
  lemma SplitsExactlyOnce(coinbase: Bytes, placeholder: Bytes)
    ensures SplitCoinbase(coinbase, placeholder).Split? <==>
            exists at: nat :: OccursAt(coinbase, placeholder, at) && OnlyAt(coinbase, placeholder, at)
  {
    var at := Find(coinbase, placeholder, 0);
    if at <= |coinbase| {
      var second := Find(coinbase, placeholder, at + 1);
      if second <= |coinbase| {
        assert OccursAt(coinbase, placeholder, at) && OccursAt(coinbase, placeholder, second);
      } else {
        assert OnlyAt(coinbase, placeholder, at);
      }
    }
  }

  ghost predicate OnlyAt(data: Bytes, marker: Bytes, at: nat) {
    forall k: nat :: OccursAt(data, marker, k) ==> k == at
  }

  /** An extranonce of the placeholder's length changes that place only. */
  lemma SplitRollsPlaceholder(coinbase: Bytes, placeholder: Bytes, extranonce: Bytes)
    requires |extranonce| == |placeholder| && SplitCoinbase(coinbase, placeholder).Split?
    ensures var s := SplitCoinbase(coinbase, placeholder);
            var rolled := s.coinb1 + (extranonce + s.coinb2);
            && |rolled| == |coinbase|
            && s.coinb1 + (placeholder + s.coinb2) == coinbase
            && rolled[|s.coinb1|..|s.coinb1| + |extranonce|] == extranonce
            && rolled[..|s.coinb1|] == coinbase[..|s.coinb1|]
            && rolled[|s.coinb1| + |extranonce|..] == coinbase[|s.coinb1| + |placeholder|..]
  {
    var at := Find(coinbase, placeholder, 0);
    assert coinbase == coinbase[..at] + (coinbase[at..at + |placeholder|] + coinbase[at + |placeholder|..]);
  }
}
