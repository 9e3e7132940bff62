/** Merkle roots, and what equal roots mean. */
module Merkle {
  import opened Types
  import opened Text

  /** The two children of node `j` one level up: neighbours, or an odd last leaf twice. */
  function PairText(leaves: seq<string>, j: nat): string
    requires 2 * j < |leaves|
  {
    leaves[2 * j] + "|" + leaves[Min(2 * j + 1, |leaves| - 1)]
  }

  /** The first `n` nodes one level up. */
  function Nodes(h: HashFn, leaves: seq<string>, n: nat): (next: seq<string>)
    requires 2 * n <= |leaves| + 1
    ensures |next| == n
  {
    if n == 0 then [] else Nodes(h, leaves, n - 1) + [h(PairText(leaves, n - 1))]
  }

  function Level(h: HashFn, leaves: seq<string>): (next: seq<string>)
    ensures |next| == (|leaves| + 1) / 2
  {
    Nodes(h, leaves, (|leaves| + 1) / 2)
  }

  function Root(h: HashFn, leaves: seq<string>): string
    decreases |leaves|
  {
    if |leaves| == 0 then h("merkle-empty")
    else if |leaves| == 1 then leaves[0]
    else Root(h, Level(h, leaves))
  }

  /** `compute_merkle_root`, and `preview_merkle_root` of the service, which has the same body. */
  method ComputeMerkleRoot(h: HashFn, input: seq<string>) returns (root: string)
    ensures root == Root(h, input)
  {
    var leaves := input;
    if leaves == [] {
      return h("merkle-empty");
    }
    while |leaves| > 1
      invariant leaves != [] && Root(h, leaves) == Root(h, input)
      decreases |leaves|
    {
      if |leaves| % 2 != 0 {
        EvenLevel(h, leaves);
        leaves := leaves + [leaves[|leaves| - 1]];
      }
      leaves := PairUp(h, leaves);
    }
    root := leaves[0];
  }

  method PairUp(h: HashFn, leaves: seq<string>) returns (next: seq<string>)
    requires |leaves| % 2 == 0
    ensures next == Level(h, leaves)
  {
    next := [];
    var i := 0;
    while i < |leaves|
      invariant i <= |leaves| && i == 2 * |next|
      invariant next == Nodes(h, leaves, |next|)
    {
      next := next + [h(leaves[i] + "|" + leaves[i + 1])];
      i := i + 2;
    }
  }

  lemma {:induction false} NodesAgree(h: HashFn, a: seq<string>, b: seq<string>, n: nat)
    requires 2 * n <= |a| + 1 && 2 * n <= |b| + 1
    requires forall j | 0 <= j < n :: PairText(a, j) == PairText(b, j)
    ensures Nodes(h, a, n) == Nodes(h, b, n)
  {
    if n > 0 {
      NodesAgree(h, a, b, n - 1);
    }
  }

  lemma EvenLevel(h: HashFn, leaves: seq<string>)
    requires |leaves| % 2 == 1
    ensures Level(h, leaves + [leaves[|leaves| - 1]]) == Level(h, leaves)
  {
    NodesAgree(h, leaves + [leaves[|leaves| - 1]], leaves, (|leaves| + 1) / 2);
  }

  lemma {:induction false} NodeAt(h: HashFn, leaves: seq<string>, n: nat, j: nat)
    requires 2 * n <= |leaves| + 1 && j < n
    ensures Nodes(h, leaves, n)[j] == h(PairText(leaves, j))
  {
    if j < n - 1 {
      NodeAt(h, leaves, n - 1, j);
    }
  }

  // ----- binding

  /** The texts one level hashes. */
  ghost function LevelTexts(leaves: seq<string>): set<string> {
    set j | 0 <= j < (|leaves| + 1) / 2 :: PairText(leaves, j)
  }

  /** All texts hashed on the way to the root. */
  ghost function HashedTexts(h: HashFn, leaves: seq<string>): set<string>
    decreases |leaves|
  {
    if |leaves| <= 1 then {} else LevelTexts(leaves) + HashedTexts(h, Level(h, leaves))
  }

  /** No collision among these texts. */
  ghost predicate InjectiveOn(h: HashFn, texts: set<string>) {
    forall x, y | x in texts && y in texts && h(x) == h(y) :: x == y
  }

  /** Every leaf has `width` characters, none of them the separator. */
  predicate FixedWidth(leaves: seq<string>, width: nat) {
    forall x | x in leaves :: |x| == width && Lacks(x, '|')
  }

  /** The digest function yields texts of that width without the separator. */
  ghost predicate DigestWidth(h: HashFn, width: nat) {
    forall s :: |h(s)| == width && Lacks(h(s), '|')
  }

  lemma LevelWidth(h: HashFn, leaves: seq<string>, width: nat)
    requires DigestWidth(h, width)
    ensures FixedWidth(Level(h, leaves), width)
  {
    var n := (|leaves| + 1) / 2;
    forall j | 0 <= j < n ensures |Level(h, leaves)[j]| == width && Lacks(Level(h, leaves)[j], '|') {
      NodeAt(h, leaves, n, j);
    }
  }

  /** One level up loses nothing. */
  lemma LevelBinds(h: HashFn, a: seq<string>, b: seq<string>, width: nat)
    requires |a| == |b| && FixedWidth(a, width) && FixedWidth(b, width)
    requires InjectiveOn(h, LevelTexts(a) + LevelTexts(b))
    requires Level(h, a) == Level(h, b)
    ensures a == b
  {
    forall i | 0 <= i < |a| ensures a[i] == b[i] {
      var j := i / 2;
      NodeAt(h, a, (|a| + 1) / 2, j);
      NodeAt(h, b, (|a| + 1) / 2, j);
      assert PairText(a, j) in LevelTexts(a) && PairText(b, j) in LevelTexts(b);
      PairBinds(a, b, width, j);
      assert i == 2 * j || i == Min(2 * j + 1, |a| - 1);
    }
  }

  lemma PairBinds(a: seq<string>, b: seq<string>, width: nat, j: nat)
    requires |a| == |b| && 2 * j < |a| && FixedWidth(a, width) && FixedWidth(b, width)
    requires PairText(a, j) == PairText(b, j)
    ensures a[2 * j] == b[2 * j] && a[Min(2 * j + 1, |a| - 1)] == b[Min(2 * j + 1, |a| - 1)]
  {
    var right := Min(2 * j + 1, |a| - 1);
    assert a[2 * j] in a && b[2 * j] in b;
    HeadUnique(a[2 * j], a[right], b[2 * j], b[right], '|');
  }

  /**
   * Equal roots over equally many digests mean equal leaf lists, unless two different texts hashed on the way
   * collide.
   */
  lemma {:induction false} RootBinds(h: HashFn, a: seq<string>, b: seq<string>, width: nat)
    requires |a| == |b| && FixedWidth(a, width) && FixedWidth(b, width) && DigestWidth(h, width)
    requires InjectiveOn(h, HashedTexts(h, a) + HashedTexts(h, b))
    requires Root(h, a) == Root(h, b)
    ensures a == b
    decreases |a|
  {
    if |a| > 1 {
      LevelWidth(h, a, width);
      LevelWidth(h, b, width);
      RootBinds(h, Level(h, a), Level(h, b), width);
      LevelBinds(h, a, b, width);
    }
  }

  /** Equal length is essential: an odd list and the list with its last leaf doubled have one root. */
  lemma DoubledLeafSameRoot(h: HashFn, leaves: seq<string>)
    requires |leaves| % 2 == 1 && |leaves| > 1
    ensures Root(h, leaves + [leaves[|leaves| - 1]]) == Root(h, leaves)
  {
    EvenLevel(h, leaves);
  }
}
