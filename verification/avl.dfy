/** The route frequency index of tda/avl.py: a binary search tree over route signatures,
    ordered by Python's `<` on `str`, with AVL rotations driven by stored heights, and a
    `freqs` map that counts every insert. A new node is stored with height 0 (tda/avl.py:6),
    the same height an absent child is given (tda/avl.py:30), so the stored heights are not
    the true ones and the textbook AVL balance bound does not hold (see `ChainUnbalanced`).
    Nodes are never shared, so the tree is a value and `_insert` returns the new one. */
module AvlTrees {
  import opened Text

  datatype Tree = Leaf | Node(key: string, left: Tree, right: Tree, height: nat)

  /** `_height(n)`: the stored height, 0 for an absent node. */
  function Height(t: Tree): nat
  {
    if t.Node? then t.height else 0
  }

  /** `_get_balance(n)`: stored height of the left child less that of the right. */
  function Balance(t: Tree): int
  {
    if t.Node? then Height(t.left) - Height(t.right) else 0
  }

  function Max(a: nat, b: nat): nat
  {
    if a < b then b else a
  }

  /** A node whose height is recomputed from its children, `1 + max(...)`. */
  function Make(key: string, left: Tree, right: Tree): Tree
  {
    Node(key, left, right, 1 + Max(Height(left), Height(right)))
  }

  /** The keys met by an in-order walk. */
  function InOrderKeys(t: Tree): seq<string>
  {
    if t.Leaf? then [] else InOrderKeys(t.left) + [t.key] + InOrderKeys(t.right)
  }

  /** Strictly ascending under Python's `<` on `str`. */
  predicate Ascending(s: seq<string>)
  {
    forall i, j :: 0 <= i < j < |s| ==> Less(s[i], s[j])
  }

  /** The search tree order: the in-order walk is strictly ascending. */
  predicate Ordered(t: Tree)
  {
    Ascending(InOrderKeys(t))
  }

  /** Every stored height was recomputed from the children, except a node created as a
      leaf and never touched since, which keeps height 0. */
  predicate Stored(t: Tree)
  {
    t.Node? ==>
      && Stored(t.left) && Stored(t.right)
      && (t.height == 1 + Max(Height(t.left), Height(t.right)) || (t.left == Leaf && t.right == Leaf && t.height == 0))
  }

  /** The true height: the number of nodes on the longest downward path. */
  function Depth(t: Tree): nat
  {
    if t.Leaf? then 0 else 1 + Max(Depth(t.left), Depth(t.right))
  }

  // ---------------------------------------------------------------------------------
  // Rotations and rebalancing.

  /** `_left_rotate(x)`: the right child `y` becomes the root, `x` its left child, and
      `y`'s old left subtree `x`'s right one; `x` then `y` get recomputed heights. */
  function LeftRotate(x: Tree): (r: Tree)
    requires x.Node? && x.right.Node?
    ensures InOrderKeys(r) == InOrderKeys(x)
    ensures r.Node? && r.left.Node? && r.key == x.right.key && r.left.key == x.key
    ensures r.left.left == x.left && r.left.right == x.right.left && r.right == x.right.right
    ensures r.left.height == 1 + Max(Height(x.left), Height(x.right.left))
    ensures r.height == 1 + Max(Height(r.left), Height(x.right.right))
    ensures Stored(x.left) && Stored(x.right) ==> Stored(r)
  {
    var y := x.right;
    Make(y.key, Make(x.key, x.left, y.left), y.right)
  }

  /** `_right_rotate(y)`: the mirror image. */
  function RightRotate(y: Tree): (r: Tree)
    requires y.Node? && y.left.Node?
    ensures InOrderKeys(r) == InOrderKeys(y)
    ensures r.Node? && r.right.Node? && r.key == y.left.key && r.right.key == y.key
    ensures r.left == y.left.left && r.right.left == y.left.right && r.right.right == y.right
    ensures r.right.height == 1 + Max(Height(y.left.right), Height(y.right))
    ensures r.height == 1 + Max(Height(y.left.left), Height(r.right))
    ensures Stored(y.left) && Stored(y.right) ==> Stored(r)
  {
    var x := y.left;
    Make(x.key, x.left, Make(y.key, x.right, y.right))
  }

  /** `_rebalance(node)`: a stored balance above 1 rotates right (after rotating the left
      child left when it leans right); below -1 the mirror image; otherwise nothing. */
  function Rebalance(node: Tree): (r: Tree)
    requires node.Node?
    ensures InOrderKeys(r) == InOrderKeys(node) && r.Node?
    ensures -1 <= Balance(node) <= 1 ==> r == node
    ensures Balance(node) > 1 ==> r.key in InOrderKeys(node.left)
    ensures Balance(node) < -1 ==> r.key in InOrderKeys(node.right)
    ensures Stored(node.left) && Stored(node.right) && (-1 <= Balance(node) <= 1 ==> Stored(node)) ==> Stored(r)
  {
    var b := Balance(node);
    if b > 1 then
      var n := if Balance(node.left) < 0 then node.(left := LeftRotate(node.left)) else node;
      assert InOrderKeys(n) == InOrderKeys(node);
      RightRotate(n)
    else if b < -1 then
      var n := if Balance(node.right) > 0 then node.(right := RightRotate(node.right)) else node;
      assert InOrderKeys(n) == InOrderKeys(node);
      LeftRotate(n)
    else
      node
  }

  /** In a search tree the rotations happen exactly when the stored balance is above 1 or
      below -1: only then does the root change. */
  lemma RebalanceExactly(node: Tree)
    requires node.Node? && Ordered(node)
    ensures Rebalance(node) != node <==> (Balance(node) > 1 || Balance(node) < -1)
  {
    var ks := InOrderKeys(node);
    var l := |InOrderKeys(node.left)|;
    assert ks[l] == node.key;
    if Balance(node) > 1 {
      var i :| 0 <= i < l && InOrderKeys(node.left)[i] == Rebalance(node).key;
      assert ks[i] == Rebalance(node).key;
      LessIrreflexive(node.key);
    } else if Balance(node) < -1 {
      var i :| 0 <= i < |InOrderKeys(node.right)| && InOrderKeys(node.right)[i] == Rebalance(node).key;
      assert ks[l + 1 + i] == Rebalance(node).key;
      LessIrreflexive(node.key);
    }
  }

  // ---------------------------------------------------------------------------------
  // Insertion.

  /** `_insert(node, key)`: a new leaf where the search ends; an equal key changes
      nothing; on the way back every node gets a recomputed height and is rebalanced. */
  function InsertTree(t: Tree, k: string): (r: Tree)
    ensures r.Node?
    ensures Stored(t) ==> Stored(r)
    decreases t
  {
    match t
    case Leaf => Node(k, Leaf, Leaf, 0)
    case Node(key, l, r, h) =>
      if Less(k, key) then Rebalance(Make(key, InsertTree(l, k), r))
      else if Less(key, k) then Rebalance(Make(key, l, InsertTree(r, k)))
      else t
  }

  /** Joining two ascending sequences around a key between them. */
  lemma Around(a: seq<string>, x: string, b: seq<string>)
    requires Ascending(a) && Ascending(b)
    requires forall i :: 0 <= i < |a| ==> Less(a[i], x)
    requires forall i :: 0 <= i < |b| ==> Less(x, b[i])
    ensures Ascending(a + [x] + b)
  {
    var s := a + [x] + b;
    forall i, j | 0 <= i < j < |s|
      ensures Less(s[i], s[j])
    {
      if i < |a| && j > |a| {
        LessTransitive(s[i], x, s[j]);
      }
    }
  }

  /** The parts of a search tree are search trees, below and above its key. */
  lemma Parts(t: Tree)
    requires t.Node? && Ordered(t)
    ensures Ordered(t.left) && Ordered(t.right)
    ensures forall i :: 0 <= i < |InOrderKeys(t.left)| ==> Less(InOrderKeys(t.left)[i], t.key)
    ensures forall i :: 0 <= i < |InOrderKeys(t.right)| ==> Less(t.key, InOrderKeys(t.right)[i])
  {
    var a, b := InOrderKeys(t.left), InOrderKeys(t.right);
    var s := InOrderKeys(t);
    assert forall i :: 0 <= i < |a| ==> s[i] == a[i];
    assert forall i :: 0 <= i < |b| ==> s[|a| + 1 + i] == b[i];
    assert s[|a|] == t.key;
  }

  /** What inserting `k` into `t` gives: a search tree holding the old keys and `k`, with
      one node more exactly when `k` was absent. */
  ghost predicate Inserted(t: Tree, k: string)
  {
    && Ordered(InsertTree(t, k))
    && (forall x :: x in InOrderKeys(InsertTree(t, k)) <==> x in InOrderKeys(t) || x == k)
    && |InOrderKeys(InsertTree(t, k))| == |InOrderKeys(t)| + if k in InOrderKeys(t) then 0 else 1
  }

  /** Inserting into a search tree gives a search tree holding the old keys and `k`, with
      one node more exactly when `k` was absent. */
  lemma {:induction false} InsertOrdered(t: Tree, k: string)
    requires Ordered(t)
    ensures Inserted(t, k)
    decreases t
  {
    if t.Node? {
      Parts(t);
      if Less(k, t.key) {
        InsertOrdered(t.left, k);
        InsertBelow(t, k);
      } else if Less(t.key, k) {
        InsertOrdered(t.right, k);
        InsertAbove(t, k);
      } else {
        LessTotalEq(k, t.key);
      }
    }
  }

  /** The step of `InsertOrdered` that goes down the left subtree. */
  lemma InsertBelow(t: Tree, k: string)
    requires t.Node? && Ordered(t) && Less(k, t.key) && Inserted(t.left, k)
    ensures Inserted(t, k)
  {
    Parts(t);
    var a, b := InOrderKeys(t.left), InOrderKeys(t.right);
    var a' := InOrderKeys(InsertTree(t.left, k));
    forall i | 0 <= i < |a'|
      ensures Less(a'[i], t.key)
    {
      assert a'[i] in a';
    }
    Around(a', t.key, b);
    assert InOrderKeys(InsertTree(t, k)) == a' + [t.key] + b;
    LessIrreflexive(k);
    if k in b {
      var i :| 0 <= i < |b| && b[i] == k;
      LessAsymmetric(k, t.key);
      assert false;
    }
  }

  /** The step of `InsertOrdered` that goes down the right subtree. */
  lemma InsertAbove(t: Tree, k: string)
    requires t.Node? && Ordered(t) && Less(t.key, k) && Inserted(t.right, k)
    ensures Inserted(t, k)
  {
    Parts(t);
    LessAsymmetric(t.key, k);
    var a, b := InOrderKeys(t.left), InOrderKeys(t.right);
    var b' := InOrderKeys(InsertTree(t.right, k));
    forall i | 0 <= i < |b'|
      ensures Less(t.key, b'[i])
    {
      assert b'[i] in b';
    }
    Around(a, t.key, b');
    assert InOrderKeys(InsertTree(t, k)) == a + [t.key] + b';
    LessIrreflexive(k);
    if k in a {
      assert false;
    }
  }

  /** Two strings neither below the other are equal. */
  lemma LessTotalEq(a: string, b: string)
    requires !Less(a, b) && !Less(b, a)
    ensures a == b
  {
    if a != b {
      LessTotal(a, b);
    }
  }

  /** Inserting 3, 2 and 1 leaves a chain: each new leaf has stored height 0, so no stored
      balance leaves [-1, 1] and nothing rotates. */
  lemma ChainOf321()
    ensures InsertTree(InsertTree(InsertTree(Leaf, "3"), "2"), "1")
         == Node("3", Node("2", Node("1", Leaf, Leaf, 0), Leaf, 1), Leaf, 2)
  {
    var one := Node("1", Leaf, Leaf, 0);
    var two := Node("2", Leaf, Leaf, 0);
    var three := Node("3", Leaf, Leaf, 0);
    assert Less("2", "3");
    assert InsertTree(three, "2") == Rebalance(Make("3", two, Leaf));
    var t2 := Node("3", two, Leaf, 1);
    assert Less("1", "3");
    assert Less("1", "2");
    assert InsertTree(two, "1") == Rebalance(Make("2", one, Leaf));
    assert InsertTree(t2, "1") == Rebalance(Make("3", Node("2", one, Leaf, 1), Leaf));
  }

  /** The tree `ChainOf321` builds is out of balance: the true heights of the root's
      children differ by 2. */
  lemma ChainUnbalanced()
    ensures var t := InsertTree(InsertTree(InsertTree(Leaf, "3"), "2"), "1");
      t.Node? && Depth(t.left) - Depth(t.right) == 2
  {
    ChainOf321();
    var one := Node("1", Leaf, Leaf, 0);
    assert Depth(one) == 1;
  }

  // ---------------------------------------------------------------------------------
  // The index object.

  /** `freqs.get(key, 0)`. */
  function Get(freqs: map<string, nat>, key: string): nat
  {
    if key in freqs then freqs[key] else 0
  }

  /** The number of times `k` occurs in `s`. */
  function Count(s: seq<string>, k: string): nat
  {
    if s == [] then 0 else Count(s[..|s| - 1], k) + if s[|s| - 1] == k then 1 else 0
  }

  /** `in_order()` on a tree: each key in walk order, paired with `freqs.get(key, 0)`. */
  function InOrder(t: Tree, freqs: map<string, nat>): (r: seq<(string, nat)>)
    ensures |r| == |InOrderKeys(t)|
    ensures forall i :: 0 <= i < |r| ==> r[i] == (InOrderKeys(t)[i], Get(freqs, InOrderKeys(t)[i]))
  {
    if t.Leaf? then [] else InOrder(t.left, freqs) + [(t.key, Get(freqs, t.key))] + InOrder(t.right, freqs)
  }

  /** The keys of a list of `(key, frequency)` pairs. */
  function Keys(entries: seq<(string, nat)>): (ks: seq<string>)
    ensures |ks| == |entries| && forall i :: 0 <= i < |entries| ==> ks[i] == entries[i].0
  {
    seq(|entries|, i requires 0 <= i < |entries| => entries[i].0)
  }

  /** `AVL`: the root and the insert counts. `inserted` is the history of inserted keys,
      which the model keeps to state what the counts mean. */
  class Avl {
    var root: Tree
    var freqs: map<string, nat>
    ghost var inserted: seq<string>

    /** The tree is a search tree whose keys are the distinct inserted keys, its stored
        heights follow `Stored`, and `freqs` counts the inserts of each key. */
    ghost predicate Valid()
      reads this
    {
      && Ordered(root) && Stored(root)
      && (forall k :: k in InOrderKeys(root) <==> k in inserted)
      && (forall k :: Get(freqs, k) == Count(inserted, k))
    }

    constructor()
      ensures Valid() && root == Leaf && freqs == map[] && inserted == []
    {
      root := Leaf;
      freqs := map[];
      inserted := [];
    }

    /** `insert(key)`: insert into the tree, then raise `freqs[key]` by one, whether or
        not the key was already there. */
    method Insert(key: string)
      modifies this
      requires Valid()
      ensures Valid()
      ensures root == InsertTree(old(root), key) && inserted == old(inserted) + [key]
      ensures freqs == old(freqs)[key := Get(old(freqs), key) + 1]
      ensures |InOrderKeys(root)| == |InOrderKeys(old(root))| + if key in old(inserted) then 0 else 1
    {
      InsertOrdered(root, key);
      if InsertTree(root, key) == root {
      }
      root := InsertTree(root, key);
      freqs := freqs[key := Get(freqs, key) + 1];
      inserted := inserted + [key];
      assert inserted[..|inserted| - 1] == old(inserted);
    }

    /** `get_freq(key)`: the number of inserts of `key`, 0 when there were none. */
    function GetFreq(key: string): (n: nat)
      reads this
      requires Valid()
      ensures n == Count(inserted, key)
      ensures key !in inserted ==> n == 0
    {
      CountAbsent(inserted, key);
      Get(freqs, key)
    }

    /** `in_order()`: one pair per distinct inserted key, in strictly ascending key order,
        each with the number of inserts of its key. */
    function InOrderList(): (r: seq<(string, nat)>)
      reads this
      requires Valid()
      ensures Ascending(Keys(r))
      ensures forall k :: k in inserted <==> exists i :: 0 <= i < |r| && r[i].0 == k
      ensures forall i :: 0 <= i < |r| ==> r[i].1 == Count(inserted, r[i].0)
    {
      var r := InOrder(root, freqs);
      assert Keys(r) == InOrderKeys(root);
      r
    }
  }

  /** The count of a key after one more insert. */
  lemma CountSnoc(s: seq<string>, x: string, k: string)
    ensures Count(s + [x], k) == Count(s, k) + if x == k then 1 else 0
  {
    assert (s + [x])[..|s|] == s;
  }

  /** A key never inserted has count 0. */
  lemma {:induction false} CountAbsent(s: seq<string>, k: string)
    ensures k !in s ==> Count(s, k) == 0
    decreases |s|
  {
    if s != [] {
      CountAbsent(s[..|s| - 1], k);
    }
  }
}
