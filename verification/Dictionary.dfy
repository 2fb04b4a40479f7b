// The dictionary of src/lib/tdictionary.c: an unbalanced search tree of nodes that know their
// parents, changed in place, and an iterator that climbs along the parents. A ghost shape says
// which nodes make up a tree.

module Dictionary {
  import opened Common
  import opened DictionaryModel
  import opened StringOrder

  class Node {
    var left: Node?
    var right: Node?
    var parent: Node?
    const key: string
    const value: nat

    // node_new
    constructor (parent: Node?, key: string, value: nat)
      ensures this.parent == parent && this.key == key && this.value == value && left == null && right == null
    {
      this.parent, this.key, this.value := parent, key, value;
      left, right := null, null;
    }
  }

  datatype Shape = Nil | Bin(l: Shape, node: Node, r: Shape)

  ghost function NodesOf(t: Shape): set<Node> {
    if t == Nil then {} else NodesOf(t.l) + {t.node} + NodesOf(t.r)
  }

  ghost function InOrder(t: Shape): (s: seq<Node>)
    ensures forall n :: n in s ==> n in NodesOf(t)
    ensures forall n :: n in NodesOf(t) ==> n in s
  {
    if t == Nil then [] else InOrder(t.l) + [t.node] + InOrder(t.r)
  }

  ghost function PairsOf(s: seq<Node>): (ps: seq<Pair<nat>>)
    ensures |ps| == |s| && forall i :: 0 <= i < |s| ==> ps[i] == Pair(s[i].key, s[i].value)
  {
    seq(|s|, i requires 0 <= i < |s| => Pair(s[i].key, s[i].value))
  }

  ghost function Pairs(t: Shape): seq<Pair<nat>> { PairsOf(InOrder(t)) }

  // The pointers of the nodes are those of the shape, below the given parent.
  ghost predicate Linked(t: Shape, parent: Node?, root: Node?)
    reads NodesOf(t)
  {
    if t == Nil then root == null
    else
      && root == t.node && t.node.parent == parent
      && t.node !in NodesOf(t.l) && t.node !in NodesOf(t.r) && NodesOf(t.l) !! NodesOf(t.r)
      && Linked(t.l, t.node, t.node.left) && Linked(t.r, t.node, t.node.right)
  }

  // Keys are smaller to the left and larger to the right.
  ghost predicate Ordered(t: Shape) {
    t == Nil ||
    (&& Ordered(t.l) && Ordered(t.r)
     && (forall n :: n in NodesOf(t.l) ==> Before(n.key, t.node.key))
     && (forall n :: n in NodesOf(t.r) ==> Before(t.node.key, n.key)))
  }

  ghost predicate HasNode(t: Shape, key: string) { exists n :: n in NodesOf(t) && n.key == key }

  lemma HasNodeIsHasKey(t: Shape, key: string)
    ensures HasNode(t, key) <==> HasKey(Pairs(t), key)
  {
    if HasNode(t, key) {
      var n :| n in NodesOf(t) && n.key == key;
      var i :| 0 <= i < |InOrder(t)| && InOrder(t)[i] == n;
      assert Pairs(t)[i].key == key;
    }
    if HasKey(Pairs(t), key) {
      var i :| 0 <= i < |Pairs(t)| && Pairs(t)[i].key == key;
      assert InOrder(t)[i] in InOrder(t);
    }
  }

  lemma {:induction false} OrderedAscends(t: Shape)
    requires Ordered(t)
    ensures Ascending(Pairs(t))
  {
    if t != Nil {
      var a, b := InOrder(t.l), InOrder(t.r);
      OrderedAscends(t.l);
      OrderedAscends(t.r);
      forall i | 0 <= i < |a| ensures Before(a[i].key, t.node.key) { assert a[i] in NodesOf(t.l); }
      forall i | 0 <= i < |b| ensures Before(t.node.key, b[i].key) { assert b[i] in NodesOf(t.r); }
      AscendingAround(Pairs(t.l), Pair(t.node.key, t.node.value), Pairs(t.r));
      PairsOfBin(t.l, t.node, t.r);
    }
  }

  // Which side of a tree a key is on.
  lemma KeySide(t: Shape, key: string)
    requires t != Nil && Ordered(t)
    ensures Before(key, t.node.key) ==> (HasNode(t, key) <==> HasNode(t.l, key))
    ensures Before(t.node.key, key) ==> (HasNode(t, key) <==> HasNode(t.r, key))
    ensures !(Before(key, t.node.key) && Before(t.node.key, key))
  {
    BeforeIsStrict(key);
    if Before(key, t.node.key) && Before(t.node.key, key) { BeforeIsTransitive(key, t.node.key, key); }
    forall n | n in NodesOf(t.l) && n.key == key ensures Before(key, t.node.key) {}
    forall n | n in NodesOf(t.r) && n.key == key ensures Before(t.node.key, key) {}
  }

  // ---------------------------------------------------------------- insert

  lemma PairsOfBin(l: Shape, n: Node, r: Shape)
    ensures Pairs(Bin(l, n, r)) == Pairs(l) + [Pair(n.key, n.value)] + Pairs(r)
  {
  }

  lemma InsertedLeft(t: Shape, p: Pair<nat>)
    requires t != Nil && Before(p.key, t.node.key)
    ensures Inserted(Pairs(t), p) == Inserted(Pairs(t.l), p) + [Pair(t.node.key, t.node.value)] + Pairs(t.r)
  {
    PairsOfBin(t.l, t.node, t.r);
    InsertedFront(Pairs(t.l), Pair(t.node.key, t.node.value), Pairs(t.r), p);
  }

  lemma InsertedRight(t: Shape, p: Pair<nat>)
    requires t != Nil && Ordered(t) && Before(t.node.key, p.key)
    ensures Inserted(Pairs(t), p) == Pairs(t.l) + [Pair(t.node.key, t.node.value)] + Inserted(Pairs(t.r), p)
  {
    var a := Pairs(t.l) + [Pair(t.node.key, t.node.value)];
    PairsOfBin(t.l, t.node, t.r);
    KeySide(t, p.key);
    forall i | 0 <= i < |a| ensures !Before(p.key, a[i].key) {
      if i < |InOrder(t.l)| && Before(p.key, a[i].key) {
        assert InOrder(t.l)[i] in NodesOf(t.l);
        BeforeIsTransitive(p.key, a[i].key, t.node.key);
      }
    }
    InsertedBack(a, Pairs(t.r), p);
  }

  // Following the path of a key from the root down: whether it ends at a node with the key,
  // and the shape with a new node where it ends otherwise.
  ghost predicate Found(t: Shape, key: string) {
    t != Nil && (key == t.node.key || if Before(key, t.node.key) then Found(t.l, key) else Found(t.r, key))
  }

  ghost function Grow(t: Shape, m: Node): Shape {
    if t == Nil then Bin(Nil, m, Nil)
    else if Before(m.key, t.node.key) then Bin(Grow(t.l, m), t.node, t.r)
    else Bin(t.l, t.node, Grow(t.r, m))
  }

  lemma {:induction false} GrowAdds(t: Shape, m: Node)
    ensures NodesOf(Grow(t, m)) == NodesOf(t) + {m}
  {
    if t != Nil {
      GrowAdds(t.l, m);
      GrowAdds(t.r, m);
    }
  }

  lemma {:induction false} FoundIff(t: Shape, key: string)
    requires Ordered(t)
    ensures Found(t, key) <==> HasKey(Pairs(t), key)
  {
    HasNodeIsHasKey(t, key);
    if t != Nil {
      FoundIff(t.l, key);
      FoundIff(t.r, key);
      HasNodeIsHasKey(t.l, key);
      HasNodeIsHasKey(t.r, key);
      KeySide(t, key);
      BeforeIsTotal(key, t.node.key);
    }
  }

  // A new node keeps the order of the tree, and comes in front of the first larger key.
  lemma {:induction false} GrowInserts(t: Shape, m: Node)
    requires Ordered(t) && !Found(t, m.key)
    ensures Ordered(Grow(t, m)) && Pairs(Grow(t, m)) == Inserted(Pairs(t), Pair(m.key, m.value))
  {
    if t != Nil {
      BeforeIsTotal(m.key, t.node.key);
      if Before(m.key, t.node.key) {
        GrowInserts(t.l, m);
        GrowAdds(t.l, m);
        InsertedLeft(t, Pair(m.key, m.value));
        PairsOfBin(Grow(t.l, m), t.node, t.r);
      } else {
        GrowInserts(t.r, m);
        GrowAdds(t.r, m);
        InsertedRight(t, Pair(m.key, m.value));
        PairsOfBin(t.l, t.node, Grow(t.r, m));
      }
    }
  }

  lemma {:induction false} NodesAllocated(t: Shape)
    ensures forall n :: n in NodesOf(t) ==> allocated(n)
  {
    if t != Nil {
      NodesAllocated(t.l);
      NodesAllocated(t.r);
    }
  }

  // insert: what *root holds afterwards is returned, and the caller stores it there.
  method Insert(root: Node?, parent: Node?, key: string, value: nat, memory: bool, ghost t: Shape)
    returns (error: int, newRoot: Node?, ghost m: Node?)
    requires Linked(t, parent, root)
    modifies NodesOf(t)
    ensures error == if Found(t, key) then ERR_DUPLICATE else if !memory then ERR_NO_MEMORY else ERR_SUCCESS
    ensures error != ERR_SUCCESS ==> newRoot == root && Linked(t, parent, root)
    ensures error == ERR_SUCCESS ==>
              m != null && fresh(m) && m.key == key && m.value == value && Linked(Grow(t, m), parent, newRoot)
    decreases t
  {
    m := null;
    if root == null {
      if !memory { return ERR_NO_MEMORY, null, null; }
      var n := new Node(parent, key, value);
      return ERR_SUCCESS, n, n;
    }
    newRoot := root;
    if key == root.key { return ERR_DUPLICATE, root, null; }
    ghost var l, r := t.l, t.r;
    assert Linked(l, root, root.left) && Linked(r, root, root.right);
    NodesAllocated(l);
    NodesAllocated(r);
    var child;
    if Before(key, root.key) {
      error, child, m := Insert(root.left, root, key, value, memory, l);
      if error == ERR_SUCCESS { GrowAdds(l, m); }
      assert Linked(r, root, root.right);
      root.left := child;
    } else {
      error, child, m := Insert(root.right, root, key, value, memory, r);
      if error == ERR_SUCCESS { GrowAdds(r, m); }
      assert Linked(l, root, root.left);
      root.right := child;
    }
  }

  // ---------------------------------------------------------------- lookup

  function Lookup(tree: Node?, key: string, ghost parent: Node?, ghost t: Shape): (r: Node?)
    requires Linked(t, parent, tree) && Ordered(t)
    reads NodesOf(t)
    ensures r == null <==> !HasNode(t, key)
    ensures r != null ==> r in NodesOf(t) && r.key == key
    decreases t
  {
    if tree == null then null
    else
      KeySide(t, key);
      BeforeIsTotal(key, tree.key);
      if Before(key, tree.key) then Lookup(tree.left, key, tree, t.l)
      else if Before(tree.key, key) then Lookup(tree.right, key, tree, t.r)
      else tree
  }

  function GetBegin(node: Node?, ghost parent: Node?, ghost t: Shape): (r: Node?)
    requires Linked(t, parent, node)
    reads NodesOf(t)
    ensures r == null <==> t == Nil
    ensures t != Nil ==> r == InOrder(t)[0]
    decreases t
  {
    if node == null then null
    else if node.left != null then GetBegin(node.left, node, t.l)
    else
      assert Linked(t.l, node, node.left);
      node
  }

  // ---------------------------------------------------------------- iterate

  // What hangs to the right of a node.
  ghost function RightOf(t: Shape, n: Node): Shape
    requires n in NodesOf(t)
  {
    if n == t.node then t.r else if n in NodesOf(t.l) then RightOf(t.l, n) else RightOf(t.r, n)
  }

  // The node that follows the subtree of n, where above follows the whole tree.
  ghost function Next(t: Shape, n: Node, above: Node?): Node?
    requires n in NodesOf(t)
  {
    if n == t.node then above
    else if n in NodesOf(t.l) then Next(t.l, n, t.node)
    else Next(t.r, n, above)
  }

  ghost function Level(t: Shape, n: Node): nat
    requires n in NodesOf(t)
  {
    if n == t.node then 0 else 1 + if n in NodesOf(t.l) then Level(t.l, n) else Level(t.r, n)
  }

  lemma {:induction false} RightIsLinked(t: Shape, parent: Node?, root: Node?, n: Node)
    requires Linked(t, parent, root) && n in NodesOf(t)
    ensures NodesOf(RightOf(t, n)) <= NodesOf(t) && Linked(RightOf(t, n), n, n.right)
  {
    if n in NodesOf(t.l) {
      RightIsLinked(t.l, t.node, t.node.left, n);
    } else if n in NodesOf(t.r) {
      RightIsLinked(t.r, t.node, t.node.right, n);
    }
  }

  // One step up: what follows a right child also follows its parent, and a left child is
  // followed by its parent.
  lemma {:induction false} Climb(t: Shape, parent: Node?, root: Node?, n: Node, above: Node?)
    requires Linked(t, parent, root) && n in NodesOf(t)
    ensures n == t.node ==> n.parent == parent && Next(t, n, above) == above
    ensures n != t.node ==> n.parent != null && n.parent in NodesOf(t) && Level(t, n.parent) < Level(t, n)
    ensures n != t.node ==> Next(t, n, above) == if n == n.parent.right then Next(t, n.parent, above) else n.parent
    ensures n.right != null ==> n.right in NodesOf(t) && (n != t.node ==> n.right != n.parent)
  {
    if n in NodesOf(t.l) {
      Climb(t.l, t.node, t.node.left, n, t.node);
    } else if n in NodesOf(t.r) {
      Climb(t.r, t.node, t.node.right, n, above);
    }
  }

  // What comes next in order: the first node to the right, or else what follows the subtree.
  lemma {:induction false} Successor(t: Shape, parent: Node?, root: Node?, i: nat, above: Node?)
    requires Linked(t, parent, root) && i < |InOrder(t)|
    ensures var n := InOrder(t)[i];
            (if RightOf(t, n) != Nil then InOrder(RightOf(t, n))[0] else Next(t, n, above)) ==
            (if i + 1 < |InOrder(t)| then InOrder(t)[i + 1] else above)
  {
    var n, a, b := InOrder(t)[i], InOrder(t.l), InOrder(t.r);
    assert InOrder(t) == a + [t.node] + b;
    if i < |a| {
      assert a[i] == n;
      Successor(t.l, t.node, t.node.left, i, t.node);
    } else if i > |a| {
      assert b[i - |a| - 1] == n;
      Successor(t.r, t.node, t.node.right, i - |a| - 1, above);
    }
  }

  // The first loop of dictionary_iterate: down along the left children
  method Descend(from: Node, ghost parent: Node?, ghost t: Shape) returns (node: Node)
    requires Linked(t, parent, from)
    ensures InOrder(t)[0] == node
  {
    node := from;
    ghost var s, p := t, parent;
    NodesAllocated(t);
    while node.left != null
      invariant s != Nil && NodesOf(s) <= NodesOf(t) && Linked(s, p, node) && InOrder(s)[0] == InOrder(t)[0]
      decreases s
    {
      s, p := s.l, node;
      node := node.left;
    }
  }

  // The second one: up as long as coming from the right
  method Ascend(from: Node, ghost t: Shape, ghost root: Node?) returns (node: Node?)
    requires Linked(t, null, root) && from in NodesOf(t) && from.right == null
    ensures node == Next(t, from, null)
  {
    node := from;
    var base := node.parent;
    NodesAllocated(t);
    Climb(t, null, root, node, null);
    while base != null && node == base.right
      invariant Linked(t, null, root)
      invariant node != null && node in NodesOf(t) && base == node.parent && Next(t, node, null) == Next(t, from, null)
      decreases if node != null && node in NodesOf(t) then Level(t, node) else 0
    {
      Climb(t, null, root, node, null);
      node := base;
      base := base.parent;
    }
    Climb(t, null, root, node, null);
    if node.right != base { node := base; }
    if base == null { node := null; }
  }

  // dictionary_iterate
  method Iterate(it: Node?, ghost t: Shape, ghost root: Node?, ghost i: nat) returns (node: Node?)
    requires Linked(t, null, root)
    requires it != null ==> i < |InOrder(t)| && InOrder(t)[i] == it
    ensures node == if it != null && i + 1 < |InOrder(t)| then InOrder(t)[i + 1] else null
  {
    node := it;
    if node != null {
      Successor(t, null, root, i, null);
      RightIsLinked(t, null, root, node);
      if node.right != null {
        node := Descend(node.right, node, RightOf(t, node));
      } else {
        node := Ascend(node, t, root);
      }
    }
  }

  // ---------------------------------------------------------------- the dictionary

  class Dict {
    var root: Node?
    ghost var shape: Shape
    ghost var nodes: set<Node>

    // dictionary_new
    constructor ()
      ensures Valid() && Contents() == [] && nodes == {}
    {
      root, shape, nodes := null, Nil, {};
    }

    ghost predicate Valid()
      reads this, nodes
    {
      nodes == NodesOf(shape) && Linked(shape, null, root) && Ordered(shape)
    }

    // The pairs of key and value, in ascending order of the keys.
    ghost function Contents(): (s: seq<Pair<nat>>)
      requires Valid()
      reads this, nodes
      ensures Ascending(s)
    {
      OrderedAscends(shape);
      Pairs(shape)
    }

    // dictionary_add
    method Add(key: string, value: nat, memory: bool) returns (error: int)
      requires Valid()
      modifies this, nodes
      ensures Valid() && fresh(nodes - old(nodes))
      ensures (Contents(), error) == Added(old(Contents()), Pair(key, value), memory)
    {
      ghost var t := shape;
      FoundIff(t, key);
      ghost var m;
      error, root, m := Insert(root, null, key, value, memory, t);
      if error == ERR_SUCCESS {
        GrowInserts(t, m);
        GrowAdds(t, m);
        ghost var grown := Grow(t, m);
        assert Linked(grown, null, root) && Ordered(grown);
        shape, nodes := grown, nodes + {m};
      }
    }

    // dictionary_lookup
    method Find(key: string) returns (value: Option<nat>)
      requires Valid()
      ensures value.Some? ==> Pair(key, value.value) in Contents()
      ensures value.None? ==> !HasKey(Contents(), key)
    {
      HasNodeIsHasKey(shape, key);
      var node := Lookup(root, key, null, shape);
      if node == null { return None; }
      ghost var i :| 0 <= i < |InOrder(shape)| && InOrder(shape)[i] == node;
      assert Pairs(shape)[i] == Pair(key, node.value);
      return Some(node.value);
    }

    // dictionary_get_iterator, then dictionary_iterate until it returns NULL, as the pass over
    // the subscribe map in activate_sm does
    method Visit() returns (visited: seq<Pair<nat>>)
      requires Valid()
      ensures visited == Contents()
    {
      visited := [];
      ghost var t, i := shape, 0;
      var it := GetBegin(root, null, t);
      while it != null
        invariant i == |visited| <= |InOrder(t)| && visited == PairsOf(InOrder(t)[..i])
        invariant it == if i < |InOrder(t)| then InOrder(t)[i] else null
        invariant Valid()
        decreases |InOrder(t)| - i
      {
        visited := visited + [Pair(it.key, it.value)];
        it := Iterate(it, t, root, i);
        i := i + 1;
      }
      assert InOrder(t)[..i] == InOrder(t);
    }
  }
}
