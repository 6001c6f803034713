/** The treap of c-tree.h as a value: what split, insert, merge and delete compute. */
module Treap {

  /** A node holds its key x and its priority y. */
  datatype Tree = Leaf | Node(left: Tree, x: int, y: int, right: Tree)

  function Keys(t: Tree): set<int> {
    if t.Leaf? then {} else Keys(t.left) + {t.x} + Keys(t.right)
  }

  /** The (key, priority) pairs. */
  function Items(t: Tree): set<(int, int)> {
    if t.Leaf? then {} else Items(t.left) + {(t.x, t.y)} + Items(t.right)
  }

  /** Search order. */
  ghost predicate Ordered(t: Tree) {
    t.Node? ==>
      && (forall k :: k in Keys(t.left) ==> k < t.x)
      && (forall k :: k in Keys(t.right) ==> t.x < k)
      && Ordered(t.left) && Ordered(t.right)
  }

  /** No priority in the tree is above the bound. */
  ghost predicate Below(t: Tree, bound: int) {
    forall i :: i in Items(t) ==> i.1 <= bound
  }

  /** Heap order. */
  ghost predicate Heap(t: Tree) {
    t.Node? ==> Below(t.left, t.y) && Below(t.right, t.y) && Heap(t.left) && Heap(t.right)
  }

  // ----- the operations -----

  function Lookup(t: Tree, x: int): bool {
    t.Node? && (x == t.x || Lookup(if x < t.x then t.left else t.right, x))
  }

  /** The parts with keys at most x and above x. */
  function Split(t: Tree, x: int): (Tree, Tree) {
    if t.Leaf? then (Leaf, Leaf)
    else if x < t.x then
      var (a, b) := Split(t.left, x); (a, t.(left := b))
    else
      var (a, b) := Split(t.right, x); (t.(right := a), b)
  }

  function Insert(t: Tree, x: int, y: int): Tree {
    if t.Leaf? then Node(Leaf, x, y, Leaf)
    else if y < t.y then
      if x < t.x then t.(left := Insert(t.left, x, y)) else t.(right := Insert(t.right, x, y))
    else
      var (a, b) := Split(t, x); Node(a, x, y, b)
  }

  function Merge(a: Tree, b: Tree): Tree {
    if a.Leaf? then b
    else if b.Leaf? then a
    else if a.y > b.y then a.(right := Merge(a.right, b))
    else b.(left := Merge(a, b.left))
  }

  function Delete(t: Tree, x: int): Tree
    requires x in Keys(t) && Ordered(t)
  {
    assert Keys(t) == Keys(t.left) + {t.x} + Keys(t.right);
    if x == t.x then Merge(t.left, t.right)
    else if x < t.x then t.(left := Delete(t.left, x))
    else t.(right := Delete(t.right, x))
  }

  // ----- what they keep -----

  /** A treap: search order and heap order. */
  ghost predicate Valid(t: Tree) {
    Ordered(t) && Heap(t)
  }

  lemma {:induction false} KeysOfItems(t: Tree)
    ensures forall k :: k in Keys(t) <==> exists i :: i in Items(t) && i.0 == k
  {
    if t.Node? {
      KeysOfItems(t.left);
      KeysOfItems(t.right);
      assert (t.x, t.y) in Items(t);
      assert Keys(t) == Keys(t.left) + {t.x} + Keys(t.right);
      forall k | k in Keys(t) ensures exists i :: i in Items(t) && i.0 == k {
        if k == t.x {
          assert (t.x, t.y).0 == k;
        } else if k in Keys(t.left) {
          var i :| i in Items(t.left) && i.0 == k;
          assert i in Items(t);
        } else {
          var i :| i in Items(t.right) && i.0 == k;
          assert i in Items(t);
        }
      }
    }
  }

  lemma {:induction false} LookupIs(t: Tree, x: int)
    requires Ordered(t)
    ensures Lookup(t, x) <==> x in Keys(t)
  {
    if t.Node? {
      LookupIs(t.left, x);
      LookupIs(t.right, x);
    }
  }

  lemma {:induction false} SplitItems(t: Tree, x: int)
    ensures var (a, b) := Split(t, x); Items(a) + Items(b) == Items(t) && Keys(a) + Keys(b) == Keys(t)
  {
    if t.Node? {
      SplitItems(t.left, x);
      SplitItems(t.right, x);
    }
  }

  /** A node with another left or right part. */
  lemma LeftChanged(t: Tree, u: Tree)
    requires Valid(t) && t.Node? && Valid(u) && Below(u, t.y) && forall k :: k in Keys(u) ==> k < t.x
    ensures Valid(t.(left := u))
  {
  }

  lemma RightChanged(t: Tree, u: Tree)
    requires Valid(t) && t.Node? && Valid(u) && Below(u, t.y) && forall k :: k in Keys(u) ==> t.x < k
    ensures Valid(t.(right := u))
  {
  }

  lemma {:induction false} SplitLeft(t: Tree, x: int, u: Tree)
    requires Valid(t) && t.Node? && x < t.x && Valid(u) && Items(u) <= Items(t.left)
    requires Keys(u) <= Keys(t.left) && forall k :: k in Keys(u) ==> x < k
    ensures Valid(t.(left := u)) && forall k :: k in Keys(t.(left := u)) ==> x < k
  {
    LeftChanged(t, u);
  }

  lemma {:induction false} SplitRight(t: Tree, x: int, u: Tree)
    requires Valid(t) && t.Node? && t.x <= x && Valid(u) && Items(u) <= Items(t.right)
    requires Keys(u) <= Keys(t.right) && forall k :: k in Keys(u) ==> k <= x
    ensures Valid(t.(right := u)) && forall k :: k in Keys(t.(right := u)) ==> k <= x
  {
    RightChanged(t, u);
  }

  lemma {:induction false} SplitIs(t: Tree, x: int)
    requires Valid(t)
    ensures var (a, b) := Split(t, x);
      && Valid(a) && Valid(b) && Items(a) + Items(b) == Items(t) && Keys(a) + Keys(b) == Keys(t)
      && (forall k :: k in Keys(a) ==> k <= x) && (forall k :: k in Keys(b) ==> x < k)
  {
    SplitItems(t, x);
    if t.Node? {
      hide Items;
      if x < t.x {
        SplitIs(t.left, x);
        SplitLeft(t, x, Split(t.left, x).1);
      } else {
        SplitIs(t.right, x);
        SplitRight(t, x, Split(t.right, x).0);
      }
    }
  }

  lemma Parts(t: Tree)
    requires Valid(t) && t.Node?
    ensures Valid(t.left) && Valid(t.right) && Keys(t.left) <= Keys(t) && Keys(t.right) <= Keys(t)
  {
  }

  lemma {:induction false} InsertItems(t: Tree, x: int, y: int)
    ensures Items(Insert(t, x, y)) == Items(t) + {(x, y)} && Keys(Insert(t, x, y)) == Keys(t) + {x}
  {
    if t.Node? {
      InsertItems(t.left, x, y);
      InsertItems(t.right, x, y);
      SplitItems(t, x);
    }
  }

  lemma {:induction false} InsertedBelow(t: Tree, x: int, y: int)
    requires Valid(t) && t.Node? && y < t.y && x != t.x
    requires Valid(Insert(if x < t.x then t.left else t.right, x, y))
    ensures Valid(Insert(t, x, y))
  {
    var s := if x < t.x then t.left else t.right;
    InsertItems(s, x, y);
    if x < t.x {
      LeftChanged(t, Insert(s, x, y));
    } else {
      RightChanged(t, Insert(s, x, y));
    }
  }

  lemma {:induction false} InsertedAbove(t: Tree, x: int, y: int)
    requires Valid(t) && t.Node? && y >= t.y && x !in Keys(t)
    ensures Valid(Insert(t, x, y))
  {
    var (a, b) := Split(t, x);
    SplitIs(t, x);
    assert Items(a) <= Items(t) && Items(b) <= Items(t) && Keys(a) <= Keys(t);
    assert Below(t, t.y);
    hide Items, Keys, Split;
    assert Below(a, y) && Below(b, y);
  }

  lemma {:induction false} InsertIs(t: Tree, x: int, y: int)
    requires Valid(t) && x !in Keys(t)
    ensures var u := Insert(t, x, y);
      Valid(u) && Items(u) == Items(t) + {(x, y)} && Keys(u) == Keys(t) + {x}
  {
    InsertItems(t, x, y);
    if t.Node? {
      assert t.x in Keys(t);
      hide Valid, Items, Keys;
      Parts(t);
      if y < t.y {
        InsertIs(if x < t.x then t.left else t.right, x, y);
        InsertedBelow(t, x, y);
      } else {
        InsertedAbove(t, x, y);
      }
    }
  }

  lemma {:induction false} MergeIs(a: Tree, b: Tree)
    requires Valid(a) && Valid(b)
    requires forall j, k :: j in Keys(a) && k in Keys(b) ==> j < k
    ensures var u := Merge(a, b);
      Valid(u) && Items(u) == Items(a) + Items(b) && Keys(u) == Keys(a) + Keys(b)
  {
    if a.Node? && b.Node? {
      assert Keys(a) == Keys(a.left) + {a.x} + Keys(a.right) && a.x in Keys(a);
      assert Keys(b) == Keys(b.left) + {b.x} + Keys(b.right) && b.x in Keys(b);
      if a.y > b.y {
        MergeIs(a.right, b);
      } else {
        MergeIs(a, b.left);
      }
    }
  }

  /** u is t without the key x. */
  ghost predicate Without(u: Tree, t: Tree, x: int) {
    Valid(u) && Keys(u) == Keys(t) - {x} && Items(u) == set i | i in Items(t) && i.0 != x
  }

  lemma {:induction false} LeftWithout(t: Tree, u: Tree, x: int)
    requires Valid(t) && t.Node? && x < t.x && Without(u, t.left, x)
    ensures Without(t.(left := u), t, x)
  {
    KeysOfItems(t.right);
    LeftChanged(t, u);
  }

  lemma {:induction false} RightWithout(t: Tree, u: Tree, x: int)
    requires Valid(t) && t.Node? && t.x < x && Without(u, t.right, x)
    ensures Without(t.(right := u), t, x)
  {
    KeysOfItems(t.left);
    RightChanged(t, u);
  }

  lemma {:induction false} RootWithout(t: Tree)
    requires Valid(t) && t.Node?
    ensures Without(Merge(t.left, t.right), t, t.x)
  {
    KeysOfItems(t.left);
    KeysOfItems(t.right);
    MergeIs(t.left, t.right);
  }

  lemma {:induction false} DeleteIs(t: Tree, x: int)
    requires Valid(t) && x in Keys(t)
    ensures var u := Delete(t, x);
      Valid(u) && Keys(u) == Keys(t) - {x} && Items(u) == set i | i in Items(t) && i.0 != x
  {
    if x == t.x {
      RootWithout(t);
    } else if x < t.x {
      DeleteIs(t.left, x);
      LeftWithout(t, Delete(t.left, x), x);
    } else {
      DeleteIs(t.right, x);
      RightWithout(t, Delete(t.right, x), x);
    }
  }

  // ----- one shape for one set of items -----

  ghost predicate DistinctPriorities(items: set<(int, int)>) {
    forall i, j :: i in items && j in items && i != j ==> i.1 != j.1
  }

  /** With distinct priorities the items determine the tree. */
  lemma {:induction false} Unique(t: Tree, u: Tree)
    requires Valid(t) && Valid(u) && Items(t) == Items(u) && DistinctPriorities(Items(t))
    ensures t == u
    decreases t
  {
    EmptyIsLeaf(t);
    EmptyIsLeaf(u);
    if t.Node? {
      assert (t.x, t.y) in Items(u);
      assert (u.x, u.y) in Items(t);
      Top(t, (u.x, u.y));
      Top(u, (t.x, t.y));
      Sides(t);
      Sides(u);
      Unique(t.left, u.left);
      Unique(t.right, u.right);
    }
  }

  lemma EmptyIsLeaf(t: Tree)
    ensures Items(t) == {} <==> t.Leaf?
  {
    assert t.Node? ==> (t.x, t.y) in Items(t);
  }

  lemma Top(t: Tree, i: (int, int))
    requires t.Node? && Heap(t) && i in Items(t)
    ensures i.1 <= t.y
  {
    assert Items(t) == Items(t.left) + {(t.x, t.y)} + Items(t.right);
  }

  lemma Sides(t: Tree)
    requires t.Node? && Ordered(t)
    ensures Items(t.left) == set i | i in Items(t) && i.0 < t.x
    ensures Items(t.right) == set i | i in Items(t) && i.0 > t.x
  {
    ItemKeys(t.left);
    ItemKeys(t.right);
    assert Items(t) == Items(t.left) + {(t.x, t.y)} + Items(t.right);
    hide Items, Keys;
  }

  lemma ItemKeys(t: Tree)
    ensures forall i :: i in Items(t) ==> i.0 in Keys(t)
  {
    KeysOfItems(t);
  }

  /** Delete undoes insert, node for node. */
  lemma DeleteUndoesInsert(t: Tree, x: int, y: int)
    requires Valid(t) && DistinctPriorities(Items(t)) && x !in Keys(t)
    ensures Valid(Insert(t, x, y)) && x in Keys(Insert(t, x, y))
    ensures Delete(Insert(t, x, y), x) == t
  {
    InsertIs(t, x, y);
    DeleteIs(Insert(t, x, y), x);
    KeysOfItems(t);
    var u := Delete(Insert(t, x, y), x);
    assert Items(u) == Items(t);
    Unique(u, t);
  }

  // ----- whole histories -----

  datatype Op = Ins(x: int, y: int) | Del(x: int)

  /** What the caller must respect: insert absent keys, delete present ones. */
  ghost predicate Allowed(live: map<int, int>, op: Op) {
    match op
    case Ins(x, _) => x !in live
    case Del(x) => x in live
  }

  ghost function Live(ops: seq<Op>): map<int, int> {
    if ops == [] then map[]
    else
      var m := Live(ops[..|ops| - 1]);
      match ops[|ops| - 1]
      case Ins(x, y) => m[x := y]
      case Del(x) => m - {x}
  }

  ghost function Pairs(m: map<int, int>): set<(int, int)> {
    set k | k in m :: (k, m[k])
  }

  ghost predicate Legal(ops: seq<Op>) {
    ops == [] || (Legal(ops[..|ops| - 1]) && Allowed(Live(ops[..|ops| - 1]), ops[|ops| - 1]))
  }

  /** The tree is a treap and holds exactly the live keys with their priorities. */
  ghost predicate Holds(t: Tree, live: map<int, int>) {
    Valid(t) && Items(t) == Pairs(live) && Keys(t) == live.Keys
  }

  /** The tree after a history. */
  ghost function Run(ops: seq<Op>): (t: Tree)
    requires Legal(ops)
    ensures Holds(t, Live(ops))
  {
    if ops == [] then Leaf
    else
      var t := Run(ops[..|ops| - 1]);
      StepHolds(t, Live(ops[..|ops| - 1]), ops[|ops| - 1]);
      match ops[|ops| - 1]
      case Ins(x, y) => Insert(t, x, y)
      case Del(x) => Delete(t, x)
  }

  lemma StepHolds(t: Tree, live: map<int, int>, op: Op)
    requires Holds(t, live) && Allowed(live, op)
    ensures op.Ins? ==> Holds(Insert(t, op.x, op.y), live[op.x := op.y])
    ensures op.Del? ==> Holds(Delete(t, op.x), live - {op.x})
  {
    match op
    case Ins(x, y) =>
      InsertIs(t, x, y);
      PairsUpdate(live, x, y);
    case Del(x) =>
      DeleteIs(t, x);
      PairsRemove(live, x);
  }

  lemma PairsUpdate(m: map<int, int>, x: int, y: int)
    requires x !in m
    ensures m[x := y].Keys == m.Keys + {x} && Pairs(m[x := y]) == Pairs(m) + {(x, y)}
  {
    var n := m[x := y];
    forall i | i in Pairs(m) + {(x, y)} ensures i in Pairs(n) {
      assert i.0 in n && n[i.0] == i.1;
    }
  }

  lemma PairsRemove(m: map<int, int>, x: int)
    ensures Pairs(m - {x}) == set i | i in Pairs(m) && i.0 != x
  {
    var n := m - {x};
    forall i | i in Pairs(m) && i.0 != x ensures i in Pairs(n) {
      assert i.0 in n && n[i.0] == i.1;
    }
  }

  /** Lookup answers exactly the live set, after any history. */
  lemma LookupAfter(ops: seq<Op>, x: int)
    requires Legal(ops)
    ensures Lookup(Run(ops), x) <==> x in Live(ops)
  {
    LookupIs(Run(ops), x);
  }

  /** Two histories that leave the same live keys with distinct priorities leave the same tree. */
  lemma HistoryDoesNotMatter(ops: seq<Op>, others: seq<Op>)
    requires Legal(ops) && Legal(others) && Live(ops) == Live(others)
    requires DistinctPriorities(Pairs(Live(ops)))
    ensures Run(ops) == Run(others)
  {
    Unique(Run(ops), Run(others));
  }
}
