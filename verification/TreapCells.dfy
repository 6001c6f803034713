/** The treap routines of c-tree.h on linked cells: each rewrites the child links of existing
    cells in place, and computes what the operation of the same name in Treap says. */
module TreapCells {
  import opened Treap

  class Cell {
    var left: Cell?
    var right: Cell?
    const x: int
    const y: int

    /** tree_alloc. */
    constructor (x: int, y: int)
      ensures this.x == x && this.y == y && left == null && right == null
    {
      this.x := x;
      this.y := y;
      left, right := null, null;
    }
  }

  /** Which cell sits where. */
  datatype Skeleton = Empty | Fork(left: Skeleton, cell: Cell, right: Skeleton)

  ghost function Cells(s: Skeleton): set<Cell> {
    if s.Empty? then {} else Cells(s.left) + {s.cell} + Cells(s.right)
  }

  /** No cell occurs twice. */
  ghost predicate Separate(s: Skeleton) {
    s.Fork? ==>
      && s.cell !in Cells(s.left) && s.cell !in Cells(s.right) && Cells(s.left) !! Cells(s.right)
      && Separate(s.left) && Separate(s.right)
  }

  /** The links from p on follow the skeleton. */
  ghost predicate Linked(p: Cell?, s: Skeleton)
    reads Cells(s)
  {
    if s.Empty? then p == null
    else p == s.cell && Linked(s.cell.left, s.left) && Linked(s.cell.right, s.right)
  }

  ghost predicate Rep(p: Cell?, s: Skeleton)
    reads Cells(s)
  {
    Separate(s) && Linked(p, s)
  }

  /** The tree the cells stand for. */
  ghost function Abs(s: Skeleton): Tree {
    if s.Empty? then Leaf else Node(Abs(s.left), s.cell.x, s.cell.y, Abs(s.right))
  }

  /** tree_lookup. */
  method Find(root: Cell?, x: int, ghost s: Skeleton) returns (p: Cell?)
    requires Rep(root, s) && Ordered(Abs(s))
    ensures p != null <==> x in Keys(Abs(s))
    ensures p != null ==> p in Cells(s) && p.x == x
  {
    p := root;
    ghost var u := s;
    while p != null && x != p.x
      invariant Cells(u) <= Cells(s) && Rep(p, u) && Ordered(Abs(u))
      invariant x in Keys(Abs(u)) <==> x in Keys(Abs(s))
      decreases u
    {
      assert Keys(Abs(u)) == Keys(Abs(u.left)) + {p.x} + Keys(Abs(u.right));
      if x < p.x {
        p, u := p.left, u.left;
      } else {
        p, u := p.right, u.right;
      }
    }
  }

  /** tree_split: the cells on the path are relinked, none is created. */
  method SplitCells(p: Cell?, x: int, ghost s: Skeleton, ghost all: set<Cell>)
    returns (l: Cell?, r: Cell?, ghost sl: Skeleton, ghost sr: Skeleton)
    requires Rep(p, s) && Cells(s) <= all
    modifies Cells(s)
    ensures Rep(l, sl) && Rep(r, sr)
    ensures Cells(sl) !! Cells(sr) && Cells(sl) + Cells(sr) == Cells(s)
    ensures (Abs(sl), Abs(sr)) == Split(Abs(s), x)
    decreases s
  {
    if p == null {
      return null, null, Empty, Empty;
    }
    if x < p.x {
      assert Linked(p.right, s.right);
      var a, b, sa, sb := SplitCells(p.left, x, s.left, all);
      assert Linked(p.right, s.right);
      p.left := b;
      assert Linked(p.right, s.right) && Linked(p.left, sb);
      return a, p, sa, Fork(sb, p, s.right);
    } else {
      assert Linked(p.left, s.left);
      var a, b, sa, sb := SplitCells(p.right, x, s.right, all);
      assert Linked(p.left, s.left);
      p.right := a;
      assert Linked(p.left, s.left) && Linked(p.right, sa);
      return p, b, Fork(s.left, p, sa), sb;
    }
  }

  /** tree_insert: one new cell, all others kept. */
  method InsertCell(p: Cell?, x: int, y: int, ghost s: Skeleton, ghost all: set<Cell>)
    returns (r: Cell, ghost sr: Skeleton)
    requires Rep(p, s) && Cells(s) <= all && Ordered(Abs(s)) && x !in Keys(Abs(s))
    modifies Cells(s)
    ensures Rep(r, sr) && Abs(sr) == Insert(Abs(s), x, y)
    ensures Cells(s) <= Cells(sr) && fresh(Cells(sr) - Cells(s))
    decreases s
  {
    if p == null {
      r := new Cell(x, y);
      return r, Fork(Empty, r, Empty);
    }
    if y < p.y {
      assert x != p.x;
      if x < p.x {
        var q, sq := InsertCell(p.left, x, y, s.left, all);
        p.left := q;
        return p, Fork(sq, p, s.right);
      } else {
        var q, sq := InsertCell(p.right, x, y, s.right, all);
        p.right := q;
        return p, Fork(s.left, p, sq);
      }
    }
    r := new Cell(x, y);
    var a, b, sa, sb := SplitCells(p, x, s, all);
    r.left, r.right := a, b;
    sr := Fork(sa, r, sb);
  }

  /** tree_merge. */
  method MergeCells(p: Cell?, q: Cell?, ghost s: Skeleton, ghost t: Skeleton, ghost all: set<Cell>)
    returns (r: Cell?, ghost sr: Skeleton)
    requires Rep(p, s) && Rep(q, t) && Cells(s) !! Cells(t) && Cells(s) + Cells(t) <= all
    modifies Cells(s), Cells(t)
    ensures Rep(r, sr) && Cells(sr) == Cells(s) + Cells(t) && Abs(sr) == Merge(Abs(s), Abs(t))
    decreases s, t
  {
    if p == null {
      return q, t;
    }
    if q == null {
      return p, s;
    }
    if p.y > q.y {
      var m, sm := MergeCells(p.right, q, s.right, t, all);
      p.right := m;
      return p, Fork(s.left, p, sm);
    } else {
      var m, sm := MergeCells(p, q.left, s, t.left, all);
      q.left := m;
      return q, Fork(sm, q, t.right);
    }
  }

  /** tree_delete: the cell of the key is unlinked, and no other. */
  method DeleteCell(p: Cell?, x: int, ghost s: Skeleton, ghost all: set<Cell>)
    returns (r: Cell?, ghost sr: Skeleton, ghost gone: Cell)
    requires Rep(p, s) && Cells(s) <= all && Ordered(Abs(s)) && x in Keys(Abs(s))
    modifies Cells(s)
    ensures Rep(r, sr) && Abs(sr) == Delete(Abs(s), x)
    ensures gone in Cells(s) && gone.x == x && Cells(sr) == Cells(s) - {gone}
    decreases s
  {
    assert Keys(Abs(s)) == Keys(Abs(s.left)) + {p.x} + Keys(Abs(s.right));
    if x == p.x {
      r, sr := MergeCells(p.left, p.right, s.left, s.right, all);
      gone := p;
    } else if x < p.x {
      var q, sq, g := DeleteCell(p.left, x, s.left, all);
      p.left := q;
      return p, Fork(sq, p, s.right), g;
    } else {
      var q, sq, g := DeleteCell(p.right, x, s.right, all);
      p.right := q;
      return p, Fork(s.left, p, sq), g;
    }
  }
}
