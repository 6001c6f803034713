/** The hash table of c-tree.h: every bucket is a circular doubly linked ring of cells. */
module HashRings {
  import opened Bits

  class Elem {
    var next: Elem?
    var prev: Elem?
    const x: int

    /** hash_alloc. */
    constructor (x: int)
      ensures this.x == x
    {
      this.x := x;
      next, prev := null, null;
    }
  }

  function After(i: int, n: int): int {
    if i + 1 == n then 0 else i + 1
  }

  function Before(i: int, n: int): int {
    if i == 0 then n - 1 else i - 1
  }

  /** The cells form a ring: next goes around forwards, prev backwards. */
  ghost predicate Ring(s: seq<Elem>)
    reads s
  {
    && (forall i :: 0 <= i < |s| ==> s[i].next == s[After(i, |s|)])
    && (forall i :: 0 <= i < |s| ==> s[i].prev == s[Before(i, |s|)])
  }

  ghost predicate Distinct(s: seq<Elem>) {
    forall i, j :: 0 <= i < j < |s| ==> s[i] != s[j]
  }

  /** The values of a ring, from the head on. */
  ghost function Values(s: seq<Elem>): seq<int> {
    seq(|s|, i requires 0 <= i < |s| => s[i].x)
  }

  const MIN64: int := -0x8000_0000_0000_0000
  const MAX64: int := 0x7fff_ffff_ffff_ffff

  /** The bucket of a hash value: made non-negative, then masked or reduced. Negating the least
      64-bit value gives itself, which the second test turns into 0. */
  function Slot(hash: int, size: nat, mask: nat): (b: nat)
    requires MIN64 <= hash <= MAX64 && size > 0 && mask < size
    ensures b < size
  {
    var h := if hash == MIN64 then 0 else if hash < 0 then -hash else hash;
    if mask != 0 then AndBound(h, mask); And(h, mask) else h % size
  }

  lemma {:induction false} AndBound(a: nat, b: nat)
    ensures And(a, b) <= b
    decreases a + b
  {
    if a != 0 && b != 0 {
      AndBound(a / 2, b / 2);
    }
  }

  // ----- rings change in place -----

  /** Links the fresh cell e in before the head, which is the end of the ring. */
  method Append(ghost s: seq<Elem>, head: Elem, e: Elem)
    requires s != [] && Ring(s) && Distinct(s) && head == s[0] && e !in s
    modifies e, head, s[|s| - 1]
    ensures Ring(s + [e]) && Distinct(s + [e])
  {
    e.next := head;
    e.prev := head.prev;
    e.next.prev := e;
    e.prev.next := e;
    assert e.prev == s[|s| - 1];
    RingAppended(s, e);
  }

  lemma {:induction false} RingAppended(s: seq<Elem>, e: Elem)
    requires s != [] && e.next == s[0] && e.prev == s[|s| - 1] && s[|s| - 1].next == e && s[0].prev == e
    requires forall i :: 0 <= i < |s| && i != |s| - 1 ==> s[i].next == s[After(i, |s|)]
    requires forall i :: 0 <= i < |s| && i != 0 ==> s[i].prev == s[Before(i, |s|)]
    ensures Ring(s + [e])
  {
    var t := s + [e];
    forall i | 0 <= i < |t| ensures t[i].next == t[After(i, |t|)] && t[i].prev == t[Before(i, |t|)] {
      assert i < |s| ==> t[i] == s[i];
    }
  }

  ghost function Without<T>(s: seq<T>, k: nat): seq<T>
    requires k < |s|
  {
    s[..k] + s[k + 1..]
  }

  /** The links that go past the k-th cell, all others as in the ring. */
  ghost predicate Skips(s: seq<Elem>, k: nat)
    reads s
    requires k < |s|
  {
    && (forall i :: 0 <= i < |s| && i != Before(k, |s|) ==> s[i].next == s[After(i, |s|)])
    && (forall i :: 0 <= i < |s| && i != After(k, |s|) ==> s[i].prev == s[Before(i, |s|)])
    && s[Before(k, |s|)].next == s[After(k, |s|)]
    && s[After(k, |s|)].prev == s[Before(k, |s|)]
  }

  lemma {:induction false} SkipsForwards(s: seq<Elem>, k: nat, i: nat)
    requires k < |s| && |s| > 1 && Skips(s, k) && i < |s| - 1
    ensures var t := Without(s, k); t[i].next == t[After(i, |t|)]
  {
    var j := if i < k then i else i + 1;
    assert Without(s, k)[i] == s[j];
  }

  lemma {:induction false} SkipsBackwards(s: seq<Elem>, k: nat, i: nat)
    requires k < |s| && |s| > 1 && Skips(s, k) && i < |s| - 1
    ensures var t := Without(s, k); t[i].prev == t[Before(i, |t|)]
  {
    var j := if i < k then i else i + 1;
    assert Without(s, k)[i] == s[j];
  }

  lemma {:induction false} RingWithout(s: seq<Elem>, k: nat)
    requires k < |s| && |s| > 1 && Skips(s, k)
    ensures Ring(Without(s, k))
  {
    var t := Without(s, k);
    forall i | 0 <= i < |t| ensures t[i].next == t[After(i, |t|)] && t[i].prev == t[Before(i, |t|)] {
      SkipsForwards(s, k, i);
      SkipsBackwards(s, k, i);
    }
  }

  lemma DistinctWithout(s: seq<Elem>, k: nat)
    requires k < |s| && Distinct(s)
    ensures Distinct(Without(s, k)) && s[k] !in Without(s, k)
  {
  }

  /** Unlinks the k-th cell; its own links stay as they were. */
  method Unlink(e: Elem, ghost s: seq<Elem>, ghost k: nat)
    requires k < |s| && Ring(s) && Distinct(s) && e == s[k]
    modifies s[After(k, |s|)], s[Before(k, |s|)]
    ensures Skips(s, k)
  {
    assert e.next == s[After(k, |s|)] && e.prev == s[Before(k, |s|)];
    e.next.prev := e.prev;
    e.prev.next := e.next;
  }

  /** The head of a ring, or null. */
  ghost function Head(s: seq<Elem>): Elem? {
    if s == [] then null else s[0]
  }

  /** Unlinks the k-th cell and says what the head is then. */
  method Remove(e: Elem, head: Elem?, ghost s: seq<Elem>, ghost k: nat) returns (h: Elem?)
    requires k < |s| && Ring(s) && Distinct(s) && e == s[k] && head == s[0]
    modifies s[After(k, |s|)], s[Before(k, |s|)]
    ensures Ring(Without(s, k)) && Distinct(Without(s, k)) && h == Head(Without(s, k))
  {
    Unlink(e, s, k);
    DistinctWithout(s, k);
    if |s| > 1 {
      RingWithout(s, k);
    }
    if head != e {
      h := head;
    } else if e.next == e {
      h := null;
    } else {
      h := e.next;
    }
  }

  // ----- the table -----

  class HashTable {
    const heads: array<Elem?>
    const mask: nat
    const hash: int -> int
    /** The ring of every bucket, head first. */
    ghost var rings: seq<seq<Elem>>

    /** The hash function yields 64-bit values and the mask selects existing buckets. */
    ghost predicate Sized() {
      heads.Length > 0 && mask < heads.Length && forall x :: MIN64 <= hash(x) <= MAX64
    }

    function SlotOf(x: int): (b: nat)
      requires Sized()
      ensures b < heads.Length
    {
      Slot(hash(x), heads.Length, mask)
    }

    ghost function Cells(): set<Elem>
      reads this
    {
      set b, i | 0 <= b < |rings| && 0 <= i < |rings[b]| :: rings[b][i]
    }

    /** A bucket: its head starts the ring, the ring has no cell twice, and every value belongs here. */
    ghost predicate BucketOk(head: Elem?, s: seq<Elem>, b: nat)
      reads s
      requires Sized()
    {
      && head == Head(s) && Ring(s) && Distinct(s)
      && forall i :: 0 <= i < |s| ==> SlotOf(s[i].x) == b
    }

    /** No cell is in two buckets: a value's bucket is determined by the value. */
    ghost predicate Valid()
      reads this, heads, Cells()
    {
      Sized() && |rings| == heads.Length && forall b :: 0 <= b < |rings| ==> BucketOk(heads[b], rings[b], b)
    }

    constructor (size: nat, mask: nat, hash: int -> int)
      requires size > 0 && mask < size && forall x :: MIN64 <= hash(x) <= MAX64
      ensures Valid() && fresh(heads) && heads.Length == size && this.mask == mask && this.hash == hash
      ensures forall b :: 0 <= b < size ==> rings[b] == []
    {
      heads := new Elem?[size](_ => null);
      this.mask := mask;
      this.hash := hash;
      rings := seq(size, _ => []);
    }

    /** hash_lookup: the first cell of the bucket with this value, or null. */
    method Lookup(x: int) returns (e: Elem?)
      requires Valid()
      ensures e == null <==> x !in Values(rings[SlotOf(x)])
      ensures e != null ==>
                exists k :: 0 <= k < |rings[SlotOf(x)]| && rings[SlotOf(x)][k] == e &&
                            FirstAt(Values(rings[SlotOf(x)]), x, k)
    {
      var b := SlotOf(x);
      ghost var s := rings[b];
      assert BucketOk(heads[b], rings[b], b);
      if heads[b] == null {
        return null;
      }
      var k: nat := 0;
      e := heads[b];
      while true
        invariant k < |s| && e == s[k]
        invariant forall i :: 0 <= i < k ==> s[i].x != x
        decreases |s| - k
      {
        if e.x == x {
          assert FirstAt(Values(s), x, k);
          return;
        }
        e := e.next;
        k := k + 1;
        if e == heads[b] {
          assert k == |s|;
          return null;
        }
      }
    }

    /** Buckets share no cells, because a cell's value decides its bucket. */
    lemma Disjoint(b: nat, c: nat)
      requires Valid() && b < |rings| && c < |rings| && b != c
      ensures forall e :: e in rings[b] ==> e !in rings[c]
    {
      assert BucketOk(heads[b], rings[b], b) && BucketOk(heads[c], rings[c], c);
    }

    /** The cells of every other bucket are different from those of bucket b, and allocated. */
    ghost predicate Others(b: nat, s: seq<Elem>, all: set<Elem>)
      reads this
    {
      forall c, i :: 0 <= c < |rings| && c != b && 0 <= i < |rings[c]| ==> rings[c][i] !in s && rings[c][i] in all
    }

    lemma OthersHold(b: nat)
      requires Valid() && b < |rings|
      ensures Others(b, rings[b], Cells())
    {
      forall c, i | 0 <= c < |rings| && c != b && 0 <= i < |rings[c]| ensures rings[c][i] !in rings[b] {
        Disjoint(c, b);
      }
    }

    /** hash_insert: a new cell at the end of its bucket's ring, whether or not the value is present. */
    method Insert(x: int) returns (ghost e: Elem)
      requires Valid()
      modifies this, heads, Cells()
      ensures Valid() && fresh(e) && e.x == x
      ensures rings == old(rings)[SlotOf(x) := old(rings)[SlotOf(x)] + [e]]
    {
      hide SlotOf;
      var b := SlotOf(x);
      ghost var s, all := rings[b], Cells();
      assert BucketOk(heads[b], rings[b], b);
      OthersHold(b);
      var cell := new Elem(x);
      e := cell;
      if heads[b] != null {
        Append(s, heads[b], cell);
      } else {
        heads[b] := cell;
        cell.next := cell;
        cell.prev := cell;
      }
      rings := rings[b := s + [e]];
      assert BucketOk(heads[b], rings[b], b);
      forall c | 0 <= c < |rings| && c != b ensures BucketOk(heads[c], rings[c], c) {
        assert old(BucketOk(heads[c], rings[c], c));
      }
    }

    /** hash_delete: unlinks the first cell with this value; 1 if there was one, otherwise 0. */
    method Delete(x: int) returns (ok: int)
      requires Valid()
      modifies this, heads, Cells()
      ensures Valid()
      ensures ok == if x in Values(old(rings)[SlotOf(x)]) then 1 else 0
      ensures ok == 0 ==> rings == old(rings)
      ensures ok == 1 ==> exists k ::
        && FirstAt(Values(old(rings)[SlotOf(x)]), x, k)
        && rings == old(rings)[SlotOf(x) := Without(old(rings)[SlotOf(x)], k)]
    {
      hide SlotOf, Without;
      var b := SlotOf(x);
      var e := Lookup(x);
      if e == null {
        return 0;
      }
      ghost var k :| 0 <= k < |rings[b]| && rings[b][k] == e && FirstAt(Values(rings[b]), x, k);
      DeleteCell(b, e, k);
      ok := 1;
    }

    method DeleteCell(b: nat, e: Elem, ghost k: nat)
      requires Valid() && b < heads.Length && k < |rings[b]| && rings[b][k] == e
      modifies this, heads, Cells()
      ensures Valid() && rings == old(rings)[b := Without(old(rings)[b], k)]
    {
      hide SlotOf, Ring, Distinct;
      ghost var s, all := rings[b], Cells();
      assert BucketOk(heads[b], rings[b], b);
      OthersHold(b);
      heads[b] := Remove(e, heads[b], s, k);
      rings := rings[b := Without(s, k)];
      assert BucketOk(heads[b], rings[b], b);
      forall c | 0 <= c < |rings| && c != b ensures BucketOk(heads[c], rings[c], c) {
        assert old(BucketOk(heads[c], rings[c], c));
      }
    }

    /** hash_clear: every bucket is walked around once and emptied. */
    method Clear()
      requires Valid()
      modifies this, heads
      ensures Valid() && forall b :: 0 <= b < |rings| ==> rings[b] == []
    {
      hide SlotOf;
      for b := 0 to heads.Length
        invariant Valid() && forall c :: 0 <= c < b ==> rings[c] == []
        invariant forall c :: b <= c < |rings| ==> rings[c] == old(rings)[c]
      {
        assert BucketOk(heads[b], rings[b], b);
        ghost var s := rings[b];
        if heads[b] != null {
          var cur, first := heads[b], heads[b];
          ghost var k := 0;
          while true
            invariant 0 <= k < |s| && cur == s[k]
            decreases |s| - k
          {
            cur := cur.next;
            k := k + 1;
            if cur == first {
              break;
            }
          }
          heads[b] := null;
        }
        rings := rings[b := []];
      }
    }
  }

  /** Position k is the first occurrence of x. */
  ghost predicate FirstAt(values: seq<int>, x: int, k: nat) {
    k < |values| && values[k] == x && x !in values[..k]
  }

  /** Deleting a value that was absent before it was inserted gives the old ring back. */
  lemma InsertThenDelete(s: seq<Elem>, e: Elem, k: nat)
    requires e.x !in Values(s) && FirstAt(Values(s + [e]), e.x, k)
    ensures k == |s| && Without(s + [e], k) == s
  {
    assert Values(s + [e]) == Values(s) + [e.x];
  }
}
