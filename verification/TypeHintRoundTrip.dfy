/** Exactly which type hints are read back from their printed form. */
module TypeHintRoundTrip {
  import opened Wrappers
  import opened TypeHints
  import opened TypeHintReread

  /** The hints that survive printing and parsing. Null and False print as names of classes; a
      union member is neither a union nor a bare bool, and only the last one may be nullable or a
      typed callable; what stands before "|false" is none of these, and bare bool only beside null. */
  predicate Canonical(h: Hint)
    decreases h, 0
  {
    match h
    case Primitive(p) => p != Null && p != False
    case Object | Instance(_) | Untyped => true
    case Wrapped(_, i) => Canonical(i)
    case Array(i) => Canonical(i)
    case Tuple(items) => AllCanonical(items)
    case Shape(fields, _) => FieldsCanonical(fields)
    case Callable(args, ret) => AllCanonical(args) && Canonical(ret)
    case Optional(i, n, f) => Canonical(i) && (f ==> Atom(i) && (i == Primitive(Bool) ==> n))
    case Pipe(items) => items.Cons? && items.tail.Cons? && Members(items) && NoneBool(items)
  }

  predicate AllCanonical(items: Hints)
    decreases items, 0
  {
    items.Cons? ==> Canonical(items.head) && AllCanonical(items.tail)
  }

  predicate FieldsCanonical(fields: Fields)
    decreases fields, 0
  {
    fields.Field? ==> Canonical(fields.hint) && FieldsCanonical(fields.more)
  }

  predicate Members(items: Hints)
    decreases items, 0
  {
    match items
    case Nil => true
    case Cons(h, Nil) => Canonical(h) && !h.Pipe? && !(h.Optional? && h.orFalse)
    case Cons(h, more) => Canonical(h) && Atom(h) && Members(more)
  }

  predicate NoneBool(items: Hints) {
    items.Cons? ==> items.head != Primitive(Bool) && NoneBool(items.tail)
  }

  // ----- canonical hints are read back -----

  function Ones(items: Hints): seq<Item> {
    match items case Nil => [] case Cons(h, more) => [One(h)] + Ones(more)
  }

  lemma {:induction false} CanonicalRereads(h: Hint)
    requires Proper(h) && Canonical(h)
    ensures Reread(h) == Some(h) && (Atom(h) ==> RereadAtom(h) == Some(h))
    decreases h, 2
  {
    if Atom(h) {
      RereadOfAtom(h);
    }
    match h
    case Wrapped(_, i) => CanonicalRereads(i);
    case Array(i) => CanonicalRereads(i);
    case Tuple(items) => AllReread(items);
    case Shape(fields, _) => FieldsReread(fields);
    case Callable(args, ret) =>
      AllReread(args);
      CanonicalRereads(ret);
    case Optional(i, n, f) =>
      CanonicalRereads(i);
      if f {
        SuffixedRereads(i, n);
      }
    case Pipe(items) => PipeRereads(items);
    case _ =>
  }

  lemma {:induction false} AllReread(items: Hints)
    requires AllProper(items) && AllCanonical(items)
    ensures RereadAll(items) == Some(items)
    decreases items, 0
  {
    hide Reread, Proper, Canonical;
    if items.Cons? {
      CanonicalRereads(items.head);
      AllReread(items.tail);
    }
  }

  lemma {:induction false} FieldsReread(fields: Fields)
    requires FieldsProper(fields) && FieldsCanonical(fields)
    ensures RereadFields(fields) == Some(fields)
    decreases fields, 0
  {
    hide Reread, Proper, Canonical;
    if fields.Field? {
      CanonicalRereads(fields.hint);
      FieldsReread(fields.more);
    }
  }

  lemma {:induction false} SuffixedRereads(i: Hint, n: bool)
    requires Atom(i) && RereadAtom(i) == Some(i) && i != NULL && i != FALSE && (i == Primitive(Bool) ==> n)
    ensures Reread(Optional(i, n, true)) == Some(Optional(i, n, true))
  {
    hide RereadAtom;
    AltsSuffixed(i, n, true, []);
    assert Alts(i, Ends(n, true) + []) == Some([One(i)] + (Ends(n, true) + []));
    hide Alts;
    SuffixedCombines(i, n);
    assert Ends(n, true) + [] == Ends(n, true);
  }

  lemma {:induction false} SuffixedCombines(i: Hint, n: bool)
    requires i != NULL && i != FALSE
    ensures Combine([One(i)] + Ends(n, true)) ==
            if i == Primitive(Bool) && !n then None else Some(MakeOptional(i, n, true))
  {
    var l := [One(i)] + Ends(n, true);
    assert |l| == if n then 3 else 2;
    assert l[0] == One(i) && l[1] == if n then One(NULL) else One(FALSE);
    if n {
      assert l[2] == One(FALSE);
      assert l[..2][1] == One(NULL);
    }
    assert HasFalse(l) by {
      assert l[|l| - 1].hint == FALSE;
    }
    if i == Primitive(Bool) && !n {
      assert l[0].raw && !HasNull(l);
    } else if !n {
      NoRaw(l);
    } else {
      assert l[1].hint == NULL && l[..2][1].hint == NULL;
      assert NoBareBool(l[..2]);
    }
  }

  lemma {:induction false} PipeRereads(items: Hints)
    requires AllProper(items) && items.Cons? && items.tail.Cons? && Members(items) && NoneBool(items)
    ensures Reread(Pipe(items)) == Some(Pipe(items))
    decreases items, 1
  {
    hide Alts;
    AltsOfMembers(items);
    OnesAre(items);
    AltsOfPipe(items, []);
    hide Simplified, NoBareBool;
    PipeCombines(items);
  }

  lemma AltsOfPipe(items: Hints, ts: seq<Item>)
    ensures Alts(Pipe(items), ts) == AltsAll(items, ts)
  {
  }

  lemma {:induction false} AltsOfMembers(items: Hints)
    requires items.Cons? && AllProper(items) && Members(items)
    ensures AltsAll(items, []) == Some(Ones(items))
    decreases items, 0
  {
    var h, more := items.head, items.tail;
    CanonicalRereads(h);
    if more == Nil {
      assert Ones(items) == [One(h)];
      AltsOfLast(h);
    } else {
      AltsOfMembers(more);
    }
  }

  /** A hint that ends a union stands there as one alternative. */
  lemma {:induction false} AltsOfLast(h: Hint)
    requires Reread(h) == Some(h) && !h.Pipe? && !(h.Optional? && h.orFalse) && (h.Optional? ==> h.orNull)
    ensures Alts(h, []) == Some([One(h)])
  {
    if Atom(h) {
      RereadOfAtom(h);
      assert [One(h)] + [] == [One(h)];
    }
  }

  lemma {:induction false} OnesAre(items: Hints)
    ensures ToHints(Ones(items)) == items
    ensures forall k :: 0 <= k < |Ones(items)| ==> Ones(items)[k] == One(Ones(items)[k].hint)
    ensures items.Cons? && items.tail.Cons? ==> |Ones(items)| >= 2
  {
    if items.Cons? {
      OnesAre(items.tail);
      assert Ones(items)[1..] == Ones(items.tail);
    }
  }

  lemma {:induction false} MembersArePlain(items: Hints)
    requires Members(items) && NoneBool(items)
    ensures forall k :: 0 <= k < |Ones(items)| ==>
      Ones(items)[k].hint != NULL && Ones(items)[k].hint != FALSE && !Ones(items)[k].raw
  {
    if items.Cons? {
      MembersArePlain(items.tail);
    }
  }

  lemma {:induction false} NoRaw(l: seq<Item>)
    requires forall k :: 0 <= k < |l| ==> !l[k].raw
    ensures NoBareBool(l)
    decreases |l|
  {
    if |l| >= 2 {
      NoRaw(l[..|l| - 1]);
    }
  }

  lemma {:induction false} PipeCombines(items: Hints)
    requires items.Cons? && items.tail.Cons? && Members(items) && NoneBool(items)
    ensures Combine(Ones(items)) == Some(Pipe(items))
  {
    hide Members, NoneBool, NoBareBool;
    MembersArePlain(items);
    NoRaw(Ones(items));
    OnesAre(items);
  }

  // ----- and no others -----

  /** What every alternative read from a printed hint looks like. */
  predicate Good(i: Item) {
    && i == One(i.hint) && !i.hint.Pipe?
    && (i.hint.Optional? ==> !i.hint.inner.Optional? && (i.hint.inner.Pipe? ==> i.hint.orNull))
  }

  predicate AllGood(l: seq<Item>) {
    forall k :: 0 <= k < |l| ==> Good(l[k])
  }

  lemma {:induction false} AltsAreGood(h: Hint, ts: seq<Item>)
    requires AllGood(ts) && Alts(h, ts).Some?
    ensures AllGood(Alts(h, ts).value)
    decreases h, 1
  {
    match h
    case Callable(_, _) =>
    case Optional(i, n, f) =>
      if !n || f {
        AltsSuffixed(i, n, f, ts);
        AltsAreGood(i, Ends(n, f) + ts);
      }
    case Pipe(items) => AllAltsAreGood(items, ts);
    case _ => AtomIsGood(h);
  }

  lemma {:induction false} AtomIsGood(h: Hint)
    requires Atom(h) && RereadAtom(h).Some?
    ensures Atom(RereadAtom(h).value)
  {
  }

  lemma {:induction false} AllAltsAreGood(items: Hints, ts: seq<Item>)
    requires AllGood(ts) && AltsAll(items, ts).Some?
    ensures AllGood(AltsAll(items, ts).value)
    decreases items, 0
  {
    if items.Cons? {
      if items.tail == Nil {
        AltsAreGood(items.head, ts);
      } else {
        AllAltsAreGood(items.tail, ts);
        AltsAreGood(items.head, AltsAll(items.tail, ts).value);
      }
    }
  }

  /** The first alternative is never null or false, and one that swallows is the only one. */
  predicate GoodStart(l: seq<Item>) {
    && l != [] && l[0].hint != NULL && l[0].hint != FALSE
    && (l[0].hint.Optional? || l[0].hint.Callable? ==> |l| == 1)
  }

  lemma {:induction false} AltsStart(h: Hint, ts: seq<Item>)
    requires Alts(h, ts).Some?
    ensures GoodStart(Alts(h, ts).value)
    decreases h, 1
  {
    match h
    case Callable(_, _) =>
    case Optional(i, n, f) =>
      if !n || f {
        AltsSuffixed(i, n, f, ts);
        AltsStart(i, Ends(n, f) + ts);
      }
    case Pipe(items) => AllAltsStart(items, ts);
    case _ => AtomIsGood(h);
  }

  lemma {:induction false} AllAltsStart(items: Hints, ts: seq<Item>)
    requires AltsAll(items, ts).Some?
    ensures GoodStart(AltsAll(items, ts).value)
    decreases items, 0
  {
    if items.Cons? {
      if items.tail == Nil {
        AltsStart(items.head, ts);
      } else {
        AltsStart(items.head, AltsAll(items.tail, ts).value);
      }
    }
  }

  // ----- weights: reading back never adds anything -----

  function Weight(h: Hint): (w: nat)
    ensures w >= 1 || h.Pipe?
    decreases h, 0
  {
    match h
    case Primitive(_) | Object | Instance(_) | Untyped => 1
    case Wrapped(_, i) => 1 + Weight(i)
    case Array(i) => 1 + Weight(i)
    case Tuple(items) => 1 + WeightAll(items)
    case Shape(fields, _) => 1 + WeightFields(fields)
    case Callable(args, ret) => 1 + WeightAll(args) + Weight(ret)
    case Optional(i, n, f) => Weight(i) + if n && f then 2 else 1
    case Pipe(items) => WeightAll(items)
  }

  function WeightAll(items: Hints): nat
    decreases items, 0
  {
    match items case Nil => 0 case Cons(h, more) => Weight(h) + WeightAll(more)
  }

  function WeightFields(fields: Fields): nat
    decreases fields, 0
  {
    match fields case NoField => 0 case Field(_, h, more) => Weight(h) + WeightFields(more)
  }

  function Total(l: seq<Item>): nat {
    if l == [] then 0 else Weight(l[0].hint) + Total(l[1..])
  }

  lemma {:induction false} TotalAppend(a: seq<Item>, b: seq<Item>)
    ensures Total(a + b) == Total(a) + Total(b)
  {
    if a == [] {
      assert a + b == b;
    } else {
      assert (a + b)[1..] == a[1..] + b;
      TotalAppend(a[1..], b);
    }
  }

  lemma {:induction false} OptionalWeight(x: Hint, n: bool, f: bool)
    requires n || f
    ensures Weight(MakeOptional(x, n, f)) <= Weight(x) + Count(n) + Count(f)
  {
    if x.Optional? {
      OptionalWeight(x.inner, x.orNull || n, x.orFalse || f);
    }
  }

  lemma {:induction false} PayloadWeight(l: seq<Item>)
    requires Payload(l).Some?
    ensures Weight(Payload(l).value) + Count(HasNull(l)) + Count(HasFalse(l)) <= Total(l)
  {
    EndsHead(l);
    if l[0].hint != NULL && l[0].hint != FALSE {
      EndsTotal(l[1..]);
    } else {
      PayloadWeight(l[1..]);
    }
  }

  lemma {:induction false} EndsHead(l: seq<Item>)
    requires l != []
    ensures HasNull(l) == (l[0].hint == NULL || HasNull(l[1..]))
    ensures HasFalse(l) == (l[0].hint == FALSE || HasFalse(l[1..]))
  {
    if k :| 0 <= k < |l| && l[k].hint == NULL {
      assert k > 0 ==> l[1..][k - 1].hint == NULL;
    }
    if k :| 0 <= k < |l| && l[k].hint == FALSE {
      assert k > 0 ==> l[1..][k - 1].hint == FALSE;
    }
  }

  lemma {:induction false} EndsTotal(l: seq<Item>)
    ensures Count(HasNull(l)) + Count(HasFalse(l)) <= Total(l)
  {
    if l != [] {
      EndsHead(l);
      EndsTotal(l[1..]);
    }
  }

  lemma {:induction false} ListWeight(l: seq<Item>)
    ensures WeightAll(ToHints(l)) == Total(l)
  {
    if l != [] {
      ListWeight(l[1..]);
    }
  }

  lemma {:induction false} CombineWeight(l: seq<Item>)
    requires l != [] && Combine(l).Some?
    ensures Weight(Combine(l).value) <= Total(l)
  {
    ListWeight(l);
    if Payload(l).Some? {
      PayloadWeight(l);
      if HasNull(l) || HasFalse(l) {
        OptionalWeight(Payload(l).value, HasNull(l), HasFalse(l));
      }
    }
  }

  lemma {:induction false} EndsWeight(n: bool, f: bool)
    ensures Total(Ends(n, f)) == Count(n) + Count(f)
  {
    var a := if n then [One(NULL)] else [];
    var b := if f then [One(FALSE)] else [];
    TotalAppend(a, b);
  }

  lemma {:induction false} AltsWeight(h: Hint, ts: seq<Item>)
    requires Alts(h, ts).Some?
    ensures Total(Alts(h, ts).value) <= Weight(h) + Total(ts)
    decreases h, 1
  {
    match h
    case Callable(args, ret) => CallableWeight(args, ret, ts);
    case Optional(i, n, f) =>
      if n && !f {
        NullableWeight(i, ts);
      } else {
        AltsSuffixed(i, n, f, ts);
        AltsWeight(i, Ends(n, f) + ts);
        EndsWeight(n, f);
        TotalAppend(Ends(n, f), ts);
      }
    case Pipe(items) => AllAltsWeight(items, ts);
    case _ =>
      AtomWeight(h);
      TotalAppend([One(RereadAtom(h).value)], ts);
  }

  lemma {:induction false} CallableWeight(args: Hints, ret: Hint, ts: seq<Item>)
    requires Alts(Callable(args, ret), ts).Some?
    ensures Total(Alts(Callable(args, ret), ts).value) <= Weight(Callable(args, ret)) + Total(ts)
    decreases Callable(args, ret), 0
  {
    hide Combine, RereadAll;
    RereadAllWeight(args);
    AltsWeight(ret, ts);
    CombineWeight(Alts(ret, ts).value);
  }

  lemma {:induction false} NullableWeight(i: Hint, ts: seq<Item>)
    requires Alts(Optional(i, true, false), ts).Some?
    ensures Total(Alts(Optional(i, true, false), ts).value) <= Weight(i) + 1 + Total(ts)
    decreases i, 2
  {
    hide Combine;
    AltsWeight(i, ts);
    CombineWeight(Alts(i, ts).value);
    OptionalWeight(Joined(Alts(i, ts)).value, true, false);
  }

  lemma {:induction false} AllAltsWeight(items: Hints, ts: seq<Item>)
    requires AltsAll(items, ts).Some?
    ensures Total(AltsAll(items, ts).value) <= WeightAll(items) + Total(ts)
    decreases items, 0
  {
    if items.Cons? {
      if items.tail == Nil {
        AltsWeight(items.head, ts);
      } else {
        AllAltsWeight(items.tail, ts);
        AltsWeight(items.head, AltsAll(items.tail, ts).value);
      }
    }
  }

  lemma {:induction false} RereadWeight(h: Hint)
    requires Reread(h).Some?
    ensures Weight(Reread(h).value) <= Weight(h)
    decreases h, 2
  {
    hide Alts, Combine;
    AltsWeight(h, []);
    CombineWeight(Alts(h, []).value);
  }

  lemma {:induction false} AtomWeight(h: Hint)
    requires Atom(h) && RereadAtom(h).Some?
    ensures Weight(RereadAtom(h).value) <= Weight(h)
    decreases h, 0
  {
    hide Reread;
    match h
    case Wrapped(_, i) => RereadWeight(i);
    case Array(i) => RereadWeight(i);
    case Tuple(items) => RereadAllWeight(items);
    case Shape(fields, _) => RereadFieldsWeight(fields);
    case _ =>
  }

  lemma {:induction false} RereadAllWeight(items: Hints)
    requires RereadAll(items).Some?
    ensures WeightAll(RereadAll(items).value) <= WeightAll(items)
    decreases items, 0
  {
    hide Reread;
    if items.Cons? {
      RereadWeight(items.head);
      RereadAllWeight(items.tail);
    }
  }

  lemma {:induction false} RereadFieldsWeight(fields: Fields)
    requires RereadFields(fields).Some?
    ensures WeightFields(RereadFields(fields).value) <= WeightFields(fields)
    decreases fields, 0
  {
    hide Reread;
    if fields.Field? {
      RereadWeight(fields.hint);
      RereadFieldsWeight(fields.more);
    }
  }

  // ----- only canonical hints are read back -----

  predicate GoodHint(h: Hint) {
    h.Optional? ==> !h.inner.Optional? && (h.inner.Pipe? ==> h.orNull)
  }

  lemma {:induction false} PayloadIsGood(l: seq<Item>)
    requires AllGood(l) && Payload(l).Some?
    ensures GoodHint(Payload(l).value) && !Payload(l).value.Pipe?
  {
    if l[0].hint == NULL || l[0].hint == FALSE {
      PayloadIsGood(l[1..]);
    } else {
      assert Good(l[0]);
    }
  }

  lemma {:induction false} CombineIsGood(l: seq<Item>)
    requires l != [] && AllGood(l) && Combine(l).Some?
    ensures GoodHint(Combine(l).value)
  {
    hide NoBareBool;
    assert Good(l[0]);
    if Payload(l).Some? {
      PayloadIsGood(l);
    }
  }

  /** A nullable type at the front has swallowed all the alternatives. */
  lemma {:induction false} Swallowed(h: Hint, ts: seq<Item>) returns (y: Hint)
    requires AllGood(ts) && Alts(h, ts).Some? && Alts(h, ts).value[0].hint.Optional?
    ensures Alts(h, ts).value[0].hint == MakeOptional(y, true, false) && GoodHint(y)
    ensures Weight(y) + 1 <= Weight(h) + Total(ts)
    decreases h, 1
  {
    hide Combine, MakeOptional;
    match h
    case Optional(i, n, f) =>
      if n && !f {
        y := Joined(Alts(i, ts)).value;
        AltsAreGood(i, ts);
        CombineIsGood(Alts(i, ts).value);
        AltsWeight(i, ts);
        CombineWeight(Alts(i, ts).value);
      } else {
        AltsSuffixed(i, n, f, ts);
        EndsWeight(n, f);
        TotalAppend(Ends(n, f), ts);
        y := Swallowed(i, Ends(n, f) + ts);
      }
    case Pipe(items) => y := AllSwallowed(items, ts);
    case Callable(_, _) => y := h;
    case _ =>
      AtomIsGood(h);
      y := h;
  }

  lemma {:induction false} AllSwallowed(items: Hints, ts: seq<Item>) returns (y: Hint)
    requires AllGood(ts) && AltsAll(items, ts).Some? && AltsAll(items, ts).value[0].hint.Optional?
    ensures AltsAll(items, ts).value[0].hint == MakeOptional(y, true, false) && GoodHint(y)
    ensures Weight(y) + 1 <= WeightAll(items) + Total(ts)
    decreases items, 0
  {
    hide MakeOptional;
    if items.tail == Nil {
      y := Swallowed(items.head, ts);
    } else {
      AllAltsAreGood(items.tail, ts);
      AllAltsWeight(items.tail, ts);
      y := Swallowed(items.head, AltsAll(items.tail, ts).value);
    }
  }

  lemma {:induction false} RereadsCanonical(h: Hint)
    requires Proper(h) && Reread(h) == Some(h)
    ensures Canonical(h)
    decreases h, 2
  {
    if Atom(h) {
      RereadOfAtom(h);
    }
    match h
    case Wrapped(_, i) => RereadsCanonical(i);
    case Array(i) => RereadsCanonical(i);
    case Tuple(items) => AllRereadCanonical(items);
    case Shape(fields, _) => FieldsRereadCanonical(fields);
    case Callable(args, ret) =>
      AllRereadCanonical(args);
      RereadsCanonical(ret);
    case Optional(i, n, f) =>
      if f {
        SuffixedCanonical(i, n);
      } else {
        NullableInner(i);
        RereadsCanonical(i);
      }
    case Pipe(items) => PipeCanonical(items);
    case _ =>
  }

  lemma {:induction false} AllRereadCanonical(items: Hints)
    requires AllProper(items) && RereadAll(items) == Some(items)
    ensures AllCanonical(items)
    decreases items, 0
  {
    hide Reread, Proper, Canonical;
    if items.Cons? {
      RereadsCanonical(items.head);
      AllRereadCanonical(items.tail);
    }
  }

  lemma {:induction false} FieldsRereadCanonical(fields: Fields)
    requires FieldsProper(fields) && RereadFields(fields) == Some(fields)
    ensures FieldsCanonical(fields)
    decreases fields, 0
  {
    hide Reread, Proper, Canonical;
    if fields.Field? {
      RereadsCanonical(fields.hint);
      FieldsRereadCanonical(fields.more);
    }
  }

  /** If "?i" is read as itself, i is. */
  lemma {:induction false} NullableInner(i: Hint)
    requires !i.Optional? && Reread(Optional(i, true, false)) == Some(Optional(i, true, false))
    ensures Reread(i) == Some(i)
  {
    var x := Reread(i).value;
    RereadWeight(i);
    AltsAreGood(i, []);
    hide Reread, Alts;
    if x.Optional? {
      CombineIsGood(Alts(i, []).value);
    }
  }

  lemma {:induction false} SuffixedCanonical(i: Hint, n: bool)
    requires Proper(i) && !i.Optional? && Reread(Optional(i, n, true)) == Some(Optional(i, n, true))
    ensures Canonical(i) && Atom(i) && (i == Primitive(Bool) ==> n)
    decreases i, 3
  {
    AltsSuffixed(i, n, true, []);
    assert Ends(n, true) + [] == Ends(n, true);
    if i.Pipe? {
      SuffixedPipe(i, n);
      assert false;
    } else if !i.Callable? {
      var x := RereadAtom(i).value;
      AtomIsGood(i);
      AltsStart(i, []);
      SuffixedCombines(x, n);
      RereadOfAtom(i);
      RereadsCanonical(i);
    }
  }

  /** A union before "|false" never comes back. */
  lemma {:induction false} SuffixedPipe(i: Hint, n: bool)
    requires i.Pipe? && Alts(i, Ends(n, true)).Some?
    ensures Combine(Alts(i, Ends(n, true)).value) != Some(Optional(i, n, true))
  {
    var l := Alts(i, Ends(n, true)).value;
    AltsStart(i, Ends(n, true));
    AltsAreGood(i, Ends(n, true));
    EndsWeight(n, true);
    if |l| == 1 && l[0].hint == Optional(i, n, true) {
      var y := Swallowed(i, Ends(n, true));
      assert false;
    } else {
      hide Alts, NoBareBool;
      assert Good(l[0]);
    }
  }

  lemma {:induction false} PipeCanonical(items: Hints)
    requires items.Cons? && AllProper(items) && Reread(Pipe(items)) == Some(Pipe(items))
    ensures Canonical(Pipe(items))
    decreases items, 1
  {
    AltsOfPipe(items, []);
    hide Alts;
    var l := AltsAll(items, []).value;
    AllAltsAreGood(items, []);
    assert Good(l[0]);
    PipeIsListed(items, l);
    MembersCanonical(items, l);
    NoBoolMember(items, l);
  }

  /** A union read as itself has its members as alternatives. */
  lemma {:induction false} PipeIsListed(items: Hints, l: seq<Item>)
    requires l != [] && !l[0].hint.Pipe? && Combine(l) == Some(Pipe(items))
    ensures |l| >= 2 && ToHints(l) == items && NoBareBool(l) && items.Cons? && items.tail.Cons?
  {
    assert |l| >= 2;
    assert ToHints(l) == items;
    assert ToHints(l[1..]) == items.tail;
  }

  lemma {:induction false} MembersCanonical(items: Hints, l: seq<Item>)
    requires items.Cons? && AllProper(items) && AltsAll(items, []) == Some(l) && ToHints(l) == items
    ensures Members(items)
    decreases items, 0
  {
    var h, more := items.head, items.tail;
    if more == Nil {
      assert ToHints(l[1..]) == Nil;
      assert |l| == 1;
      LastMember(h);
    } else {
      var m := AltsAll(more, []).value;
      AllAltsAreGood(items, []);
      AllAltsStart(items, []);
      assert Good(l[0]) && ToHints(l[1..]) == more;
      assert |l| >= 2;
      assert Atom(h);
      RereadOfAtom(h);
      assert l[1..] == m;
      RereadsCanonical(h);
      MembersCanonical(more, m);
    }
  }

  lemma {:induction false} LastMember(h: Hint)
    requires Proper(h) && Alts(h, []).Some? && |Alts(h, []).value| == 1 && Alts(h, []).value[0].hint == h
    ensures Canonical(h) && !h.Pipe? && !(h.Optional? && h.orFalse)
    decreases h, 3
  {
    AltsAreGood(h, []);
    assert Good(Alts(h, []).value[0]);
    RereadsCanonical(h);
    if h.Optional? && h.orFalse {
      SuffixedIsMany(h.inner, h.orNull);
    }
  }

  lemma {:induction false} SuffixedIsMany(i: Hint, n: bool)
    requires Proper(i) && Canonical(Optional(i, n, true))
    ensures Alts(Optional(i, n, true), []).Some? && |Alts(Optional(i, n, true), []).value| >= 2
  {
    CanonicalRereads(i);
    AltsSuffixed(i, n, true, []);
  }

  lemma {:induction false} NoBoolMember(items: Hints, l: seq<Item>)
    requires Members(items) && ToHints(l) == items && AllGood(l) && |l| >= 2 && NoBareBool(l)
    ensures NoneBool(items)
  {
    hide Members;
    if !NoneBool(items) {
      var k := BoolIsRaw(items, l);
      assert l[k].raw;
      NoNullMember(items, l);
    }
  }

  lemma {:induction false} BoolIsRaw(items: Hints, l: seq<Item>) returns (k: nat)
    requires ToHints(l) == items && AllGood(l) && !NoneBool(items)
    ensures k < |l| && l[k].raw
  {
    if items.head == Primitive(Bool) {
      k := 0;
      assert Good(l[0]);
    } else {
      k := BoolIsRaw(items.tail, l[1..]);
      k := k + 1;
    }
  }

  lemma {:induction false} NoNullMember(items: Hints, l: seq<Item>)
    requires Members(items) && ToHints(l) == items
    ensures !HasNull(l)
  {
    if l != [] {
      EndsHead(l);
      NoNullMember(items.tail, l[1..]);
    }
  }

  // ----- the round trip -----

  /** Parsing the printed form of a hint gives what Reread says, whatever the hint is. */
  lemma {:induction false} ParsePrint(h: Hint)
    requires Proper(h)
    ensures ParseExpression(Print(h), 0) == Hinted(Reread(h), |Print(h)|)
  {
    hide Print, ParseExpression, Reread;
    assert Print(h)[0..|Print(h)|] == Print(h);
    ExpressionIs(h, Print(h), 0);
  }

  /** A hint comes back from its printed form if and only if it is canonical. */
  lemma {:induction false} RoundTrip(h: Hint)
    requires Proper(h)
    ensures ParseExpression(Print(h), 0) == Ok(h, |Print(h)|) <==> Canonical(h)
  {
    hide Print, ParseExpression, Reread, Proper, Canonical;
    ParsePrint(h);
    if Canonical(h) {
      CanonicalRereads(h);
    } else if Reread(h) == Some(h) {
      RereadsCanonical(h);
    }
  }

  /** A printed union with a nullable member is read with that member around all that follow. */
  lemma {:induction false} NullableMemberDrifts(a: Hint, b: Hint)
    requires Proper(a) && Proper(b) && Canonical(Pipe(Cons(a, Cons(b, Nil)))) && Atom(b)
    ensures ParseExpression(Print(Pipe(Cons(Optional(a, true, false), Cons(b, Nil)))), 0)
         == Ok(Optional(Pipe(Cons(a, Cons(b, Nil))), true, false), |Print(a)| + |Print(b)| + 2)
  {
    hide ParseExpression, Print, Reread, Alts, Combine;
    var pair := Cons(a, Cons(b, Nil));
    assert Members(pair) && Members(Cons(b, Nil)) && NoneBool(pair);
    assert Canonical(a) && Canonical(b);
    hide Canonical, Members, NoneBool;
    var first := Optional(a, true, false);
    var h := Pipe(Cons(first, Cons(b, Nil)));
    assert AllProper(Cons(b, Nil)) && Proper(first);
    assert AllProper(h.items);
    ParsePrint(h);
    CanonicalRereads(a);
    CanonicalRereads(b);
    AtomAlts(a, [One(b)]);
    AtomAlts(b, []);
    assert [One(a)] + [One(b)] == Ones(pair) && [One(b)] + [] == [One(b)];
    PipeCombines(pair);
    NullableAlts(a, [One(b)], Pipe(pair));
    AltsPipe(b, Nil, []);
    AltsPipe(first, Cons(b, Nil), []);
    RereadOne(h);
    PrintedPair(a, b);
  }

  lemma AtomAlts(h: Hint, ts: seq<Item>)
    requires Atom(h) && RereadAtom(h) == Some(h)
    ensures Alts(h, ts) == Some([One(h)] + ts)
  {
    hide RereadAtom;
  }

  lemma NullableAlts(i: Hint, ts: seq<Item>, x: Hint)
    requires Joined(Alts(i, ts)) == Some(x) && !x.Optional?
    ensures Alts(Optional(i, true, false), ts) == Some([One(Optional(x, true, false))])
  {
  }

  lemma RereadOne(h: Hint)
    requires Alts(h, []).Some? && |Alts(h, []).value| == 1
    ensures Reread(h) == Some(Alts(h, []).value[0].hint)
  {
    hide Alts;
  }

  lemma PrintedPair(a: Hint, b: Hint)
    ensures |Print(Pipe(Cons(Optional(a, true, false), Cons(b, Nil))))| == |Print(a)| + |Print(b)| + 2
  {
    var items := Cons(Optional(a, true, false), Cons(b, Nil));
    assert PrintPipe(Cons(b, Nil)) == Print(b);
    assert PrintPipe(items) == Print(items.head) + [Or] + PrintPipe(items.tail);
  }

  /** A class with one of the reserved names does not come back. */
  lemma {:induction false} ReservedLost(name: string)
    requires Reserved(name)
    ensures ParseExpression(Print(Instance(name)), 0) != Ok(Instance(name), 1)
  {
    var t := [FuncName(name)];
    assert Print(Instance(name)) == t;
    ReservedRead(t, name);
    hide ParseSimple, Reserved, Print;
    var r := ParseSimple(t, 0);
    if r == Err {
      assert ParseArray(t, 0) == Err;
      assert ParseAlternatives(t, 0) == Err;
    } else {
      assert !Bracketed(t, 1) && Tk(t, 1) != Or;
      assert ParseArray(t, 0) == Ok(r.value, 1);
      assert ParseMore(t, 1) == Ok([], 1);
      assert ParseAlternatives(t, 0) == Ok([Item(r.value, false)] + [], 1);
    }
  }

  lemma {:induction false} ReservedRead(t: seq<Tok>, name: string)
    requires Reserved(name) && t == [FuncName(name)]
    ensures var r := ParseSimple(t, 0);
            r == Err || (r.Ok? && r.next == 1 && r.value.Primitive? && r.value != Primitive(Bool))
  {
    hide ParseExpression, ParseItems, ParseFields;
    assert ParseSimple(t, 0) == ParseNamed(t, 0, name);
    assert Tk(t, 1) == End;
    assert ParseNested(t, 1) == Err && ParseNestedOne(t, 1) == Err && ParseShape(t, 1) == Err;
    assert ParseTuple(t, 1) == Err;
    assert forall w :: ParseWrapped(t, 1, w) == Err;
  }
}
