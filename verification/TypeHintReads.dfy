/** The parser of type hints reads every written form as what it means, and reads nothing else. */
module TypeHintReads {
  import opened Wrappers
  import opened TypeHints
  import opened TypeHintReread
  import opened TypeHintGrammar

  /** Behind a type that ends here there is nothing that would belong to its last word. */
  predicate Ends(t: seq<Tok>, p: nat) {
    Tk(t, p) != Colon && Tk(t, p) != Lt && Tk(t, p) != OpPar
  }

  /** Nor brackets or another alternative. */
  predicate Rests(t: seq<Tok>, p: nat) {
    Ends(t, p) && Tk(t, p) != Or && !Bracketed(t, p)
  }

  function Place(w: Written, pos: nat): nat {
    pos + |Tokens(w)|
  }

  /** w stands at pos, and what follows does not belong to it. */
  predicate Stands(t: seq<Tok>, pos: nat, w: Written) {
    Placed(w) && At(t, pos, Tokens(w)) && Rests(t, Place(w, pos))
  }

  ghost function ItemsFor(ws: seq<Written>, hs: seq<Hint>): seq<Item>
    requires |ws| == |hs|
  {
    seq(|hs|, i requires 0 <= i < |hs| => Item(hs[i], ws[i] == Word(TBool)))
  }

  lemma EndsAt(t: seq<Tok>, p: nat)
    requires Tk(t, p) == Comma || Closes(Tk(t, p)) || Tk(t, p) == VarName
    ensures Rests(t, p)
  {
  }

  // ----- expressions -----

  lemma {:induction false} ExpressionReads(t: seq<Tok>, pos: nat, w: Written)
    requires Stands(t, pos, w)
    ensures ParseExpression(t, pos) == Hinted(Meaning(w), Place(w, pos))
    decreases w, 6
  {
    hide ParseAlternatives, Combine, Meaning, AllMeanings, Stands, Tokens, UnionHint, Alternatives;
    AlternativesRead(t, pos, w);
    MeaningIs(w);
    if AllMeanings(w).Some? {
      var hs := AllMeanings(w).value;
      var items := ItemsFor(Alternatives(w), hs);
      if w.Either? {
        TwoOrMore(w);
        CombineIs(items, Alternatives(w), hs);
      } else {
        CombineOne(items);
      }
    }
  }

  lemma CombineOne(items: seq<Item>)
    requires |items| == 1
    ensures Combine(items) == Some(items[0].hint)
  {
  }

  lemma TwoOrMore(w: Written)
    requires w.Either?
    ensures |Alternatives(w)| >= 2
  {
  }

  lemma MeaningIs(w: Written)
    ensures w.Either? ==>
              Meaning(w) == match AllMeanings(w) { case None => None case Some(hs) => UnionHint(Alternatives(w), hs) }
    ensures !w.Either? ==>
              && AllMeanings(w) == (match Meaning(w) { case None => None case Some(h) => Some([h]) })
              && Alternatives(w) == [w]
  {
    hide UnionHint;
  }

  lemma {:induction false} AlternativesRead(t: seq<Tok>, pos: nat, w: Written)
    requires Stands(t, pos, w)
    ensures ParseAlternatives(t, pos)
         == match AllMeanings(w) { case None => Err case Some(hs) => Ok(ItemsFor(Alternatives(w), hs), Place(w, pos)) }
    decreases w, 5
  {
    hide ParseArray, Meaning, Tokens, AllMeanings, Alternatives;
    if w.Either? {
      EitherRead(t, pos, w);
    } else {
      LastReads(t, pos, w);
      MeaningIs(w);
      OneAlternative(t, pos, Place(w, pos));
      if Meaning(w).Some? {
        LastToken(t, pos, w);
        assert ItemsFor([w], [Meaning(w).value]) == [Item(Meaning(w).value, w == Word(TBool))];
      }
    }
  }

  lemma {:induction false} EitherRead(t: seq<Tok>, pos: nat, w: Written)
    requires w.Either? && Stands(t, pos, w)
    ensures ParseAlternatives(t, pos)
         == match AllMeanings(w) { case None => Err case Some(hs) => Ok(ItemsFor(Alternatives(w), hs), Place(w, pos)) }
    decreases w, 4
  {
    hide ParseArray, Meaning, Tokens, ParseAlternatives, At, Placed, AllMeanings, Alternatives, Brackets, Rests;
    var e, p := w.e, Place(w.e, pos);
    EitherStands(t, pos, w);
    EndsAtOr(t, p);
    AltReads(t, pos, e);
    NoBrackets(t, p);
    AlternativesRead(t, p + 1, w.rest);
    EitherSplits(w);
    FirstAlternative(t, pos, p);
    if Meaning(e).Some? && AllMeanings(w.rest).Some? {
      LastToken(t, pos, e);
      ItemsSplit(e, Alternatives(w.rest), Meaning(e).value, AllMeanings(w.rest).value);
    }
  }

  lemma ItemsSplit(e: Written, ws: seq<Written>, h: Hint, hs: seq<Hint>)
    requires |ws| == |hs|
    ensures ItemsFor([e] + ws, [h] + hs) == [Item(h, e == Word(TBool))] + ItemsFor(ws, hs)
  {
  }

  lemma EndsAtOr(t: seq<Tok>, p: nat)
    requires Tk(t, p) == Or
    ensures Ends(t, p) && !Bracketed(t, p)
  {
  }

  lemma NoBrackets(t: seq<Tok>, p: nat)
    requires !Bracketed(t, p)
    ensures forall h :: Brackets(t, p, h) == Ok(h, p)
  {
  }

  lemma EitherSplits(w: Written)
    requires w.Either?
    ensures Alternatives(w) == [w.e] + Alternatives(w.rest)
    ensures AllMeanings(w) == match (Meaning(w.e), AllMeanings(w.rest)) {
                                case (Some(h), Some(hs)) => Some([h] + hs)
                                case _ => None
                              }
  {
  }

  /** A first alternative with others behind it. */
  lemma FirstAlternative(t: seq<Tok>, pos: nat, p: nat)
    ensures ParseArray(t, pos) == Err ==> ParseAlternatives(t, pos) == Err
    ensures ParseArray(t, pos).Ok? && ParseArray(t, pos).next == p && Tk(t, p) == Or ==>
              var h := ParseArray(t, pos).value;
              ParseAlternatives(t, pos) ==
                match ParseAlternatives(t, p + 1)
                case Err => Err
                case Ok(more, q) => Ok([Item(h, h == Primitive(Bool) && t[p - 1] == TBool)] + more, q)
  {
    hide ParseArray;
  }

  lemma OneAlternative(t: seq<Tok>, pos: nat, p: nat)
    ensures ParseArray(t, pos) == Err ==> ParseAlternatives(t, pos) == Err
    ensures ParseArray(t, pos).Ok? && ParseArray(t, pos).next == p && Tk(t, p) != Or ==>
              var h := ParseArray(t, pos).value;
              ParseAlternatives(t, pos) == Ok([Item(h, h == Primitive(Bool) && t[p - 1] == TBool)], p)
  {
    hide ParseArray;
    if ParseArray(t, pos).Ok? {
      var h := ParseArray(t, pos).value;
      assert [Item(h, h == Primitive(Bool) && t[ParseArray(t, pos).next - 1] == TBool)] + []
          == [Item(h, h == Primitive(Bool) && t[ParseArray(t, pos).next - 1] == TBool)];
    }
  }

  lemma {:induction false} EitherStands(t: seq<Tok>, pos: nat, w: Written)
    requires w.Either? && Stands(t, pos, w)
    ensures Placed(w.e) && !w.e.Either? && !OpenEnded(w.e) && At(t, pos, Tokens(w.e)) && Tk(t, Place(w.e, pos)) == Or
    ensures Stands(t, Place(w.e, pos) + 1, w.rest) && Place(w.rest, Place(w.e, pos) + 1) == Place(w, pos)
  {
    hide At, Tokens, Placed, Rests;
    EitherParts(w);
    AtSplit(t, pos, Tokens(w.e), [Or] + Tokens(w.rest));
    AtOne(t, Place(w.e, pos), Or, Tokens(w.rest));
  }

  lemma EitherParts(w: Written)
    requires w.Either?
    ensures Tokens(w) == Tokens(w.e) + ([Or] + Tokens(w.rest))
    ensures Placed(w) <==> !w.e.Either? && !OpenEnded(w.e) && Placed(w.e) && Placed(w.rest)
  {
  }

  /** Only the word bool ends with that word and means that type. */
  lemma {:induction false} LastToken(t: seq<Tok>, pos: nat, w: Written)
    requires Placed(w) && At(t, pos, Tokens(w)) && !w.Either? && Meaning(w).Some?
    ensures 0 < Place(w, pos) <= |t| && Tokens(w) != []
    ensures (Meaning(w).value == Primitive(Bool) && t[Place(w, pos) - 1] == TBool) <==> w == Word(TBool)
  {
    TokensEnd(w);
    assert t[Place(w, pos) - 1] == Tokens(w)[|Tokens(w)| - 1];
    hide Tokens, Meaning;
  }

  lemma TokensEnd(w: Written)
    requires Placed(w) && !w.Either? && Meaning(w).Some?
    ensures Tokens(w) != []
    ensures (Meaning(w).value == Primitive(Bool) && Tokens(w)[|Tokens(w)| - 1] == TBool) <==> w == Word(TBool)
  {
  }

  // ----- one alternative -----

  /** What is read before the brackets that follow. */
  function Bracketing(t: seq<Tok>, x: Option<Hint>, p: nat): Parsed<Hint> {
    match x case None => Err case Some(h) => Brackets(t, p, h)
  }

  lemma {:induction false} AltReads(t: seq<Tok>, pos: nat, w: Written)
    requires Placed(w) && !w.Either? && !OpenEnded(w) && At(t, pos, Tokens(w)) && Ends(t, Place(w, pos))
    ensures ParseArray(t, pos) == Bracketing(t, Meaning(w), Place(w, pos))
    decreases w, 2
  {
    hide ParseArray, ParseSimple, Meaning, Tokens, Brackets, At, Placed;
    if w.Bracket? {
      BracketStands(t, pos, w);
      AltReads(t, pos, w.e);
      BracketMeans(w);
      BracketsOne(t, Place(w.e, pos));
    } else {
      SimpleReads(t, pos, w);
      ArrayOfSimple(t, pos);
    }
  }

  lemma ArrayOfSimple(t: seq<Tok>, pos: nat)
    ensures ParseArray(t, pos)
         == match ParseSimple(t, pos) { case Err => Err case Ok(h, p) => Brackets(t, p, h) }
  {
    hide ParseSimple, Brackets;
  }

  lemma BracketMeans(w: Written)
    requires w.Bracket?
    ensures Meaning(w) == match Meaning(w.e) { case None => None case Some(h) => Some(Array(h)) }
  {
  }

  lemma {:induction false} BracketStands(t: seq<Tok>, pos: nat, w: Written)
    requires w.Bracket? && Placed(w) && At(t, pos, Tokens(w))
    ensures Placed(w.e) && !w.e.Either? && !OpenEnded(w.e) && At(t, pos, Tokens(w.e)) && Ends(t, Place(w.e, pos))
    ensures Bracketed(t, Place(w.e, pos)) && Place(w, pos) == Place(w.e, pos) + 2
  {
    hide At, Tokens, Placed;
    BracketParts(w);
    AtSplit(t, pos, Tokens(w.e), [OpBrk, ClBrk]);
    assert [OpBrk, ClBrk] == [OpBrk] + [ClBrk];
    AtOne(t, Place(w.e, pos), OpBrk, [ClBrk]);
    assert [ClBrk] == [ClBrk] + [];
    AtOne(t, Place(w.e, pos) + 1, ClBrk, []);
  }

  lemma BracketParts(w: Written)
    requires w.Bracket?
    ensures Tokens(w) == Tokens(w.e) + [OpBrk, ClBrk]
    ensures Placed(w) <==> !w.e.Either? && !OpenEnded(w.e) && Placed(w.e)
  {
  }

  lemma BracketsOne(t: seq<Tok>, p: nat)
    requires Bracketed(t, p)
    ensures forall h :: Brackets(t, p, h) == Brackets(t, p + 2, Array(h))
  {
  }

  lemma {:induction false} LastReads(t: seq<Tok>, pos: nat, w: Written)
    requires Stands(t, pos, w) && !w.Either?
    ensures ParseArray(t, pos) == Hinted(Meaning(w), Place(w, pos))
    decreases w, 3
  {
    hide ParseArray, ParseSimple, Meaning, Tokens, Brackets, At, Placed;
    NoBrackets(t, Place(w, pos));
    if OpenEnded(w) {
      OpenReads(t, pos, w);
      ArrayOfSimple(t, pos);
    } else {
      AltReads(t, pos, w);
    }
  }

  // ----- types without brackets -----

  lemma {:induction false} OpenReads(t: seq<Tok>, pos: nat, w: Written)
    requires Stands(t, pos, w) && OpenEnded(w)
    ensures ParseSimple(t, pos) == Hinted(Meaning(w), Place(w, pos))
    decreases w, 1
  {
    hide ParseSimple, ParseExpression, Meaning, Tokens, At, Placed, Rests;
    if w.Nullable? {
      NullableParts(w);
      AtOne(t, pos, Question, Tokens(w.e));
      ExpressionReads(t, pos + 1, w.e);
      NullableRuns(t, pos);
      if Meaning(w.e).Some? {
        WithIs(Meaning(w.e).value, true, false);
      }
    } else {
      FunctionToReads(t, pos, w);
    }
  }

  lemma NullableParts(w: Written)
    requires w.Nullable?
    ensures Tokens(w) == [Question] + Tokens(w.e) && Placed(w) == Placed(w.e)
    ensures Meaning(w) == match Meaning(w.e) { case None => None case Some(h) => Some(With(h, true, false)) }
  {
  }

  lemma NullableRuns(t: seq<Tok>, pos: nat)
    requires Tk(t, pos) == Question
    ensures ParseSimple(t, pos)
         == match ParseExpression(t, pos + 1) { case Err => Err case Ok(h, p) => Ok(MakeOptional(h, true, false), p) }
  {
    hide ParseExpression;
  }

  lemma {:induction false} SimpleReads(t: seq<Tok>, pos: nat, w: Written)
    requires Placed(w) && !w.Either? && !w.Bracket? && !OpenEnded(w) && At(t, pos, Tokens(w)) && Ends(t, Place(w, pos))
    ensures ParseSimple(t, pos) == Hinted(Meaning(w), Place(w, pos))
    decreases w, 1
  {
    hide ParseSimple, At;
    match w
    case Word(k) => WordReads(t, pos, k);
    case Named(name) => NameReads(t, pos, name);
    case InParens(e) => ParensRead(t, pos, e);
    case TupleOf(_, _, _, _) => TupleReads(t, pos, w);
    case ArrayOf(_, _, _) => ArrayReads(t, pos, w);
    case Around(_, _, _, _) => AroundReads(t, pos, w);
    case ShapeOf(_, _, _, _, _) => ShapeReads(t, pos, w);
    case Function(args) => FunctionReads(t, pos, w);
  }

  lemma {:induction false} WordReads(t: seq<Tok>, pos: nat, k: Tok)
    requires WordHint(k).Some? && At(t, pos, [k]) && Ends(t, pos + 1)
    ensures ParseSimple(t, pos) == Hinted(WordHint(k), pos + 1)
  {
    hide ParseExpression, ParseNamed, ParseTuple, ParseShape, ParseCallable, ParseArrayOf;
    assert t[pos..pos + 1][0] == k;
  }

  lemma {:induction false} NameReads(t: seq<Tok>, pos: nat, name: string)
    requires TypeName(name) && At(t, pos, [FuncName(name)])
    ensures ParseSimple(t, pos) == Ok(NameHint(name), pos + 1)
  {
    hide ParseExpression, ParseTuple, ParseShape, ParseCallable, ParseArrayOf, ParseWrapped, ParseNestedOne;
    assert t[pos..pos + 1][0] == FuncName(name);
    assert ParseSimple(t, pos) == ParseNamed(t, pos, name);
  }

  lemma {:induction false} ParensRead(t: seq<Tok>, pos: nat, e: Written)
    requires Placed(e) && At(t, pos, [OpPar] + (Tokens(e) + [ClPar]))
    ensures ParseSimple(t, pos) == Hinted(Meaning(e), pos + |Tokens(e)| + 2)
    decreases e, 8
  {
    hide ParseSimple, ParseExpression, Tokens, Meaning, At, Placed;
    AtOne(t, pos, OpPar, Tokens(e) + [ClPar]);
    InsideReads(t, pos + 1, e, ClPar);
    ParensRun(t, pos);
  }

  lemma ParensRun(t: seq<Tok>, pos: nat)
    requires Tk(t, pos) == OpPar
    ensures ParseSimple(t, pos) ==
            match ParseExpression(t, pos + 1) {
              case Err => Err
              case Ok(h, p) => if Tk(t, p) == ClPar then Ok(h, p + 1) else Err
            }
  {
    hide ParseExpression;
  }

  /** A type between an opening and a closing token. */
  lemma {:induction false} InsideReads(t: seq<Tok>, pos: nat, e: Written, close: Tok)
    requires Placed(e) && At(t, pos, Tokens(e) + [close]) && Closes(close)
    ensures ParseExpression(t, pos) == Hinted(Meaning(e), Place(e, pos)) && Tk(t, Place(e, pos)) == close
    decreases e, 7
  {
    hide ParseExpression, Tokens, Meaning, At, Placed, Rests;
    AtSplit(t, pos, Tokens(e), [close]);
    assert [close] == [close] + [];
    AtOne(t, Place(e, pos), close, []);
    EndsAt(t, Place(e, pos));
    ExpressionReads(t, pos, e);
  }

  // ----- lists -----

  function ListResult(x: Option<Hints>, p: nat): Parsed<Hints> {
    match x case None => Err case Some(l) => Ok(l, p)
  }

  lemma {:induction false} ListReads(t: seq<Tok>, pos: nat, l: List, close: Tok)
    requires ListPlaced(l) && At(t, pos, ListTokens(l) + [close]) && Closes(close)
    ensures ParseItems(t, pos) == ListResult(ListMeaning(l), pos + |ListTokens(l)| + 1)
    decreases l, 7
  {
    hide *;
    var e := l.e;
    var p := pos + |Tokens(e)|;
    ListUnfolds(l, close);
    if l.Last? {
      InsideReads(t, pos, e, close);
    } else {
      var more := ListTokens(l.rest) + [close];
      AtSplit(t, pos, Tokens(e), [Comma] + more);
      AtOne(t, p, Comma, more);
      EndsAt(t, p);
      ReadsBefore(t, pos, e);
      ListReads(t, p + 1, l.rest, close);
    }
    PlaceIs(e, pos);
    ListConcludes(t, pos, l, close);
  }

  lemma PlaceIs(e: Written, pos: nat)
    ensures Place(e, pos) == pos + |Tokens(e)|
  {
  }

  lemma {:induction false} ReadsBefore(t: seq<Tok>, pos: nat, e: Written)
    requires Placed(e) && At(t, pos, Tokens(e)) && Rests(t, pos + |Tokens(e)|)
    ensures ParseExpression(t, pos) == Hinted(Meaning(e), pos + |Tokens(e)|)
    decreases e, 7
  {
    hide ParseExpression, Tokens, Meaning, At, Placed, Rests;
    ExpressionReads(t, pos, e);
  }

  lemma {:induction false} ListConcludes(t: seq<Tok>, pos: nat, l: List, close: Tok)
    requires ParseExpression(t, pos) == Hinted(Meaning(l.e), pos + |Tokens(l.e)|) && Closes(close)
    requires l.Last? ==> Tk(t, pos + |Tokens(l.e)|) == close
    requires l.More? ==>
               && Tk(t, pos + |Tokens(l.e)|) == Comma
               && ParseItems(t, pos + |Tokens(l.e)| + 1)
               == ListResult(ListMeaning(l.rest), pos + |Tokens(l.e)| + 1 + |ListTokens(l.rest)| + 1)
    ensures ParseItems(t, pos) == ListResult(ListMeaning(l), pos + |ListTokens(l)| + 1)
  {
    hide ParseExpression, ParseItems, Tokens, Meaning, ListTokens, ListMeaning;
    ListUnfolds(l, close);
    ItemsStep(t, pos, pos + |Tokens(l.e)|);
  }

  lemma ListUnfolds(l: List, close: Tok)
    ensures ListPlaced(l) ==> Placed(l.e) && (l.More? ==> ListPlaced(l.rest))
    ensures l.Last? ==>
              && ListTokens(l) == Tokens(l.e)
              && ListMeaning(l) == match Meaning(l.e) { case None => None case Some(h) => Some(Cons(h, Nil)) }
    ensures l.More? ==>
              && ListTokens(l) + [close] == Tokens(l.e) + ([Comma] + (ListTokens(l.rest) + [close]))
              && |ListTokens(l)| == |Tokens(l.e)| + 1 + |ListTokens(l.rest)|
              && ListMeaning(l) == match (Meaning(l.e), ListMeaning(l.rest)) {
                                     case (Some(h), Some(hs)) => Some(Cons(h, hs))
                                     case _ => None
                                   }
  {
    hide Tokens, Meaning;
  }

  lemma ItemsStep(t: seq<Tok>, pos: nat, p: nat)
    ensures ParseExpression(t, pos) == Err ==> ParseItems(t, pos) == Err
    ensures ParseExpression(t, pos).Ok? && ParseExpression(t, pos).next == p && Closes(Tk(t, p)) ==>
              ParseItems(t, pos) == Ok(Cons(ParseExpression(t, pos).value, Nil), p + 1)
    ensures ParseExpression(t, pos).Ok? && ParseExpression(t, pos).next == p && Tk(t, p) == Comma ==>
              ParseItems(t, pos) ==
                match ParseItems(t, p + 1)
                case Err => Err
                case Ok(more, q) => Ok(Cons(ParseExpression(t, pos).value, more), q)
  {
    hide ParseExpression;
  }

  lemma {:induction false} NestedReads(t: seq<Tok>, pos: nat, open: Tok, l: List, close: Tok)
    requires ListPlaced(l) && Pair(open, close) && At(t, pos, [open] + (ListTokens(l) + [close]))
    ensures ParseNested(t, pos) == ListResult(ListMeaning(l), pos + |ListTokens(l)| + 2)
    decreases l, 8
  {
    hide ParseItems, ListTokens, ListMeaning, At, ListPlaced;
    AtOne(t, pos, open, ListTokens(l) + [close]);
    ListReads(t, pos + 1, l, close);
  }

  lemma {:induction false} TupleReads(t: seq<Tok>, pos: nat, w: Written)
    requires w.TupleOf? && Placed(w) && At(t, pos, Tokens(w))
    ensures ParseSimple(t, pos) == Hinted(Meaning(w), Place(w, pos))
    decreases w, 0
  {
    hide ParseSimple, ParseNested, Tokens, Placed, Meaning, ListTokens, ListMeaning, ListPlaced, At;
    TupleParts(w);
    AtOne(t, pos, w.head, [w.open] + (ListTokens(w.items) + [w.close]));
    NestedReads(t, pos + 1, w.open, w.items, w.close);
    TupleRuns(t, pos);
  }

  lemma TupleParts(w: Written)
    requires w.TupleOf?
    ensures Tokens(w) == [w.head] + ([w.open] + (ListTokens(w.items) + [w.close]))
    ensures Placed(w) <==>
            (w.head == TTuple || w.head == FuncName("\\tuple")) && Pair(w.open, w.close) && ListPlaced(w.items)
    ensures Meaning(w) == match ListMeaning(w.items) { case None => None case Some(l) => Some(Tuple(l)) }
  {
  }

  lemma TupleRuns(t: seq<Tok>, pos: nat)
    requires Tk(t, pos) == TTuple || Tk(t, pos) == FuncName("\\tuple")
    ensures ParseSimple(t, pos) == match ParseNested(t, pos + 1) { case Err => Err case Ok(l, p) => Ok(Tuple(l), p) }
  {
    hide ParseNested, ParseExpression, ParseShape, ParseCallable, ParseArrayOf, ParseWrapped, ParseNestedOne;
    if Tk(t, pos) != TTuple {
      assert ParseSimple(t, pos) == ParseNamed(t, pos, "\\tuple") == ParseTuple(t, pos + 1);
    }
  }

  /** A list of one or two types for an array, of which the last counts. */
  lemma {:induction false} ArrayMeans(w: Written)
    requires w.ArrayOf?
    ensures Meaning(w) == match ListMeaning(w.items) {
                            case Some(Cons(h, Nil)) => Some(Array(h))
                            case Some(Cons(_, Cons(h, Nil))) => Some(Array(h))
                            case _ => None
                          }
  {
    var l := w.items;
    if l.More? {
      assert ListMeaning(l).Some? ==> ListMeaning(l.rest).Some?;
      if l.rest.More? {
        assert ListMeaning(l.rest).Some? ==> ListMeaning(l.rest.rest).Some? && ListMeaning(l.rest).value.tail.Cons?;
      }
    }
  }

  lemma {:induction false} ArrayReads(t: seq<Tok>, pos: nat, w: Written)
    requires w.ArrayOf? && Placed(w) && At(t, pos, Tokens(w))
    ensures ParseSimple(t, pos) == Hinted(Meaning(w), Place(w, pos))
    decreases w, 0
  {
    hide ParseSimple, ParseNested, Tokens, Placed, Meaning, ListTokens, ListMeaning, ListPlaced, At;
    ArrayParts(w);
    AtOne(t, pos, TArray, [w.open] + (ListTokens(w.items) + [w.close]));
    AtOne(t, pos + 1, w.open, ListTokens(w.items) + [w.close]);
    NestedReads(t, pos + 1, w.open, w.items, w.close);
    ArrayMeans(w);
    ArrayRuns(t, pos);
  }

  lemma ArrayParts(w: Written)
    requires w.ArrayOf?
    ensures Tokens(w) == [TArray] + ([w.open] + (ListTokens(w.items) + [w.close]))
    ensures Placed(w) <==> Pair(w.open, w.close) && ListPlaced(w.items)
  {
  }

  lemma ArrayRuns(t: seq<Tok>, pos: nat)
    requires Tk(t, pos) == TArray && Opens(Tk(t, pos + 1))
    ensures ParseSimple(t, pos) == match ParseNested(t, pos + 1) {
                                     case Ok(Cons(h, Nil), p) => Ok(Array(h), p)
                                     case Ok(Cons(_, Cons(h, Nil)), p) => Ok(Array(h), p)
                                     case _ => Err
                                   }
  {
    hide ParseNested, ParseExpression, ParseShape, ParseCallable, ParseTuple, ParseNamed;
  }

  lemma {:induction false} AroundReads(t: seq<Tok>, pos: nat, w: Written)
    requires w.Around? && Placed(w) && At(t, pos, Tokens(w))
    ensures ParseSimple(t, pos) == Hinted(Meaning(w), Place(w, pos))
    decreases w, 0
  {
    hide ParseSimple, ParseNestedOne, ParseExpression, Tokens, Placed, At, Meaning, AroundHint;
    AroundParts(w);
    AtOne(t, pos, FuncName(w.name), [w.open] + (Tokens(w.e) + [w.close]));
    AtOne(t, pos + 1, w.open, Tokens(w.e) + [w.close]);
    InsideReads(t, pos + 2, w.e, w.close);
    OneStep(t, pos + 1);
    AroundStep(t, pos, w.name);
    if Meaning(w.e).Some? {
      AroundAlways(w.name, Meaning(w.e).value);
    }
  }

  lemma AroundParts(w: Written)
    requires w.Around?
    ensures Tokens(w) == [FuncName(w.name)] + ([w.open] + (Tokens(w.e) + [w.close]))
    ensures Meaning(w) == match Meaning(w.e) { case None => None case Some(h) => AroundHint(w.name, h) }
    ensures Placed(w) <==> AroundHint(w.name, Object).Some? && Pair(w.open, w.close) && Placed(w.e)
  {
  }

  lemma AroundAlways(name: string, h: Hint)
    ensures AroundHint(name, Object).Some? <==> AroundHint(name, h).Some?
  {
  }

  lemma OneStep(t: seq<Tok>, pos: nat)
    requires Opens(Tk(t, pos))
    ensures ParseNestedOne(t, pos) ==
            match ParseExpression(t, pos + 1) {
              case Err => Err
              case Ok(h, p) => if Closes(Tk(t, p)) then Ok(h, p + 1) else Err
            }
  {
    hide ParseExpression;
  }

  lemma AroundStep(t: seq<Tok>, pos: nat, name: string)
    requires Tk(t, pos) == FuncName(name) && AroundHint(name, Object).Some?
    ensures ParseSimple(t, pos) ==
            match ParseNestedOne(t, pos + 1) { case Err => Err case Ok(h, p) => Hinted(AroundHint(name, h), p) }
  {
    hide ParseNestedOne, ParseExpression, ParseShape, ParseCallable, ParseArrayOf, ParseTuple;
    assert ParseSimple(t, pos) == ParseNamed(t, pos, name);
  }

  // ----- callables -----

  lemma FirstToken(w: Written)
    requires Placed(w)
    ensures Tokens(w) != [] && Tokens(w)[0] != ClPar && Tokens(w)[0] != Varg
    decreases w
  {
    if w.Bracket? || w.Either? {
      FirstToken(w.e);
    }
  }

  lemma ArgsUnfold(a: Args)
    requires a.Arg?
    ensures ArgsPlaced(a) ==> Placed(a.e) && ArgsPlaced(a.rest) && (a.rest.Arg? ==> a.comma)
    ensures ArgsTokens(a) + [ClPar] == Tokens(a.e) + (Separator(a.named, a.comma) + (ArgsTokens(a.rest) + [ClPar]))
    ensures |ArgsTokens(a)| == |Tokens(a.e)| + |Separator(a.named, a.comma)| + |ArgsTokens(a.rest)|
    ensures ArgsMeaning(a) == match (Meaning(a.e), ArgsMeaning(a.rest)) {
                                case (Some(h), Some(hs)) => Some(Cons(h, hs))
                                case _ => None
                              }
  {
    hide Tokens, Meaning, Separator;
    Regroup(Tokens(a.e), Separator(a.named, a.comma), ArgsTokens(a.rest), [ClPar]);
  }

  lemma Regroup<T>(a: seq<T>, b: seq<T>, c: seq<T>, d: seq<T>)
    ensures a + (b + c) + d == a + (b + (c + d))
  {
  }

  lemma {:induction false} ArgsRead(t: seq<Tok>, pos: nat, a: Args)
    requires ArgsPlaced(a) && At(t, pos, ArgsTokens(a) + [ClPar])
    ensures ParseArguments(t, pos) == ListResult(ArgsMeaning(a), pos + |ArgsTokens(a)| + 1)
    ensures Tk(t, pos + |ArgsTokens(a)|) == ClPar
    decreases a, 7
  {
    hide ParseExpression, ParseArguments, Tokens, Meaning, Placed, ArgsTokens, ArgsMeaning, Rests, At, Separator;
    if a.NoArgs? {
      NoArgsRead(t, pos);
    } else {
      var p := Place(a.e, pos);
      var q := p + |Separator(a.named, a.comma)|;
      ArgsUnfold(a);
      ArgStands(t, pos, a);
      ArgsRead(t, q, a.rest);
      NoTokens();
      SeparatorStands(t, p, a.named, a.comma);
      ExpressionReads(t, pos, a.e);
      ArgumentStep(t, pos, p, q, a.comma);
    }
  }

  lemma {:induction false} ArgStands(t: seq<Tok>, pos: nat, a: Args)
    requires a.Arg? && Placed(a.e) && At(t, pos, ArgsTokens(a) + [ClPar])
    ensures var p := Place(a.e, pos);
            && At(t, pos, Tokens(a.e)) && At(t, p, Separator(a.named, a.comma)) && Tk(t, pos) != ClPar
            && At(t, p + |Separator(a.named, a.comma)|, ArgsTokens(a.rest) + [ClPar])
  {
    hide Tokens, Placed, ArgsTokens, At, Separator;
    ArgsUnfold(a);
    FirstToken(a.e);
    AtSplit(t, pos, Tokens(a.e), Separator(a.named, a.comma) + (ArgsTokens(a.rest) + [ClPar]));
    FirstAt(t, pos, Tokens(a.e));
    AtSplit(t, Place(a.e, pos), Separator(a.named, a.comma), ArgsTokens(a.rest) + [ClPar]);
  }

  lemma NoTokens()
    ensures ArgsTokens(NoArgs) == []
  {
  }

  lemma FirstAt(t: seq<Tok>, pos: nat, s: seq<Tok>)
    requires At(t, pos, s) && s != []
    ensures Tk(t, pos) == s[0]
  {
    assert t[pos] == t[pos..pos + |s|][0];
  }

  lemma NoArgsRead(t: seq<Tok>, pos: nat)
    requires At(t, pos, ArgsTokens(NoArgs) + [ClPar])
    ensures |ArgsTokens(NoArgs)| == 0 && Tk(t, pos) == ClPar && ArgsMeaning(NoArgs) == Some(Nil)
    ensures ParseArguments(t, pos) == Ok(Nil, pos + 1)
  {
    assert ArgsTokens(NoArgs) + [ClPar] == [ClPar] + [];
    AtOne(t, pos, ClPar, []);
  }

  /** The place behind the name and the comma. */
  lemma {:induction false} SeparatorStands(t: seq<Tok>, p: nat, named: bool, comma: bool)
    requires At(t, p, Separator(named, comma)) && (!comma ==> Tk(t, p + |Separator(named, comma)|) == ClPar)
    ensures Rests(t, p)
    ensures var q := SkipName(t, p);
            if comma then Tk(t, q) == Comma && q + 1 == p + |Separator(named, comma)|
            else Tk(t, q) == ClPar && q == p + |Separator(named, comma)|
  {
    var s := Separator(named, comma);
    assert forall i :: 0 <= i < |s| ==> t[p..p + |s|][i] == s[i];
    if named {
      assert t[p] == VarName;
      if comma {
        assert t[p + 1] == Comma;
      }
    } else if comma {
      assert t[p] == Comma;
    }
    EndsAt(t, p);
    hide Rests;
  }

  lemma ArgumentStep(t: seq<Tok>, pos: nat, p: nat, q: nat, comma: bool)
    requires Tk(t, pos) != ClPar
    ensures ParseExpression(t, pos) == Err ==> ParseArguments(t, pos) == Err
    ensures ParseExpression(t, pos).Ok? && ParseExpression(t, pos).next == p &&
            (if comma then Tk(t, SkipName(t, p)) == Comma && SkipName(t, p) + 1 == q
             else Tk(t, SkipName(t, p)) == ClPar && SkipName(t, p) == q) ==>
              ParseArguments(t, pos) ==
                match ParseArguments(t, q)
                case Err => Err
                case Ok(more, e) => Ok(Cons(ParseExpression(t, pos).value, more), e)
  {
    hide ParseExpression;
  }

  lemma {:induction false} FunctionReads(t: seq<Tok>, pos: nat, w: Written)
    requires w.Function? && Placed(w) && At(t, pos, Tokens(w)) && Ends(t, Place(w, pos))
    ensures ParseSimple(t, pos) == Hinted(Meaning(w), Place(w, pos))
    decreases w, 0
  {
    hide ParseSimple, ParseArguments, ParseExpression, Tokens, Placed, Meaning, ArgsTokens, ArgsMeaning, ArgsPlaced, At;
    FunctionParts(w);
    AtOne(t, pos, TCallable, [OpPar] + (ArgsTokens(w.args) + [ClPar]));
    AtOne(t, pos + 1, OpPar, ArgsTokens(w.args) + [ClPar]);
    ArgsRead(t, pos + 2, w.args);
    CallableRuns(t, pos);
  }

  lemma FunctionParts(w: Written)
    requires w.Function?
    ensures Tokens(w) == [TCallable] + ([OpPar] + (ArgsTokens(w.args) + [ClPar])) && Placed(w) == ArgsPlaced(w.args)
    ensures Meaning(w)
         == match ArgsMeaning(w.args) { case None => None case Some(l) => Some(Callable(l, Primitive(Void))) }
  {
  }

  lemma CallableRuns(t: seq<Tok>, pos: nat)
    requires Tk(t, pos) == TCallable && Tk(t, pos + 1) == OpPar
    ensures ParseSimple(t, pos) ==
            match ParseArguments(t, pos + 2) {
              case Err => Err
              case Ok(args, p) =>
                if Tk(t, p) != Colon then Ok(Callable(args, Primitive(Void)), p)
                else match ParseExpression(t, p + 1) { case Err => Err case Ok(ret, q) => Ok(Callable(args, ret), q) }
            }
  {
    hide ParseArguments, ParseExpression, ParseShape, ParseTuple, ParseArrayOf, ParseNamed;
  }

  lemma {:induction false} FunctionToReads(t: seq<Tok>, pos: nat, w: Written)
    requires w.FunctionTo? && Stands(t, pos, w)
    ensures ParseSimple(t, pos) == Hinted(Meaning(w), Place(w, pos))
    decreases w, 0
  {
    hide ParseSimple, ParseArguments, ParseExpression, ArgsTokens, ArgsMeaning, At, Rests, Tokens, Stands, Meaning;
    FunctionToStands(t, pos, w);
    var p := pos + 2 + |ArgsTokens(w.args)| + 1;
    ArgsRead(t, pos + 2, w.args);
    ExpressionReads(t, p + 1, w.ret);
    FunctionToMeans(w);
    CallableRuns(t, pos);
  }

  lemma FunctionToMeans(w: Written)
    requires w.FunctionTo?
    ensures Meaning(w) == match (ArgsMeaning(w.args), Meaning(w.ret)) {
                            case (Some(l), Some(h)) => Some(Callable(l, h))
                            case _ => None
                          }
  {
  }

  lemma {:induction false} FunctionToStands(t: seq<Tok>, pos: nat, w: Written)
    requires w.FunctionTo? && Stands(t, pos, w)
    ensures var p := pos + 2 + |ArgsTokens(w.args)| + 1;
            && ArgsPlaced(w.args) && At(t, pos + 2, ArgsTokens(w.args) + [ClPar])
            && Tk(t, pos) == TCallable && Tk(t, pos + 1) == OpPar && Tk(t, p) == Colon && Stands(t, p + 1, w.ret)
            && Place(w, pos) == Place(w.ret, p + 1)
  {
    hide At, Tokens, ArgsTokens, ArgsPlaced, Rests, Placed;
    FunctionToTokens(w);
    var args, ret := ArgsTokens(w.args) + [ClPar], Tokens(w.ret);
    AtOne(t, pos, TCallable, [OpPar] + (args + ([Colon] + ret)));
    AtOne(t, pos + 1, OpPar, args + ([Colon] + ret));
    AtSplit(t, pos + 2, args, [Colon] + ret);
    AtOne(t, pos + 2 + |args|, Colon, ret);
  }

  lemma FunctionToTokens(w: Written)
    requires w.FunctionTo?
    ensures Placed(w) <==> ArgsPlaced(w.args) && Placed(w.ret)
    ensures Tokens(w) == [TCallable] + ([OpPar] + ((ArgsTokens(w.args) + [ClPar]) + ([Colon] + Tokens(w.ret))))
  {
  }

  // ----- shapes -----

  /** What stands between the last field and the closing token, and that token. */
  function Tail(dots: bool, close: Tok): seq<Tok> {
    (if dots then [Comma, Varg] else []) + [close]
  }

  function KeysResult(x: Option<Fields>, dots: bool, p: nat): Parsed<(Fields, bool)> {
    match x case None => Err case Some(l) => Ok((l, dots), p)
  }

  /** A field, and its type. */
  function FieldTokens(f: Keys): seq<Tok> {
    [f.key] + (Mark(f.mark) + ([Colon] + Tokens(f.e)))
  }

  lemma KeysUnfold(f: Keys, rest: seq<Tok>)
    ensures KeysPlaced(f) <==> Placed(f.e) && (f.MoreKeys? ==> KeysPlaced(f.rest) && f.rest.key != Varg)
    ensures KeysTokens(f) + rest
         == FieldTokens(f) + if f.MoreKeys? then [Comma] + (KeysTokens(f.rest) + rest) else rest
    ensures |KeysTokens(f)| == |FieldTokens(f)| + if f.MoreKeys? then 1 + |KeysTokens(f.rest)| else 0
  {
    hide Tokens, Mark;
    if f.MoreKeys? {
      Regroup(FieldTokens(f), [Comma], KeysTokens(f.rest), rest);
    }
  }

  lemma FieldLength(f: Keys)
    ensures |FieldTokens(f)| == |Tokens(f.e)| + 2 + |Mark(f.mark)| && FieldTokens(f)[0] == f.key
  {
    hide Tokens, Mark;
  }

  lemma KeysMean(f: Keys)
    ensures KeysMeaning(f) ==
            match KeyMeaning(f.mark, f.e) {
              case None => None
              case Some(h) =>
                if f.LastKey? then Some(Field(Spelling(f.key), h, NoField))
                else match KeysMeaning(f.rest) { case None => None case Some(l) => Some(Field(Spelling(f.key), h, l)) }
            }
  {
    hide KeyMeaning, Spelling;
  }

  ghost function FieldResult(f: Keys, p: nat): Parsed<(string, Hint)> {
    match KeyMeaning(f.mark, f.e) case None => Err case Some(h) => Ok((Spelling(f.key), h), p)
  }

  lemma {:induction false} FieldReads(t: seq<Tok>, pos: nat, f: Keys)
    requires Placed(f.e) && At(t, pos, FieldTokens(f)) && Rests(t, pos + |FieldTokens(f)|)
    ensures ParseField(t, pos) == FieldResult(f, pos + |FieldTokens(f)|)
    decreases f, 7
  {
    hide *;
    var q := pos + 1 + |Mark(f.mark)|;
    FieldLength(f);
    FieldStands(t, pos, f);
    ReadsBefore(t, q + 1, f.e);
    FieldRuns(t, pos, q);
    FieldConcludes(t, pos, f, q);
  }

  lemma {:induction false} FieldStands(t: seq<Tok>, pos: nat, f: Keys)
    requires At(t, pos, FieldTokens(f))
    ensures var q := pos + 1 + |Mark(f.mark)|;
            && Tk(t, pos) == f.key && f.mark == (Tk(t, pos + 1) == Question) && Tk(t, q) == Colon
            && q == (if Tk(t, pos + 1) == Question then pos + 2 else pos + 1) && At(t, q + 1, Tokens(f.e))
  {
    hide At, Tokens;
    AtOne(t, pos, f.key, Mark(f.mark) + ([Colon] + Tokens(f.e)));
    AtSplit(t, pos + 1, Mark(f.mark), [Colon] + Tokens(f.e));
    AtOne(t, pos + 1 + |Mark(f.mark)|, Colon, Tokens(f.e));
    if f.mark {
      assert Mark(f.mark) == [Question] + [];
      AtOne(t, pos + 1, Question, []);
    }
  }

  lemma {:induction false} FieldConcludes(t: seq<Tok>, pos: nat, f: Keys, q: nat)
    requires Tk(t, pos) == f.key && f.mark == (q == pos + 2)
    requires ParseExpression(t, q + 1) == Hinted(Meaning(f.e), q + 1 + |Tokens(f.e)|)
    requires ParseField(t, pos) ==
             match ParseExpression(t, q + 1) {
               case Err => Err
               case Ok(h, p) =>
                 Ok((TypeHints.Text(Tk(t, pos)), if q == pos + 2 then MakeOptional(h, true, false) else h), p)
             }
    ensures ParseField(t, pos) == FieldResult(f, q + 1 + |Tokens(f.e)|)
  {
    hide ParseField, ParseExpression, Tokens, Meaning, Spelling, With, MakeOptional, Tk;
    SpellingIs(f.key);
    if Meaning(f.e).Some? {
      WithIs(Meaning(f.e).value, true, false);
    }
  }

  lemma FieldRuns(t: seq<Tok>, pos: nat, q: nat)
    requires Tk(t, q) == Colon && q == if Tk(t, pos + 1) == Question then pos + 2 else pos + 1
    ensures ParseField(t, pos) ==
            match ParseExpression(t, q + 1) {
              case Err => Err
              case Ok(h, p) =>
                Ok((TypeHints.Text(Tk(t, pos)), if q == pos + 2 then MakeOptional(h, true, false) else h), p)
            }
  {
    hide ParseExpression, MakeOptional;
  }

  lemma FieldsStep(t: seq<Tok>, pos: nat, p: nat)
    ensures ParseField(t, pos) == Err ==> ParseFields(t, pos) == Err
    ensures ParseField(t, pos).Ok? && ParseField(t, pos).next == p ==>
              var (key, h) := ParseField(t, pos).value;
              ParseFields(t, pos) ==
                if Closes(Tk(t, p)) then Ok((Field(key, h, NoField), false), p + 1)
                else if Tk(t, p) != Comma then Err
                else if Tk(t, p + 1) == Varg then
                  if Closes(Tk(t, p + 2)) then Ok((Field(key, h, NoField), true), p + 3) else Err
                else
                  match ParseFields(t, p + 1)
                  case Err => Err
                  case Ok((more, v), e) => Ok((Field(key, h, more), v), e)
  {
    hide ParseField;
  }

  lemma {:induction false} TailStands(t: seq<Tok>, p: nat, dots: bool, close: Tok)
    requires At(t, p, Tail(dots, close)) && Closes(close)
    ensures Rests(t, p)
    ensures if dots then Tk(t, p) == Comma && Tk(t, p + 1) == Varg && Tk(t, p + 2) == close else Tk(t, p) == close
  {
    if dots {
      assert Tail(dots, close) == [Comma] + ([Varg] + ([close] + []));
      AtOne(t, p, Comma, [Varg] + ([close] + []));
      AtOne(t, p + 1, Varg, [close] + []);
      AtOne(t, p + 2, close, []);
    } else {
      assert Tail(dots, close) == [close] + [];
      AtOne(t, p, close, []);
    }
  }

  lemma {:induction false} KeysRead(t: seq<Tok>, pos: nat, f: Keys, dots: bool, close: Tok)
    requires KeysPlaced(f) && At(t, pos, KeysTokens(f) + Tail(dots, close)) && Closes(close)
    ensures ParseFields(t, pos)
         == KeysResult(KeysMeaning(f), dots, pos + |KeysTokens(f)| + |Tail(dots, close)|)
    decreases f, 8
  {
    hide *;
    var p := pos + |FieldTokens(f)|;
    var tail := Tail(dots, close);
    KeysUnfold(f, tail);
    TailIs(dots, close);
    if f.LastKey? {
      AtSplit(t, pos, FieldTokens(f), tail);
      TailStands(t, p, dots, close);
    } else {
      var more := KeysTokens(f.rest) + tail;
      AtSplit(t, pos, FieldTokens(f), [Comma] + more);
      AtOne(t, p, Comma, more);
      EndsAt(t, p);
      NextKey(t, p + 1, f.rest, tail);
      KeysRead(t, p + 1, f.rest, dots, close);
    }
    FieldReads(t, pos, f);
    FieldsRead(t, pos, f, p, dots, close);
  }

  lemma {:induction false} FieldsRead(t: seq<Tok>, pos: nat, f: Keys, p: nat, dots: bool, close: Tok)
    requires ParseField(t, pos) == FieldResult(f, p) && Closes(close)
    requires f.LastKey? ==>
               if dots then Tk(t, p) == Comma && Tk(t, p + 1) == Varg && Tk(t, p + 2) == close else Tk(t, p) == close
    requires f.MoreKeys? ==>
               && Tk(t, p) == Comma && Tk(t, p + 1) != Varg
               && ParseFields(t, p + 1)
               == KeysResult(KeysMeaning(f.rest), dots, p + 1 + |KeysTokens(f.rest)| + |Tail(dots, close)|)
    ensures ParseFields(t, pos)
         == KeysResult(KeysMeaning(f), dots,
                       p + (if f.MoreKeys? then 1 + |KeysTokens(f.rest)| else 0) + |Tail(dots, close)|)
  {
    hide ParseField, ParseFields, KeysMeaning, KeyMeaning, KeysTokens, Spelling;
    KeysMean(f);
    FieldsStep(t, pos, p);
  }

  lemma TailIs(dots: bool, close: Tok)
    ensures |Tail(dots, close)| == if dots then 3 else 1
  {
  }

  lemma NextKey(t: seq<Tok>, pos: nat, f: Keys, rest: seq<Tok>)
    requires At(t, pos, KeysTokens(f) + rest)
    ensures Tk(t, pos) == f.key
  {
    hide At, KeysTokens, FieldTokens;
    KeysUnfold(f, rest);
    FieldLength(f);
    FirstAt(t, pos, KeysTokens(f) + rest);
  }

  lemma {:induction false} ShapeReads(t: seq<Tok>, pos: nat, w: Written)
    requires w.ShapeOf? && Placed(w) && At(t, pos, Tokens(w))
    ensures ParseSimple(t, pos) == Hinted(Meaning(w), Place(w, pos))
    decreases w, 0
  {
    hide ParseSimple, ParseFields, Tokens, Placed, Meaning, KeysTokens, KeysMeaning, KeysPlaced, At, Tail;
    ShapeParts(w);
    var inside := KeysTokens(w.fields) + Tail(w.dots, w.close);
    AtOne(t, pos, w.head, [w.open] + inside);
    AtOne(t, pos + 1, w.open, inside);
    KeysRead(t, pos + 2, w.fields, w.dots, w.close);
    ShapeRuns(t, pos);
  }

  lemma ShapeParts(w: Written)
    requires w.ShapeOf?
    ensures Tokens(w) == [w.head] + ([w.open] + (KeysTokens(w.fields) + Tail(w.dots, w.close)))
    ensures Placed(w) <==>
            (w.head == TShape || w.head == FuncName("\\shape")) && Pair(w.open, w.close) && KeysPlaced(w.fields)
    ensures Meaning(w)
         == match KeysMeaning(w.fields) { case None => None case Some(l) => Some(Shape(l, w.dots)) }
  {
  }

  lemma ShapeRuns(t: seq<Tok>, pos: nat)
    requires (Tk(t, pos) == TShape || Tk(t, pos) == FuncName("\\shape")) && Opens(Tk(t, pos + 1))
    ensures ParseSimple(t, pos)
         == match ParseFields(t, pos + 2) { case Err => Err case Ok((fields, v), p) => Ok(Shape(fields, v), p) }
  {
    hide ParseFields, ParseExpression, ParseTuple, ParseCallable, ParseArrayOf, ParseWrapped, ParseNestedOne;
    if Tk(t, pos) != TShape {
      assert ParseSimple(t, pos) == ParseNamed(t, pos, "\\shape") == ParseShape(t, pos + 1);
    }
  }
}
