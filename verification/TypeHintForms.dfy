/** Whatever the parser of type hints accepts is one of the written forms, and means what it returns. */
module TypeHintForms {
  import opened Wrappers
  import opened TypeHints
  import opened TypeHintReread
  import opened TypeHintGrammar
  import opened TypeHintReads

  /** w is what was read from pos to p, and means h. */
  ghost predicate Form(t: seq<Tok>, pos: nat, w: Written, h: Hint, p: nat) {
    Placed(w) && At(t, pos, Tokens(w)) && Place(w, pos) == p && Meaning(w) == Some(h)
  }

  lemma {:induction false} AtJoin(t: seq<Tok>, pos: nat, a: seq<Tok>, b: seq<Tok>)
    requires At(t, pos, a) && At(t, pos + |a|, b)
    ensures At(t, pos, a + b)
  {
    assert t[pos..pos + |a| + |b|] == t[pos..pos + |a|] + t[pos + |a|..pos + |a| + |b|];
  }

  lemma AtToken(t: seq<Tok>, pos: nat)
    requires Tk(t, pos) != End || pos < |t|
    ensures At(t, pos, [Tk(t, pos)])
  {
  }

  /** One more token before a text. */
  lemma {:induction false} AtCons(t: seq<Tok>, pos: nat, k: Tok, b: seq<Tok>)
    requires Tk(t, pos) == k && pos < |t| && At(t, pos + 1, b)
    ensures At(t, pos, [k] + b)
  {
    AtToken(t, pos);
    AtJoin(t, pos, [k], b);
  }

  /** One more token behind a text. */
  lemma {:induction false} AtSnoc(t: seq<Tok>, pos: nat, a: seq<Tok>, k: Tok)
    requires At(t, pos, a) && Tk(t, pos + |a|) == k && k != End
    ensures At(t, pos, a + [k])
  {
    AtToken(t, pos + |a|);
    AtJoin(t, pos, a, [k]);
  }

  // ----- expressions -----

  lemma {:induction false} FormExpression(t: seq<Tok>, pos: nat) returns (w: Written)
    requires ParseExpression(t, pos).Ok?
    ensures Form(t, pos, w, ParseExpression(t, pos).value, ParseExpression(t, pos).next)
    decreases |t| - pos, 14
  {
    hide ParseAlternatives, Combine, Meaning, AllMeanings, Tokens, UnionHint, Alternatives, Placed, At;
    w := FormAlternatives(t, pos);
    MeaningIs(w);
    var hs := AllMeanings(w).value;
    var items := ItemsFor(Alternatives(w), hs);
    if w.Either? {
      TwoOrMore(w);
      CombineIs(items, Alternatives(w), hs);
    } else {
      CombineOne(items);
    }
  }

  lemma {:induction false} FormAlternatives(t: seq<Tok>, pos: nat) returns (w: Written)
    requires ParseAlternatives(t, pos).Ok?
    ensures Placed(w) && At(t, pos, Tokens(w)) && Place(w, pos) == ParseAlternatives(t, pos).next
    ensures AllMeanings(w).Some? && ParseAlternatives(t, pos).value == ItemsFor(Alternatives(w), AllMeanings(w).value)
    decreases |t| - pos, 13
  {
    hide ParseArray, Meaning, Tokens, AllMeanings, Alternatives, Placed, At, ParseAlternatives;
    AlternativesOk(t, pos);
    var p := ParseArray(t, pos).next;
    var e := FormArray(t, pos);
    LastToken(t, pos, e);
    if Tk(t, p) == Or {
      FirstAlternative(t, pos, p);
      var rest := FormAlternatives(t, p + 1);
      w := Either(e, rest);
      EitherForm(t, pos, w);
      EitherSplits(w);
      ItemsSplit(e, Alternatives(rest), Meaning(e).value, AllMeanings(rest).value);
    } else {
      OneAlternative(t, pos, p);
      w := e;
      MeaningIs(w);
      assert ItemsFor([w], [Meaning(w).value]) == [Item(Meaning(w).value, w == Word(TBool))];
    }
  }

  lemma AlternativesOk(t: seq<Tok>, pos: nat)
    requires ParseAlternatives(t, pos).Ok?
    ensures ParseArray(t, pos).Ok? && pos < ParseArray(t, pos).next <= |t|
    ensures Tk(t, ParseArray(t, pos).next) == Or ==> ParseAlternatives(t, ParseArray(t, pos).next + 1).Ok?
  {
    hide ParseArray;
  }

  lemma {:induction false} EitherForm(t: seq<Tok>, pos: nat, w: Written)
    requires w.Either? && Placed(w.e) && !w.e.Either? && !OpenEnded(w.e) && Placed(w.rest)
    requires At(t, pos, Tokens(w.e)) && Tk(t, Place(w.e, pos)) == Or && At(t, Place(w.e, pos) + 1, Tokens(w.rest))
    ensures Placed(w) && At(t, pos, Tokens(w)) && Place(w, pos) == Place(w.rest, Place(w.e, pos) + 1)
  {
    AtCons(t, Place(w.e, pos), Or, Tokens(w.rest));
    AtJoin(t, pos, Tokens(w.e), [Or] + Tokens(w.rest));
  }

  // ----- one alternative -----

  /** An alternative that reaches to the right has nothing behind it. */
  lemma {:induction false} FormArray(t: seq<Tok>, pos: nat) returns (w: Written)
    requires ParseArray(t, pos).Ok?
    ensures Form(t, pos, w, ParseArray(t, pos).value, ParseArray(t, pos).next) && !w.Either?
    ensures OpenEnded(w) ==> Tk(t, ParseArray(t, pos).next) != Or
    decreases |t| - pos, 12
  {
    hide ParseSimple, Form;
    var p, h := ParseSimple(t, pos).next, ParseSimple(t, pos).value;
    w := FormSimple(t, pos);
    if OpenEnded(w) {
      NoBrackets(t, p);
    } else {
      w := FormBrackets(t, pos, w, h, p);
    }
  }

  lemma {:induction false} FormBrackets(t: seq<Tok>, pos: nat, w: Written, h: Hint, p: nat) returns (v: Written)
    requires Form(t, pos, w, h, p) && !w.Either? && !OpenEnded(w) && p <= |t|
    ensures Form(t, pos, v, Brackets(t, p, h).value, Brackets(t, p, h).next) && !v.Either? && !OpenEnded(v)
    decreases |t| - p
  {
    if Bracketed(t, p) {
      BracketForm(t, pos, w, h, p);
      v := FormBrackets(t, pos, Bracket(w), Array(h), p + 2);
    } else {
      v := w;
    }
  }

  lemma {:induction false} BracketForm(t: seq<Tok>, pos: nat, w: Written, h: Hint, p: nat)
    requires Form(t, pos, w, h, p) && !w.Either? && !OpenEnded(w) && Bracketed(t, p)
    ensures Form(t, pos, Bracket(w), Array(h), p + 2) && p + 2 <= |t|
  {
    BracketParts(Bracket(w));
    AtToken(t, p + 1);
    AtCons(t, p, OpBrk, [ClBrk]);
    assert [OpBrk] + [ClBrk] == [OpBrk, ClBrk];
    hide At, Tokens, Placed, Meaning;
    AtJoin(t, pos, Tokens(w), [OpBrk, ClBrk]);
    BracketMeans(Bracket(w));
  }

  // ----- types without brackets -----

  lemma {:induction false} FormSimple(t: seq<Tok>, pos: nat) returns (w: Written)
    requires ParseSimple(t, pos).Ok?
    ensures Form(t, pos, w, ParseSimple(t, pos).value, ParseSimple(t, pos).next) && !w.Either? && !w.Bracket?
    ensures OpenEnded(w) ==> Tk(t, ParseSimple(t, pos).next) != Or && !Bracketed(t, ParseSimple(t, pos).next)
    decreases |t| - pos, 11
  {
    hide ParseSimple, Form, WordHint, AroundHint, Bracketed;
    var k := Tk(t, pos);
    SimpleInside(t, pos);
    if k == OpPar {
      w := FormParens(t, pos);
    } else if k == Question {
      w := FormNullable(t, pos);
    } else if k == TTuple || k == FuncName("\\tuple") {
      w := FormTuple(t, pos);
    } else if k == TShape || k == FuncName("\\shape") {
      w := FormShape(t, pos);
    } else if k == TCallable && Tk(t, pos + 1) == OpPar {
      w := FormCallable(t, pos);
    } else if k == TArray && Opens(Tk(t, pos + 1)) {
      w := FormArrayOf(t, pos);
    } else if k.FuncName? && AroundHint(k.name, Object).Some? {
      w := FormAround(t, pos, k.name);
    } else {
      w := FormWord(t, pos);
    }
  }

  lemma SimpleInside(t: seq<Tok>, pos: nat)
    requires ParseSimple(t, pos).Ok?
    ensures pos < |t|
  {
    hide ParseNamed, ParseExpression, ParseTuple, ParseShape, ParseCallable, ParseArrayOf;
  }

  lemma {:induction false} FormWord(t: seq<Tok>, pos: nat) returns (w: Written)
    requires ParseSimple(t, pos).Ok? && pos < |t|
    requires t[pos] !in {OpPar, Question, TTuple, TShape, FuncName("\\tuple"), FuncName("\\shape")}
    requires !(t[pos] == TCallable && Tk(t, pos + 1) == OpPar) && !(t[pos] == TArray && Opens(Tk(t, pos + 1)))
    requires t[pos].FuncName? ==> AroundHint(t[pos].name, Object) == None
    ensures Form(t, pos, w, ParseSimple(t, pos).value, ParseSimple(t, pos).next) && (w.Word? || w.Named?)
  {
    AtToken(t, pos);
    if t[pos].FuncName? {
      w := Named(t[pos].name);
      NamedOk(t, pos);
    } else {
      w := Word(t[pos]);
      WordOk(t, pos);
    }
  }

  lemma WordOk(t: seq<Tok>, pos: nat)
    requires ParseSimple(t, pos).Ok? && pos < |t|
    requires t[pos] !in {OpPar, Question, TTuple, TShape} && !t[pos].FuncName?
    requires !(t[pos] == TCallable && Tk(t, pos + 1) == OpPar) && !(t[pos] == TArray && Opens(Tk(t, pos + 1)))
    ensures WordHint(t[pos]).Some? && ParseSimple(t, pos) == Ok(WordHint(t[pos]).value, pos + 1)
  {
    hide ParseNamed, ParseExpression, ParseTuple, ParseShape, ParseCallable, ParseArrayOf;
  }

  lemma NamedOk(t: seq<Tok>, pos: nat)
    requires ParseSimple(t, pos).Ok? && pos < |t| && t[pos].FuncName?
    requires t[pos].name != "\\tuple" && t[pos].name != "\\shape" && AroundHint(t[pos].name, Object) == None
    ensures TypeName(t[pos].name) && ParseSimple(t, pos) == Ok(NameHint(t[pos].name), pos + 1)
  {
    hide ParseExpression, ParseTuple, ParseShape, ParseCallable, ParseArrayOf, ParseWrapped, ParseNestedOne;
    assert ParseSimple(t, pos) == ParseNamed(t, pos, t[pos].name);
  }

  lemma {:induction false} FormParens(t: seq<Tok>, pos: nat) returns (w: Written)
    requires ParseSimple(t, pos).Ok? && Tk(t, pos) == OpPar && pos < |t|
    ensures Form(t, pos, w, ParseSimple(t, pos).value, ParseSimple(t, pos).next) && w.InParens?
    decreases |t| - pos, 10
  {
    ParensOk(t, pos);
    hide ParseExpression, ParseSimple, At, Tokens, Meaning, Placed;
    var e := FormExpression(t, pos + 1);
    w := InParens(e);
    ParensForm(e);
    AtSnoc(t, pos + 1, Tokens(e), ClPar);
    AtCons(t, pos, OpPar, Tokens(e) + [ClPar]);
  }

  lemma ParensForm(e: Written)
    ensures Tokens(InParens(e)) == [OpPar] + (Tokens(e) + [ClPar]) && Meaning(InParens(e)) == Meaning(e)
    ensures Placed(InParens(e)) == Placed(e)
  {
  }

  lemma ParensOk(t: seq<Tok>, pos: nat)
    requires ParseSimple(t, pos).Ok? && Tk(t, pos) == OpPar
    ensures ParseExpression(t, pos + 1).Ok? && Tk(t, ParseExpression(t, pos + 1).next) == ClPar
    ensures ParseSimple(t, pos) == Ok(ParseExpression(t, pos + 1).value, ParseExpression(t, pos + 1).next + 1)
  {
    hide ParseExpression;
  }

  lemma {:induction false} FormNullable(t: seq<Tok>, pos: nat) returns (w: Written)
    requires ParseSimple(t, pos).Ok? && Tk(t, pos) == Question && pos < |t|
    ensures Form(t, pos, w, ParseSimple(t, pos).value, ParseSimple(t, pos).next) && w.Nullable?
    ensures Tk(t, ParseSimple(t, pos).next) != Or && !Bracketed(t, ParseSimple(t, pos).next)
    decreases |t| - pos, 10
  {
    NullableOk(t, pos);
    hide ParseExpression, ParseSimple, At, Tokens, Meaning, Placed;
    var e := FormExpression(t, pos + 1);
    w := Nullable(e);
    NullableForm(e);
    WithIs(ParseExpression(t, pos + 1).value, true, false);
    AtCons(t, pos, Question, Tokens(e));
  }

  lemma NullableForm(e: Written)
    ensures Tokens(Nullable(e)) == [Question] + Tokens(e) && Placed(Nullable(e)) == Placed(e)
    ensures Meaning(e).Some? ==> Meaning(Nullable(e)) == Some(With(Meaning(e).value, true, false))
  {
  }

  /** An expression is read to its end. */
  lemma ExpressionEnds(t: seq<Tok>, pos: nat)
    requires ParseExpression(t, pos).Ok?
    ensures Tk(t, ParseExpression(t, pos).next) != Or && !Bracketed(t, ParseExpression(t, pos).next)
  {
    hide ParseAlternatives, Combine;
  }

  lemma NullableOk(t: seq<Tok>, pos: nat)
    requires ParseSimple(t, pos).Ok? && Tk(t, pos) == Question
    ensures ParseExpression(t, pos + 1).Ok?
    ensures var r := ParseExpression(t, pos + 1); ParseSimple(t, pos) == Ok(MakeOptional(r.value, true, false), r.next)
    ensures Tk(t, ParseSimple(t, pos).next) != Or && !Bracketed(t, ParseSimple(t, pos).next)
  {
    assert ParseExpression(t, pos + 1).Ok?;
    ExpressionEnds(t, pos + 1);
    hide ParseExpression, Bracketed;
  }

  lemma {:induction false} FormAround(t: seq<Tok>, pos: nat, name: string) returns (w: Written)
    requires ParseSimple(t, pos).Ok? && Tk(t, pos) == FuncName(name) && AroundHint(name, Object).Some? && pos < |t|
    ensures Form(t, pos, w, ParseSimple(t, pos).value, ParseSimple(t, pos).next) && w.Around?
    decreases |t| - pos, 10
  {
    hide *;
    AroundStep(t, pos, name);
    NestedOneOk(t, pos + 1);
    var e := FormExpression(t, pos + 2);
    var p, h := ParseExpression(t, pos + 2).next, ParseExpression(t, pos + 2).value;
    w := Around(name, Tk(t, pos + 1), e, Tk(t, p));
    AroundAlways(name, h);
    AroundForm(t, pos, w, h, p);
  }

  lemma {:induction false} AroundForm(t: seq<Tok>, pos: nat, w: Written, h: Hint, p: nat)
    requires w.Around? && pos + 1 < |t| && Tk(t, pos) == FuncName(w.name)
    requires Tk(t, pos + 1) == w.open && Tk(t, p) == w.close
    requires AroundHint(w.name, Object).Some? && Opens(w.open) && Closes(w.close) && Form(t, pos + 2, w.e, h, p)
    ensures AroundHint(w.name, h).Some? ==> Form(t, pos, w, AroundHint(w.name, h).value, p + 1)
    ensures Hinted(AroundHint(w.name, h), p + 1)
         == if AroundHint(w.name, h).Some? then Ok(AroundHint(w.name, h).value, p + 1) else Err
  {
    hide At, Tokens, Meaning, Placed, AroundHint;
    AroundParts(w);
    AtSnoc(t, pos + 2, Tokens(w.e), w.close);
    AtCons(t, pos + 1, w.open, Tokens(w.e) + [w.close]);
    AtCons(t, pos, FuncName(w.name), [w.open] + (Tokens(w.e) + [w.close]));
  }

  lemma NestedOneOk(t: seq<Tok>, pos: nat)
    requires ParseNestedOne(t, pos).Ok?
    ensures Opens(Tk(t, pos)) && pos < |t| && ParseExpression(t, pos + 1).Ok?
    ensures Closes(Tk(t, ParseExpression(t, pos + 1).next))
    ensures ParseNestedOne(t, pos) == Ok(ParseExpression(t, pos + 1).value, ParseExpression(t, pos + 1).next + 1)
  {
    hide ParseExpression;
  }

  // ----- lists -----

  ghost predicate ListForm(t: seq<Tok>, pos: nat, l: List, close: Tok, hs: Hints, p: nat) {
    && ListPlaced(l) && Closes(close) && At(t, pos, ListTokens(l) + [close]) && pos + |ListTokens(l)| + 1 == p
    && ListMeaning(l) == Some(hs)
  }

  lemma {:induction false} FormItems(t: seq<Tok>, pos: nat) returns (l: List, close: Tok)
    requires ParseItems(t, pos).Ok?
    ensures ListForm(t, pos, l, close, ParseItems(t, pos).value, ParseItems(t, pos).next)
    decreases |t| - pos, 15
  {
    hide *;
    ItemsOk(t, pos);
    var e := FormExpression(t, pos);
    var p, h := ParseExpression(t, pos).next, ParseExpression(t, pos).value;
    ItemsStep(t, pos, p);
    if Closes(Tk(t, p)) {
      l, close := Last(e), Tk(t, p);
      LastItemForm(t, pos, e, h, p);
    } else {
      var rest;
      rest, close := FormItems(t, p + 1);
      l := More(e, rest);
      MoreItemsForm(t, pos, e, h, p, rest, close, ParseItems(t, p + 1).value, ParseItems(t, p + 1).next);
    }
  }

  lemma {:induction false} LastItemForm(t: seq<Tok>, pos: nat, e: Written, h: Hint, p: nat)
    requires Form(t, pos, e, h, p) && Closes(Tk(t, p))
    ensures ListForm(t, pos, Last(e), Tk(t, p), Cons(h, Nil), p + 1)
  {
    hide At, Tokens, Meaning, Placed, ListTokens, ListMeaning;
    ListUnfolds(Last(e), Tk(t, p));
    LastPlaced(e);
    AtSnoc(t, pos, Tokens(e), Tk(t, p));
  }

  lemma {:induction false} MoreItemsForm(
    t: seq<Tok>, pos: nat, e: Written, h: Hint, p: nat, rest: List, close: Tok, hs: Hints, q: nat)
    requires Form(t, pos, e, h, p) && Tk(t, p) == Comma && ListForm(t, p + 1, rest, close, hs, q)
    ensures ListForm(t, pos, More(e, rest), close, Cons(h, hs), q)
  {
    hide At, Tokens, Meaning, Placed, ListTokens, ListMeaning;
    ListUnfolds(More(e, rest), close);
    AtCons(t, p, Comma, ListTokens(rest) + [close]);
    AtJoin(t, pos, Tokens(e), [Comma] + (ListTokens(rest) + [close]));
  }

  lemma LastPlaced(e: Written)
    ensures ListPlaced(Last(e)) == Placed(e)
  {
  }

  lemma ItemsOk(t: seq<Tok>, pos: nat)
    requires ParseItems(t, pos).Ok?
    ensures ParseExpression(t, pos).Ok?
    ensures var p := ParseExpression(t, pos).next;
            && pos < p <= |t| && (Closes(Tk(t, p)) || (Tk(t, p) == Comma && ParseItems(t, p + 1).Ok?))
  {
    hide ParseExpression;
  }

  lemma {:induction false} FormNested(t: seq<Tok>, pos: nat) returns (open: Tok, l: List, close: Tok)
    requires ParseNested(t, pos).Ok?
    ensures Pair(open, close) && ListPlaced(l) && At(t, pos, [open] + (ListTokens(l) + [close])) && pos < |t|
    ensures pos + |ListTokens(l)| + 2 == ParseNested(t, pos).next && ListMeaning(l) == Some(ParseNested(t, pos).value)
    decreases |t| - pos, 9
  {
    hide ParseItems, At, ListTokens, ListMeaning, ListPlaced;
    open := Tk(t, pos);
    l, close := FormItems(t, pos + 1);
    AtCons(t, pos, open, ListTokens(l) + [close]);
  }

  lemma {:induction false} FormTuple(t: seq<Tok>, pos: nat) returns (w: Written)
    requires ParseSimple(t, pos).Ok? && (Tk(t, pos) == TTuple || Tk(t, pos) == FuncName("\\tuple")) && pos < |t|
    ensures Form(t, pos, w, ParseSimple(t, pos).value, ParseSimple(t, pos).next) && w.TupleOf?
    decreases |t| - pos, 10
  {
    TupleRuns(t, pos);
    hide ParseNested, ParseSimple, At, ListTokens, ListMeaning, ListPlaced, Tokens, Placed, Meaning;
    var open, l, close := FormNested(t, pos + 1);
    w := TupleOf(Tk(t, pos), open, l, close);
    TupleParts(w);
    AtCons(t, pos, Tk(t, pos), [open] + (ListTokens(l) + [close]));
  }

  lemma {:induction false} FormArrayOf(t: seq<Tok>, pos: nat) returns (w: Written)
    requires ParseSimple(t, pos).Ok? && Tk(t, pos) == TArray && Opens(Tk(t, pos + 1)) && pos < |t|
    ensures Form(t, pos, w, ParseSimple(t, pos).value, ParseSimple(t, pos).next) && w.ArrayOf?
    decreases |t| - pos, 10
  {
    ArrayRuns(t, pos);
    hide ParseNested, ParseSimple, At, ListTokens, ListMeaning, ListPlaced, Meaning, Tokens, Placed;
    var open, l, close := FormNested(t, pos + 1);
    w := ArrayOf(open, l, close);
    ArrayParts(w);
    ArrayMeans(w);
    AtCons(t, pos, TArray, [open] + (ListTokens(l) + [close]));
  }

  // ----- callables -----

  ghost predicate ArgsForm(t: seq<Tok>, pos: nat, a: Args, hs: Hints, p: nat) {
    && ArgsPlaced(a) && At(t, pos, ArgsTokens(a) + [ClPar]) && pos + |ArgsTokens(a)| + 1 == p
    && ArgsMeaning(a) == Some(hs)
  }

  lemma {:induction false} FormArguments(t: seq<Tok>, pos: nat) returns (a: Args)
    requires ParseArguments(t, pos).Ok?
    ensures ArgsForm(t, pos, a, ParseArguments(t, pos).value, ParseArguments(t, pos).next)
    decreases |t| - pos, 15
  {
    hide ParseExpression, ParseArguments, At, Tokens, Meaning, Placed, ArgsTokens, ArgsMeaning, ArgsPlaced;
    if Tk(t, pos) == ClPar {
      a := NoArgs;
      NoArgsForm(t, pos);
    } else {
      ArgumentsOk(t, pos);
      var e := FormExpression(t, pos);
      var p := ParseExpression(t, pos).next;
      var q := SkipName(t, p);
      var comma := Tk(t, q) == Comma;
      var next := if comma then q + 1 else q;
      var rest := FormArguments(t, next);
      a := Arg(e, q != p, comma, rest);
      hide SkipName, Tk;
      ArgForm(t, pos, a, p, next);
      ArgumentStep(t, pos, p, next, comma);
    }
  }

  lemma NoArgsForm(t: seq<Tok>, pos: nat)
    requires Tk(t, pos) == ClPar
    ensures ParseArguments(t, pos) == Ok(Nil, pos + 1) && ArgsForm(t, pos, NoArgs, Nil, pos + 1)
  {
    AtToken(t, pos);
    assert ArgsTokens(NoArgs) + [ClPar] == [ClPar];
  }

  lemma ArgumentsOk(t: seq<Tok>, pos: nat)
    requires ParseArguments(t, pos).Ok? && Tk(t, pos) != ClPar
    ensures ParseExpression(t, pos).Ok?
    ensures var p := ParseExpression(t, pos).next;
            var q := SkipName(t, p);
            && pos < p <= |t| && (Tk(t, q) == Comma || Tk(t, q) == ClPar)
            && ParseArguments(t, if Tk(t, q) == Comma then q + 1 else q).Ok?
  {
    hide ParseExpression;
  }

  lemma {:induction false} ArgForm(t: seq<Tok>, pos: nat, a: Args, p: nat, next: nat)
    requires a.Arg? && Placed(a.e) && At(t, pos, Tokens(a.e)) && Place(a.e, pos) == p && Meaning(a.e).Some?
    requires ArgsPlaced(a.rest) && At(t, next, ArgsTokens(a.rest) + [ClPar]) && ArgsMeaning(a.rest).Some?
    requires var q := SkipName(t, p);
             && a.named == (q != p) && a.comma == (Tk(t, q) == Comma) && (a.comma || Tk(t, q) == ClPar)
             && next == if a.comma then q + 1 else q
    ensures ArgsForm(t, pos, a, Cons(Meaning(a.e).value, ArgsMeaning(a.rest).value), next + |ArgsTokens(a.rest)| + 1)
  {
    hide At, Tokens, Meaning, Placed, ArgsTokens, ArgsMeaning;
    SeparatorForm(t, p, a);
    ArgsUnfold(a);
    AtJoin(t, p, Separator(a.named, a.comma), ArgsTokens(a.rest) + [ClPar]);
    AtJoin(t, pos, Tokens(a.e), Separator(a.named, a.comma) + (ArgsTokens(a.rest) + [ClPar]));
    RestIsLast(t, next, a.rest);
    ArgPlaced(a);
  }

  lemma ArgPlaced(a: Args)
    requires a.Arg?
    ensures ArgsPlaced(a) <==> Placed(a.e) && ArgsPlaced(a.rest) && (a.rest.Arg? ==> a.comma)
  {
    hide Placed;
  }

  /** Where a parenthesis closes the arguments there are no more. */
  lemma {:induction false} RestIsLast(t: seq<Tok>, next: nat, a: Args)
    requires ArgsPlaced(a) && At(t, next, ArgsTokens(a) + [ClPar])
    ensures Tk(t, next) == ClPar ==> a.NoArgs?
  {
    if a.Arg? {
      hide At, Tokens, ArgsTokens, Placed;
      ArgsUnfold(a);
      ArgStands(t, next, a);
    }
  }

  lemma {:induction false} SeparatorForm(t: seq<Tok>, p: nat, a: Args)
    requires a.Arg? && p <= |t|
    requires var q := SkipName(t, p); a.named == (q != p) && a.comma == (Tk(t, q) == Comma)
    ensures At(t, p, Separator(a.named, a.comma))
    ensures p + |Separator(a.named, a.comma)| == SkipName(t, p) + if a.comma then 1 else 0
  {
    var q := SkipName(t, p);
    if a.named {
      AtToken(t, p);
    }
    if a.comma {
      AtToken(t, q);
    }
    if a.named && a.comma {
      AtJoin(t, p, [VarName], [Comma]);
      assert [VarName] + [Comma] == [VarName, Comma];
    }
  }

  lemma {:induction false} FormCallable(t: seq<Tok>, pos: nat) returns (w: Written)
    requires ParseSimple(t, pos).Ok? && Tk(t, pos) == TCallable && Tk(t, pos + 1) == OpPar && pos + 1 < |t|
    ensures Form(t, pos, w, ParseSimple(t, pos).value, ParseSimple(t, pos).next) && (w.Function? || w.FunctionTo?)
    ensures w.FunctionTo? ==> Tk(t, ParseSimple(t, pos).next) != Or && !Bracketed(t, ParseSimple(t, pos).next)
    decreases |t| - pos, 10
  {
    hide *;
    CallableRuns(t, pos);
    ColonInside(t, ParseArguments(t, pos + 2).next);
    var a := FormArguments(t, pos + 2);
    var p := ParseArguments(t, pos + 2).next;
    if Tk(t, p) == Colon {
      var ret := FormExpression(t, p + 1);
      ExpressionEnds(t, p + 1);
      w := FunctionTo(a, ret);
      FunctionToForm(t, pos, w, ParseArguments(t, pos + 2).value, p,
                     ParseExpression(t, p + 1).value, ParseExpression(t, p + 1).next);
    } else {
      w := Function(a);
      FunctionForm(t, pos, w, ParseArguments(t, pos + 2).value, p);
    }
  }

  lemma ColonInside(t: seq<Tok>, p: nat)
    ensures Tk(t, p) == Colon ==> p < |t|
  {
  }

  lemma {:induction false} FunctionToForm(t: seq<Tok>, pos: nat, w: Written, hs: Hints, p: nat, h: Hint, next: nat)
    requires w.FunctionTo? && Tk(t, pos) == TCallable && Tk(t, pos + 1) == OpPar && Tk(t, p) == Colon && p < |t|
    requires ArgsForm(t, pos + 2, w.args, hs, p) && pos + 1 < |t| && Form(t, p + 1, w.ret, h, next)
    ensures Form(t, pos, w, Callable(hs, h), next)
  {
    hide At, Tokens, Meaning, Placed, ArgsTokens, ArgsMeaning, ArgsPlaced;
    var args, ret := ArgsTokens(w.args) + [ClPar], [Colon] + Tokens(w.ret);
    FunctionToTokens(w);
    FunctionToMeans(w);
    AtCons(t, p, Colon, Tokens(w.ret));
    AtJoin(t, pos + 2, args, ret);
    AtCons(t, pos + 1, OpPar, args + ret);
    AtCons(t, pos, TCallable, [OpPar] + (args + ret));
  }

  lemma {:induction false} FunctionForm(t: seq<Tok>, pos: nat, w: Written, hs: Hints, p: nat)
    requires w.Function? && Tk(t, pos) == TCallable && Tk(t, pos + 1) == OpPar && pos + 1 < |t|
    requires ArgsForm(t, pos + 2, w.args, hs, p)
    ensures Form(t, pos, w, Callable(hs, Primitive(Void)), p)
  {
    hide At, Tokens, Meaning, Placed, ArgsTokens, ArgsMeaning, ArgsPlaced;
    FunctionParts(w);
    AtCons(t, pos + 1, OpPar, ArgsTokens(w.args) + [ClPar]);
    AtCons(t, pos, TCallable, [OpPar] + (ArgsTokens(w.args) + [ClPar]));
  }

  // ----- shapes -----

  ghost predicate KeysForm(t: seq<Tok>, pos: nat, f: Keys, dots: bool, close: Tok, l: Fields, p: nat) {
    && KeysPlaced(f) && Closes(close) && At(t, pos, KeysTokens(f) + Tail(dots, close))
    && pos + |KeysTokens(f)| + |Tail(dots, close)| == p && KeysMeaning(f) == Some(l)
  }

  lemma {:induction false} FormField(t: seq<Tok>, pos: nat) returns (f: Keys)
    requires ParseField(t, pos).Ok?
    ensures f.LastKey? && f.key == Tk(t, pos) && Placed(f.e) && At(t, pos, FieldTokens(f))
    ensures ParseField(t, pos) == FieldResult(f, pos + |FieldTokens(f)|)
    decreases |t| - pos, 15
  {
    hide *;
    FieldOk(t, pos);
    var mark := Tk(t, pos + 1) == Question;
    var q := if mark then pos + 2 else pos + 1;
    var e := FormExpression(t, q + 1);
    f := LastKey(Tk(t, pos), mark, e);
    FieldForm(t, pos, f, q, ParseExpression(t, q + 1).value, ParseExpression(t, q + 1).next);
    FieldRuns(t, pos, q);
    FieldConcludes(t, pos, f, q);
  }

  lemma {:induction false} FieldForm(t: seq<Tok>, pos: nat, f: Keys, q: nat, h: Hint, p: nat)
    requires Form(t, q + 1, f.e, h, p) && Tk(t, q) == Colon && f.mark == (Tk(t, pos + 1) == Question)
    requires q == (if f.mark then pos + 2 else pos + 1) && f.key == Tk(t, pos)
    ensures Placed(f.e) && At(t, pos, FieldTokens(f)) && Hinted(Meaning(f.e), q + 1 + |Tokens(f.e)|) == Ok(h, p)
    ensures pos + |FieldTokens(f)| == q + 1 + |Tokens(f.e)|
  {
    hide At, Tokens, Meaning, Placed;
    FieldLength(f);
    AtCons(t, q, Colon, Tokens(f.e));
    MarkForm(t, pos + 1, f.mark);
    AtJoin(t, pos + 1, Mark(f.mark), [Colon] + Tokens(f.e));
    AtCons(t, pos, f.key, Mark(f.mark) + ([Colon] + Tokens(f.e)));
  }

  lemma MarkForm(t: seq<Tok>, p: nat, mark: bool)
    requires p <= |t| && mark == (Tk(t, p) == Question)
    ensures At(t, p, Mark(mark)) && |Mark(mark)| == if mark then 1 else 0
  {
  }

  lemma FieldOk(t: seq<Tok>, pos: nat)
    requires ParseField(t, pos).Ok?
    ensures var q := if Tk(t, pos + 1) == Question then pos + 2 else pos + 1;
            Tk(t, q) == Colon && q < |t| && ParseExpression(t, q + 1).Ok?
  {
    hide ParseExpression, MakeOptional;
  }

  lemma {:induction false} FormFields(t: seq<Tok>, pos: nat) returns (f: Keys, dots: bool, close: Tok)
    requires ParseFields(t, pos).Ok?
    ensures f.key == Tk(t, pos) && dots == ParseFields(t, pos).value.1
    ensures KeysForm(t, pos, f, dots, close, ParseFields(t, pos).value.0, ParseFields(t, pos).next)
    decreases |t| - pos, 16
  {
    hide *;
    FieldsOk(t, pos);
    NotClosing();
    f := FormField(t, pos);
    var p := ParseField(t, pos).next;
    FieldsStep(t, pos, p);
    FieldNext(f, pos + |FieldTokens(f)|);
    if Tk(t, p) == Comma && Tk(t, p + 1) != Varg {
      var rest;
      rest, dots, close := FormFields(t, p + 1);
      f := MoreKeys(f.key, f.mark, f.e, rest);
      MoreForm(t, pos, f, dots, close, ParseFields(t, p + 1).value.0, ParseFields(t, p + 1).next);
    } else {
      dots := Tk(t, p) == Comma;
      close := if dots then Tk(t, p + 2) else Tk(t, p);
      LastForm(t, pos, f, dots, close);
      TailIs(dots, close);
    }
  }

  lemma NotClosing()
    ensures !Closes(Comma)
  {
  }

  lemma FieldNext(f: Keys, p: nat)
    requires FieldResult(f, p).Ok?
    ensures KeyMeaning(f.mark, f.e).Some?
    ensures FieldResult(f, p) == Ok((Spelling(f.key), KeyMeaning(f.mark, f.e).value), p)
  {
    hide KeyMeaning, Spelling;
  }

  lemma {:induction false} MoreForm(t: seq<Tok>, pos: nat, f: Keys, dots: bool, close: Tok, l: Fields, next: nat)
    requires f.MoreKeys? && Placed(f.e) && At(t, pos, FieldTokens(LastKey(f.key, f.mark, f.e)))
    requires var p := pos + |FieldTokens(LastKey(f.key, f.mark, f.e))|;
             Tk(t, p) == Comma && f.rest.key != Varg && KeysForm(t, p + 1, f.rest, dots, close, l, next)
    requires KeyMeaning(f.mark, f.e).Some?
    ensures KeysForm(t, pos, f, dots, close, Field(Spelling(f.key), KeyMeaning(f.mark, f.e).value, l), next)
  {
    hide At, Tokens, Placed, KeyMeaning, KeysTokens, KeysMeaning, Spelling, Tail, FieldTokens, KeysPlaced;
    FieldTokensSame(f);
    var more := KeysTokens(f.rest) + Tail(dots, close);
    AtCons(t, pos + |FieldTokens(f)|, Comma, more);
    AtJoin(t, pos, FieldTokens(f), [Comma] + more);
    KeysUnfold(f, Tail(dots, close));
    KeysMean(f);
  }

  lemma FieldTokensSame(f: Keys)
    ensures FieldTokens(f) == FieldTokens(LastKey(f.key, f.mark, f.e))
  {
    hide Tokens, Mark;
  }

  lemma {:induction false} LastForm(t: seq<Tok>, pos: nat, f: Keys, dots: bool, close: Tok)
    requires f.LastKey? && Placed(f.e) && At(t, pos, FieldTokens(f)) && KeyMeaning(f.mark, f.e).Some? && Closes(close)
    requires var p := pos + |FieldTokens(f)|;
             if dots then Tk(t, p) == Comma && Tk(t, p + 1) == Varg && Tk(t, p + 2) == close else Tk(t, p) == close
    ensures KeysForm(t, pos, f, dots, close, Field(Spelling(f.key), KeyMeaning(f.mark, f.e).value, NoField),
                     pos + |FieldTokens(f)| + |Tail(dots, close)|)
  {
    hide At, Tokens, Placed, KeyMeaning, KeysTokens, KeysMeaning, Spelling, Tail, FieldTokens, KeysPlaced;
    TailForm(t, pos + |FieldTokens(f)|, dots, close);
    AtJoin(t, pos, FieldTokens(f), Tail(dots, close));
    KeysUnfold(f, Tail(dots, close));
    KeysMean(f);
  }

  lemma TailForm(t: seq<Tok>, p: nat, dots: bool, close: Tok)
    requires if dots then Tk(t, p) == Comma && Tk(t, p + 1) == Varg && Tk(t, p + 2) == close else Tk(t, p) == close
    requires Closes(close)
    ensures At(t, p, Tail(dots, close))
  {
    if dots {
      assert t[p..p + 3] == [Comma, Varg, close] == Tail(dots, close);
    } else {
      assert t[p..p + 1] == [close] == Tail(dots, close);
    }
  }

  lemma FieldsOk(t: seq<Tok>, pos: nat)
    requires ParseFields(t, pos).Ok?
    ensures ParseField(t, pos).Ok?
    ensures var p := ParseField(t, pos).next;
            && pos < p <= |t|
            && (|| Closes(Tk(t, p)) || (Tk(t, p) == Comma && Tk(t, p + 1) == Varg && Closes(Tk(t, p + 2)))
                || (Tk(t, p) == Comma && Tk(t, p + 1) != Varg && ParseFields(t, p + 1).Ok?))
  {
    hide ParseField;
  }

  lemma {:induction false} FormShape(t: seq<Tok>, pos: nat) returns (w: Written)
    requires ParseSimple(t, pos).Ok? && (Tk(t, pos) == TShape || Tk(t, pos) == FuncName("\\shape")) && pos < |t|
    ensures Form(t, pos, w, ParseSimple(t, pos).value, ParseSimple(t, pos).next) && w.ShapeOf?
    decreases |t| - pos, 10
  {
    ShapeOk(t, pos);
    ShapeRuns(t, pos);
    hide ParseFields, ParseSimple, At, KeysTokens, KeysMeaning, KeysPlaced, Tokens, Placed, Meaning, Tail;
    var f, dots, close := FormFields(t, pos + 2);
    w := ShapeOf(Tk(t, pos), Tk(t, pos + 1), f, dots, close);
    ShapeParts(w);
    AtCons(t, pos + 1, w.open, KeysTokens(f) + Tail(dots, close));
    AtCons(t, pos, w.head, [w.open] + (KeysTokens(f) + Tail(dots, close)));
  }

  lemma ShapeOk(t: seq<Tok>, pos: nat)
    requires ParseSimple(t, pos).Ok? && (Tk(t, pos) == TShape || Tk(t, pos) == FuncName("\\shape"))
    ensures Opens(Tk(t, pos + 1)) && pos + 1 < |t|
  {
    hide ParseFields, ParseExpression, ParseTuple, ParseCallable, ParseArrayOf, ParseWrapped, ParseNestedOne;
    if Tk(t, pos) != TShape {
      assert ParseSimple(t, pos) == ParseNamed(t, pos, "\\shape") == ParseShape(t, pos + 1);
    }
  }

  // ----- the theorem -----

  /** A text is accepted up to p, with the type h, if and only if it is there a written form that means h,
      as long as what follows does not belong to it. */
  lemma {:induction false} ReadsExactly(t: seq<Tok>, pos: nat, h: Hint, p: nat)
    requires Rests(t, p)
    ensures ParseExpression(t, pos) == Ok(h, p) <==> exists w :: Form(t, pos, w, h, p)
  {
    hide ParseExpression, Meaning, Tokens, Placed, At;
    if ParseExpression(t, pos) == Ok(h, p) {
      var w := FormExpression(t, pos);
    }
    if w :| Form(t, pos, w, h, p) {
      ExpressionReads(t, pos, w);
    }
  }
}
