/** Expressions, their printed form, and the parser that reads it back. The printed form has the
    parentheses that a level calls for, and any others that the expression asks for. */
module ExprRoundTrip {
  import opened Wrappers
  import opened ExprParser

  datatype Expr =
    | Atom(id: nat)
    | Number(text: string)
    | Bin(sym: Sym, left: Expr, right: Expr)
    | Un(sym: Sym, expr: Expr)
    | Cond(test: Expr, yes: Expr, no: Expr)
    | Elvis(test: Expr, no: Expr)
    | Par(expr: Expr)

  ghost predicate WellFormed(e: Expr) {
    match e
    case Atom(_) => true
    case Number(text) => text != [] && text[0] != '-'
    case Bin(s, l, r) => Level(s) > 0 && s != Question && WellFormed(l) && WellFormed(r)
    case Un(s, x) => UnaryLevel(s) > 0 && WellFormed(x)
    case Cond(c, y, n) => WellFormed(c) && WellFormed(y) && WellFormed(n)
    case Elvis(c, n) => WellFormed(c) && WellFormed(n)
    case Par(x) => WellFormed(x)
  }

  /** The vertex an expression stands for. */
  function Denote(e: Expr): Vertex {
    match e
    case Atom(id) => VAtom(id)
    case Number(text) => VNum(text)
    case Bin(s, l, r) => BuildBinary(s, Denote(l), Denote(r))
    case Un(s, x) => BuildUnary(s, Denote(x))
    case Cond(c, y, n) => BuildTernary(Denote(c), Some(Denote(y)), Denote(n))
    case Elvis(c, n) => BuildTernary(Denote(c), None, Denote(n))
    case Par(x) => Denote(x)
  }

  predicate Conditional(e: Expr) {
    e.Cond? || e.Elvis?
  }

  function Max(a: nat, b: nat): nat { if a < b then b else a }

  function Paren(s: seq<Tok>): seq<Tok> { [TOpen] + s + [TClose] }

  /** Prints e where an operand of level q is expected. A binary expression of a lower level gets
      parentheses. A prefix operator is legal at any level and its operand is read at the higher of
      the two levels. A conditional stands bare where the parser's ternary loop is on (not till) and
      no operator follows (closed), since its last branch takes in all operators that do. */
  function Print(e: Expr, q: nat, till: bool, closed: bool): seq<Tok>
    decreases e, 2
  {
    match e
    case Atom(id) => [TAtom(id)]
    case Number(text) => [TNum(text)]
    case Bin(s, _, _) => if Level(s) < q then Paren(PrintBin(e, false, true)) else PrintBin(e, till, closed)
    case Un(s, x) => [TSym(s)] + Print(x, Max(UnaryLevel(s), q), till, closed)
    case Par(x) => Paren(Print(x, BEGIN, false, true))
    case _ => if q <= TERNARY && !till && closed then PrintCond(e, true) else Paren(PrintCond(e, true))
  }

  /** A conditional; if it is not closed, a question mark follows. */
  function PrintCond(e: Expr, closed: bool): seq<Tok>
    requires Conditional(e)
    decreases e, 1
  {
    PrintTest(e.test) + PrintYes(e) + PrintNo(e.no, closed)
  }

  function PrintYes(e: Expr): seq<Tok>
    requires Conditional(e)
    decreases e, 0
  {
    [TSym(Question)] + (if e.Cond? then Print(e.yes, BEGIN, false, true) else []) + [TColon]
  }

  function PrintNo(e: Expr, closed: bool): seq<Tok>
    decreases e, 3
  {
    if closed then Print(e, BEGIN, true, true) else Print(e, TERNARY + 1, true, false)
  }

  /** The condition of a conditional: another conditional stands there bare. */
  function PrintTest(e: Expr): seq<Tok>
    decreases e, 3
  {
    if Conditional(e) then PrintCond(e, false) else Print(e, TERNARY + 1, false, false)
  }

  function PrintBin(e: Expr, till: bool, closed: bool): seq<Tok>
    requires e.Bin?
    decreases e, 1
  {
    var p := Level(e.sym);
    PrintLeft(e.left, p, till) + [TSym(e.sym)] + Print(e.right, RightLevel(p), till && p >= TERNARY, closed)
  }

  /** The left operand of an operator of level p. A prefix operator that would swallow the operator
      is parenthesised. */
  function PrintLeft(e: Expr, p: nat, till: bool): seq<Tok>
    decreases e, 3
  {
    if e.Un? && UnaryLevel(e.sym) <= p then Paren(Print(e, BEGIN, false, true))
    else Print(e, if LeftToRight(p) then p else p + 1, till, false)
  }

  // ----- parsing undoes printing -----

  /** The tokens do not start with a binary operator of level q or above. */
  ghost predicate Stops(s: seq<Tok>, q: nat) {
    s != [] && s[0].TSym? ==> Level(s[0].sym) < q
  }

  /** The tokens do not start with a prefix operator of a level below q. */
  ghost predicate NoPrefix(s: seq<Tok>, q: nat) {
    s != [] && (s[0].TSym? ==> UnaryLevel(s[0].sym) == 0 || UnaryLevel(s[0].sym) >= q)
  }

  /** What is read at level q is read at every lower level, if nothing before or after it interferes. */
  lemma {:induction false} Descend(p: nat, q: nat, till: bool, s: seq<Tok>, v: Vertex, rest: seq<Tok>)
    requires BEGIN <= p <= q <= END && NoPrefix(s, q) && Stops(rest, p)
    requires Parse(q, till, s) == Parsed(Some(v), rest)
    ensures Parse(p, till, s) == Parsed(Some(v), rest)
    decreases q - p
  {
    hide Level, UnaryLevel, BuildBinary, BuildUnary, BuildTernary;
    if p < q {
      Descend(p + 1, q, till, s, v, rest);
      assert Loop(p, till, v, rest) == Parsed(Some(v), rest);
    }
  }

  /** The last branch of a conditional leaves a question mark that follows it to the loop outside. */
  lemma {:induction false} DescendToQuestion(p: nat, s: seq<Tok>, v: Vertex, rest: seq<Tok>)
    requires BEGIN <= p <= TERNARY + 1 && NoPrefix(s, 17) && rest != [] && rest[0] == TSym(Question)
    requires Parse(TERNARY + 1, true, s) == Parsed(Some(v), rest)
    ensures Parse(p, true, s) == Parsed(Some(v), rest)
    decreases TERNARY + 1 - p
  {
    hide UnaryLevel, BuildBinary, BuildUnary, BuildTernary;
    if p <= TERNARY {
      DescendToQuestion(p + 1, s, v, rest);
      if p < TERNARY {
        assert Loop(p, true, v, rest) == Parsed(Some(v), rest);
      }
    }
  }

  lemma {:induction false} PrintNotEmpty(e: Expr, q: nat, till: bool, closed: bool)
    ensures Print(e, q, till, closed) != []
    decreases e
  {
    hide Level, UnaryLevel;
    match e
    case Bin(s, l, r) => PrintNotEmpty(l, if LeftToRight(Level(s)) then Level(s) else Level(s) + 1, till, false);
    case Cond(_, _, _) => CondNotEmpty(e, true);
    case Elvis(_, _) => CondNotEmpty(e, true);
    case _ =>
  }

  /** A left operand never starts with a prefix operator that reaches the operator's level. */
  lemma {:induction false} LeftStarts(e: Expr, p: nat, till: bool, more: seq<Tok>)
    requires WellFormed(e)
    ensures PrintLeft(e, p, till) != [] && NoPrefix(PrintLeft(e, p, till) + more, p + 1)
    decreases e
  {
    hide Level, UnaryLevel, Print, PrintBin;
    var q := if LeftToRight(p) then p else p + 1;
    PrintNotEmpty(e, q, till, false);
    if e.Bin? && Level(e.sym) >= q {
      var t := Level(e.sym);
      var tail := [TSym(e.sym)] + Print(e.right, RightLevel(t), till && t >= TERNARY, false);
      LeftStarts(e.left, t, till, tail);
      BinStarts(e, p, till);
      assert (PrintLeft(e, p, till) + more)[0] == (PrintLeft(e.left, t, till) + tail)[0];
    } else {
      LeftBegins(e, p, till);
    }
  }

  lemma BinStarts(e: Expr, p: nat, till: bool)
    requires e.Bin? && Level(e.sym) >= if LeftToRight(p) then p else p + 1
    ensures var t := Level(e.sym);
            var tail := [TSym(e.sym)] + Print(e.right, RightLevel(t), till && t >= TERNARY, false);
            PrintLeft(e, p, till) == PrintLeft(e.left, t, till) + tail
  {
    hide Level, UnaryLevel;
    assert PrintLeft(e, p, till) == PrintBin(e, till, false);
  }

  /** The first token of a left operand that is no operator's expression. */
  lemma LeftBegins(e: Expr, p: nat, till: bool)
    requires !(e.Bin? && Level(e.sym) >= if LeftToRight(p) then p else p + 1)
    ensures PrintLeft(e, p, till) != []
    ensures PrintLeft(e, p, till)[0].TSym? ==> e.Un? && UnaryLevel(e.sym) > p && PrintLeft(e, p, till)[0] == TSym(e.sym)
  {
    hide Level, UnaryLevel, PrintBin, PrintCond;
  }

  /** Every prefix operator has a level of 17 or more. */
  lemma {:induction false} FirstOf(s: seq<Tok>)
    requires s != []
    ensures NoPrefix(s, 17)
  {
  }

  /** Parentheses hide everything: if the inside parses alone, the whole is an operand at any level. */
  lemma {:induction false} ParseParen(q: nat, till: bool, inside: seq<Tok>, v: Vertex, rest: seq<Tok>)
    requires BEGIN <= q <= END && Stops(rest, q)
    requires Parse(BEGIN, false, inside + ([TClose] + rest)) == Parsed(Some(v), [TClose] + rest)
    ensures Parse(q, till, Paren(inside) + rest) == Parsed(Some(v), rest)
  {
    hide Level, UnaryLevel, BuildBinary, BuildUnary, BuildTernary;
    var s := Paren(inside) + rest;
    assert s[0] == TOpen && s[1..] == inside + ([TClose] + rest);
    assert ([TClose] + rest)[1..] == rest;
    assert Top(s) == Parsed(Some(v), rest);
    Descend(q, END, till, s, v, rest);
  }

  // Single steps of the parser.

  lemma {:induction false} AtomStep(q: nat, till: bool, t: Tok, v: Vertex, rest: seq<Tok>)
    requires BEGIN <= q <= END && Stops(rest, q)
    requires (v.VAtom? && t == TAtom(v.id)) || (v.VNum? && t == TNum(v.text))
    ensures Parse(q, till, [t] + rest) == Parsed(Some(v), rest)
  {
    hide Level, UnaryLevel;
    assert ([t] + rest)[1..] == rest;
    Descend(q, END, till, [t] + rest, v, rest);
  }

  lemma {:induction false} UnaryStep(q: nat, till: bool, s: Sym, x: seq<Tok>, v: Vertex, rest: seq<Tok>)
    requires BEGIN <= q < END && Stops(rest, q) && UnaryLevel(s) > 0
    requires Parse(Max(UnaryLevel(s), q), till, x + rest) == Parsed(Some(v), rest)
    ensures Parse(q, till, [TSym(s)] + x + rest) == Parsed(Some(BuildUnary(s, v)), rest)
  {
    hide Level, UnaryLevel, BuildUnary;
    var k := Max(UnaryLevel(s), q);
    var all := [TSym(s)] + x + rest;
    assert all[1..] == x + rest;
    assert Parse(k, till, all) == Parsed(Some(BuildUnary(s, v)), rest);
    if q < k {
      Descend(q, k, till, all, BuildUnary(s, v), rest);
    }
  }

  lemma {:induction false} BinaryStep(p: nat, till: bool, left: Vertex, s: Sym, x: seq<Tok>, v: Vertex, rest: seq<Tok>)
    requires p == Level(s) >= BEGIN && s != Question
    requires Parse(RightLevel(p), till && p >= TERNARY, x + rest) == Parsed(Some(v), rest)
    ensures Loop(p, till, left, [TSym(s)] + x + rest)
         == if LeftToRight(p) then Loop(p, till, BuildBinary(s, left, v), rest)
            else Parsed(Some(BuildBinary(s, left, v)), rest)
  {
    hide Level, UnaryLevel, BuildBinary, Parse;
    assert ([TSym(s)] + x + rest)[1..] == x + rest;
  }

  /** The ternary loop takes one conditional and goes on. */
  lemma {:induction false} TernaryStep(
    left: Vertex, x: seq<Tok>, yes: Option<Vertex>, y: seq<Tok>, no: Vertex, rest: seq<Tok>)
    requires Parse(BEGIN, false, x + ([TColon] + y + rest)) == Parsed(yes, [TColon] + y + rest)
    requires Parse(BEGIN, true, y + rest) == Parsed(Some(no), rest)
    ensures Loop(TERNARY, false, left, [TSym(Question)] + x + ([TColon] + y + rest))
         == Loop(TERNARY, false, BuildTernary(left, yes, no), rest)
  {
    hide UnaryLevel, BuildTernary, Parse;
    assert ([TSym(Question)] + x + ([TColon] + y + rest))[1..] == x + ([TColon] + y + rest);
    assert ([TColon] + y + rest)[1..] == y + rest;
  }

  /** Nothing is read before a colon. */
  lemma {:induction false} NothingRead(p: nat, s: seq<Tok>)
    requires BEGIN <= p <= END && s != [] && s[0] == TColon
    ensures Parse(p, false, s) == Parsed(None, s)
    decreases END - p
  {
    if p < END {
      NothingRead(p + 1, s);
    }
  }

  /** Parsing the printed form of an expression gives back its vertex and stops right after it. */
  lemma {:induction false} RoundTrip(e: Expr, q: nat, till: bool, closed: bool, rest: seq<Tok>)
    requires WellFormed(e) && BEGIN <= q < END && Stops(rest, q) && (closed ==> Stops(rest, BEGIN))
    ensures Parse(q, till, Print(e, q, till, closed) + rest) == Parsed(Some(Denote(e)), rest)
    decreases e, 2
  {
    hide Level, UnaryLevel, BuildBinary, BuildUnary, BuildTernary, Parse, PrintBin, PrintCond;
    match e
    case Atom(id) => AtomStep(q, till, TAtom(id), VAtom(id), rest);
    case Number(text) => AtomStep(q, till, TNum(text), VNum(text), rest);
    case Un(s, x) =>
      var k := Max(UnaryLevel(s), q);
      RoundTrip(x, k, till, closed, rest);
      UnaryStep(q, till, s, Print(x, k, till, closed), Denote(x), rest);
    case Par(x) =>
      RoundTrip(x, BEGIN, false, true, [TClose] + rest);
      ParseParen(q, till, Print(x, BEGIN, false, true), Denote(x), rest);
    case Bin(s, _, _) =>
      if Level(s) < q {
        RoundTripBin(e, BEGIN, false, true, [TClose] + rest);
        ParseParen(q, till, PrintBin(e, false, true), Denote(e), rest);
      } else {
        RoundTripBin(e, q, till, closed, rest);
      }
    case _ =>
      if q <= TERNARY && !till && closed {
        RoundTripCond(e, q, rest);
      } else {
        RoundTripCond(e, BEGIN, [TClose] + rest);
        ParseParen(q, till, PrintCond(e, true), Denote(e), rest);
      }
  }

  lemma {:induction false} RoundTripCond(e: Expr, q: nat, rest: seq<Tok>)
    requires WellFormed(e) && Conditional(e) && BEGIN <= q <= TERNARY && Stops(rest, BEGIN)
    ensures Parse(q, false, PrintCond(e, true) + rest) == Parsed(Some(Denote(e)), rest)
    decreases e, 1
  {
    hide Level, UnaryLevel, BuildBinary, BuildUnary, BuildTernary, Parse, Print, PrintCond;
    var all := PrintCond(e, true) + rest;
    CondThenLoop(e, true, rest);
    assert Loop(TERNARY, false, Denote(e), rest) == Parsed(Some(Denote(e)), rest);
    CondNotEmpty(e, true);
    FirstOf(all);
    Descend(q, TERNARY, false, all, Denote(e), rest);
  }

  lemma CondNotEmpty(e: Expr, closed: bool)
    requires Conditional(e)
    ensures PrintCond(e, closed) != []
  {
    hide PrintTest, PrintNo;
    assert PrintYes(e)[0] == TSym(Question);
  }

  /** Reading a conditional leaves the ternary loop to go on: conditionals nest to the left without
      parentheses. */
  lemma {:induction false} CondThenLoop(e: Expr, closed: bool, rest: seq<Tok>)
    requires WellFormed(e) && Conditional(e)
    requires if closed then Stops(rest, BEGIN) else rest != [] && rest[0] == TSym(Question)
    ensures Parse(TERNARY, false, PrintCond(e, closed) + rest) == Loop(TERNARY, false, Denote(e), rest)
    decreases e, 0
  {
    var y := if e.Cond? then Print(e.yes, BEGIN, false, true) else [];
    var n := PrintNo(e.no, closed);
    var afterYes := [TColon] + n + rest;
    var afterTest := [TSym(Question)] + y + afterYes;
    assert PrintCond(e, closed) + rest == PrintTest(e.test) + afterTest;
    hide Level, UnaryLevel, BuildBinary, BuildUnary, BuildTernary, Parse, Loop, Print, PrintCond, PrintTest, PrintNo;
    TestThenLoop(e.test, afterTest);
    if e.Cond? {
      RoundTrip(e.yes, BEGIN, false, true, afterYes);
    } else {
      assert y + afterYes == afterYes;
      NothingRead(BEGIN, afterYes);
    }
    RoundTripNo(e.no, closed, rest);
    TernaryStep(Denote(e.test), y, if e.Cond? then Some(Denote(e.yes)) else None, n, Denote(e.no), rest);
  }

  lemma {:induction false} RoundTripNo(e: Expr, closed: bool, rest: seq<Tok>)
    requires WellFormed(e)
    requires if closed then Stops(rest, BEGIN) else rest != [] && rest[0] == TSym(Question)
    ensures Parse(BEGIN, true, PrintNo(e, closed) + rest) == Parsed(Some(Denote(e)), rest)
    decreases e, 3
  {
    hide UnaryLevel, BuildBinary, BuildUnary, BuildTernary, Parse, Loop, Print;
    if closed {
      RoundTrip(e, BEGIN, true, true, rest);
    } else {
      RoundTrip(e, TERNARY + 1, true, false, rest);
      PrintNotEmpty(e, TERNARY + 1, true, false);
      FirstOf(PrintNo(e, closed) + rest);
      DescendToQuestion(BEGIN, PrintNo(e, closed) + rest, Denote(e), rest);
    }
  }

  lemma {:induction false} TestThenLoop(e: Expr, rest: seq<Tok>)
    requires WellFormed(e) && rest != [] && rest[0] == TSym(Question)
    ensures Parse(TERNARY, false, PrintTest(e) + rest) == Loop(TERNARY, false, Denote(e), rest)
    decreases e, 3
  {
    hide UnaryLevel, BuildBinary, BuildUnary, BuildTernary, Loop, Print, PrintCond;
    if Conditional(e) {
      CondThenLoop(e, false, rest);
    } else {
      RoundTrip(e, TERNARY + 1, false, false, rest);
      PrintNotEmpty(e, TERNARY + 1, false, false);
      FirstOf(PrintTest(e) + rest);
    }
  }

  lemma BinTail(e: Expr, till: bool, closed: bool, rest: seq<Tok>)
    requires e.Bin?
    ensures var p := Level(e.sym);
            var right := Print(e.right, RightLevel(p), till && p >= TERNARY, closed);
            PrintBin(e, till, closed) + rest == PrintLeft(e.left, p, till) + ([TSym(e.sym)] + right + rest)
  {
    hide Level, Print, PrintLeft;
  }

  /** Where no operator of the level follows, the loop ends. */
  lemma LoopEnds(p: nat, till: bool, v: Vertex, rest: seq<Tok>)
    requires BEGIN <= p && (rest != [] && rest[0].TSym? ==> Level(rest[0].sym) != p)
    ensures Loop(p, till, v, rest) == Parsed(Some(v), rest)
  {
    hide Level, UnaryLevel, BuildBinary, BuildUnary, BuildTernary, Parse;
  }

  lemma {:induction false} RoundTripBin(e: Expr, q: nat, till: bool, closed: bool, rest: seq<Tok>)
    requires WellFormed(e) && e.Bin? && BEGIN <= q <= Level(e.sym) && Stops(rest, q) && (closed ==> Stops(rest, BEGIN))
    ensures Parse(q, till, PrintBin(e, till, closed) + rest) == Parsed(Some(Denote(e)), rest)
    decreases e, 0
  {
    var p := Level(e.sym);
    var right := Print(e.right, RightLevel(p), till && p >= TERNARY, closed);
    var tail := [TSym(e.sym)] + right + rest;
    var all := PrintBin(e, till, closed) + rest;
    BinTail(e, till, closed, rest);
    hide Level, UnaryLevel, BuildBinary, BuildUnary, BuildTernary, Parse, Print, PrintLeft, PrintBin, Loop;
    LeftThenLoop(e.left, p, till, tail);
    RoundTrip(e.right, RightLevel(p), till && p >= TERNARY, closed, rest);
    BinaryStep(p, till, Denote(e.left), e.sym, right, Denote(e.right), rest);
    LeftStarts(e.left, p, till, tail);
    LoopEnds(p, till, Denote(e), rest);
    Descend(q, p, till, all, Denote(e), rest);
  }

  /** Reading a left operand at its operator's level leaves the loop of that level to go on: a chain
      of operators of one left-associative level needs no parentheses. */
  lemma {:induction false} LeftThenLoop(e: Expr, p: nat, till: bool, rest: seq<Tok>)
    requires WellFormed(e) && BEGIN <= p < END - 1 && p != TERNARY && Stops(rest, p + 1)
    ensures Parse(p, till, PrintLeft(e, p, till) + rest) == Loop(p, till, Denote(e), rest)
    decreases e, 3
  {
    hide Level, UnaryLevel, BuildBinary, BuildUnary, BuildTernary, Loop;
    LeftStarts(e, p, till, rest);
    if e.Un? && UnaryLevel(e.sym) <= p {
      RoundTrip(e, BEGIN, false, true, [TClose] + rest);
      ParseParen(p + 1, till, Print(e, BEGIN, false, true), Denote(e), rest);
    } else if e.Bin? && Level(e.sym) == p && LeftToRight(p) {
      ChainThenLoop(e, p, till, rest);
    } else {
      RoundTrip(e, p + 1, till, false, rest);
      assert Print(e, p + 1, till, false) == PrintLeft(e, p, till);
    }
  }

  lemma {:induction false} ChainThenLoop(e: Expr, p: nat, till: bool, rest: seq<Tok>)
    requires WellFormed(e) && BEGIN <= p && p != TERNARY && Stops(rest, p + 1)
    requires e.Bin? && Level(e.sym) == p && LeftToRight(p)
    ensures Parse(p, till, PrintLeft(e, p, till) + rest) == Loop(p, till, Denote(e), rest)
    decreases e, 0
  {
    hide Level, UnaryLevel, BuildBinary, BuildUnary, BuildTernary, Parse, Loop, Print, PrintLeft, PrintBin;
    var right := Print(e.right, p + 1, till && p >= TERNARY, false);
    var tail := [TSym(e.sym)] + right + rest;
    ChainPrinted(e, p, till);
    assert PrintLeft(e, p, till) + rest == PrintLeft(e.left, p, till) + tail;
    LeftThenLoop(e.left, p, till, tail);
    RoundTrip(e.right, p + 1, till && p >= TERNARY, false, rest);
    BinaryStep(p, till, Denote(e.left), e.sym, right, Denote(e.right), rest);
  }

  lemma ChainPrinted(e: Expr, p: nat, till: bool)
    requires e.Bin? && Level(e.sym) == p && LeftToRight(p)
    ensures PrintLeft(e, p, till)
         == PrintLeft(e.left, p, till) + [TSym(e.sym)] + Print(e.right, p + 1, till && p >= TERNARY, false)
  {
    hide Level, UnaryLevel;
    assert PrintLeft(e, p, till) == Print(e, p, till, false) == PrintBin(e, till, false);
  }

  /** The whole law: parsing undoes printing. */
  lemma ParsePrint(e: Expr)
    requires WellFormed(e)
    ensures Parse(BEGIN, false, Print(e, BEGIN, false, true)) == Parsed(Some(Denote(e)), [])
  {
    hide Parse, Print;
    RoundTrip(e, BEGIN, false, true, []);
    assert Print(e, BEGIN, false, true) + [] == Print(e, BEGIN, false, true);
  }
}
