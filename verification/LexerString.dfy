/** Single-quoted strings in the lexer, which unescapes them in the source text itself. */
module LexerString {
  import opened Wrappers

  const NUL := '\0'
  const QUOTE := '\''
  const BACKSLASH := '\\'

  /** The text ends with a zero character. */
  function At(t: seq<char>, i: nat): char {
    if i < |t| then t[i] else NUL
  }

  predicate Escaped(t: seq<char>, i: nat) {
    At(t, i) == BACKSLASH && (At(t, i + 1) == BACKSLASH || At(t, i + 1) == QUOTE)
  }

  /** What a single-quoted string means, from the character at i on: its value and the place of the
      closing quote, or None if the text ends before that. */
  function Decode(t: seq<char>, i: nat): (r: Option<(seq<char>, nat)>)
    ensures r.Some? ==> i <= r.value.1 < |t| && t[r.value.1] == QUOTE
    decreases |t| - i
  {
    if At(t, i) == NUL then None
    else if At(t, i) == QUOTE then Some(([], i))
    else if Escaped(t, i) then Then(t[i + 1], Decode(t, i + 2))
    else Then(t[i], Decode(t, i + 1))
  }

  function Then(c: char, r: Option<(seq<char>, nat)>): Option<(seq<char>, nat)> {
    match r case None => None case Some((v, e)) => Some(([c] + v, e))
  }

  /** The escaped form of a value. */
  function Escape(v: seq<char>): seq<char> {
    if v == [] then []
    else if v[0] == BACKSLASH || v[0] == QUOTE then [BACKSLASH, v[0]] + Escape(v[1..])
    else [v[0]] + Escape(v[1..])
  }

  /** A value comes back from its escaped form if and only if it has no zero character. */
  lemma {:induction false} DecodeEscape(pre: seq<char>, v: seq<char>, post: seq<char>)
    ensures Decode(pre + Escape(v) + [QUOTE] + post, |pre|)
         == if NUL in v then None else Some((v, |pre| + |Escape(v)|))
    decreases |v|
  {
    var t := pre + Escape(v) + [QUOTE] + post;
    if v == [] {
      assert t[|pre|] == QUOTE;
    } else {
      var c := v[0];
      var head := if c == BACKSLASH || c == QUOTE then [BACKSLASH, c] else [c];
      assert Escape(v) == head + Escape(v[1..]);
      assert pre + head + Escape(v[1..]) + [QUOTE] + post == t;
      DecodeEscape(pre + head, v[1..], post);
      assert t[|pre|] == head[0] && (|head| == 2 ==> t[|pre| + 1] == c);
      assert v == [c] + v[1..];
    }
  }

  // ----- every spelling of a value -----

  /** A piece of the text between the quotes: a character that is no quote, backslash or zero, a
      backslash that stands for itself, two backslashes, or a backslash and a quote. */
  datatype Piece = Plain(c: char) | Lone | Double | Apostrophe

  function Spelled(p: Piece): seq<char> {
    match p
    case Plain(c) => [c]
    case Lone => ['\\']
    case Double => ['\\', '\\']
    case Apostrophe => ['\\', '\'']
  }

  function Stands(p: Piece): char {
    match p
    case Plain(c) => c
    case Lone => '\\'
    case Double => '\\'
    case Apostrophe => '\''
  }

  function SpelledAll(ps: seq<Piece>): seq<char> {
    if ps == [] then [] else Spelled(ps[0]) + SpelledAll(ps[1..])
  }

  function Value(ps: seq<Piece>): seq<char> {
    if ps == [] then [] else [Stands(ps[0])] + Value(ps[1..])
  }

  /** A backslash stands for itself only where no backslash and no quote follows. */
  predicate Spelling(ps: seq<Piece>, next: char) {
    ps == [] || (
      && (ps[0].Plain? ==> ps[0].c !in {'\0', '\'', '\\'})
      && (ps[0] == Lone ==> (if |ps| == 1 then next else Spelled(ps[1])[0]) !in {'\'', '\\'})
      && Spelling(ps[1..], next))
  }

  /** What is read of a spelling, up to the quote or the zero that ends it. */
  lemma {:induction false} DecodeSpelled(t: seq<char>, i: nat, ps: seq<Piece>)
    requires i + |SpelledAll(ps)| <= |t| && t[i..i + |SpelledAll(ps)|] == SpelledAll(ps)
    requires Spelling(ps, At(t, i + |SpelledAll(ps)|))
    ensures var e := i + |SpelledAll(ps)|;
            && (At(t, e) == '\'' ==> Decode(t, i) == Some((Value(ps), e)))
            && (At(t, e) == '\0' ==> Decode(t, i) == None)
    decreases |ps|
  {
    if ps != [] {
      SpelledRest(t, i, ps);
      PieceRead(t, i, ps);
      hide Decode, SpelledAll, At;
      DecodeSpelled(t, i + |Spelled(ps[0])|, ps[1..]);
    }
  }

  lemma {:induction false} SpelledRest(t: seq<char>, i: nat, ps: seq<Piece>)
    requires ps != [] && i + |SpelledAll(ps)| <= |t| && t[i..i + |SpelledAll(ps)|] == SpelledAll(ps)
    ensures var n, m := |Spelled(ps[0])|, |SpelledAll(ps[1..])|;
            |SpelledAll(ps)| == n + m && t[i + n..i + n + m] == SpelledAll(ps[1..])
  {
    var n, m := |Spelled(ps[0])|, |SpelledAll(ps[1..])|;
    assert SpelledAll(ps) == Spelled(ps[0]) + SpelledAll(ps[1..]);
    assert t[i + n..i + n + m] == t[i..i + n + m][n..];
  }

  lemma {:induction false} PieceRead(t: seq<char>, i: nat, ps: seq<Piece>)
    requires ps != [] && i + |SpelledAll(ps)| <= |t| && t[i..i + |SpelledAll(ps)|] == SpelledAll(ps)
    requires Spelling(ps, At(t, i + |SpelledAll(ps)|))
    ensures Decode(t, i) == Then(Stands(ps[0]), Decode(t, i + |Spelled(ps[0])|))
  {
    var h, more := Spelled(ps[0]), SpelledAll(ps[1..]);
    assert SpelledAll(ps) == h + more;
    var s := t[i..i + |h + more|];
    assert t[i] == s[0] == h[0];
    if |h| == 2 {
      assert t[i + 1] == s[1] == h[1];
    } else if ps[0] == Lone && |ps| > 1 {
      assert ps[1..][0] == ps[1];
      assert more[0] == Spelled(ps[1])[0] && t[i + 1] == s[1] == more[0];
    }
    hide Decode;
    DecodeStep(t, i);
  }

  /** The piece that begins at i. */
  function PieceAt(t: seq<char>, i: nat): Piece {
    if At(t, i) != '\\' then Plain(At(t, i))
    else if At(t, i + 1) == '\\' then Double
    else if At(t, i + 1) == '\'' then Apostrophe
    else Lone
  }

  lemma PieceStands(t: seq<char>, i: nat)
    requires At(t, i) !in {'\0', '\''}
    ensures var p := PieceAt(t, i);
            && i < i + |Spelled(p)| <= |t| && t[i..i + |Spelled(p)|] == Spelled(p)
            && (p.Plain? ==> p.c !in {'\0', '\'', '\\'}) && (p == Lone ==> At(t, i + 1) !in {'\'', '\\'})
  {
  }

  lemma {:induction false} SpellingCons(t: seq<char>, i: nat, p: Piece, more: seq<Piece>, next: char)
    requires (p.Plain? ==> p.c !in {'\0', '\'', '\\'}) && (p == Lone ==> At(t, i + 1) !in {'\'', '\\'})
    requires Spelling(more, next) && At(t, i + |Spelled(p)|) == if more == [] then next else Spelled(more[0])[0]
    ensures Spelling([p] + more, next)
  {
    assert ([p] + more)[1..] == more;
  }

  /** Every text is a spelling up to the first quote or zero that no backslash takes away. */
  lemma {:induction false} Spellings(t: seq<char>, i: nat) returns (ps: seq<Piece>)
    requires i <= |t|
    ensures var e := i + |SpelledAll(ps)|;
            && e <= |t| && t[i..e] == SpelledAll(ps) && Spelling(ps, At(t, e)) && (At(t, e) == '\'' || At(t, e) == '\0')
    decreases |t| - i
  {
    if At(t, i) == '\0' || At(t, i) == '\'' {
      ps := [];
    } else {
      var p := PieceAt(t, i);
      PieceStands(t, i);
      hide SpelledAll, Spelling, Spelled, PieceAt, At;
      var j := i + |Spelled(p)|;
      var more := Spellings(t, j);
      NextOf(t, j, more);
      SpellingMore(t, i, p, more);
      SpellingCons(t, i, p, more, At(t, j + |SpelledAll(more)|));
      ps := [p] + more;
    }
  }

  lemma {:induction false} SpellingMore(t: seq<char>, i: nat, p: Piece, more: seq<Piece>)
    requires i + |Spelled(p)| + |SpelledAll(more)| <= |t| && t[i..i + |Spelled(p)|] == Spelled(p)
    requires t[i + |Spelled(p)|..i + |Spelled(p)| + |SpelledAll(more)|] == SpelledAll(more)
    ensures var ps := [p] + more;
            && ps[1..] == more && SpelledAll(ps) == Spelled(p) + SpelledAll(more)
            && t[i..i + |SpelledAll(ps)|] == SpelledAll(ps)
  {
    var n, ps := |Spelled(p)|, [p] + more;
    assert ps[1..] == more;
    assert t[i..i + n + |SpelledAll(more)|] == t[i..i + n] + t[i + n..i + n + |SpelledAll(more)|];
  }

  lemma NextOf(t: seq<char>, i: nat, ps: seq<Piece>)
    requires i + |SpelledAll(ps)| <= |t| && t[i..i + |SpelledAll(ps)|] == SpelledAll(ps)
    ensures ps != [] ==> At(t, i) == Spelled(ps[0])[0]
    ensures ps == [] ==> |SpelledAll(ps)| == 0
  {
    if ps != [] {
      assert SpelledAll(ps)[0] == Spelled(ps[0])[0];
      assert t[i] == t[i..i + |SpelledAll(ps)|][0];
    }
  }

  function Newlines(v: seq<char>): nat {
    if v == [] then 0 else Newlines(v[..|v| - 1]) + if v[|v| - 1] == '\n' then 1 else 0
  }

  /** A string in progress, and what is still to be decoded. */
  function After(v: seq<char>, r: Option<(seq<char>, nat)>): Option<(seq<char>, nat)> {
    match r case None => None case Some((w, e)) => Some((v + w, e))
  }

  lemma AfterThen(v: seq<char>, c: char, r: Option<(seq<char>, nat)>)
    ensures After(v, Then(c, r)) == After(v + [c], r)
  {
    if r.Some? {
      assert v + ([c] + r.value.0) == v + [c] + r.value.0;
    }
  }

  lemma NothingRead(r: Option<(seq<char>, nat)>)
    ensures After([], r) == r
  {
    if r.Some? {
      assert [] + r.value.0 == r.value.0;
    }
  }

  lemma NewlinesMore(v: seq<char>, c: char)
    ensures Newlines(v + [c]) == Newlines(v) + if c == '\n' then 1 else 0
  {
    assert (v + [c])[..|v|] == v;
  }

  lemma DecodeStep(t: seq<char>, i: nat)
    ensures Escaped(t, i) ==> Decode(t, i) == Then(At(t, i + 1), Decode(t, i + 2))
    ensures !Escaped(t, i) && At(t, i) !in {NUL, QUOTE} ==> Decode(t, i) == Then(At(t, i), Decode(t, i + 1))
  {
  }

  lemma NoNewlines()
    ensures Newlines([]) == 0
  {
  }

  lemma StringEnds(t: seq<char>, i: nat, v: seq<char>)
    ensures At(t, i) == QUOTE ==> After(v, Decode(t, i)) == Some((v, i))
    ensures At(t, i) == NUL ==> After(v, Decode(t, i)) == None
  {
    assert v + [] == v;
  }

  /** Writing behind the string leaves what is before it and what is still to be read. */
  lemma {:induction false} Written(t: seq<char>, source: seq<char>, b: nat, cur: nat, read: nat, next: nat, c: char)
    requires b <= cur <= read < next <= |t| == |source| && t[read..] == source[read..]
    ensures var u := t[cur := c]; u[..b] == t[..b] && u[next..] == source[next..] && u[b..cur + 1] == t[b..cur] + [c]
  {
    assert t[next..] == t[read..][next - read..];
    assert source[next..] == source[read..][next - read..];
  }

  lemma EscapeStep(t: seq<char>, i: nat, c: char)
    requires Escaped(t, i) && At(t, i + 1) == c
    ensures c != '\n' && i + 2 <= |t| && Decode(t, i) == Then(c, Decode(t, i + 2))
  {
  }

  lemma {:induction false} Parts(front: seq<char>, mid: seq<char>, post: seq<char>)
    ensures var source := front + mid + [QUOTE] + post;
            source[..|front|] == front && source[|front| + |mid|..][1..] == post
  {
    var source := front + mid + [QUOTE] + post;
    assert source[|front| + |mid|..] == [QUOTE] + post;
  }

  lemma {:induction false} QuoteStands(pre: seq<char>, more: seq<char>, t: seq<char>)
    requires t == pre + [QUOTE] + more
    ensures |pre| < |t| && t[|pre|] == QUOTE
  {
  }

  lemma QuoteBefore(t: seq<char>, pre: seq<char>, mid: seq<char>, post: seq<char>)
    requires t == pre + [QUOTE] + mid + post
    ensures |pre| < |t| && t[|pre|] == QUOTE
  {
  }

  lemma TailKept(u: seq<char>, t: seq<char>, e: nat, post: seq<char>)
    requires |u| == |t| && e < |t| && u[e..] == t[e..] == post
    ensures u[e + 1..] == post[1..]
  {
  }

  lemma {:induction false} SpelledPlace(t: seq<char>, front: seq<char>, mid: seq<char>, post: seq<char>)
    requires t == front + mid + post
    ensures var e := |front| + |mid|;
            && e <= |t| && t[|front|..e] == mid && t[e..] == post && At(t, e) == At(post, 0) && t[..|front|] == front
  {
  }

  lemma {:induction false} SpelledInText(t: seq<char>, pre: seq<char>, ps: seq<Piece>, post: seq<char>)
    requires t == pre + ['\''] + SpelledAll(ps) + post
    requires Spelling(ps, At(post, 0)) && At(post, 0) in {'\'', '\0'}
    ensures var b, e := |pre| + 1, |pre| + 1 + |SpelledAll(ps)|;
            && b <= e <= |t| && t[|pre|] == QUOTE && t[..b] == pre + ['\''] && t[e..] == post
            && Decode(t, b) == if At(post, 0) == '\'' then Some((Value(ps), e)) else None
  {
    hide Decode, SpelledAll, Value, Spelling;
    SpelledPlace(t, pre + [QUOTE], SpelledAll(ps), post);
    QuoteBefore(t, pre, SpelledAll(ps), post);
    DecodeSpelled(t, |pre| + 1, ps);
  }

  class LexerData {
    const text: array<char>
    var code: nat
    var line: nat
    var inGenStr: bool
    var strBegin: nat
    var strCur: nat
    var tokens: seq<(nat, nat)>

    constructor (text: array<char>)
      ensures this.text == text && code == 0 && line == 1 && !inGenStr && tokens == []
    {
      this.text := text;
      code, line, inGenStr, strBegin, strCur, tokens := 0, 1, false, 0, 0, [];
    }

    function Char(i: nat): char
      reads text
    {
      if i < text.Length then text[i] else NUL
    }

    method StartStr()
      modifies this
      ensures inGenStr && strBegin == code && strCur == code
      ensures code == old(code) && line == old(line) && tokens == old(tokens)
    {
      inGenStr, strBegin, strCur := true, code, code;
    }

    /** Writes a character behind the string in progress: the given one, or the one under the cursor. */
    method AppendChar(c: Option<char>)
      requires if inGenStr then strCur < text.Length else code < text.Length
      requires c == None ==> code < text.Length
      modifies this, text
      ensures inGenStr && tokens == old(tokens)
      ensures strBegin == (if old(inGenStr) then old(strBegin) else old(code))
      ensures strCur == (if old(inGenStr) then old(strCur) else old(code)) + 1
      ensures code == old(code) + (if c == None then 1 else 0)
      ensures line == old(line) + (if c == None && old(text[code]) == '\n' then 1 else 0)
      ensures text[..] == old(text[..])[strCur - 1 := if c == None then old(text[code]) else c.value]
    {
      if !inGenStr {
        StartStr();
      }
      if c == None {
        var x := text[code];
        text[strCur] := x;
        strCur := strCur + 1;
        if x == '\n' {
          line := line + 1;
        }
        code := code + 1;
      } else {
        text[strCur] := c.value;
        strCur := strCur + 1;
      }
    }

    /** Adds the string in progress as a token and blanks the rest of its place in the text. */
    method FlushStr()
      requires inGenStr ==> strBegin <= strCur <= code <= text.Length
      modifies this, text
      ensures !inGenStr && code == old(code) && line == old(line)
      ensures !old(inGenStr) ==> tokens == old(tokens) && text[..] == old(text[..])
      ensures old(inGenStr) ==>
                && tokens == old(tokens) + [(old(strBegin), old(strCur))]
                && text[..old(strCur)] == old(text[..strCur])
                && (forall i :: old(strCur) <= i < code ==> text[i] == ' ')
                && text[code..] == old(text[code..])
    {
      if inGenStr {
        tokens := tokens + [(strBegin, strCur)];
        while strCur != code
          invariant old(strCur) <= strCur <= code && code == old(code) && line == old(line)
          invariant tokens == old(tokens) + [(old(strBegin), old(strCur))]
          invariant text[..old(strCur)] == old(text[..strCur]) && text[code..] == old(text[code..])
          invariant forall i :: old(strCur) <= i < strCur ==> text[i] == ' '
          decreases code - strCur
        {
          text[strCur] := ' ';
          strCur := strCur + 1;
        }
        inGenStr := false;
      }
    }

    /** Writes the character of an escape sequence and passes the two characters of it. */
    method Unescape(c: char, ghost source: seq<char>, ghost b: nat, ghost line0: nat)
      requires Reading(source, b, line0) && Escaped(source, code) && At(source, code + 1) == c
      modifies this, text
      ensures Reading(source, b, line0) && code == old(code) + 2 && tokens == old(tokens)
    {
      hide Decode, After, Newlines, Escaped, At;
      ghost var v, rest := text[b..strCur], Decode(source, code + 2);
      EscapeStep(source, code, c);
      ghost var was := text[..];
      Written(was, source, b, strCur, code, code + 2, c);
      AppendChar(Some(c));
      code := code + 2;
      NewlinesMore(v, c);
      AfterThen(v, c, rest);
    }

    method Take(ghost source: seq<char>, ghost b: nat, ghost line0: nat)
      requires Reading(source, b, line0) && At(source, code) !in {NUL, QUOTE} && !Escaped(source, code)
      modifies this, text
      ensures Reading(source, b, line0) && code == old(code) + 1 && tokens == old(tokens)
    {
      ghost var v, c, rest := text[b..strCur], At(source, code), Decode(source, code + 1);
      hide Decode, After, Newlines;
      DecodeStep(source, code);
      Unread(source, code);
      ghost var was := text[..];
      Written(was, source, b, strCur, code, code + 1, c);
      AppendChar(None);
      NewlinesMore(v, c);
      AfterThen(v, c, rest);
    }

    /** Lexes the string whose opening quote is under the cursor. */
    method ParseSimpleString() returns (ok: bool)
      requires code < text.Length && text[code] == QUOTE
      modifies this, text
      ensures match Decode(old(text[..]), old(code) + 1)
              case None => !ok && tokens == old(tokens) && code <= text.Length && text[code..] == old(text[..])[code..]
              case Some((v, e)) =>
                var b := old(code) + 1;
                && ok && code == e + 1 && !inGenStr && line == old(line) + Newlines(v)
                && b + |v| <= e < text.Length && tokens == old(tokens) + [(b, b + |v|)]
                && text[b..b + |v|] == v && (forall i :: b + |v| <= i < e ==> text[i] == ' ')
                && text[..b] == old(text[..])[..b] && text[e..] == old(text[..])[e..]
    {
      hide Decode, After, Newlines;
      ghost var source, b := text[..], code + 1;
      code := code + 1;
      StartStr();
      NothingRead(Decode(source, b));
      NoNewlines();
      assert text[b..strCur] == [];
      ok := ReadString(source, b, old(line));
      ghost var v := text[b..strCur];
      StringEnds(source, code, v);
      if ok {
        FlushStr();
        assert text[b..b + |v|] == v && text[..b] == source[..b];
        code := code + 1;
      }
    }

    /** The loop of the parser. */
    method ReadString(ghost source: seq<char>, ghost b: nat, ghost line0: nat) returns (ok: bool)
      requires Reading(source, b, line0)
      modifies this, text
      ensures Reading(source, b, line0) && tokens == old(tokens) && At(source, code) == if ok then QUOTE else NUL
    {
      hide Reading;
      while true
        invariant Reading(source, b, line0) && tokens == old(tokens)
        decreases text.Length - code
      {
        Here(source, b, line0);
        if Char(code) == NUL {
          return false;
        } else if Char(code) == QUOTE {
          return true;
        } else if Char(code) == BACKSLASH && Char(code + 1) == BACKSLASH {
          Unescape(BACKSLASH, source, b, line0);
        } else if Char(code) == BACKSLASH && Char(code + 1) == QUOTE {
          Unescape(QUOTE, source, b, line0);
        } else {
          Take(source, b, line0);
        }
      }
    }

    lemma Here(source: seq<char>, b: nat, line0: nat)
      requires Reading(source, b, line0)
      ensures Char(code) == At(source, code) && Char(code + 1) == At(source, code + 1)
    {
      Unread(source, code);
      Unread(source, code + 1);
    }

    /** The state while a string is read: what stands before the write cursor is decoded, what
        stands from the read cursor on is still the source. */
    ghost predicate Reading(source: seq<char>, b: nat, line0: nat)
      reads this, text
    {
      && |source| == text.Length && inGenStr && strBegin == b <= strCur <= code <= text.Length
      && text[..b] == source[..b] && text[code..] == source[code..]
      && line == line0 + Newlines(text[b..strCur])
      && Decode(source, b) == After(text[b..strCur], Decode(source, code))
    }

    lemma Unread(source: seq<char>, i: nat)
      requires |source| == text.Length && code <= text.Length && text[code..] == source[code..] && code <= i
      ensures Char(i) == At(source, i)
    {
      if i < text.Length {
        assert text[code..][i - code] == source[code..][i - code];
      }
    }

    /** Lexing the quoted, escaped form of a value leaves a token that spells the value. */
    method LexQuoted(ghost pre: seq<char>, ghost v: seq<char>, ghost post: seq<char>) returns (ok: bool)
      requires text[..] == pre + [QUOTE] + Escape(v) + [QUOTE] + post && code == |pre|
      modifies this, text
      ensures ok == (NUL !in v)
      ensures ok ==>
                var b := |pre| + 1;
                && code <= text.Length && text[code..] == post
                && tokens == old(tokens) + [(b, b + |v|)] && b + |v| <= text.Length
                && text[b..b + |v|] == v && text[..b] == pre + [QUOTE]
    {
      hide Decode, Escape;
      ghost var front := pre + [QUOTE];
      DecodeEscape(front, v, post);
      Parts(front, Escape(v), post);
      QuoteStands(pre, Escape(v) + [QUOTE] + post, text[..]);
      ok := ParseSimpleString();
      if ok {
        ghost var e := |front| + |Escape(v)|;
        assert text[e..][1..] == text[code..];
      }
    }

    /** Lexing any spelling of a value between quotes leaves a token that is the value, with the cursor
        behind the closing quote; without a closing quote it fails. */
    method LexSpelled(ghost pre: seq<char>, ghost ps: seq<Piece>, ghost post: seq<char>) returns (ok: bool)
      requires text[..] == pre + ['\''] + SpelledAll(ps) + post && code == |pre|
      requires Spelling(ps, At(post, 0)) && At(post, 0) in {'\'', '\0'}
      modifies this, text
      ensures ok == (At(post, 0) == '\'')
      ensures ok ==>
                var b, v := |pre| + 1, Value(ps);
                && code <= text.Length && text[code..] == post[1..] && line == old(line) + Newlines(v)
                && tokens == old(tokens) + [(b, b + |v|)] && b + |v| <= text.Length
                && text[b..b + |v|] == v && text[..b] == pre + ['\'']
    {
      hide Decode, SpelledAll, Value, Newlines, Spelling, At;
      ghost var t, b, e := text[..], |pre| + 1, |pre| + 1 + |SpelledAll(ps)|;
      SpelledInText(t, pre, ps, post);
      ok := ParseSimpleString();
      if ok {
        TailKept(text[..], t, e, post);
      }
    }
  }
}
