/** The dialect-aware literal scanner of db/bind.go.

    A query is a `string` whose characters stand for its bytes. Every function here is
    total over all characters, so its laws cover every byte string.

    The specification reads a query as a suffix: how long is the literal that opens at
    the head of `s`, given a two-bit summary of what lies behind it (`Behind`). The
    index loops of the source are in SqlScanLoops, each proved against it. */
module SqlScanner {
  import opened Wrappers

  datatype Dialect = MySQL | Postgres | Generic

  // ---------------------------------------------------------------- characters

  predicate IsDigit(c: char) { '0' <= c <= '9' }

  predicate IsLetter(c: char) { 'a' <= c <= 'z' || 'A' <= c <= 'Z' }

  predicate IsHigh(c: char) { c as int >= 0x80 }

  predicate IsNameStart(c: char) { c == '_' || IsLetter(c) || IsHigh(c) }

  predicate IsDollarTagChar(c: char) { c == '_' || IsDigit(c) || IsLetter(c) || IsHigh(c) }

  predicate IsIdentChar(c: char) { c == '$' || IsDollarTagChar(c) }

  predicate IsSpaceByte(c: char) {
    c == ' ' || c == '\t' || c == '\n' || c == '\r' || c == '\U{000C}' || c == '\U{000B}'
  }

  /** The stand-in for "::" while names are bound. */
  const CAST_SENTINEL: char := '\U{0000}'

  /** The stand-in for ':' while names are bound. */
  const COLON_SENTINEL: char := '\U{0001}'

  /** The characters that the binding stages write over one another. None of them means
      anything to the scanner. */
  predicate Inert(c: char) { c == ':' || c == '?' || c == CAST_SENTINEL || c == COLON_SENTINEL }

  // ---------------------------------------------------------------- look-behind

  /** What the scanner remembers of the text behind a position: whether the last byte is
      an identifier byte, and whether it is an E that starts a token. */
  datatype Behind = Behind(ident: bool, escape: bool)

  /** Nothing behind, or a byte that is neither an identifier byte nor an E. */
  const FRESH := Behind(false, false)

  function Step(b: Behind, c: char): Behind {
    Behind(IsIdentChar(c), (c == 'E' || c == 'e') && !b.ident)
  }

  function After(b: Behind, s: string): Behind
    decreases |s|
  {
    if s == [] then b else After(Step(b, s[0]), s[1..])
  }

  lemma {:induction false} AfterConcat(b: Behind, x: string, y: string)
    ensures After(b, x + y) == After(After(b, x), y)
    decreases |x|
  {
    if x == [] {
      assert x + y == y;
    } else {
      assert (x + y)[1..] == x[1..] + y;
      AfterConcat(Step(b, x[0]), x[1..], y);
    }
  }

  /** Two bytes are all the scanner looks back at. */
  lemma {:induction false} AfterForgets(b: Behind, b': Behind, s: string)
    requires |s| >= 2
    ensures After(b, s) == After(b', s)
  {
    var t := s[1..];
    assert t[0] == s[1];
    assert Step(Step(b, s[0]), t[0]) == Step(Step(b', s[0]), t[0]);
  }

  // ---------------------------------------------------------------- literal lengths

  /** The number of bytes of `s` up to and including the closing quote, where `s` starts
      just past the opening quote. All of `s` when nothing closes it. */
  function QuotedTail(s: string, quote: char, backslash: bool): (n: nat)
    ensures n <= |s|
    ensures s != [] ==> n > 0
  {
    if s == [] then 0
    else if backslash && s[0] == '\\' then
      if |s| == 1 then 1 else 2 + QuotedTail(s[2..], quote, backslash)
    else if s[0] == quote then
      if |s| > 1 && s[1] == quote then 2 + QuotedTail(s[2..], quote, backslash) else 1
    else 1 + QuotedTail(s[1..], quote, backslash)
  }

  /** The number of bytes of `s` up to and including the first newline. */
  function LineTail(s: string): (n: nat)
    ensures n <= |s|
    ensures s != [] ==> n > 0
    ensures '\n' in s <==> n > 0 && s[n - 1] == '\n'
    ensures forall k :: 0 <= k < n - 1 ==> s[k] != '\n'
    ensures '\n' !in s ==> n == |s|
  {
    if s == [] then 0 else if s[0] == '\n' then 1 else 1 + LineTail(s[1..])
  }

  /** The number of bytes of `s` that close `depth` open block comments. */
  function BlockTail(s: string, depth: nat, nested: bool): (n: nat)
    requires depth > 0
    ensures n <= |s|
    ensures s != [] ==> n > 0
    decreases |s|
  {
    if s == [] then 0
    else if |s| > 1 && s[0] == '*' && s[1] == '/' then
      if depth == 1 then 2 else 2 + BlockTail(s[2..], depth - 1, nested)
    else if nested && |s| > 1 && s[0] == '/' && s[1] == '*' then
      2 + BlockTail(s[2..], depth + 1, nested)
    else 1 + BlockTail(s[1..], depth, nested)
  }

  /** The first place where `delim` occurs in `s`. */
  function Find(s: string, delim: string): (r: Option<nat>)
    requires delim != []
    ensures r.Some? ==> r.value + |delim| <= |s|
  {
    if delim <= s then Some(0)
    else if s == [] then None
    else match Find(s[1..], delim)
      case None => None
      case Some(k) => Some(k + 1)
  }

  function TagRun(s: string): (n: nat)
    ensures n <= |s|
    ensures forall k :: 0 <= k < n ==> IsDollarTagChar(s[k])
    ensures n < |s| ==> !IsDollarTagChar(s[n])
  {
    if s == [] || !IsDollarTagChar(s[0]) then 0 else 1 + TagRun(s[1..])
  }

  /** Whether the '$' at the head of `s` opens a dollar-quoted string. */
  predicate DollarOpens(b: Behind, s: string)
    requires s != []
  {
    var n := TagRun(s[1..]);
    !b.ident && 1 + n < |s| && s[1 + n] == '$' && !(n > 0 && IsDigit(s[1]))
  }

  /** The length of the dollar-quoted string at the head of `s`: up to the first repeat of
      its delimiter, or all of `s`. */
  function DollarLen(s: string, open: nat): (n: nat)
    requires 0 < open <= |s|
    ensures 0 < n <= |s|
  {
    match Find(s[open..], s[..open])
    case Some(k) => open + k + open
    case None => |s|
  }

  predicate IsLineComment(s: string, d: Dialect) {
    !d.MySQL? || |s| <= 2 || IsSpaceByte(s[2])
  }

  /** What the head of a text opens. */
  datatype Opener =
    | Quoted(quote: char, backslash: bool)
    | LineComment(skip: nat)
    | BlockComment
    | DollarQuoted(open: nat)
    | Nothing

  function OpenerOf(b: Behind, s: string, d: Dialect): (o: Opener)
    requires s != []
    ensures o.LineComment? ==> 0 < o.skip <= |s|
    ensures o.BlockComment? ==> 2 <= |s|
    ensures o.DollarQuoted? ==> 1 < o.open <= |s|
  {
    var c := s[0];
    if c == '\'' then Quoted(c, d.MySQL? || (d.Postgres? && b.escape))
    else if c == '"' then Quoted(c, d.MySQL?)
    else if c == '`' && d.MySQL? then Quoted(c, false)
    else if c == '#' && d.MySQL? then LineComment(1)
    else if c == '-' && |s| > 1 && s[1] == '-' && IsLineComment(s, d) then LineComment(2)
    else if c == '/' && |s| > 1 && s[1] == '*' then BlockComment
    else if c == '$' && d.Postgres? && DollarOpens(b, s) then DollarQuoted(TagRun(s[1..]) + 2)
    else Nothing
  }

  /** The length of the bytes that open a literal. */
  function OpenLen(o: Opener): nat {
    match o
    case Quoted(_, _) => 1
    case LineComment(skip) => skip
    case BlockComment => 2
    case DollarQuoted(open) => open
    case Nothing => 0
  }

  /** The length of the literal that `o` opens. */
  function BodyLen(o: Opener, s: string, d: Dialect): (n: nat)
    requires OpenLen(o) <= |s| && (o.DollarQuoted? ==> o.open > 0)
    ensures OpenLen(o) <= n <= |s|
    ensures o.Nothing? ==> n == 0
  {
    match o
    case Quoted(quote, bs) => 1 + QuotedTail(s[1..], quote, bs)
    case LineComment(skip) => skip + LineTail(s[skip..])
    case BlockComment => 2 + BlockTail(s[2..], 1, d.Postgres?)
    case DollarQuoted(open) => DollarLen(s, open)
    case Nothing => 0
  }

  /** The length of the literal, quoted identifier, comment or dollar-quoted string at the
      head of `s`, or 0 when none opens there. */
  function LitLen(b: Behind, s: string, d: Dialect): (n: nat)
    requires s != []
    ensures n <= |s|
    ensures n == 0 <==> OpenerOf(b, s, d).Nothing?
  {
    BodyLen(OpenerOf(b, s, d), s, d)
  }

  // ---------------------------------------------------------------- pieces

  /** A query cut up: a literal, a single byte outside literals, a "::" outside literals
      or a `:name`. */
  datatype Piece = Lit(text: string) | Chr(c: char) | Cast | Param(name: string)

  /** The text a piece came from. */
  function Source(p: Piece): string {
    match p
    case Lit(t) => t
    case Chr(c) => [c]
    case Cast => "::"
    case Param(n) => ":" + n
  }

  /** How much the scanner takes at once: a whole literal, or one byte. */
  function CutLen(b: Behind, s: string, d: Dialect): (m: nat)
    requires s != []
    ensures 0 < m <= |s|
  {
    var n := LitLen(b, s, d);
    if n > 0 then n else 1
  }

  function CutPiece(b: Behind, s: string, d: Dialect): (p: Piece)
    requires s != []
    ensures Source(p) == s[..CutLen(b, s, d)]
  {
    var n := LitLen(b, s, d);
    if n > 0 then Lit(s[..n]) else Chr(s[0])
  }

  /** The cut that the scanner makes, literals and single bytes only. */
  function Lex(b: Behind, s: string, d: Dialect): seq<Piece>
    decreases |s|
  {
    if s == [] then []
    else
      var m := CutLen(b, s, d);
      [CutPiece(b, s, d)] + Lex(After(b, s[..m]), s[m..], d)
  }

  function SourceText(ps: seq<Piece>): string {
    if ps == [] then [] else Source(ps[0]) + SourceText(ps[1..])
  }

  lemma LexStep(b: Behind, s: string, d: Dialect)
    requires s != []
    ensures var m := CutLen(b, s, d);
            Lex(b, s, d) == [CutPiece(b, s, d)] + Lex(After(b, s[..m]), s[m..], d)
  {
  }

  /** Cutting loses nothing. */
  lemma {:induction false} LexIsLossless(b: Behind, s: string, d: Dialect)
    ensures SourceText(Lex(b, s, d)) == s
    decreases |s|
  {
    hide CutLen;
    hide CutPiece;
    hide After;
    if s != [] {
      var m := CutLen(b, s, d);
      LexIsLossless(After(b, s[..m]), s[m..], d);
      assert s == s[..m] + s[m..];
    }
  }

  // ---------------------------------------------------------------- edits that move nothing

  /** `s` and `s'` agree until the first inert byte of both, or to the end. */
  predicate Alike(s: string, s': string) {
    if s == [] || s' == [] then s == s'
    else if Inert(s[0]) || Inert(s'[0]) then Inert(s[0]) && Inert(s'[0])
    else s[0] == s'[0] && Alike(s[1..], s'[1..])
  }

  /** A byte and what may stand for it. */
  predicate Kept(c: char, c': char) { c == c' || (c == ':' && c' == COLON_SENTINEL) }

  /** `x'` is `x` with some "::" replaced by the cast sentinel and some ':' by the colon
      sentinel. */
  predicate Rel(x: string, x': string) {
    if x == [] || x' == [] then x == x'
    else
      || (Kept(x[0], x'[0]) && Rel(x[1..], x'[1..]))
      || (|x| > 1 && x[0] == x[1] == ':' && x'[0] == CAST_SENTINEL && Rel(x[2..], x'[1..]))
  }

  predicate IsQuote(c: char) { c == '\'' || c == '"' || c == '`' }

  /** All that a literal sees of what follows it: whether anything does, and whether that is
      one more quote. */
  predicate Edge(r: string, r': string) {
    if r == [] || r' == [] then r == r'
    else r[0] == r'[0] || (!IsQuote(r[0]) && !IsQuote(r'[0]))
  }

  lemma AlikeIsEdge(r: string, r': string)
    requires Alike(r, r')
    ensures Edge(r, r')
  {
  }

  lemma {:induction false} AlikeSym(s: string, s': string)
    requires Alike(s, s')
    ensures Alike(s', s)
  {
    if s != [] && s' != [] && !Inert(s[0]) && !Inert(s'[0]) { AlikeSym(s[1..], s'[1..]); }
  }

  lemma {:induction false} AlikePrefix(x: string, r: string, r': string)
    requires Alike(r, r')
    ensures Alike(x + r, x + r')
  {
    if x == [] {
      assert x + r == r && x + r' == r';
    } else {
      AlikePrefix(x[1..], r, r');
      assert (x + r)[1..] == x[1..] + r && (x + r')[1..] == x[1..] + r';
    }
  }

  lemma {:induction false} RelRefl(x: string)
    ensures Rel(x, x)
  {
    if x != [] { RelRefl(x[1..]); }
  }

  predicate Single(x: string, x': string)
    requires x != [] && x' != []
  {
    Kept(x[0], x'[0]) && Rel(x[1..], x'[1..])
  }

  /** What `Rel` says of the head: a byte other than ':' is kept. */
  lemma RelHead(x: string, x': string)
    requires Rel(x, x')
    ensures x == [] <==> x' == []
    ensures x != [] && x[0] != ':' ==> x[0] == x'[0] && Rel(x[1..], x'[1..])
    ensures x != [] && x'[0] != CAST_SENTINEL ==> Kept(x[0], x'[0]) && Rel(x[1..], x'[1..])
  {
  }

  lemma Tails(x: string, r: string, k: nat)
    requires k <= |x|
    ensures (x + r)[k..] == x[k..] + r
  {
  }

  lemma {:induction false} QuotedKeeps(x: string, x': string, r: string, r': string, quote: char, bs: bool)
    requires QuotedTail(x + r, quote, bs) == |x|
    requires Rel(x, x') && Edge(r, r')
    requires IsQuote(quote)
    ensures QuotedTail(x' + r', quote, bs) == |x'|
    decreases |x|, 1
  {
    RelHead(x, x');
    if x == [] {
      assert x + r == r && x' + r' == r';
    } else if bs && x[0] == '\\' {
      QuotedKeepsEscape(x, x', r, r', quote);
    } else if x[0] == quote {
      QuotedKeepsDouble(x, x', r, r', quote, bs);
    } else {
      Tails(x, r, 1);
      Tails(x', r', 1);
      if Single(x, x') {
        QuotedKeeps(x[1..], x'[1..], r, r', quote, bs);
      } else {
        Tails(x[1..], r, 1);
        assert x[1..][1..] == x[2..];
        QuotedKeeps(x[2..], x'[1..], r, r', quote, bs);
      }
    }
  }

  lemma {:induction false} QuotedKeepsDouble(x: string, x': string, r: string, r': string, quote: char, bs: bool)
    requires QuotedTail(x + r, quote, bs) == |x|
    requires Rel(x, x') && Edge(r, r')
    requires IsQuote(quote)
    requires x != [] && x[0] == quote
    ensures QuotedTail(x' + r', quote, bs) == |x'|
    decreases |x|, 0
  {
    RelHead(x, x');
    RelHead(x[1..], x'[1..]);
    if |x| > 1 {
      assert x[1..][1..] == x[2..] && x'[1..][1..] == x'[2..];
      Tails(x, r, 2);
      Tails(x', r', 2);
      QuotedKeeps(x[2..], x'[2..], r, r', quote, bs);
    }
  }

  lemma {:induction false} QuotedKeepsEscape(x: string, x': string, r: string, r': string, quote: char)
    requires QuotedTail(x + r, quote, true) == |x|
    requires Rel(x, x') && Edge(r, r')
    requires IsQuote(quote)
    requires x != [] && x[0] == '\\'
    ensures QuotedTail(x' + r', quote, true) == |x'|
    decreases |x|, 0
  {
    var t, t' := x[1..], x'[1..];
    RelHead(x, x');
    RelHead(t, t');
    if |x| > 1 {
      Tails(x, r, 2);
      Tails(x', r', 2);
      assert t[1..] == x[2..] && t'[1..] == x'[2..];
      if Single(t, t') {
        QuotedKeeps(x[2..], x'[2..], r, r', quote, true);
      } else {
        Tails(x[2..], r, 1);
        assert t[2..] == x[2..][1..];
        QuotedKeeps(t[2..], x'[2..], r, r', quote, true);
      }
    }
  }

  lemma {:induction false} LineKeeps(x: string, x': string, r: string, r': string)
    requires LineTail(x + r) == |x|
    requires Rel(x, x') && Edge(r, r')
    ensures LineTail(x' + r') == |x'|
    decreases |x|
  {
    var s, s' := x + r, x' + r';
    RelHead(x, x');
    if x == [] {
      assert s == r && s' == r';
    } else if !Single(x, x') {
      assert s[1..][1..] == x[2..] + r && s'[1..] == x'[1..] + r';
      LineKeeps(x[2..], x'[1..], r, r');
    } else {
      assert s[1..] == x[1..] + r && s'[1..] == x'[1..] + r';
      if x[0] == '\n' {
        assert x[1..] == [];
        RelHead(x[1..], x'[1..]);
      } else {
        LineKeeps(x[1..], x'[1..], r, r');
      }
    }
  }

  lemma {:induction false} BlockKeeps(x: string, x': string, r: string, r': string, depth: nat, nested: bool)
    requires depth > 0
    requires BlockTail(x + r, depth, nested) == |x|
    requires Rel(x, x') && Edge(r, r')
    ensures BlockTail(x' + r', depth, nested) == |x'|
    decreases |x|, 1
  {
    RelHead(x, x');
    if x == [] {
      assert x + r == r && x' + r' == r';
    } else if |x| > 1 && PairAt(x, nested) {
      BlockKeepsPair(x, x', r, r', depth, nested);
    } else {
      Tails(x, r, 1);
      Tails(x', r', 1);
      if Single(x, x') {
        RelHead(x[1..], x'[1..]);
        BlockKeeps(x[1..], x'[1..], r, r', depth, nested);
      } else {
        Tails(x[1..], r, 1);
        assert x[1..][1..] == x[2..];
        BlockKeeps(x[2..], x'[1..], r, r', depth, nested);
      }
    }
  }

  predicate PairAt(x: string, nested: bool)
    requires |x| > 1
  {
    (x[0] == '*' && x[1] == '/') || (nested && x[0] == '/' && x[1] == '*')
  }

  lemma {:induction false} BlockKeepsPair(x: string, x': string, r: string, r': string, depth: nat, nested: bool)
    requires depth > 0 && |x| > 1 && PairAt(x, nested)
    requires BlockTail(x + r, depth, nested) == |x|
    requires Rel(x, x') && Edge(r, r')
    ensures BlockTail(x' + r', depth, nested) == |x'|
    decreases |x|, 0
  {
    RelHead(x, x');
    RelHead(x[1..], x'[1..]);
    assert x[1..][1..] == x[2..] && x'[1..][1..] == x'[2..];
    RelHead(x[2..], x'[2..]);
    Tails(x, r, 2);
    Tails(x', r', 2);
    if x[0] == '/' {
      BlockKeeps(x[2..], x'[2..], r, r', depth + 1, nested);
    } else if depth > 1 {
      BlockKeeps(x[2..], x'[2..], r, r', depth - 1, nested);
    }
  }

  // A dollar tag has no ':' and no sentinel in it, so both its scan and the search for
  // it are untouched by `Rel`.

  predicate Solid(t: string) { forall c :: c in t ==> !Inert(c) }

  /** A solid prefix is a prefix of both sides or of neither. */
  lemma {:induction false} RelSolidPrefix(x: string, x': string, t: string)
    requires Rel(x, x') && Solid(t)
    ensures t <= x <==> t <= x'
    ensures t <= x ==> Rel(x[|t|..], x'[|t|..])
  {
    RelHead(x, x');
    if t != [] && x != [] && t[0] == x[0] && t[0] == x'[0] {
      RelSolidPrefix(x[1..], x'[1..], t[1..]);
      assert t <= x <==> t[1..] <= x[1..];
      assert t <= x' <==> t[1..] <= x'[1..];
      if t <= x {
        assert x[1..][|t| - 1..] == x[|t|..] && x'[1..][|t| - 1..] == x'[|t|..];
      }
    } else if t == [] {
      assert x[0..] == x && x'[0..] == x';
    } else {
      assert t[0] in t;
    }
  }

  lemma {:induction false} FindKeeps(y: string, y': string, r: string, r': string, delim: string)
    requires Rel(y, y') && Solid(delim) && delim != []
    requires Find(y + r, delim).Some? && Find(y + r, delim).value + |delim| == |y|
    ensures Find(y' + r', delim).Some? && Find(y' + r', delim).value + |delim| == |y'|
    decreases |y|
  {
    RelSolidPrefix(y, y', delim);
    if delim <= y + r {
      assert delim == y && y[|delim|..] == [];
      assert y' == delim;
    } else {
      RelHead(y, y');
      assert (y + r)[1..] == y[1..] + r && (y' + r')[1..] == y'[1..] + r';
      if Single(y, y') {
        FindKeeps(y[1..], y'[1..], r, r', delim);
      } else {
        assert delim[0] != ':' by { assert delim[0] in delim; }
        assert (y + r)[1..][1..] == y[2..] + r;
        FindKeeps(y[2..], y'[1..], r, r', delim);
      }
      PrefixOfLonger(y, r, delim);
      PrefixOfLonger(y', r', delim);
    }
  }

  lemma PrefixOfLonger(y: string, r: string, delim: string)
    requires |delim| <= |y|
    ensures delim <= y + r <==> delim <= y
  {
    assert (y + r)[..|delim|] == y[..|delim|];
  }

  lemma {:induction false} FindNothing(y: string, y': string, delim: string)
    requires Rel(y, y') && Solid(delim) && delim != []
    requires Find(y, delim).None?
    ensures Find(y', delim).None?
    decreases |y|
  {
    RelSolidPrefix(y, y', delim);
    RelHead(y, y');
    if y != [] {
      if Single(y, y') {
        FindNothing(y[1..], y'[1..], delim);
      } else {
        assert y[1..][1..] == y[2..];
        FindNothing(y[2..], y'[1..], delim);
      }
    }
  }

  lemma {:induction false} DollarKeeps(x: string, x': string, r: string, r': string, open: nat)
    requires 0 < open <= |x| && Solid(x[..open])
    requires DollarLen(x + r, open) == |x|
    requires Rel(x, x') && Edge(r, r')
    ensures open <= |x'| && DollarLen(x' + r', open) == |x'|
  {
    var delim := x[..open];
    RelSolidPrefix(x, x', delim);
    assert (x + r)[..open] == delim && (x' + r')[..open] == delim;
    Tails(x, r, open);
    Tails(x', r', open);
    var y, y' := x[open..], x'[open..];
    match Find(y + r, delim) {
      case Some(k) =>
        FindKeeps(y, y', r, r', delim);
      case None =>
        assert r == [] && r' == [];
        assert y + r == y && y' + r' == y';
        FindNothing(y, y', delim);
    }
  }

  lemma {:induction false} TagRunAlike(s: string, s': string)
    requires Alike(s, s')
    ensures TagRun(s) == TagRun(s')
    ensures var n := TagRun(s); (n < |s| && s[n] == '$') <==> (n < |s'| && s'[n] == '$')
    ensures TagRun(s) > 0 ==> s[0] == s'[0]
  {
    if s != [] && s' != [] && s[0] == s'[0] && IsDollarTagChar(s[0]) {
      TagRunAlike(s[1..], s'[1..]);
      assert forall k :: 0 <= k < |s| - 1 ==> s[1..][k] == s[k + 1];
      assert forall k :: 0 <= k < |s'| - 1 ==> s'[1..][k] == s'[k + 1];
    }
  }

  /** What opens at the head is settled before the first inert byte. */
  lemma OpenerKeeps(b: Behind, s: string, s': string, d: Dialect)
    requires s != [] && Alike(s, s')
    ensures s' != [] && OpenerOf(b, s, d) == OpenerOf(b, s', d)
  {
    if !Inert(s[0]) {
      if s[0] == '-' {
        DashesKeep(s, s', d);
      } else if s[0] == '$' {
        TagRunAlike(s[1..], s'[1..]);
      }
      hide TagRun;
    }
  }

  lemma DashesKeep(s: string, s': string, d: Dialect)
    requires s != [] && s' != [] && s[0] == s'[0] == '-' && Alike(s[1..], s'[1..])
    ensures |s| > 1 && s[1] == '-' <==> |s'| > 1 && s'[1] == '-'
    ensures |s| > 1 && s[1] == '-' ==> (IsLineComment(s, d) <==> IsLineComment(s', d))
  {
    var t, t' := s[1..], s'[1..];
    if t != [] && t[0] == '-' {
      assert Alike(t[1..], t'[1..]);
      assert t[1..] == s[2..] && t'[1..] == s'[2..];
    }
  }

  lemma {:induction false} RelIsAlike(x: string, x': string, r: string, r': string)
    requires Rel(x, x') && Alike(r, r')
    ensures Alike(x + r, x' + r')
  {
    RelHead(x, x');
    if x == [] {
      assert x + r == r && x' + r' == r';
    } else if Single(x, x') {
      RelIsAlike(x[1..], x'[1..], r, r');
      Tails(x, r, 1);
      Tails(x', r', 1);
    }
  }

  lemma OpenerIsSolid(b: Behind, s: string, d: Dialect)
    requires s != []
    ensures var o := OpenerOf(b, s, d);
            OpenLen(o) <= |s| && Solid(s[..OpenLen(o)])
            && (o.Quoted? ==> IsQuote(o.quote))
  {
    var o := OpenerOf(b, s, d);
    if o.DollarQuoted? {
      var delim := s[..o.open];
      assert forall k :: 0 <= k < |delim| - 2 ==> delim[k + 1] == s[1..][k];
      assert forall k :: 0 < k < |delim| - 1 ==> IsDollarTagChar(delim[k]);
    }
  }

  lemma BodyKeeps(o: Opener, x: string, x': string, r: string, r': string, d: Dialect)
    requires OpenLen(o) <= |x| && (o.DollarQuoted? ==> o.open > 0) && Solid(x[..OpenLen(o)])
    requires o.Quoted? ==> IsQuote(o.quote)
    requires BodyLen(o, x + r, d) == |x| && Rel(x, x') && Edge(r, r')
    ensures OpenLen(o) <= |x'| && (x != [] ==> BodyLen(o, x' + r', d) == |x'|)
  {
    var k := OpenLen(o);
    RelSolidPrefix(x, x', x[..k]);
    Tails(x, r, k);
    Tails(x', r', k);
    match o {
      case Quoted(quote, bs) => QuotedKeeps(x[1..], x'[1..], r, r', quote, bs);
      case LineComment(skip) => LineKeeps(x[skip..], x'[skip..], r, r');
      case BlockComment => BlockKeeps(x[2..], x'[2..], r, r', 1, d.Postgres?);
      case DollarQuoted(open) => DollarKeeps(x, x', r, r', open);
      case Nothing =>
    }
  }

  lemma LitOpener(b: Behind, x: string, r: string, d: Dialect) returns (o: Opener)
    requires x != [] && LitLen(b, x + r, d) == |x|
    ensures o == OpenerOf(b, x + r, d) && !o.Nothing?
    ensures OpenLen(o) <= |x| && (o.DollarQuoted? ==> o.open > 0) && Solid(x[..OpenLen(o)])
    ensures o.Quoted? ==> IsQuote(o.quote)
    ensures BodyLen(o, x + r, d) == |x|
  {
    o := OpenerOf(b, x + r, d);
    OpenerIsSolid(b, x + r, d);
    assert (x + r)[..OpenLen(o)] == x[..OpenLen(o)];
  }

  lemma LitOpens(b: Behind, s: string, o: Opener, d: Dialect)
    requires s != [] && o == OpenerOf(b, s, d)
    ensures OpenLen(o) <= |s| && (o.DollarQuoted? ==> o.open > 0) && LitLen(b, s, d) == BodyLen(o, s, d)
  {
  }

  /** The literal at the head of the text keeps its end when casts inside it are protected
      and the text after it changes from its first inert byte on. */
  lemma LitKeeps(b: Behind, x: string, x': string, r: string, r': string, d: Dialect)
    requires x != [] && LitLen(b, x + r, d) == |x|
    requires Rel(x, x') && Alike(r, r')
    ensures x' != [] && LitLen(b, x' + r', d) == |x'|
  {
    RelHead(x, x');
    var o := LitOpener(b, x, r, d);
    RelIsAlike(x, x', r, r');
    OpenerKeeps(b, x + r, x' + r', d);
    AlikeIsEdge(r, r');
    hide *;
    BodyKeeps(o, x, x', r, r', d);
    LitOpens(b, x' + r', o, d);
  }

  // ---------------------------------------------------------------- what follows a literal

  lemma {:induction false} TagRunPrefix(t: string, t': string, n: nat)
    requires n < |t| && n < |t'| && t[..n + 1] == t'[..n + 1] && TagRun(t) == n
    ensures TagRun(t') == n
  {
    assert t[..n + 1][0] == t'[..n + 1][0];
    if n > 0 {
      assert forall k :: 0 <= k < n ==> t[1..][k] == t[..n + 1][k + 1] && t'[1..][k] == t'[..n + 1][k + 1];
      TagRunPrefix(t[1..], t'[1..], n - 1);
    }
  }

  /** A literal holds all that its opener depends on. */
  lemma OpenerSticks(b: Behind, x: string, r: string, r': string, d: Dialect)
    requires x != [] && LitLen(b, x + r, d) == |x| && (r == [] <==> r' == [])
    ensures OpenerOf(b, x + r', d) == OpenerOf(b, x + r, d)
  {
    var s, s' := x + r, x + r';
    var o := OpenerOf(b, s, d);
    match o {
      case Quoted(_, _) =>
      case LineComment(skip) => if skip == 2 && |x| == 2 { assert s[2..] == r; }
      case BlockComment =>
      case DollarQuoted(open) => DollarSticks(b, x, r, r', d);
      case Nothing =>
    }
    hide DollarOpens, TagRun, LitLen;
  }

  lemma DollarSticks(b: Behind, x: string, r: string, r': string, d: Dialect)
    requires x != [] && OpenerOf(b, x + r, d).DollarQuoted? && OpenerOf(b, x + r, d).open <= |x|
    ensures OpenerOf(b, x + r', d) == OpenerOf(b, x + r, d)
  {
    var s, s' := x + r, x + r';
    var open := OpenerOf(b, s, d).open;
    assert s[1..][..open - 1] == x[1..open] == s'[1..][..open - 1];
    TagRunPrefix(s[1..], s'[1..], open - 2);
    assert s[1 + (open - 2)] == x[open - 1] == s'[1 + (open - 2)];
    assert open > 2 ==> s[1] == x[1] == s'[1];
  }

  /** A literal keeps its end whatever follows it, up to one more quote. */
  lemma LitStays(b: Behind, x: string, r: string, r': string, d: Dialect)
    requires x != [] && LitLen(b, x + r, d) == |x| && Edge(r, r')
    ensures LitLen(b, x + r', d) == |x|
  {
    var o := LitOpener(b, x, r, d);
    OpenerSticks(b, x, r, r', d);
    RelRefl(x);
    hide *;
    BodyKeeps(o, x, x, r, r', d);
    LitOpens(b, x + r', o, d);
  }
}
