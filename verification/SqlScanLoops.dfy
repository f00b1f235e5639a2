/** The index loops of db/bind.go that walk a query: `skipQuoted`, `skipBlockComment`,
    `skipDollarQuoted`, `literalEnd` and `placeholderIndexes`, proved against the suffix
    specification, and what that specification means for positions of the query. */
module SqlScanLoops {
  import opened Wrappers
  import opened SqlScanner

  // ---------------------------------------------------------------- where a literal ends

  /** The run of backslashes that ends just before `k`. */
  function BackslashRun(s: string, k: nat): nat
    requires k <= |s|
  {
    if k == 0 || s[k - 1] != '\\' then 0 else 1 + BackslashRun(s, k - 1)
  }

  /** A quote that no backslash escapes. */
  predicate LiveQuote(s: string, k: nat, quote: char, bs: bool)
    requires k < |s|
  {
    s[k] == quote && (bs ==> BackslashRun(s, k) % 2 == 0)
  }

  function LiveQuotes(s: string, k: nat, quote: char, bs: bool): nat
    requires k <= |s|
  {
    if k == 0 then 0
    else LiveQuotes(s, k - 1, quote, bs) + if LiveQuote(s, k - 1, quote, bs) then 1 else 0
  }

  /** A closing quote, read off the text alone: it is not escaped, every live quote before
      it is one of a pair, and it does not start a pair itself. */
  predicate Closes(s: string, k: nat, quote: char, bs: bool)
    requires k < |s|
  {
    && LiveQuote(s, k, quote, bs)
    && LiveQuotes(s, k, quote, bs) % 2 == 0
    && !(k + 1 < |s| && s[k + 1] == quote)
  }

  /** The scan stops at the first closing quote and nowhere else. */
  lemma QuotedEndsAtFirstCloser(s: string, quote: char, bs: bool)
    requires quote != '\\'
    ensures var n := QuotedTail(s, quote, bs);
            && (forall k :: 0 <= k < n - 1 ==> !Closes(s, k, quote, bs))
            && (n < |s| ==> n > 0 && Closes(s, n - 1, quote, bs))
  {
    assert s[0..] == s;
    forall k | 0 <= k < |s|
      ensures k < QuotedTail(s, quote, bs) - 1 ==> !Closes(s, k, quote, bs)
    {
      QuotedFrom(s, 0, quote, bs, k);
    }
    if s != [] { QuotedFrom(s, 0, quote, bs, 0); }
  }

  lemma EscapedPair(s: string, i: nat, quote: char)
    requires quote != '\\' && i + 1 < |s| && s[i] == '\\' && BackslashRun(s, i) % 2 == 0
    ensures !LiveQuote(s, i, quote, true) && !LiveQuote(s, i + 1, quote, true)
    ensures BackslashRun(s, i + 2) % 2 == 0
    ensures LiveQuotes(s, i + 2, quote, true) == LiveQuotes(s, i, quote, true)
  {
    assert BackslashRun(s, i + 1) == BackslashRun(s, i) + 1;
    assert LiveQuotes(s, i + 2, quote, true) == LiveQuotes(s, i + 1, quote, true);
  }

  lemma DoubledPair(s: string, i: nat, quote: char, bs: bool)
    requires quote != '\\' && i + 1 < |s| && s[i] == s[i + 1] == quote
    requires bs ==> BackslashRun(s, i) % 2 == 0
    requires LiveQuotes(s, i, quote, bs) % 2 == 0
    ensures !Closes(s, i, quote, bs) && !Closes(s, i + 1, quote, bs)
    ensures BackslashRun(s, i + 2) % 2 == 0
    ensures LiveQuotes(s, i + 2, quote, bs) == LiveQuotes(s, i, quote, bs) + 2
  {
    assert BackslashRun(s, i + 1) == 0;
    assert LiveQuotes(s, i + 1, quote, bs) == LiveQuotes(s, i, quote, bs) + 1;
  }

  lemma PlainByte(s: string, i: nat, quote: char, bs: bool)
    requires i < |s| && s[i] != quote && !(bs && s[i] == '\\')
    ensures !LiveQuote(s, i, quote, bs)
    ensures bs ==> BackslashRun(s, i + 1) == 0
    ensures LiveQuotes(s, i + 1, quote, bs) == LiveQuotes(s, i, quote, bs)
  {
  }

  lemma {:induction false} QuotedFrom(s: string, i: nat, quote: char, bs: bool, k: nat)
    requires quote != '\\' && i <= |s| && k < |s|
    requires bs ==> BackslashRun(s, i) % 2 == 0
    requires LiveQuotes(s, i, quote, bs) % 2 == 0
    ensures var n := i + QuotedTail(s[i..], quote, bs);
            && (i <= k < n - 1 ==> !Closes(s, k, quote, bs))
            && (i < n < |s| ==> Closes(s, n - 1, quote, bs))
    decreases |s| - i
  {
    hide BackslashRun, LiveQuotes, QuotedTail;
    if i < |s| {
      QuotedStepAt(s, i, quote, bs);
      if bs && s[i] == '\\' {
        if i + 1 < |s| {
          EscapedPair(s, i, quote);
          QuotedFrom(s, i + 2, quote, bs, k);
        }
      } else if s[i] == quote {
        if i + 1 < |s| && s[i + 1] == quote {
          DoubledPair(s, i, quote, bs);
          QuotedFrom(s, i + 2, quote, bs, k);
        }
      } else {
        PlainByte(s, i, quote, bs);
        QuotedFrom(s, i + 1, quote, bs, k);
      }
    }
  }

  /** The next unit of a block comment's body, and what it does to the nesting depth. */
  function BlockUnit(s: string, nested: bool): (u: (nat, int))
    requires s != []
    ensures 0 < u.0 <= |s| && -1 <= u.1 <= 1
  {
    if |s| > 1 && s[0] == '*' && s[1] == '/' then (2, -1)
    else if nested && |s| > 1 && s[0] == '/' && s[1] == '*' then (2, 1)
    else (1, 0)
  }

  lemma BlockStep(s: string, depth: nat, nested: bool)
    requires s != [] && depth > 0
    ensures var u := BlockUnit(s, nested);
            BlockTail(s, depth, nested) ==
            if depth + u.1 == 0 then u.0 else u.0 + BlockTail(s[u.0..], depth + u.1, nested)
  {
  }

  /** Block comments balance: closing `a + b` comments is closing `a` of them and then, in
      what is left, `b` more. With `a == b == 1` this says that a comment that opens
      inside a comment is skipped as a whole. */
  lemma {:induction false} BlocksBalance(s: string, a: nat, b: nat, nested: bool)
    requires a > 0 && b > 0
    ensures var n := BlockTail(s, a, nested);
            BlockTail(s, a + b, nested) == n + BlockTail(s[n..], b, nested)
    decreases |s|
  {
    hide BlockTail;
    hide BlockUnit;
    if s == [] {
      assert BlockTail(s, a, nested) == BlockTail(s, a + b, nested) == 0;
    } else {
      var u := BlockUnit(s, nested);
      BlockStep(s, a, nested);
      BlockStep(s, a + b, nested);
      if a + u.1 > 0 {
        BlocksBalance(s[u.0..], a + u.1, b, nested);
        var m := BlockTail(s[u.0..], a + u.1, nested);
        assert s[u.0..][m..] == s[u.0 + m..];
      }
    }
  }

  /** The prefix of length `n` is made of whole units. */
  predicate IsCut(s: string, n: nat, nested: bool)
    decreases |s|
  {
    n == 0 || (s != [] && var u := BlockUnit(s, nested).0; u <= n && IsCut(s[u..], n - u, nested))
  }

  /** How many block comments that prefix opens, less those it closes. */
  function Level(s: string, n: nat, nested: bool): int
    requires IsCut(s, n, nested)
    decreases |s|
  {
    if n == 0 then 0
    else var u := BlockUnit(s, nested); u.1 + Level(s[u.0..], n - u.0, nested)
  }

  /** Where `depth` open block comments end, read off the text: after the first whole units
      that close as many as they open and `depth` more, or at the end of the text when no
      prefix does. */
  predicate BlockEnds(s: string, n: nat, depth: nat, nested: bool) {
    && n <= |s| && IsCut(s, n, nested)
    && (forall k: nat :: k < n && IsCut(s, k, nested) ==> Level(s, k, nested) + depth > 0)
    && (Level(s, n, nested) + depth == 0 || (n == |s| && Level(s, n, nested) + depth > 0))
  }

  /** Block comments balance: the scan ends at the balancing closer and nowhere else. */
  lemma {:induction false} BlockEndsAtBalance(s: string, depth: nat, nested: bool)
    requires depth > 0
    ensures BlockEnds(s, BlockTail(s, depth, nested), depth, nested)
    decreases |s|
  {
    if s != [] {
      var u := BlockUnit(s, nested);
      BlockStep(s, depth, nested);
      if depth + u.1 > 0 {
        BlockEndsAtBalance(s[u.0..], depth + u.1, nested);
        hide BlockTail;
        BlockEndsStep(s, BlockTail(s[u.0..], depth + u.1, nested), depth, nested);
      } else {
        hide BlockTail;
        BlockEndsHere(s, nested);
      }
    }
  }

  lemma BlockEndsStep(s: string, n: nat, depth: nat, nested: bool)
    requires s != [] && depth > 0
    requires var u := BlockUnit(s, nested); depth + u.1 > 0 && BlockEnds(s[u.0..], n, depth + u.1, nested)
    ensures BlockEnds(s, BlockUnit(s, nested).0 + n, depth, nested)
  {
    hide BlockUnit;
    var u := BlockUnit(s, nested);
    var t := s[u.0..];
    assert IsCut(s, u.0 + n, nested) && Level(s, u.0 + n, nested) == u.1 + Level(t, n, nested);
    forall k: nat | k < u.0 + n && IsCut(s, k, nested) ensures Level(s, k, nested) + depth > 0 {
      if k > 0 { assert IsCut(t, k - u.0, nested) && Level(s, k, nested) == u.1 + Level(t, k - u.0, nested); }
    }
  }

  lemma BlockEndsHere(s: string, nested: bool)
    requires s != [] && BlockUnit(s, nested).1 == -1
    ensures BlockEnds(s, BlockUnit(s, nested).0, 1, nested)
  {
    hide BlockUnit;
    var u := BlockUnit(s, nested);
    assert IsCut(s[u.0..], 0, nested) && Level(s[u.0..], 0, nested) == 0;
  }

  /** There is one such place. */
  lemma BlockEndIsUnique(s: string, m: nat, n: nat, depth: nat, nested: bool)
    requires BlockEnds(s, m, depth, nested) && BlockEnds(s, n, depth, nested)
    ensures m == n
  {
  }

  /** Where comments do not nest, that is just past the first closer. */
  lemma {:induction false} PlainBlockEndsAtCloser(s: string, closer: string)
    requires closer == ['*', '/']
    ensures match Find(s, closer)
            case Some(k) => BlockTail(s, 1, false) == k + 2
            case None => BlockTail(s, 1, false) == |s|
    decreases |s|
  {
    assert closer <= s <==> |s| > 1 && s[0] == '*' && s[1] == '/';
    if s != [] && !(closer <= s) {
      PlainBlockEndsAtCloser(s[1..], closer);
    }
  }

  /** The delimiter search finds the first occurrence, or there is none. */
  lemma {:induction false} FindIsFirst(s: string, delim: string, k: nat)
    requires delim != [] && k + |delim| <= |s|
    ensures match Find(s, delim)
            case None => s[k..k + |delim|] != delim
            case Some(f) =>
              && f + |delim| <= |s|
              && (k < f ==> s[k..k + |delim|] != delim)
              && (k == f ==> s[k..k + |delim|] == delim)
  {
    assert delim <= s <==> s[..|delim|] == delim;
    if k > 0 && !(delim <= s) {
      FindIsFirst(s[1..], delim, k - 1);
      assert s[1..][k - 1..k - 1 + |delim|] == s[k..k + |delim|];
    }
  }

  // ---------------------------------------------------------------- positions

  function Look(query: string, i: nat): Behind
    requires i <= |query|
  {
    After(FRESH, query[..i])
  }

  lemma LookNext(query: string, i: nat, j: nat)
    requires i <= j <= |query|
    ensures Look(query, j) == After(Look(query, i), query[i..j])
    ensures j == i + 1 ==> Look(query, j) == Step(Look(query, i), query[i])
  {
    AfterConcat(FRESH, query[..i], query[i..j]);
    assert query[..j] == query[..i] + query[i..j];
    if j == i + 1 {
      assert query[i..j] == [query[i]];
      assert After(Look(query, i), [query[i]]) == After(Step(Look(query, i), query[i]), []);
    }
  }

  predicate IsEscapeString(query: string, i: nat, d: Dialect)
    requires i <= |query|
  {
    if !d.Postgres? || i == 0 then false
    else if query[i - 1] != 'E' && query[i - 1] != 'e' then false
    else i == 1 || !IsIdentChar(query[i - 2])
  }

  /** The two look-behind tests of the source are the two bits of `Behind`. */
  lemma LookBehind(query: string, i: nat, d: Dialect)
    requires i <= |query|
    ensures IsEscapeString(query, i, d) <==> d.Postgres? && Look(query, i).escape
    ensures (i > 0 && IsIdentChar(query[i - 1])) <==> Look(query, i).ident
  {
    if i > 0 {
      LookNext(query, i - 1, i);
      if i > 1 { LookNext(query, i - 2, i - 1); } else { assert query[..0] == []; }
    } else {
      assert query[..0] == [];
    }
  }

  /** Whether position `k` of `s` lies in a literal. */
  predicate InLiteral(b: Behind, s: string, d: Dialect, k: nat)
    requires k < |s|
    decreases |s|
  {
    var m := CutLen(b, s, d);
    if k < m then LitLen(b, s, d) > 0 else InLiteral(After(b, s[..m]), s[m..], d, k - m)
  }

  const HOLE := Chr('?')

  /** The offsets of the pieces that are a lone '?'. */
  function HoleIndexes(ps: seq<Piece>, off: nat): seq<nat> {
    if ps == [] then []
    else (if ps[0] == HOLE then [off] else []) + HoleIndexes(ps[1..], off + |Source(ps[0])|)
  }

  predicate Increasing(xs: seq<nat>) { forall i, j :: 0 <= i < j < |xs| ==> xs[i] < xs[j] }

  lemma {:induction false} HolesFrom(ps: seq<Piece>, off: nat)
    ensures forall x :: x in HoleIndexes(ps, off) ==> off <= x
  {
    if ps != [] {
      var next := off + |Source(ps[0])|;
      HolesFrom(ps[1..], next);
      assert forall x :: x in HoleIndexes(ps, off) ==> x == off || x in HoleIndexes(ps[1..], next);
    }
  }

  lemma {:induction false} HoleIndexesIncrease(ps: seq<Piece>, off: nat)
    ensures Increasing(HoleIndexes(ps, off))
  {
    if ps != [] {
      var next := off + |Source(ps[0])|;
      var rest := HoleIndexes(ps[1..], next);
      HoleIndexesIncrease(ps[1..], next);
      HolesFrom(ps[1..], next);
      assert HoleIndexes(ps, off) == (if ps[0] == HOLE then [off] else []) + rest;
      hide HoleIndexes;
      if ps[0] == HOLE {
        assert next == off + 1;
        IncreasingCons(off, rest);
      } else {
        assert [] + rest == rest;
      }
    }
  }

  lemma IncreasingCons(x: nat, xs: seq<nat>)
    requires Increasing(xs) && forall y :: y in xs ==> x < y
    ensures Increasing([x] + xs)
  {
    forall i, j | 0 <= i < j < |[x] + xs| ensures ([x] + xs)[i] < ([x] + xs)[j] {
      assert xs[j - 1] in xs;
    }
  }

  /** The holes of the cut are exactly the '?' outside literals. */
  lemma {:induction false} HolesAreMarksOutside(b: Behind, s: string, d: Dialect, off: nat, k: nat)
    requires k < |s|
    ensures off + k in HoleIndexes(Lex(b, s, d), off) <==> s[k] == '?' && !InLiteral(b, s, d, k)
    decreases |s|
  {
    hide LitLen;
    hide After;
    hide HoleIndexes;
    var m := CutLen(b, s, d);
    var p := CutPiece(b, s, d);
    var rest := Lex(After(b, s[..m]), s[m..], d);
    HoleOf(p, rest, off, off + k);
    if k < m {
      HolesFrom(rest, off + m);
    } else {
      HolesAreMarksOutside(After(b, s[..m]), s[m..], d, off + m, k - m);
    }
  }

  lemma HoleOf(p: Piece, rest: seq<Piece>, off: nat, x: nat)
    ensures x in HoleIndexes([p] + rest, off) <==>
            (p == HOLE && x == off) || x in HoleIndexes(rest, off + |Source(p)|)
  {
    assert ([p] + rest)[1..] == rest;
  }

  /** An inert byte opens no literal. */
  lemma MarksArePlain(b: Behind, s: string, d: Dialect)
    requires s != [] && Inert(s[0])
    ensures LitLen(b, s, d) == 0
  {
  }

  // ---------------------------------------------------------------- the loops

  method SkipQuoted(query: string, start: nat, quote: char, backslash: bool) returns (r: nat)
    requires start < |query|
    ensures r == start + 1 + QuotedTail(query[start + 1..], quote, backslash)
    ensures start < r <= |query|
  {
    hide *;
    var i := start + 1;
    ghost var total := start + 1 + QuotedTail(query[start + 1..], quote, backslash);
    while i < |query|
      invariant i <= |query| ==> total == i + QuotedTail(query[i..], quote, backslash)
      invariant i > |query| ==> total == |query|
      decreases |query| - i
    {
      QuotedStepAt(query, i, quote, backslash);
      if backslash && query[i] == '\\' {
        i := i + 2;
      } else if query[i] == quote {
        if i + 1 < |query| && query[i + 1] == quote {
          i := i + 2;
          continue;
        }
        return i + 1;
      } else {
        i := i + 1;
      }
    }
    if i == |query| { NoQuoted(query[i..], quote, backslash); }
    return |query|;
  }

  lemma QuotedStepAt(query: string, i: nat, quote: char, backslash: bool)
    requires i < |query|
    ensures var n := QuotedTail(query[i..], quote, backslash);
            n ==
            if backslash && query[i] == '\\' then
              if i + 1 == |query| then 1 else 2 + QuotedTail(query[i + 2..], quote, backslash)
            else if query[i] == quote then
              if i + 1 < |query| && query[i + 1] == quote then 2 + QuotedTail(query[i + 2..], quote, backslash) else 1
            else 1 + QuotedTail(query[i + 1..], quote, backslash)
  {
    assert query[i..][1..] == query[i + 1..];
    assert i + 2 <= |query| ==> query[i..][2..] == query[i + 2..];
  }

  lemma NoQuoted(s: string, quote: char, backslash: bool)
    requires s == []
    ensures QuotedTail(s, quote, backslash) == 0
  {
  }

  function SkipLineComment(query: string, start: nat): (r: nat)
    requires start <= |query|
    ensures start <= r <= |query|
    ensures forall k :: start <= k < r - 1 ==> query[k] != '\n'
    ensures r < |query| ==> start < r && query[r - 1] == '\n'
  {
    start + LineTail(query[start..])
  }

  method SkipBlockComment(query: string, start: nat, nested: bool) returns (r: nat)
    requires start <= |query|
    ensures r == start + BlockTail(query[start..], 1, nested)
    ensures start <= r <= |query| && BlockEnds(query[start..], r - start, 1, nested)
  {
    hide *;
    ghost var n := BlockTail(query[start..], 1, nested);
    BlockEndsAtBalance(query[start..], 1, nested);
    var depth := 1;
    var i := start;
    while i < |query|
      invariant start <= i <= |query| && depth > 0
      invariant start + n == i + BlockTail(query[i..], depth, nested)
    {
      BlockStepAt(query, i, depth, nested);
      if i + 1 < |query| && query[i] == '*' && query[i + 1] == '/' {
        depth := depth - 1;
        i := i + 2;
        if depth == 0 {
          return i;
        }
      } else if nested && i + 1 < |query| && query[i] == '/' && query[i + 1] == '*' {
        depth := depth + 1;
        i := i + 2;
      } else {
        i := i + 1;
      }
    }
    NoBlock(query[i..], depth, nested);
    return |query|;
  }

  lemma BlockStepAt(query: string, i: nat, depth: nat, nested: bool)
    requires i < |query| && depth > 0
    ensures var closes := i + 1 < |query| && query[i] == '*' && query[i + 1] == '/';
            var opens := nested && i + 1 < |query| && query[i] == '/' && query[i + 1] == '*';
            BlockTail(query[i..], depth, nested) ==
            if closes then if depth == 1 then 2 else 2 + BlockTail(query[i + 2..], depth - 1, nested)
            else if opens then 2 + BlockTail(query[i + 2..], depth + 1, nested)
            else 1 + BlockTail(query[i + 1..], depth, nested)
  {
    var u := BlockUnit(query[i..], nested);
    assert query[i..][u.0..] == query[i + u.0..];
    BlockStep(query[i..], depth, nested);
    hide BlockTail;
  }

  lemma NoBlock(s: string, depth: nat, nested: bool)
    requires s == [] && depth > 0
    ensures BlockTail(s, depth, nested) == 0
  {
  }

  method TagEnd(query: string, start: nat) returns (j: nat)
    requires start <= |query|
    ensures j == start + TagRun(query[start..])
  {
    j := start;
    while j < |query| && IsDollarTagChar(query[j])
      invariant start <= j <= |query|
      invariant TagRun(query[start..]) == j - start + TagRun(query[j..])
    {
      assert query[j..][1..] == query[j + 1..];
      j := j + 1;
    }
  }

  method SkipDollarQuoted(query: string, start: nat) returns (end: nat, ok: bool)
    requires start < |query|
    ensures ok <==> DollarOpens(Look(query, start), query[start..])
    ensures ok ==> end == start + DollarLen(query[start..], TagRun(query[start..][1..]) + 2)
  {
    hide After;
    hide Find;
    hide TagRun;
    LookBehind(query, start, Postgres);
    if start > 0 && IsIdentChar(query[start - 1]) {
      return 0, false;
    }
    var j := TagEnd(query, start + 1);
    ghost var s := query[start..];
    assert s[1..] == query[start + 1..];
    if j >= |query| || query[j] != '$' {
      return 0, false;
    }
    if j > start + 1 && IsDigit(query[start + 1]) {
      return 0, false;
    }
    var delim := query[start..j + 1];
    assert s[..j + 1 - start] == delim && s[j + 1 - start..] == query[j + 1..];
    match Find(query[j + 1..], delim) {
      case Some(k) => return j + 1 + k + |delim|, true;
      case None => return |query|, true;
    }
  }

  /** isLineComment at an index. */
  predicate LineCommentAt(query: string, i: nat, d: Dialect) {
    !d.MySQL? || i + 2 >= |query| || IsSpaceByte(query[i + 2])
  }

  /** The opener at an index, with the look-behind tests written out. */
  function OpenerAt(query: string, i: nat, d: Dialect): Opener
    requires i < |query|
  {
    var c := query[i];
    if c == '\'' then Quoted(c, d.MySQL? || IsEscapeString(query, i, d))
    else if c == '"' then Quoted(c, d.MySQL?)
    else if c == '`' && d.MySQL? then Quoted(c, false)
    else if c == '#' && d.MySQL? then LineComment(1)
    else if c == '-' && i + 1 < |query| && query[i + 1] == '-' && LineCommentAt(query, i, d) then LineComment(2)
    else if c == '/' && i + 1 < |query| && query[i + 1] == '*' then BlockComment
    else if c == '$' && d.Postgres? && DollarOpens(Look(query, i), query[i..]) then
      DollarQuoted(TagRun(query[i..][1..]) + 2)
    else Nothing
  }

  lemma OpenerAtIs(query: string, i: nat, d: Dialect)
    requires i < |query|
    ensures OpenerAt(query, i, d) == OpenerOf(Look(query, i), query[i..], d)
  {
    hide After;
    hide TagRun;
    LookBehind(query, i, d);
  }

  /** The length of the literal at an index. */
  lemma LitLenAt(query: string, i: nat, d: Dialect)
    requires i < |query|
    ensures OpenLen(OpenerAt(query, i, d)) <= |query| - i
    ensures LitLen(Look(query, i), query[i..], d) ==
            match OpenerAt(query, i, d)
            case Quoted(quote, bs) => 1 + QuotedTail(query[i + 1..], quote, bs)
            case LineComment(skip) => skip + LineTail(query[i + skip..])
            case BlockComment => 2 + BlockTail(query[i + 2..], 1, d.Postgres?)
            case DollarQuoted(open) => DollarLen(query[i..], open)
            case Nothing => 0
  {
    OpenerAtIs(query, i, d);
    var o := OpenerOf(Look(query, i), query[i..], d);
    hide OpenerAt;
    hide OpenerOf;
    hide QuotedTail;
    hide LineTail;
    hide BlockTail;
    hide DollarLen;
    assert query[i..][OpenLen(o)..] == query[i + OpenLen(o)..];
  }

  method LiteralEnd(query: string, i: nat, d: Dialect) returns (end: nat)
    requires i < |query|
    ensures end == i + LitLen(Look(query, i), query[i..], d)
  {
    LitLenAt(query, i, d);
    hide LitLen;
    hide QuotedTail;
    hide LineTail;
    hide BlockTail;
    hide DollarLen;
    hide DollarOpens;
    hide After;
    var c := query[i];
    if c == '\'' {
      end := SkipQuoted(query, i, '\'', d.MySQL? || IsEscapeString(query, i, d));
    } else if c == '"' {
      end := SkipQuoted(query, i, '"', d.MySQL?);
    } else if c == '`' && d.MySQL? {
      end := SkipQuoted(query, i, '`', false);
    } else if c == '#' && d.MySQL? {
      end := SkipLineComment(query, i + 1);
    } else if c == '-' && i + 1 < |query| && query[i + 1] == '-' && LineCommentAt(query, i, d) {
      end := SkipLineComment(query, i + 2);
    } else if c == '/' && i + 1 < |query| && query[i + 1] == '*' {
      end := SkipBlockComment(query, i + 2, d.Postgres?);
    } else {
      end := i;
      if c == '$' && d.Postgres? {
        var e, ok := SkipDollarQuoted(query, i);
        if ok { end := e; }
      }
    }
  }

  lemma LexAt(query: string, i: nat, d: Dialect)
    requires i < |query|
    ensures var b, s := Look(query, i), query[i..];
            var m := CutLen(b, s, d);
            Lex(b, s, d) == [CutPiece(b, s, d)] + Lex(Look(query, i + m), query[i + m..], d)
  {
    hide *;
    var b, s := Look(query, i), query[i..];
    var m := CutLen(b, s, d);
    LookNext(query, i, i + m);
    LexStep(b, s, d);
    assert s[..m] == query[i..i + m] && s[m..] == query[i + m..];
  }

  /** One turn of the placeholder scan. */
  lemma HolesAt(query: string, i: nat, d: Dialect)
    requires i < |query|
    ensures var b, s := Look(query, i), query[i..];
            var n := LitLen(b, s, d);
            var m := if n > 0 then n else 1;
            HoleIndexes(Lex(b, s, d), i) ==
            (if n == 0 && s[0] == '?' then [i] else [])
              + HoleIndexes(Lex(Look(query, i + m), query[i + m..], d), i + m)
  {
    hide LitLen;
    hide Lex;
    var b, s := Look(query, i), query[i..];
    LexAt(query, i, d);
    var m := CutLen(b, s, d);
    var rest := Lex(Look(query, i + m), query[i + m..], d);
    assert ([CutPiece(b, s, d)] + rest)[1..] == rest;
  }

  method PlaceholderIndexes(query: string, d: Dialect) returns (indexes: seq<nat>)
    ensures indexes == HoleIndexes(Lex(FRESH, query, d), 0)
  {
    hide HoleIndexes;
    hide Lex;
    hide LitLen;
    indexes := [];
    var i := 0;
    assert query[..0] == [] && query[0..] == query;
    while i < |query|
      invariant i <= |query|
      invariant HoleIndexes(Lex(FRESH, query, d), 0) == indexes + HoleIndexes(Lex(Look(query, i), query[i..], d), i)
      decreases |query| - i
    {
      HolesAt(query, i, d);
      var mark;
      i, mark := ScanAt(query, i, d);
      if mark {
        indexes := indexes + [i - 1];
      }
    }
    assert query[i..] == [];
    NoHoles(Look(query, i), d, i);
  }

  lemma NoHoles(b: Behind, d: Dialect, off: nat)
    ensures HoleIndexes(Lex(b, [], d), off) == []
  {
  }

  /** The switch of placeholderIndexes: where the scan goes on, and whether it passed a
      placeholder. It repeats the tests of literalEnd, and agrees with them. */
  method ScanAt(query: string, i: nat, d: Dialect) returns (next: nat, mark: bool)
    requires i < |query|
    ensures var n := LitLen(Look(query, i), query[i..], d);
            next == (if n > 0 then i + n else i + 1) && (mark <==> n == 0 && query[i] == '?')
  {
    LitLenAt(query, i, d);
    hide LitLen;
    hide QuotedTail;
    hide LineTail;
    hide BlockTail;
    hide DollarLen;
    hide DollarOpens;
    hide After;
    var c := query[i];
    mark := false;
    if c == '\'' {
      next := SkipQuoted(query, i, '\'', d.MySQL? || IsEscapeString(query, i, d));
    } else if c == '"' {
      next := SkipQuoted(query, i, '"', d.MySQL?);
    } else if c == '`' && d.MySQL? {
      next := SkipQuoted(query, i, '`', false);
    } else if c == '#' && d.MySQL? {
      next := SkipLineComment(query, i + 1);
    } else if c == '-' && i + 1 < |query| && query[i + 1] == '-' && LineCommentAt(query, i, d) {
      next := SkipLineComment(query, i + 2);
    } else if c == '/' && i + 1 < |query| && query[i + 1] == '*' {
      next := SkipBlockComment(query, i + 2, d.Postgres?);
    } else if c == '$' && d.Postgres? {
      var end, ok := SkipDollarQuoted(query, i);
      if ok {
        return end, false;
      }
      next := i + 1;
    } else if c == '?' {
      mark := true;
      next := i + 1;
    } else {
      next := i + 1;
    }
  }
}
