/** The placeholders that db/bind.go writes, `?`, `$1`, `@p1` or `:arg1`, and how the scanner
    reads them back. */
module SqlMarks {
  import opened Wrappers
  import opened SqlScanner
  import opened SqlScanLoops

  datatype BindType = Question | Dollar | NamedArg | At

  type pos = n: nat | n > 0 witness 1

  /** Decimal digits, as strconv.Itoa writes them. */
  function Itoa(n: nat): string {
    if n < 10 then [('0' as int + n) as char] else Itoa(n / 10) + [('0' as int + n % 10) as char]
  }

  function Mark(bt: BindType, k: nat): string {
    match bt
    case Question => "?"
    case Dollar => "$" + Itoa(k)
    case At => "@p" + Itoa(k)
    case NamedArg => ":arg" + Itoa(k)
  }

  /** The marks k, k + 1, ... of one argument, `w` of them, with ", " between them. */
  function Group(bt: BindType, k: nat, w: pos): string
    decreases w
  {
    if w == 1 then Mark(bt, k) else Mark(bt, k) + (", " + Group(bt, k + 1, w - 1))
  }

  /** The byte that every mark starts with. */
  function MarkHead(bt: BindType): char {
    match bt
    case Question => '?'
    case Dollar => '$'
    case At => '@'
    case NamedArg => ':'
  }

  /** What the scanner remembers after a mark: a number is an identifier byte. */
  function AfterMark(bt: BindType): Behind {
    if bt.Question? then FRESH else Behind(true, false)
  }

  /** The cut of a text in which nothing opens a literal. */
  function Bytes(t: string): seq<Piece> {
    if t == [] then [] else [Chr(t[0])] + Bytes(t[1..])
  }

  // ---------------------------------------------------------------- what a mark shows

  /** The number that a digit text stands for, by place value. */
  function Value(t: string): int {
    if t == [] then 0 else 10 * Value(t[..|t| - 1]) + (t[|t| - 1] as int - '0' as int)
  }

  /** `t` is the number `k` in decimal, without leading zeros. */
  predicate Decimal(t: string, k: nat) {
    && t != [] && (forall c :: c in t ==> '0' <= c <= '9')
    && Value(t) == k
    && (|t| > 1 ==> t[0] != '0')
  }

  /** `m` is the placeholder number `k` in the syntax of the driver. */
  predicate IsMark(m: string, bt: BindType, k: nat) {
    match bt
    case Question => m == ['?']
    case Dollar => m != [] && m[0] == '$' && Decimal(m[1..], k)
    case At => |m| >= 2 && m[0] == '@' && m[1] == 'p' && Decimal(m[2..], k)
    case NamedArg =>
      |m| >= 4 && m[0] == ':' && m[1] == 'a' && m[2] == 'r' && m[3] == 'g' && Decimal(m[4..], k)
  }

  lemma {:induction false} ItoaIsDecimal(n: nat)
    ensures Decimal(Itoa(n), n) && (n > 0 ==> Itoa(n)[0] != '0')
  {
    var t := Itoa(n);
    if n >= 10 {
      ItoaIsDecimal(n / 10);
      assert t[..|t| - 1] == Itoa(n / 10) && t[0] == Itoa(n / 10)[0];
    } else {
      assert t[..0] == [];
    }
  }

  /** A number has one such text. */
  lemma {:induction false} DecimalIsUnique(t: string, u: string, k: nat)
    requires Decimal(t, k) && Decimal(u, k)
    ensures t == u
    decreases |t|
  {
    if |t| == 1 || |u| == 1 {
      SmallDecimal(t, k);
      SmallDecimal(u, k);
    } else {
      var t', u' := t[..|t| - 1], u[..|u| - 1];
      DecimalPrefix(t, k);
      DecimalPrefix(u, k);
      DecimalIsUnique(t', u', k / 10);
      assert t == t' + [t[|t| - 1]] && u == u' + [u[|u| - 1]];
    }
  }

  lemma DecimalPrefix(t: string, k: nat)
    requires Decimal(t, k) && |t| > 1
    ensures Decimal(t[..|t| - 1], k / 10) && t[|t| - 1] as int == '0' as int + k % 10
  {
    var c, p := t[|t| - 1], t[..|t| - 1];
    assert c in t && p != [] && p[0] == t[0];
    assert k == 10 * Value(p) + (c as int - '0' as int);
    assert forall x :: x in p ==> x in t;
  }

  lemma {:induction false} SmallDecimal(t: string, k: nat)
    requires Decimal(t, k)
    ensures |t| == 1 ==> k < 10 && t[0] as int == '0' as int + k
    ensures |t| > 1 ==> k >= 10
    decreases |t|
  {
    if |t| == 1 {
      var e := t[..|t| - 1];
      assert e == [] && Value(e) == 0 && t[0] in t;
    } else {
      DecimalPrefix(t, k);
      SmallDecimal(t[..|t| - 1], k / 10);
      assert t[..|t| - 1][0] == t[0] && t[0] in t;
    }
  }

  /** The mark that is written for placeholder `k` shows the number `k`. */
  lemma MarkShows(bt: BindType, k: nat)
    ensures IsMark(Mark(bt, k), bt, k)
  {
    ItoaIsDecimal(k);
    hide Itoa, Decimal;
    match bt {
      case Question =>
      case Dollar => assert Mark(bt, k)[1..] == Itoa(k);
      case At => assert Mark(bt, k)[2..] == Itoa(k);
      case NamedArg => assert Mark(bt, k)[4..] == Itoa(k);
    }
  }

  /** ", " stands between the marks of one argument. */
  lemma GroupExample()
    ensures Group(Dollar, 9, 3) == "$9, $10, $11"
  {
    assert Group(Dollar, 11, 1) == "$11" && Group(Dollar, 10, 2) == "$10, $11";
  }

  // ---------------------------------------------------------------- reading single bytes

  lemma LexLit(b: Behind, x: string, y: string, d: Dialect)
    requires x != [] && LitLen(b, x + y, d) == |x|
    ensures Lex(b, x + y, d) == [Lit(x)] + Lex(After(b, x), y, d)
  {
    hide LitLen;
    assert (x + y)[..|x|] == x && (x + y)[|x|..] == y;
  }

  lemma LexChr(b: Behind, c: char, y: string, d: Dialect)
    requires LitLen(b, [c] + y, d) == 0
    ensures Lex(b, [c] + y, d) == [Chr(c)] + Lex(Step(b, c), y, d)
  {
    hide LitLen;
    assert ([c] + y)[..1] == [c] && ([c] + y)[1..] == y;
    AfterOne(b, [c]);
    assert [c][..1] == [c];
  }

  lemma AfterOne(b: Behind, s: string)
    requires s != []
    ensures After(b, s[..1]) == Step(b, s[0])
  {
    assert s[..1][1..] == [];
  }

  lemma LexHole(b: Behind, y: string, d: Dialect)
    ensures Lex(b, "?" + y, d) == [HOLE] + Lex(FRESH, y, d)
  {
    hide Lex;
    MarksArePlain(b, "?" + y, d);
    hide LitLen;
    assert "?" + y == ['?'] + y;
    LexChr(b, '?', y, d);
  }

  /** A byte that opens nothing, whatever stands around it. */
  predicate Dull(c: char) { !IsQuote(c) && c != '#' && c != '-' && c != '/' && c != '$' }

  lemma DullOpensNothing(b: Behind, s: string, d: Dialect)
    requires s != [] && Dull(s[0])
    ensures LitLen(b, s, d) == 0
  {
  }

  lemma {:induction false} LexDull(b: Behind, t: string, y: string, d: Dialect)
    requires forall c :: c in t ==> Dull(c)
    ensures Lex(b, t + y, d) == Bytes(t) + Lex(After(b, t), y, d)
    decreases |t|
  {
    if t == [] {
      assert t + y == y;
    } else {
      assert t[0] in t;
      assert t + y == [t[0]] + (t[1..] + y);
      DullOpensNothing(b, t + y, d);
      hide LitLen, Lex;
      LexChr(b, t[0], t[1..] + y, d);
      LexDull(Step(b, t[0]), t[1..], y, d);
      Regroup([Chr(t[0])], Bytes(t[1..]), Lex(After(b, t), y, d));
    }
  }

  // ---------------------------------------------------------------- reading marks

  lemma {:induction false} ItoaIsDigits(n: nat)
    ensures Itoa(n) != [] && forall c :: c in Itoa(n) ==> IsDigit(c)
  {
    if n >= 10 {
      ItoaIsDigits(n / 10);
      assert forall c :: c in Itoa(n) ==> c in Itoa(n / 10) || c == ('0' as int + n % 10) as char;
    }
  }

  lemma {:induction false} AfterDigits(b: Behind, t: string)
    requires t != [] && forall c :: c in t ==> IsDigit(c)
    ensures After(b, t) == Behind(true, false)
    decreases |t|
  {
    assert t[0] in t;
    if |t| == 1 {
      assert t[1..] == [];
    } else {
      AfterDigits(Step(b, t[0]), t[1..]);
    }
  }

  /** A '$' before a digit opens nothing. */
  lemma NumberOpensNothing(b: Behind, s: string, d: Dialect)
    requires |s| > 1 && s[0] == '$' && IsDigit(s[1])
    ensures LitLen(b, s, d) == 0
  {
    assert TagRun(s[1..]) > 0;
  }

  /** The letters of a mark, between its head and its number. */
  function Letters(bt: BindType): string {
    match bt
    case At => "p"
    case NamedArg => "arg"
    case _ => ""
  }

  lemma MarkSplits(bt: BindType, k: nat)
    requires !bt.Question?
    ensures Mark(bt, k) == [MarkHead(bt)] + (Letters(bt) + Itoa(k))
    ensures forall c :: c in Letters(bt) ==> Dull(c)
  {
  }

  /** Wherever a mark stands, the scanner reads it byte by byte. */
  lemma LexMark(b: Behind, bt: BindType, k: nat, y: string, d: Dialect)
    ensures Lex(b, Mark(bt, k) + y, d) == Bytes(Mark(bt, k)) + Lex(AfterMark(bt), y, d)
  {
    if bt.Question? {
      LexHole(b, y, d);
      assert Bytes("?") == [HOLE] by { assert "?"[1..] == ""; }
    } else {
      MarkSplits(bt, k);
      var h, t := MarkHead(bt), Letters(bt) + Itoa(k);
      hide *;
      HeadOpensNothing(b, bt, k, y, d);
      LexChr(b, h, t + y, d);
      LexTail(b, bt, k, y, d);
      BytesCons(h, t);
      Regroup([h], t, y);
      Regroup([Chr(h)], Bytes(t), Lex(AfterMark(bt), y, d));
    }
  }

  lemma Regroup<T>(x: seq<T>, y: seq<T>, z: seq<T>)
    ensures x + (y + z) == (x + y) + z
  {
  }

  lemma HeadAndTail<T>(xs: seq<T>, ys: seq<T>)
    requires xs != []
    ensures [xs[0]] + (xs[1..] + ys) == xs + ys
  {
  }

  lemma BytesCons(c: char, t: string)
    ensures Bytes([c] + t) == [Chr(c)] + Bytes(t)
  {
    assert ([c] + t)[1..] == t;
  }

  lemma HeadOpensNothing(b: Behind, bt: BindType, k: nat, y: string, d: Dialect)
    requires !bt.Question?
    ensures LitLen(b, [MarkHead(bt)] + (Letters(bt) + Itoa(k) + y), d) == 0
  {
    hide LitLen;
    ItoaIsDigits(k);
    var s := [MarkHead(bt)] + (Letters(bt) + Itoa(k) + y);
    if bt.Dollar? {
      assert s[1] == Itoa(k)[0];
      NumberOpensNothing(b, s, d);
    } else {
      DullOpensNothing(b, s, d);
    }
  }

  lemma LexTail(b: Behind, bt: BindType, k: nat, y: string, d: Dialect)
    requires !bt.Question?
    ensures var t := Letters(bt) + Itoa(k);
            Lex(Step(b, MarkHead(bt)), t + y, d) == Bytes(t) + Lex(AfterMark(bt), y, d)
  {
    hide Lex, Bytes, After;
    var t := Letters(bt) + Itoa(k);
    var c := Step(b, MarkHead(bt));
    ItoaIsDigits(k);
    MarkSplits(bt, k);
    hide Itoa, Letters;
    LexDull(c, t, y, d);
    AfterConcat(c, Letters(bt), Itoa(k));
    AfterDigits(After(c, Letters(bt)), Itoa(k));
  }

  /** The marks of one argument are read byte by byte too. */
  lemma {:induction false} LexGroup(b: Behind, bt: BindType, k: nat, w: pos, y: string, d: Dialect)
    ensures Lex(b, Group(bt, k, w) + y, d) == Bytes(Group(bt, k, w)) + Lex(AfterMark(bt), y, d)
    decreases w
  {
    hide Lex, Bytes, Mark;
    if w == 1 {
      LexMark(b, bt, k, y, d);
    } else {
      var g := Group(bt, k + 1, w - 1);
      LexGroup(After(AfterMark(bt), ", "), bt, k + 1, w - 1, y, d);
      hide Group;
      LexMark(b, bt, k, ", " + (g + y), d);
      LexDull(AfterMark(bt), ", ", g + y, d);
      BytesConcat(Mark(bt, k), ", " + g);
      BytesConcat(", ", g);
      hide *;
      Regroup(Mark(bt, k), ", " + g, y);
      Regroup(", ", g, y);
      var ls := Lex(AfterMark(bt), y, d);
      Regroup(Bytes(Mark(bt, k)), Bytes(", ") + Bytes(g), ls);
      Regroup(Bytes(", "), Bytes(g), ls);
    }
  }

  lemma {:induction false} BytesConcat(x: string, y: string)
    ensures Bytes(x + y) == Bytes(x) + Bytes(y)
    decreases |x|
  {
    if x == [] {
      assert x + y == y;
    } else {
      assert x + y == [x[0]] + (x[1..] + y);
      BytesCons(x[0], x[1..] + y);
      BytesConcat(x[1..], y);
    }
  }

  lemma GroupHead(bt: BindType, k: nat, w: pos)
    ensures Group(bt, k, w) != [] && Group(bt, k, w)[0] == MarkHead(bt)
  {
  }
}
