/** What `bindQuery` does to the text of a query before it expands slices: protect the
    colons, bind the names, restore the colons.

    `Template` reads the original query as literals, plain bytes, casts and `:name`
    parameters. The protected text, the bound text and the literal boundaries of the
    bound text are all determined by it. */
module SqlTemplate {
  import opened SqlScanner
  import opened SqlScanLoops
  import opened SqlMarks

  // ---------------------------------------------------------------- the stages

  /** protectCasts: every "::", left to right, becomes the cast sentinel. */
  function Casts(s: string): string {
    if |s| > 1 && s[0] == ':' && s[1] == ':' then [CAST_SENTINEL] + Casts(s[2..])
    else if s == [] then []
    else [s[0]] + Casts(s[1..])
  }

  function Seal(t: string): string {
    if t == [] then [] else [if t[0] == ':' then COLON_SENTINEL else t[0]] + Seal(t[1..])
  }

  /** protectColons: every ':' inside a literal becomes the colon sentinel. */
  function Colons(b: Behind, s: string, d: Dialect): string
    decreases |s|
  {
    if s == [] then []
    else
      var m := CutLen(b, s, d);
      (if LitLen(b, s, d) > 0 then Seal(s[..m]) else s[..m]) + Colons(After(b, s[..m]), s[m..], d)
  }

  /** protectStrayColons: so does every ':' that no name follows. */
  function Strays(s: string): string {
    if s == [] then []
    else
      [if s[0] == ':' && (|s| == 1 || !IsNameStart(s[1])) then COLON_SENTINEL else s[0]] + Strays(s[1..])
  }

  function Protect(q: string, d: Dialect): string {
    Strays(Colons(FRESH, Casts(q), d))
  }

  function RestoreCasts(s: string): string {
    if s == [] then [] else (if s[0] == CAST_SENTINEL then "::" else [s[0]]) + RestoreCasts(s[1..])
  }

  function RestoreColons(s: string): string {
    if s == [] then [] else [if s[0] == COLON_SENTINEL then ':' else s[0]] + RestoreColons(s[1..])
  }

  function Restore(s: string): string {
    RestoreColons(RestoreCasts(s))
  }

  predicate SentinelFree(q: string) {
    CAST_SENTINEL !in q && COLON_SENTINEL !in q
  }

  // ---------------------------------------------------------------- names

  /** The bytes that continue a name in the named binder. */
  predicate IsNameByte(c: char) { IsDollarTagChar(c) || c == '.' }

  function NameRun(s: string): (n: nat)
    ensures n <= |s|
    ensures forall k :: 0 <= k < n ==> IsNameByte(s[k])
    ensures n < |s| ==> !IsNameByte(s[n])
    ensures s != [] && IsNameByte(s[0]) ==> n > 0
  {
    if s == [] || !IsNameByte(s[0]) then 0 else 1 + NameRun(s[1..])
  }

  datatype Named = Named(text: string, names: seq<string>) | Unreadable

  function Copied(g: string, rest: Named): Named {
    match rest
    case Unreadable => Unreadable
    case Named(t, ns) => Named(g + t, ns)
  }

  function Parameter(n: string, rest: Named): Named {
    match rest
    case Unreadable => Unreadable
    case Named(t, ns) => Named("?" + t, [n] + ns)
  }

  /** The named binder, as assumed of sqlx.Named: each `:name` becomes one '?' and yields
      its name, a name may not run into another ':', and all other bytes are copied. */
  function BindNames(s: string): Named
    decreases |s|
  {
    if s == [] then Named([], [])
    else if s[0] != ':' then Copied([s[0]], BindNames(s[1..]))
    else
      var n := NameRun(s[1..]);
      if n == 0 || (1 + n < |s| && s[1 + n] == ':') then Unreadable
      else Parameter(s[1..1 + n], BindNames(s[1 + n..]))
  }

  // ---------------------------------------------------------------- the template

  /** The length and the piece at the head of `s`. */
  function PieceLen(b: Behind, s: string, d: Dialect): (m: nat)
    requires s != []
    ensures 0 < m <= |s|
  {
    var n := LitLen(b, s, d);
    if n > 0 then n
    else if s[0] == ':' && |s| > 1 && s[1] == ':' then 2
    else if s[0] == ':' && |s| > 1 && IsNameStart(s[1]) then 1 + NameRun(s[1..])
    else 1
  }

  function PieceOf(b: Behind, s: string, d: Dialect): (p: Piece)
    requires s != []
    ensures Source(p) == s[..PieceLen(b, s, d)]
  {
    var n := LitLen(b, s, d);
    if n > 0 then Lit(s[..n])
    else if s[0] == ':' && |s| > 1 && s[1] == ':' then Cast
    else if s[0] == ':' && |s| > 1 && IsNameStart(s[1]) then
      assert s[..1 + NameRun(s[1..])] == ":" + s[1..1 + NameRun(s[1..])];
      Param(s[1..1 + NameRun(s[1..])])
    else Chr(s[0])
  }

  /** The query as its author reads it. */
  function Template(b: Behind, s: string, d: Dialect): seq<Piece>
    decreases |s|
  {
    if s == [] then []
    else
      var m := PieceLen(b, s, d);
      [PieceOf(b, s, d)] + Template(After(b, s[..m]), s[m..], d)
  }

  lemma {:induction false} TemplateIsLossless(b: Behind, s: string, d: Dialect)
    ensures SourceText(Template(b, s, d)) == s
    decreases |s|
  {
    hide PieceLen;
    hide PieceOf;
    if s != [] {
      var m := PieceLen(b, s, d);
      TemplateIsLossless(After(b, s[..m]), s[m..], d);
      assert s == s[..m] + s[m..];
    }
  }

  function Names(ps: seq<Piece>): seq<string> {
    if ps == [] then [] else if ps[0].Param? then [ps[0].name] + Names(ps[1..]) else Names(ps[1..])
  }

  /** The protected form of a piece: the only ':' left belongs to a parameter. */
  function Guarded(p: Piece): string {
    match p
    case Lit(t) => Seal(Casts(t))
    case Chr(c) => [if c == ':' then COLON_SENTINEL else c]
    case Cast => [CAST_SENTINEL]
    case Param(n) => ":" + n
  }

  function GuardedText(ps: seq<Piece>): string {
    if ps == [] then [] else Guarded(ps[0]) + GuardedText(ps[1..])
  }

  /** The text once every parameter is a '?'. */
  function Marked(p: Piece): string {
    match p
    case Param(_) => "?"
    case _ => Source(p)
  }

  function MarkedText(ps: seq<Piece>): string {
    if ps == [] then [] else Marked(ps[0]) + MarkedText(ps[1..])
  }

  /** The cut that the scanner ought to make of the marked text. */
  function Tokens(p: Piece): seq<Piece> {
    match p
    case Param(_) => [HOLE]
    case Cast => [Chr(':'), Chr(':')]
    case _ => [p]
  }

  function TokensOf(ps: seq<Piece>): seq<Piece> {
    if ps == [] then [] else Tokens(ps[0]) + TokensOf(ps[1..])
  }

  // ---------------------------------------------------------------- protecting casts

  lemma {:induction false} CastsRel(s: string)
    ensures Rel(s, Casts(s))
  {
    if |s| > 1 && s[0] == ':' && s[1] == ':' {
      CastsRel(s[2..]);
    } else if s != [] {
      CastsRel(s[1..]);
    }
  }

  predicate PairAtHead(s: string) { |s| > 1 && s[0] == ':' && s[1] == ':' }

  lemma CastsStep(s: string)
    requires s != []
    ensures PairAtHead(s) ==> Casts(s) == [CAST_SENTINEL] + Casts(s[2..])
    ensures !PairAtHead(s) ==> Casts(s) == [s[0]] + Casts(s[1..])
  {
  }

  /** Pairing does not cross a cut between two bytes that are not both ':'. */
  lemma {:induction false} CastsConcat(x: string, y: string)
    requires x == [] || y == [] || x[|x| - 1] != ':' || y[0] != ':'
    ensures Casts(x + y) == Casts(x) + Casts(y)
    decreases |x|
  {
    if x == [] {
      assert x + y == y;
    } else {
      hide Casts;
      CastsStep(x);
      CastsStep(x + y);
      var k := if PairAtHead(x) then 2 else 1;
      Tails(x, y, k);
      CastsConcat(x[k..], y);
      HeadAndTail([if PairAtHead(x) then CAST_SENTINEL else x[0]] + Casts(x[k..]), Casts(y));
    }
  }

  /** The bytes that stand for one another look the same from behind. */
  lemma {:induction false} RelAfter(b: Behind, x: string, x': string)
    requires Rel(x, x')
    ensures After(b, x') == After(b, x)
    decreases |x|
  {
    RelHead(x, x');
    if x != [] {
      if Single(x, x') {
        RelAfter(Step(b, x[0]), x[1..], x'[1..]);
      } else {
        RelAfter(FRESH, x[2..], x'[1..]);
        assert x[1..][1..] == x[2..];
        assert After(b, x) == After(Step(b, ':'), x[1..]) == After(FRESH, x[2..]);
      }
    }
  }

  /** A literal ends in a byte other than ':' unless it runs to the end of the text. */
  lemma LitEndsSolid(b: Behind, s: string, d: Dialect)
    requires s != []
    ensures var n := LitLen(b, s, d); 0 < n < |s| ==> s[n - 1] != ':'
  {
    var o := OpenerOf(b, s, d);
    OpenerIsSolid(b, s, d);
    match o {
      case Quoted(quote, bs) => QuotedLast(s[1..], quote, bs);
      case LineComment(skip) =>
      case BlockComment => BlockLast(s[2..], 1, d.Postgres?);
      case DollarQuoted(open) => DollarLast(s, open);
      case Nothing =>
    }
  }

  lemma {:induction false} QuotedLast(s: string, quote: char, bs: bool)
    requires !Inert(quote)
    ensures var n := QuotedTail(s, quote, bs); 0 < n < |s| ==> s[n - 1] != ':'
    decreases |s|
  {
    if s != [] {
      if bs && s[0] == '\\' {
        if |s| > 1 { QuotedLast(s[2..], quote, bs); }
      } else if s[0] == quote {
        if |s| > 1 && s[1] == quote { QuotedLast(s[2..], quote, bs); }
      } else {
        QuotedLast(s[1..], quote, bs);
      }
    }
  }

  lemma {:induction false} BlockLast(s: string, depth: nat, nested: bool)
    requires depth > 0
    ensures var n := BlockTail(s, depth, nested); 0 < n < |s| ==> s[n - 1] != ':'
    decreases |s|
  {
    hide BlockTail;
    if s != [] {
      BlockStep(s, depth, nested);
      var u := BlockUnit(s, nested);
      if depth + u.1 > 0 { BlockLast(s[u.0..], depth + u.1, nested); }
    }
  }

  lemma DollarLast(s: string, open: nat)
    requires 0 < open <= |s| && Solid(s[..open])
    ensures var n := DollarLen(s, open); n < |s| ==> s[n - 1] != ':'
  {
    var r := Find(s[open..], s[..open]);
    if r.Some? {
      var k := r.value;
      FindIsFirst(s[open..], s[..open], k);
      assert s[open..][k..k + open] == s[..open];
      assert s[open..][k + open - 1] == s[..open][open - 1];
      assert s[open - 1] in s[..open];
    }
  }

  // ---------------------------------------------------------------- protection is exact

  lemma {:induction false} StraysConcat(x: string, y: string)
    requires ':' !in x
    ensures Strays(x + y) == x + Strays(y)
  {
    if x == [] {
      assert x + y == y;
    } else {
      Tails(x, y, 1);
      assert x[0] != ':';
      StraysConcat(x[1..], y);
    }
  }

  lemma {:induction false} SealIsColonFree(t: string)
    ensures ':' !in Seal(t) && |Seal(t)| == |t|
    ensures t != [] && t[0] != ':' ==> Seal(t)[0] == t[0]
  {
    if t != [] { SealIsColonFree(t[1..]); }
  }

  /** All three stages on the text that follows `b`. */
  function Staged(b: Behind, s: string, d: Dialect): string {
    Strays(Colons(b, Casts(s), d))
  }

  lemma StagedLit(b: Behind, s: string, d: Dialect)
    requires s != [] && LitLen(b, s, d) > 0
    ensures var n := LitLen(b, s, d);
            Staged(b, s, d) == Seal(Casts(s[..n])) + Staged(After(b, s[..n]), s[n..], d)
  {
    hide LitLen;
    hide Casts;
    hide Seal;
    hide Strays;
    hide After;
    var n := LitLen(b, s, d);
    var x, r := s[..n], s[n..];
    assert s == x + r;
    LitEndsSolid(b, s, d);
    CastsConcat(x, r);
    CastsRel(x);
    CastsRel(r);
    CastsAlike(r);
    LitKeeps(b, x, Casts(x), r, Casts(r), d);
    RelAfter(b, x, Casts(x));
    var z := Casts(x) + Casts(r);
    assert z[..|Casts(x)|] == Casts(x) && z[|Casts(x)|..] == Casts(r);
    SealIsColonFree(Casts(x));
    StraysConcat(Seal(Casts(x)), Colons(After(b, x), Casts(r), d));
  }

  lemma CastsAlike(s: string)
    ensures Alike(s, Casts(s))
  {
    CastsRel(s);
    assert Alike([], []);
    RelIsAlike(s, Casts(s), [], []);
    assert s + [] == s && Casts(s) + [] == Casts(s);
  }

  lemma ColonsStep(b: Behind, c: char, z: string, d: Dialect)
    requires LitLen(b, [c] + z, d) == 0
    ensures Colons(b, [c] + z, d) == [c] + Colons(Step(b, c), z, d)
  {
    hide LitLen;
    assert ([c] + z)[..1] == [c] && ([c] + z)[1..] == z;
    assert After(b, [c]) == After(Step(b, c), []);
  }

  lemma StagedChr(b: Behind, s: string, d: Dialect)
    requires s != [] && LitLen(b, s, d) == 0 && s[0] != ':'
    ensures Staged(b, s, d) == [s[0]] + Staged(Step(b, s[0]), s[1..], d)
  {
    hide LitLen;
    hide Colons;
    hide Casts;
    CastsStep(s);
    CastsAlike(s);
    OpenerKeeps(b, s, Casts(s), d);
    ColonsStep(b, s[0], Casts(s[1..]), d);
    StraysConcat([s[0]], Colons(Step(b, s[0]), Casts(s[1..]), d));
  }

  lemma StagedCast(b: Behind, s: string, d: Dialect)
    requires PairAtHead(s)
    ensures Staged(b, s, d) == [CAST_SENTINEL] + Staged(After(b, s[..2]), s[2..], d)
  {
    hide LitLen;
    hide Colons;
    hide Casts;
    CastsStep(s);
    MarksArePlain(b, [CAST_SENTINEL] + Casts(s[2..]), d);
    ColonsStep(b, CAST_SENTINEL, Casts(s[2..]), d);
    StraysConcat([CAST_SENTINEL], Colons(FRESH, Casts(s[2..]), d));
    assert s[..2] == "::";
    assert After(b, "::") == FRESH by { assert "::"[1..] == ":"; assert ":"[1..] == ""; }
  }

  lemma ColonsHead(b: Behind, z: string, d: Dialect)
    requires z != [] && z[0] != ':'
    ensures Colons(b, z, d) != [] && Colons(b, z, d)[0] == z[0]
  {
    hide LitLen;
    SealIsColonFree(z[..CutLen(b, z, d)]);
  }

  lemma StagedColon(b: Behind, s: string, d: Dialect)
    requires s != [] && s[0] == ':' && !PairAtHead(s)
    ensures var named := |s| > 1 && IsNameStart(s[1]);
            Staged(b, s, d) == [if named then ':' else COLON_SENTINEL] + Staged(Step(b, ':'), s[1..], d)
  {
    hide LitLen;
    hide Colons;
    hide Casts;
    CastsStep(s);
    var r := s[1..];
    MarksArePlain(b, [s[0]] + Casts(r), d);
    ColonsStep(b, ':', Casts(r), d);
    var y := Colons(Step(b, ':'), Casts(r), d);
    if r != [] {
      CastsStep(r);
      ColonsHead(Step(b, ':'), Casts(r), d);
    } else {
      StagedNothing(Step(b, ':'), d);
    }
    assert ([':'] + y)[1..] == y;
  }

  lemma StagedNothing(b: Behind, d: Dialect)
    ensures Colons(b, Casts([]), d) == []
  {
  }

  predicate NameBytes(n: string) { forall c :: c in n ==> IsNameByte(c) }

  lemma {:induction false} StagedName(b: Behind, n: string, r: string, d: Dialect)
    requires NameBytes(n)
    ensures Staged(b, n + r, d) == n + Staged(After(b, n), r, d)
    decreases |n|
  {
    if n == [] {
      assert n + r == r;
    } else {
      hide LitLen;
      hide Staged;
      Tails(n, r, 1);
      assert After(b, n) == After(Step(b, n[0]), n[1..]);
      hide After;
      assert n[0] in n;
      NameBytesArePlain(b, n + r, d);
      StagedChr(b, n + r, d);
      StagedName(Step(b, n[0]), n[1..], r, d);
      HeadAndTail(n, Staged(After(b, n), r, d));
    }
  }

  lemma NameBytesArePlain(b: Behind, s: string, d: Dialect)
    requires s != [] && IsNameByte(s[0])
    ensures LitLen(b, s, d) == 0 && s[0] != ':'
  {
  }

  /** The three protection stages, run one after the other on ever edited text, leave
      exactly the protected form of the template of the original query. */
  lemma {:induction false} StagedIsGuarded(b: Behind, s: string, d: Dialect)
    ensures Staged(b, s, d) == GuardedText(Template(b, s, d))
    decreases |s|
  {
    if s != [] {
      hide LitLen;
      hide Staged;
      var m := PieceLen(b, s, d);
      var p := PieceOf(b, s, d);
      var rest := Template(After(b, s[..m]), s[m..], d);
      assert Template(b, s, d) == [p] + rest;
      assert ([p] + rest)[1..] == rest;
      StagedIsGuarded(After(b, s[..m]), s[m..], d);
      StagedPiece(b, s, d);
    } else {
      StagedNothing(b, d);
    }
  }

  lemma StagedPiece(b: Behind, s: string, d: Dialect)
    requires s != []
    ensures var m := PieceLen(b, s, d);
            Staged(b, s, d) == Guarded(PieceOf(b, s, d)) + Staged(After(b, s[..m]), s[m..], d)
  {
    hide LitLen;
    hide Staged;
    var m := PieceLen(b, s, d);
    if LitLen(b, s, d) > 0 {
      StagedLit(b, s, d);
    } else if PairAtHead(s) {
      StagedCast(b, s, d);
    } else if s[0] == ':' {
      StagedColon(b, s, d);
      if |s| > 1 && IsNameStart(s[1]) {
        StagedName(Step(b, ':'), s[1..m], s[m..], d);
        assert s[1..] == s[1..m] + s[m..];
        assert s[..m][1..] == s[1..m];
        assert Guarded(PieceOf(b, s, d)) == [':'] + s[1..m];
      } else {
        AfterOne(b, s);
      }
    } else {
      StagedChr(b, s, d);
      AfterOne(b, s);
    }
  }

  // ---------------------------------------------------------------- restoring

  lemma {:induction false} RestoreConcat(x: string, y: string)
    ensures Restore(x + y) == Restore(x) + Restore(y)
  {
    RestoreCastsConcat(x, y);
    RestoreColonsConcat(RestoreCasts(x), RestoreCasts(y));
  }

  lemma {:induction false} RestoreCastsConcat(x: string, y: string)
    ensures RestoreCasts(x + y) == RestoreCasts(x) + RestoreCasts(y)
  {
    if x == [] {
      assert x + y == y;
    } else {
      Tails(x, y, 1);
      RestoreCastsConcat(x[1..], y);
    }
  }

  lemma {:induction false} RestoreColonsConcat(x: string, y: string)
    ensures RestoreColons(x + y) == RestoreColons(x) + RestoreColons(y)
  {
    if x == [] {
      assert x + y == y;
    } else {
      Tails(x, y, 1);
      RestoreColonsConcat(x[1..], y);
    }
  }

  lemma RestoreOne(c: char)
    ensures Restore([c]) == if c == CAST_SENTINEL then "::" else if c == COLON_SENTINEL then ":" else [c]
  {
    var e: string := [];
    assert [c][1..] == e && RestoreCasts(e) == e && RestoreColons(e) == e;
    assert RestoreCasts([c]) == (if c == CAST_SENTINEL then "::" else [c]) + RestoreCasts([c][1..]);
    if c == CAST_SENTINEL {
      assert RestoreCasts([c]) == "::";
      assert "::"[1..] == ":" && ":"[1..] == e;
      assert RestoreColons("::") == [':'] + RestoreColons("::"[1..]);
    } else {
      assert RestoreCasts([c]) == [c];
      assert RestoreColons([c]) == [if c == COLON_SENTINEL then ':' else c] + RestoreColons([c][1..]);
    }
  }

  lemma {:induction false} RestorePlain(t: string)
    requires SentinelFree(t)
    ensures Restore(t) == t
  {
    if t != [] {
      assert t == [t[0]] + t[1..];
      RestoreConcat([t[0]], t[1..]);
      RestoreOne(t[0]);
      RestorePlain(t[1..]);
    }
  }

  lemma {:induction false} RestoreSealed(t: string)
    requires SentinelFree(t)
    ensures Restore(Seal(Casts(t))) == t
    decreases |t|
  {
    if t != [] {
      hide Restore;
      hide Casts;
      CastsStep(t);
      var k := if PairAtHead(t) then 2 else 1;
      var c := if PairAtHead(t) then CAST_SENTINEL else t[0];
      var rest := Casts(t[k..]);
      var sc := if c == ':' then COLON_SENTINEL else c;
      SealStep(c, rest);
      RestoreConcat([sc], Seal(rest));
      RestoreOne(sc);
      RestoreSealed(t[k..]);
      assert t[0] in t;
      assert t == t[..k] + t[k..];
    } else {
      RestorePlain(t);
    }
  }

  lemma SealStep(c: char, rest: string)
    ensures Seal([c] + rest) == [if c == ':' then COLON_SENTINEL else c] + Seal(rest)
  {
    assert ([c] + rest)[1..] == rest;
  }

  // ---------------------------------------------------------------- the head of a template

  lemma TemplateStep(b: Behind, s: string, d: Dialect)
    requires s != []
    ensures var m := PieceLen(b, s, d);
            Template(b, s, d) == [PieceOf(b, s, d)] + Template(After(b, s[..m]), s[m..], d)
  {
  }

  lemma TextsOf(p: Piece, rest: seq<Piece>)
    ensures GuardedText([p] + rest) == Guarded(p) + GuardedText(rest)
    ensures MarkedText([p] + rest) == Marked(p) + MarkedText(rest)
    ensures HalfText([p] + rest) == Half(p) + HalfText(rest)
    ensures TokensOf([p] + rest) == Tokens(p) + TokensOf(rest)
    ensures Names([p] + rest) == if p.Param? then [p.name] + Names(rest) else Names(rest)
    ensures Clash([p] + rest) <==> (rest != [] && p.Param? && rest[0].Param?) || Clash(rest)
  {
    assert ([p] + rest)[1..] == rest;
  }

  // ---------------------------------------------------------------- binding names

  /** A piece once its name is bound and before its colons are back. */
  function Half(p: Piece): string {
    if p.Param? then "?" else Guarded(p)
  }

  function HalfText(ps: seq<Piece>): string {
    if ps == [] then [] else Half(ps[0]) + HalfText(ps[1..])
  }

  /** Two parameters with nothing between them. */
  predicate Clash(ps: seq<Piece>) {
    |ps| > 1 && ((ps[0].Param? && ps[1].Param?) || Clash(ps[1..]))
  }

  lemma {:induction false} CopyThrough(g: string, y: string)
    requires ':' !in g
    ensures BindNames(g + y) == Copied(g, BindNames(y))
  {
    if g == [] {
      assert g + y == y;
      var r := BindNames(y);
      if r.Named? { assert g + r.text == r.text; }
    } else {
      Tails(g, y, 1);
      CopyThrough(g[1..], y);
      var r := BindNames(y);
      if r.Named? { assert [g[0]] + (g[1..] + r.text) == g + r.text; }
    }
  }

  lemma {:induction false} NameRunIs(n: string, y: string)
    requires NameBytes(n) && (y == [] || !IsNameByte(y[0]))
    ensures NameRun(n + y) == |n|
  {
    if n == [] {
      assert n + y == y;
    } else {
      Tails(n, y, 1);
      assert n[0] in n;
      NameRunIs(n[1..], y);
    }
  }

  lemma BindOne(n: string, y: string)
    requires NameBytes(n) && n != [] && (y == [] || !IsNameByte(y[0]))
    ensures BindNames(":" + n + y) ==
            if y != [] && y[0] == ':' then Unreadable else Parameter(n, BindNames(y))
  {
    hide NameRun;
    hide Parameter;
    NameRunIs(n, y);
    var s := ":" + n + y;
    assert s[1..] == n + y && s[1..1 + |n|] == n && s[1 + |n|..] == y;
    assert BindNames(s) == if 1 + |n| < |s| && s[1 + |n|] == ':' then Unreadable
                           else Parameter(s[1..1 + |n|], BindNames(s[1 + |n|..]));
  }

  lemma GuardedIsColonFree(p: Piece)
    requires !p.Param?
    ensures ':' !in Guarded(p)
  {
    if p.Lit? { SealIsColonFree(Casts(p.text)); }
  }

  lemma PieceName(b: Behind, s: string, d: Dialect)
    requires s != [] && PieceOf(b, s, d).Param?
    ensures var m := PieceLen(b, s, d);
            var n := PieceOf(b, s, d).name;
            n == s[1..m] && n != [] && NameBytes(n) && (m < |s| ==> !IsNameByte(s[m]))
  {
    hide LitLen;
    var m := PieceLen(b, s, d);
    forall c | c in s[1..m] ensures IsNameByte(c) {
      var k :| 0 <= k < m - 1 && s[1..m][k] == c;
      assert s[1..][k] == c;
    }
    if m < |s| { assert s[1..][m - 1] == s[m]; }
  }

  /** The first byte of a protected text tells whether a parameter comes first, and is a
      name byte only when the original was. */
  lemma GuardedHead(b: Behind, s: string, d: Dialect)
    requires s != []
    ensures var ps := Template(b, s, d);
            ps != [] && GuardedText(ps) != []
            && (GuardedText(ps)[0] == ':' <==> ps[0].Param?)
            && (!IsNameByte(s[0]) ==> !IsNameByte(GuardedText(ps)[0]))
  {
    hide LitLen;
    hide After;
    var p := PieceOf(b, s, d);
    var n := LitLen(b, s, d);
    if n > 0 {
      OpenerIsSolid(b, s, d);
      LitStartsSolid(b, s, d);
      CastsStep(s[..n]);
      SealIsColonFree(Casts(s[..n]));
    } else if !p.Param? {
      GuardedIsColonFree(p);
    }
    assert Guarded(p) != [];
  }

  lemma LitStartsSolid(b: Behind, s: string, d: Dialect)
    requires s != [] && LitLen(b, s, d) > 0
    ensures !Inert(s[0])
  {
  }

  /** Binding the protected text meets the names of the template in order, and fails to
      read it only where one parameter runs into the next. */
  lemma {:induction false} BindNamesOfTemplate(b: Behind, s: string, d: Dialect)
    ensures var ps := Template(b, s, d);
            BindNames(GuardedText(ps)) == if Clash(ps) then Unreadable else Named(HalfText(ps), Names(ps))
    decreases |s|
  {
    if s != [] {
      hide PieceLen;
      hide PieceOf;
      hide After;
      hide BindNames;
      hide Template;
      hide GuardedText;
      hide HalfText;
      hide Names;
      hide Clash;
      var m := PieceLen(b, s, d);
      var p := PieceOf(b, s, d);
      var rest := Template(After(b, s[..m]), s[m..], d);
      TemplateStep(b, s, d);
      TextsOf(p, rest);
      BindNamesOfTemplate(After(b, s[..m]), s[m..], d);
      var y := GuardedText(rest);
      if s[m..] != [] {
        GuardedHead(After(b, s[..m]), s[m..], d);
      } else {
        NothingLeft(After(b, s[..m]), d);
      }
      if p.Param? {
        PieceName(b, s, d);
        BindOne(p.name, y);
        assert Guarded(p) + y == ":" + p.name + y;
      } else {
        GuardedIsColonFree(p);
        CopyThrough(Guarded(p), y);
      }
    }
  }

  lemma NothingLeft(b: Behind, d: Dialect)
    ensures Template(b, [], d) == [] && GuardedText([]) == [] && HalfText([]) == [] && MarkedText([]) == []
  {
  }

  lemma {:induction false} RestoreHalf(b: Behind, s: string, d: Dialect)
    requires SentinelFree(s)
    ensures Restore(HalfText(Template(b, s, d))) == MarkedText(Template(b, s, d))
    ensures Restore(GuardedText(Template(b, s, d))) == s
    decreases |s|
  {
    hide PieceLen;
    hide PieceOf;
    hide After;
    hide Restore;
    if s == [] {
      RestorePlain("");
    } else {
      var m := PieceLen(b, s, d);
      var p := PieceOf(b, s, d);
      var rest := Template(After(b, s[..m]), s[m..], d);
      assert Template(b, s, d) == [p] + rest && ([p] + rest)[1..] == rest;
      RestoreHalf(After(b, s[..m]), s[m..], d);
      RestoreConcat(Half(p), HalfText(rest));
      RestoreConcat(Guarded(p), GuardedText(rest));
      assert s == s[..m] + s[m..];
      assert Source(p) == s[..m];
      RestorePiece(p);
    }
  }

  lemma RestorePiece(p: Piece)
    requires SentinelFree(Source(p))
    ensures Restore(Guarded(p)) == Source(p) && Restore(Half(p)) == Marked(p)
  {
    match p {
      case Lit(t) => RestoreSealed(t);
      case Chr(c) =>
        assert c in Source(p);
        RestoreOne(c);
        RestoreOne(COLON_SENTINEL);
      case Cast => RestoreOne(CAST_SENTINEL);
      case Param(n) =>
        RestorePlain(":" + n);
        RestoreOne('?');
    }
  }

  lemma {:induction false} CastsReturn(s: string)
    ensures CAST_SENTINEL !in RestoreCasts(s)
  {
    if s != [] { CastsReturn(s[1..]); }
  }

  lemma {:induction false} ColonsReturn(s: string)
    ensures COLON_SENTINEL !in RestoreColons(s)
    ensures CAST_SENTINEL !in s ==> CAST_SENTINEL !in RestoreColons(s)
  {
    if s != [] { ColonsReturn(s[1..]); }
  }

  /** Protection is exact: what it leaves is the protected form of the template, in which the
      only ':' are those of the parameters. And it is lossless: restoring it gives the query
      back if and only if the query had no sentinel. */
  lemma ProtectionIsLossless(q: string, d: Dialect)
    ensures Protect(q, d) == GuardedText(Template(FRESH, q, d))
    ensures Restore(Protect(q, d)) == q <==> SentinelFree(q)
  {
    StagedIsGuarded(FRESH, q, d);
    if SentinelFree(q) {
      RestoreHalf(FRESH, q, d);
    } else {
      CastsReturn(Protect(q, d));
      ColonsReturn(RestoreCasts(Protect(q, d)));
    }
  }

  // ---------------------------------------------------------------- protection moves no boundary

  /** The cut that the scanner ought to make of the protected text: the template's own, each
      piece in its protected form. */
  function GuardedTokens(p: Piece): seq<Piece> {
    match p
    case Lit(t) => [Lit(Guarded(p))]
    case Chr(c) => [Chr(if c == ':' then COLON_SENTINEL else c)]
    case Cast => [Chr(CAST_SENTINEL)]
    case Param(n) => [Chr(':')] + Bytes(n)
  }

  function GuardedTokensOf(ps: seq<Piece>): seq<Piece> {
    if ps == [] then [] else GuardedTokens(ps[0]) + GuardedTokensOf(ps[1..])
  }

  lemma {:induction false} RelConcat(x: string, x': string, y: string, y': string)
    requires Rel(x, x') && Rel(y, y')
    ensures Rel(x + y, x' + y')
  {
    RelHead(x, x');
    if x == [] {
      assert x + y == y && x' + y' == y';
    } else {
      Tails(x, y, 1);
      Tails(x', y', 1);
      if Single(x, x') {
        RelConcat(x[1..], x'[1..], y, y');
      } else {
        Tails(x, y, 2);
        RelConcat(x[2..], x'[1..], y, y');
      }
    }
  }

  lemma RelJoin(s: string, m: nat, g: string, y: string)
    requires m <= |s| && Rel(s[..m], g) && Rel(s[m..], y)
    ensures Rel(s, g + y)
  {
    hide Rel;
    assert s == s[..m] + s[m..];
    RelConcat(s[..m], g, s[m..], y);
  }

  lemma {:induction false} SealedRel(s: string)
    ensures Rel(s, Seal(Casts(s)))
    decreases |s|
  {
    if s != [] {
      CastsStep(s);
      hide Casts;
      if PairAtHead(s) {
        SealedRel(s[2..]);
        SealHead(CAST_SENTINEL, Casts(s[2..]));
      } else {
        SealedRel(s[1..]);
        SealHead(s[0], Casts(s[1..]));
      }
    }
  }

  lemma SealHead(c: char, t: string)
    ensures Seal([c] + t) == [if c == ':' then COLON_SENTINEL else c] + Seal(t)
  {
    assert ([c] + t)[1..] == t;
  }

  lemma PieceRel(p: Piece)
    ensures Rel(Source(p), Guarded(p))
  {
    match p {
      case Lit(t) => SealedRel(t);
      case Chr(c) => assert [c][1..] == [];
      case Cast => assert "::"[2..] == [] == [CAST_SENTINEL][1..];
      case Param(n) => RelRefl(":" + n);
    }
  }

  lemma {:induction false} GuardedRel(b: Behind, s: string, d: Dialect)
    ensures Rel(s, GuardedText(Template(b, s, d)))
    decreases |s|
  {
    if s == [] {
      NothingGuarded(b, d);
    } else {
      hide *;
      var m := PieceLen(b, s, d);
      var p := PieceOf(b, s, d);
      var rest := Template(After(b, s[..m]), s[m..], d);
      TemplateStep(b, s, d);
      TextsOf(p, rest);
      GuardedRel(After(b, s[..m]), s[m..], d);
      PieceRel(p);
      RelJoin(s, m, Guarded(p), GuardedText(rest));
    }
  }

  lemma NothingGuarded(b: Behind, d: Dialect)
    ensures Rel([], GuardedText(Template(b, [], d)))
  {
  }

  lemma GuardedAlike(b: Behind, s: string, d: Dialect)
    ensures Alike(s, GuardedText(Template(b, s, d)))
  {
    var y := GuardedText(Template(b, s, d));
    GuardedRel(b, s, d);
    assert Alike([], []);
    hide Rel, Template, GuardedText, Alike;
    RelIsAlike(s, y, [], []);
    assert s + [] == s && y + [] == y;
  }

  /** Protection moves no literal boundary: for every query, with or without sentinels, the
      scanner cuts the protected text as the template says. */
  lemma {:induction false} GuardedLexes(b: Behind, s: string, d: Dialect)
    ensures var ps := Template(b, s, d);
            Lex(b, GuardedText(ps), d) == GuardedTokensOf(ps)
    decreases |s|
  {
    if s == [] {
      assert Lex(b, [], d) == [];
    } else {
      hide After, Template, GuardedText, GuardedTokensOf, PieceLen, PieceOf, Lex;
      var m := PieceLen(b, s, d);
      var p := PieceOf(b, s, d);
      var c, r := After(b, s[..m]), s[m..];
      var rest := Template(c, r, d);
      TemplateStep(b, s, d);
      TextsOf(p, rest);
      assert GuardedTokensOf([p] + rest) == GuardedTokens(p) + GuardedTokensOf(rest) by { GuardedTokensStep(p, rest); }
      GuardedLexes(c, r, d);
      GuardedAlike(c, r, d);
      GuardedReads(b, s, GuardedText(rest), d);
    }
  }

  lemma GuardedTokensStep(p: Piece, rest: seq<Piece>)
    ensures GuardedTokensOf([p] + rest) == GuardedTokens(p) + GuardedTokensOf(rest)
  {
    assert ([p] + rest)[1..] == rest;
  }

  /** One piece of the protected text, whatever comes after its first inert byte. */
  lemma GuardedReads(b: Behind, s: string, y: string, d: Dialect)
    requires s != [] && Alike(s[PieceLen(b, s, d)..], y)
    ensures var p := PieceOf(b, s, d);
            Lex(b, Guarded(p) + y, d) == GuardedTokens(p) + Lex(After(b, s[..PieceLen(b, s, d)]), y, d)
  {
    var p := PieceOf(b, s, d);
    var x := s[..PieceLen(b, s, d)];
    PieceRel(p);
    RelAfter(b, x, Guarded(p));
    PieceShape(b, s, d);
    hide PieceLen, PieceOf, Lex, After, Rel, Alike;
    assert s == x + s[|x|..];
    match p {
      case Lit(t) =>
        LitKeeps(b, x, Guarded(p), s[|x|..], y, d);
        hide LitLen, Guarded;
        LexLit(b, Guarded(p), y, d);
      case Chr(c) =>
        if c == ':' {
          MarksArePlain(b, [COLON_SENTINEL] + y, d);
        } else {
          AlikePrefix([c], s[1..], y);
          OpenerKeeps(b, s, [c] + y, d);
        }
        hide LitLen;
        LexByte(b, if c == ':' then COLON_SENTINEL else c, y, d);
      case Cast =>
        MarksArePlain(b, [CAST_SENTINEL] + y, d);
        hide LitLen;
        LexByte(b, CAST_SENTINEL, y, d);
      case Param(n) =>
        hide LitLen;
        LexReference(b, n, y, d);
    }
  }

  /** What the template's piece at the head says of the text. */
  lemma PieceShape(b: Behind, s: string, d: Dialect)
    requires s != []
    ensures var p := PieceOf(b, s, d);
            match p
            case Lit(t) => t == s[..PieceLen(b, s, d)] && LitLen(b, s, d) == |t| > 0
            case Chr(c) => c == s[0] && PieceLen(b, s, d) == 1 && LitLen(b, s, d) == 0
            case Cast => true
            case Param(n) => NameBytes(n)
  {
  }

  lemma LexByte(b: Behind, c: char, y: string, d: Dialect)
    requires LitLen(b, [c] + y, d) == 0
    ensures Lex(b, [c] + y, d) == [Chr(c)] + Lex(After(b, [c]), y, d)
  {
    hide LitLen, Lex;
    LexChr(b, c, y, d);
    AfterOne(b, [c]);
    assert [c][..1] == [c];
  }

  lemma LexReference(b: Behind, n: string, y: string, d: Dialect)
    requires NameBytes(n)
    ensures Lex(b, ":" + n + y, d) == [Chr(':')] + Bytes(n) + Lex(After(b, ":" + n), y, d)
  {
    var z := n + y;
    assert ":" + n + y == [':'] + z && ":" + n == [':'] + n;
    MarksArePlain(b, [':'] + z, d);
    assert forall c :: c in n ==> Dull(c);
    hide LitLen, Lex, After;
    LexByte(b, ':', z, d);
    LexDull(After(b, [':']), n, y, d);
    AfterConcat(b, [':'], n);
    Regroup([Chr(':')], Bytes(n), Lex(After(b, ":" + n), y, d));
  }

  /** The same of the query as it goes through the stages. */
  lemma ProtectedTextLexes(q: string, d: Dialect)
    ensures Lex(FRESH, Protect(q, d), d) == GuardedTokensOf(Template(FRESH, q, d))
  {
    hide *;
    ProtectionIsLossless(q, d);
    GuardedLexes(FRESH, q, d);
  }
}
