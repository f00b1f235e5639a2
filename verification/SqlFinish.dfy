/** The text that db/bind.go hands to the driver: what the scanner makes of a query once its
    parameters have become placeholders of any syntax, alone or in groups. */
module SqlFinish {
  import opened Wrappers
  import opened SqlScanner
  import opened SqlScanLoops
  import opened SqlMarks
  import opened SqlTemplate

  // ---------------------------------------------------------------- the finished text

  /** The template's text with a group of marks for each parameter: `ws` are the sizes of
      the groups, and `k` is the number of the first mark. */
  function Stamped(ps: seq<Piece>, ws: seq<pos>, bt: BindType, k: nat): string
    requires |Names(ps)| == |ws|
  {
    if ps == [] then []
    else if ps[0].Param? then Group(bt, k, ws[0]) + Stamped(ps[1..], ws[1..], bt, k + ws[0])
    else Source(ps[0]) + Stamped(ps[1..], ws, bt, k)
  }

  /** The cut that the scanner ought to make of it: the template's own, with the bytes of the
      marks in place of the parameters. */
  function StampedTokens(ps: seq<Piece>, ws: seq<pos>, bt: BindType, k: nat): seq<Piece>
    requires |Names(ps)| == |ws|
  {
    if ps == [] then []
    else if ps[0].Param? then Bytes(Group(bt, k, ws[0])) + StampedTokens(ps[1..], ws[1..], bt, k + ws[0])
    else Tokens(ps[0]) + StampedTokens(ps[1..], ws, bt, k)
  }

  lemma StampParam(p: Piece, rest: seq<Piece>, ws: seq<pos>, bt: BindType, k: nat)
    requires p.Param? && |Names([p] + rest)| == |ws|
    ensures ws != [] && |Names(rest)| == |ws| - 1
    ensures Stamped([p] + rest, ws, bt, k) == Group(bt, k, ws[0]) + Stamped(rest, ws[1..], bt, k + ws[0])
    ensures StampedTokens([p] + rest, ws, bt, k) ==
            Bytes(Group(bt, k, ws[0])) + StampedTokens(rest, ws[1..], bt, k + ws[0])
  {
    assert ([p] + rest)[1..] == rest;
  }

  lemma StampText(p: Piece, rest: seq<Piece>, ws: seq<pos>, bt: BindType, k: nat)
    requires !p.Param? && |Names([p] + rest)| == |ws|
    ensures |Names(rest)| == |ws|
    ensures Stamped([p] + rest, ws, bt, k) == Source(p) + Stamped(rest, ws, bt, k)
    ensures StampedTokens([p] + rest, ws, bt, k) == Tokens(p) + StampedTokens(rest, ws, bt, k)
  {
    assert ([p] + rest)[1..] == rest;
  }

  // ---------------------------------------------------------------- every other byte

  /** The texts before, between and after the parameters. */
  function Gaps(ps: seq<Piece>): (ts: seq<string>)
    ensures |ts| == |Names(ps)| + 1
  {
    if ps == [] then [""]
    else
      var ts := Gaps(ps[1..]);
      if ps[0].Param? then [""] + ts else [Source(ps[0]) + ts[0]] + ts[1..]
  }

  /** The texts with `xs` in the gaps between them. */
  function Weave(ts: seq<string>, xs: seq<string>): string
    requires |ts| == |xs| + 1
  {
    if xs == [] then ts[0] else ts[0] + xs[0] + Weave(ts[1..], xs[1..])
  }

  function Groups(bt: BindType, k: nat, ws: seq<pos>): (gs: seq<string>)
    ensures |gs| == |ws|
    decreases |ws|
  {
    if ws == [] then [] else [Group(bt, k, ws[0])] + Groups(bt, k + ws[0], ws[1..])
  }

  /** `:name` for each name. */
  function References(ns: seq<string>): (xs: seq<string>)
    ensures |xs| == |ns|
  {
    if ns == [] then [] else [":" + ns[0]] + References(ns[1..])
  }

  lemma WeaveText(x: string, ts: seq<string>, xs: seq<string>)
    requires |ts| == |xs| + 1
    ensures Weave([x + ts[0]] + ts[1..], xs) == x + Weave(ts, xs)
  {
    var us := [x + ts[0]] + ts[1..];
    assert us[1..] == ts[1..];
    if xs != [] {
      hide Weave;
      assert (x + ts[0]) + xs[0] + Weave(ts[1..], xs[1..]) == x + (ts[0] + xs[0] + Weave(ts[1..], xs[1..]));
    }
  }

  lemma WeaveParam(g: string, ts: seq<string>, xs: seq<string>)
    requires |ts| == |xs| + 1
    ensures Weave([""] + ts, [g] + xs) == g + Weave(ts, xs)
  {
    var us, ys := [""] + ts, [g] + xs;
    assert us[1..] == ts && ys[1..] == xs;
    assert Weave(us, ys) == us[0] + ys[0] + Weave(us[1..], ys[1..]);
    hide Weave;
  }

  lemma {:induction false} StampedIsWoven(ps: seq<Piece>, ws: seq<pos>, bt: BindType, k: nat)
    requires |Names(ps)| == |ws|
    ensures Stamped(ps, ws, bt, k) == Weave(Gaps(ps), Groups(bt, k, ws))
    decreases |ps|
  {
    if ps != [] {
      hide Weave;
      if ps[0].Param? {
        StampedIsWoven(ps[1..], ws[1..], bt, k + ws[0]);
        WeaveParam(Group(bt, k, ws[0]), Gaps(ps[1..]), Groups(bt, k + ws[0], ws[1..]));
      } else {
        StampedIsWoven(ps[1..], ws, bt, k);
        WeaveText(Source(ps[0]), Gaps(ps[1..]), Groups(bt, k, ws));
      }
    } else {
      assert Stamped(ps, ws, bt, k) == Weave([""], []);
    }
  }

  lemma {:induction false} SourceIsWoven(ps: seq<Piece>)
    ensures SourceText(ps) == Weave(Gaps(ps), References(Names(ps)))
  {
    if ps != [] {
      hide Weave;
      SourceIsWoven(ps[1..]);
      if ps[0].Param? {
        WeaveParam(":" + ps[0].name, Gaps(ps[1..]), References(Names(ps[1..])));
      } else {
        WeaveText(Source(ps[0]), Gaps(ps[1..]), References(Names(ps)));
      }
    } else {
      assert SourceText(ps) == Weave([""], []);
    }
  }

  /** The query and its finished text are the same but for the parameters, which are `:name`
      in the one and a group of marks in the other. */
  lemma EveryOtherByteIsKept(b: Behind, query: string, d: Dialect, ws: seq<pos>, bt: BindType, k: nat)
    requires |Names(Template(b, query, d))| == |ws|
    ensures var ps := Template(b, query, d);
            && query == Weave(Gaps(ps), References(Names(ps)))
            && Stamped(ps, ws, bt, k) == Weave(Gaps(ps), Groups(bt, k, ws))
  {
    hide *;
    TemplateIsLossless(b, query, d);
    SourceIsWoven(Template(b, query, d));
    StampedIsWoven(Template(b, query, d), ws, bt, k);
  }

  // ---------------------------------------------------------------- what a caller can check

  predicate SameLiteral(b: Behind, b': Behind, s: string, d: Dialect) {
    s == [] || LitLen(b, s, d) == LitLen(b', s, d)
  }

  /** Outside literals, a ':' and a name start are a parameter. */
  predicate ParamAt(s: string, n: nat) { n + 1 < |s| && s[n] == ':' && IsNameStart(s[n + 1]) }

  /** A '$' at a token boundary, followed by tag bytes only and then by a parameter: if the
      parameter's mark starts with '$', it completes the opener of a dollar-quoted string. */
  predicate Dangles(b: Behind, s: string)
    requires s != []
  {
    var n := TagRun(s[1..]);
    s[0] == '$' && !b.ident && !(n > 0 && IsDigit(s[1])) && ParamAt(s, 1 + n)
  }

  /** What the caller of a driver can check on the query. After each `:name` the same literal
      opens or none does, whether the name or its mark stands before it; and no parameter
      whose mark starts with '$' is right behind a dangling '$'. `b` is what lies behind in
      the query, and `b'` in the finished text. */
  predicate MarkSafe(b: Behind, b': Behind, s: string, d: Dialect, bt: BindType)
    decreases |s|
  {
    s == [] ||
    var x := s[..PieceLen(b, s, d)];
    var r := s[|x|..];
    var named := PieceOf(b, s, d).Param?;
    && (named ==> SameLiteral(After(b, x), AfterMark(bt), r, d))
    && (bt.Dollar? && d.Postgres? ==> !Dangles(b', s))
    && MarkSafe(After(b, x), if named then AfterMark(bt) else After(b', x), r, d, bt)
  }

  /** The same for the text that still has '?' for every parameter. Fails for `:e'...'` and
      `:x$tag$`. */
  predicate BoundarySafe(b: Behind, s: string, d: Dialect)
    decreases |s|
  {
    s == [] ||
    var m := PieceLen(b, s, d);
    var b' := After(b, s[..m]);
    && (PieceOf(b, s, d).Param? ==> SameLiteral(b', FRESH, s[m..], d))
    && BoundarySafe(b', s[m..], d)
  }

  /** For question marks the two conditions are one. */
  lemma {:induction false} QuestionSafe(b: Behind, b': Behind, s: string, d: Dialect)
    ensures MarkSafe(b, b', s, d, Question) <==> BoundarySafe(b, s, d)
    decreases |s|
  {
    if s != [] {
      hide PieceLen, PieceOf, After, SameLiteral, Dangles;
      var x := s[..PieceLen(b, s, d)];
      QuestionSafe(After(b, x), if PieceOf(b, s, d).Param? then FRESH else After(b', x), s[|x|..], d);
    }
  }

  // ---------------------------------------------------------------- text against finished text

  /** `y` is `s` up to the first parameter of `s`, where it has the byte `h` for the ':'. */
  predicate Swap(s: string, y: string, h: char) {
    if s == [] || y == [] then s == y
    else (s[0] == ':' && y[0] == h) || (s[0] == y[0] && Swap(s[1..], y[1..], h))
  }

  lemma {:induction false} SwapPrefix(x: string, r: string, y: string, h: char)
    requires Swap(r, y, h)
    ensures Swap(x + r, x + y, h)
  {
    if x == [] {
      assert x + r == r && x + y == y;
    } else {
      Tails(x, r, 1);
      Tails(x, y, 1);
      SwapPrefix(x[1..], r, y, h);
    }
  }

  lemma SwapIsEdge(s: string, y: string, bt: BindType)
    requires Swap(s, y, MarkHead(bt))
    ensures Edge(s, y)
  {
  }

  lemma {:induction false} StampedSwap(b: Behind, s: string, d: Dialect, ws: seq<pos>, bt: BindType, k: nat)
    requires |Names(Template(b, s, d))| == |ws|
    ensures Swap(s, Stamped(Template(b, s, d), ws, bt, k), MarkHead(bt))
    decreases |s|
  {
    if s != [] {
      hide After, Template, Names, Stamped, Swap, PieceLen;
      var m := PieceLen(b, s, d);
      var p := PieceOf(b, s, d);
      var c, r := After(b, s[..m]), s[m..];
      TemplateStep(b, s, d);
      if p.Param? {
        StampParam(p, Template(c, r, d), ws, bt, k);
        GroupHead(bt, k, ws[0]);
        ParamHead(b, s, d);
        SwapHead(s, Group(bt, k, ws[0]), Stamped(Template(c, r, d), ws[1..], bt, k + ws[0]), MarkHead(bt));
      } else {
        StampText(p, Template(c, r, d), ws, bt, k);
        StampedSwap(c, r, d, ws, bt, k);
        SwapPrefix(s[..m], r, Stamped(Template(c, r, d), ws, bt, k), MarkHead(bt));
        assert s == s[..m] + r;
      }
    }
  }

  lemma ParamHead(b: Behind, s: string, d: Dialect)
    requires s != [] && PieceOf(b, s, d).Param?
    ensures s[0] == ':' && |s| > 1 && IsNameStart(s[1])
  {
  }

  lemma SwapHead(s: string, g: string, y: string, h: char)
    requires s != [] && s[0] == ':' && g != [] && g[0] == h
    ensures Swap(s, g + y, h)
  {
  }

  /** Behind a run of tag bytes `y` has the byte `h` exactly where `s` has a parameter, and
      otherwise the same byte. */
  predicate TagSwap(s: string, y: string, h: char) {
    var n := TagRun(s);
    && TagRun(y) == n && (n < |s| <==> n < |y|) && (n > 0 ==> y[0] == s[0])
    && (n < |s| ==> y[n] == if ParamAt(s, n) then h else s[n])
  }

  lemma TagSwapCons(c: char, r: string, y: string, h: char)
    requires IsDollarTagChar(c) && TagSwap(r, y, h)
    ensures TagSwap([c] + r, [c] + y, h)
  {
    var s, z := [c] + r, [c] + y;
    var n := TagRun(r);
    assert s[1..] == r && z[1..] == y;
    assert n < |r| ==> s[1 + n] == r[n] && z[1 + n] == y[n];
    assert n + 1 < |r| ==> s[2 + n] == r[n + 1];
  }

  lemma TagSwapStop(s: string, y: string, bt: BindType)
    requires s != [] && y != [] && !IsDollarTagChar(s[0])
    requires y[0] == if ParamAt(s, 0) then MarkHead(bt) else s[0]
    ensures TagSwap(s, y, MarkHead(bt))
  {
  }

  lemma ParamIsAt(b: Behind, s: string, d: Dialect)
    requires s != []
    ensures PieceOf(b, s, d).Param? <==> ParamAt(s, 0)
  {
  }

  lemma DullPiece(b: Behind, s: string, d: Dialect)
    requires s != [] && Dull(s[0]) && s[0] != ':'
    ensures PieceLen(b, s, d) == 1 && PieceOf(b, s, d) == Chr(s[0])
  {
    DullOpensNothing(b, s, d);
  }

  lemma {:induction false} TagRunStamped(b: Behind, s: string, d: Dialect, ws: seq<pos>, bt: BindType, k: nat)
    requires |Names(Template(b, s, d))| == |ws|
    ensures TagSwap(s, Stamped(Template(b, s, d), ws, bt, k), MarkHead(bt))
    decreases |s|
  {
    if s != [] {
      hide Template, Names, After, Stamped, PieceLen, PieceOf, TagSwap, ParamAt, MarkHead, Source;
      TemplateStep(b, s, d);
      if IsDollarTagChar(s[0]) {
        DullPiece(b, s, d);
        assert s == [s[0]] + s[1..];
        AfterOne(b, s);
        var c, r := Step(b, s[0]), s[1..];
        StampText(Chr(s[0]), Template(c, r, d), ws, bt, k);
        TagRunStamped(c, r, d, ws, bt, k);
        TagSwapCons(s[0], r, Stamped(Template(c, r, d), ws, bt, k), MarkHead(bt));
        ChrSource(s[0]);
      } else {
        StampedHead(b, s, d, ws, bt, k);
        TagSwapStop(s, Stamped(Template(b, s, d), ws, bt, k), bt);
      }
    }
  }

  lemma ChrSource(c: char)
    ensures Source(Chr(c)) == [c]
  {
  }

  lemma StampedHead(b: Behind, s: string, d: Dialect, ws: seq<pos>, bt: BindType, k: nat)
    requires s != [] && |Names(Template(b, s, d))| == |ws|
    ensures var y := Stamped(Template(b, s, d), ws, bt, k);
            y != [] && y[0] == if ParamAt(s, 0) then MarkHead(bt) else s[0]
  {
    hide Template, Names, After, Stamped, PieceLen, PieceOf, ParamAt, MarkHead, Source;
    var m := PieceLen(b, s, d);
    var p := PieceOf(b, s, d);
    var rest := Template(After(b, s[..m]), s[m..], d);
    TemplateStep(b, s, d);
    ParamIsAt(b, s, d);
    PieceHead(b, s, d);
    if p.Param? {
      StampParam(p, rest, ws, bt, k);
      GroupHead(bt, k, ws[0]);
    } else {
      StampText(p, rest, ws, bt, k);
    }
  }

  lemma PieceHead(b: Behind, s: string, d: Dialect)
    requires s != []
    ensures Source(PieceOf(b, s, d)) != [] && Source(PieceOf(b, s, d))[0] == s[0]
  {
  }

  // ---------------------------------------------------------------- what opens

  /** A byte other than '$' opens in the finished text what it opens in the query. */
  lemma OpenerSwaps(b: Behind, c: char, r: string, y: string, d: Dialect, bt: BindType)
    requires c != '$' && Swap(r, y, MarkHead(bt))
    ensures OpenerOf(b, [c] + y, d) == OpenerOf(b, [c] + r, d)
  {
    var s, z := [c] + r, [c] + y;
    assert s[1..] == r && z[1..] == y;
    if c == '-' && r != [] && r[0] == '-' && y != [] && y[0] == '-' {
      assert Swap(r[1..], y[1..], MarkHead(bt));
      assert r[1..] == s[2..] && y[1..] == z[2..];
    }
  }

  /** A '$' opens nothing new in the finished text, unless it dangles before a '$' mark. */
  lemma DollarSwaps(b: Behind, r: string, y: string, d: Dialect, bt: BindType)
    requires LitLen(b, ['$'] + r, d) == 0 && TagSwap(r, y, MarkHead(bt))
    ensures LitLen(b, ['$'] + y, d) == 0 <==> !(bt.Dollar? && d.Postgres? && Dangles(b, ['$'] + r))
  {
    var s, z := ['$'] + r, ['$'] + y;
    var n := TagRun(r);
    assert s[1..] == r && z[1..] == y;
    if d.Postgres? {
      assert LitLen(b, z, d) == 0 <==> !DollarOpens(b, z);
      assert !DollarOpens(b, s);
      hide LitLen;
      assert n > 0 ==> s[1] == r[0] && z[1] == y[0];
      assert n < |r| ==> s[1 + n] == r[n] && z[1 + n] == y[n];
      assert n + 1 < |r| ==> s[2 + n] == r[n + 1];
      hide TagRun;
    }
  }

  lemma DollarStaysOpen(b: Behind, r: string, y: string, d: Dialect, h: char)
    requires LitLen(b, ['$'] + r, d) > 0 && TagSwap(r, y, h)
    ensures LitLen(b, ['$'] + y, d) > 0
  {
    var s, z := ['$'] + r, ['$'] + y;
    var n := TagRun(r);
    assert s[1..] == r && z[1..] == y;
    assert DollarOpens(b, s);
    assert LitLen(b, z, d) == 0 <==> !DollarOpens(b, z);
    hide LitLen;
    assert n > 0 ==> s[1] == r[0] && z[1] == y[0];
    assert n < |r| ==> s[1 + n] == r[n] && z[1 + n] == y[n];
    hide TagRun;
  }

  lemma LiteralsDoNotDangle(b: Behind, b': Behind, s: string, d: Dialect)
    requires s != [] && (LitLen(b, s, d) > 0 || s[0] == ':')
    ensures !Dangles(b', s)
  {
  }

  // ---------------------------------------------------------------- one piece

  /** The two views of the text behind cannot drift further apart. */
  predicate SameView(b: Behind, b': Behind, s: string, d: Dialect) {
    SameLiteral(b, b', s, d) && (b == b' || s == [] || !IsNameByte(s[0]))
  }

  /** A piece that is not a parameter is read as in the query, and the views agree again. */
  predicate Reads(b: Behind, b': Behind, s: string, y: string, d: Dialect)
    requires s != []
  {
    var x, p := s[..PieceLen(b, s, d)], PieceOf(b, s, d);
    Lex(b', x + y, d) == Tokens(p) + Lex(After(b', x), y, d)
  }

  predicate Follows(s: string, y: string, bt: BindType) {
    Swap(s, y, MarkHead(bt)) && TagSwap(s, y, MarkHead(bt))
  }

  lemma ShortLit(b: Behind, s: string, d: Dialect)
    requires s != [] && LitLen(b, s, d) == 1
    ensures |s| == 1
  {
  }

  lemma LitViews(b: Behind, b': Behind, s: string, d: Dialect)
    requires s != [] && LitLen(b, s, d) > 0
    ensures var x := s[..LitLen(b, s, d)]; SameView(After(b, x), After(b', x), s[|x|..], d)
  {
    hide LitLen, After;
    var n := LitLen(b, s, d);
    if n == 1 { ShortLit(b, s, d); } else { AfterForgets(b, b', s[..n]); }
  }

  lemma LitReads(b: Behind, b': Behind, s: string, y: string, d: Dialect, bt: BindType)
    requires s != [] && SameView(b, b', s, d) && LitLen(b, s, d) > 0
    requires Follows(s[LitLen(b, s, d)..], y, bt)
    ensures Reads(b, b', s, y, d)
  {
    var n := LitLen(b, s, d);
    var x, r := s[..n], s[n..];
    assert s == x + r && PieceOf(b, s, d) == Lit(x) && PieceLen(b, s, d) == n;
    hide LitLen, Lex, After, Edge, PieceLen, PieceOf, Swap, TagSwap;
    SwapIsEdge(r, y, bt);
    LitStays(b', x, r, y, d);
    LexLit(b', x, y, d);
  }

  lemma ChrViews(b: Behind, b': Behind, s: string, d: Dialect)
    requires s != [] && SameView(b, b', s, d)
    ensures SameView(Step(b, s[0]), Step(b', s[0]), s[1..], d)
  {
    hide LitLen;
  }

  /** A single byte is read as in the query, unless it is a '$' that dangles. */
  lemma ChrReads(b: Behind, b': Behind, s: string, y: string, d: Dialect, bt: BindType)
    requires s != [] && SameView(b, b', s, d) && PieceOf(b, s, d).Chr? && Follows(s[1..], y, bt)
    ensures PieceLen(b, s, d) == 1 && PieceOf(b, s, d) == Chr(s[0])
    ensures LitLen(b', [s[0]] + y, d) == 0 <==> !(bt.Dollar? && d.Postgres? && Dangles(b', s))
    ensures LitLen(b', [s[0]] + y, d) == 0 ==> Reads(b, b', s, y, d)
  {
    assert PieceLen(b, s, d) == 1 && PieceOf(b, s, d) == Chr(s[0]);
    assert LitLen(b', s, d) == 0;
    hide PieceLen, PieceOf, Swap, TagSwap, Lex, After;
    assert s == [s[0]] + s[1..];
    if s[0] == '$' {
      hide LitLen, Dangles;
      DollarSwaps(b', s[1..], y, d, bt);
    } else {
      OpenerSwaps(b', s[0], s[1..], y, d, bt);
    }
    hide LitLen;
    if LitLen(b', [s[0]] + y, d) == 0 {
      LexChr(b', s[0], y, d);
      AfterOne(b', s);
    }
  }

  lemma CastReads(b: Behind, b': Behind, s: string, y: string, d: Dialect)
    requires s != [] && PieceOf(b, s, d).Cast?
    ensures PieceLen(b, s, d) == 2 && s[..2] == "::" && After(b, s[..2]) == After(b', s[..2]) == FRESH
    ensures Reads(b, b', s, y, d)
  {
    assert PieceLen(b, s, d) == 2 && s[..2] == "::";
    AfterColons(b);
    AfterColons(b');
    LexColons(b', y, d);
    hide Lex, After;
  }

  lemma LexColons(b: Behind, y: string, d: Dialect)
    ensures Lex(b, "::" + y, d) == [Chr(':'), Chr(':')] + Lex(FRESH, y, d)
  {
    hide Lex;
    var z := [':'] + y;
    assert "::" + y == [':'] + z;
    MarksArePlain(b, [':'] + z, d);
    MarksArePlain(FRESH, z, d);
    hide LitLen;
    LexChr(b, ':', z, d);
    LexChr(FRESH, ':', y, d);
  }

  lemma AfterColons(b: Behind)
    ensures After(b, "::") == FRESH == Step(Step(b, ':'), ':')
  {
    assert "::"[1..] == ":" && ":"[1..] == "";
  }

  /** What one piece does: it is read as in the query exactly when no '$' dangles there. */
  lemma PieceReads(b: Behind, b': Behind, s: string, y: string, d: Dialect, bt: BindType)
    requires s != [] && SameView(b, b', s, d) && !PieceOf(b, s, d).Param?
    requires Follows(s[PieceLen(b, s, d)..], y, bt)
    ensures var x := s[..PieceLen(b, s, d)];
            && SameView(After(b, x), After(b', x), s[|x|..], d)
            && (if bt.Dollar? && d.Postgres? && Dangles(b', s) then
                  PieceOf(b, s, d).Chr? && |x| == 1 && x == [s[0]] && LitLen(b', x + y, d) > 0
                else Reads(b, b', s, y, d))
  {
    hide LitLen, Lex, After, Swap, TagSwap, Dangles, Reads, SameView;
    match PieceOf(b, s, d) {
      case Lit(x) =>
        LiteralsDoNotDangle(b, b', s, d);
        LitViews(b, b', s, d);
        LitReads(b, b', s, y, d, bt);
      case Chr(c) =>
        ChrReads(b, b', s, y, d, bt);
        ChrViews(b, b', s, d);
        AfterOne(b, s);
        AfterOne(b', s);
      case Cast =>
        LiteralsDoNotDangle(b, b', s, d);
        CastReads(b, b', s, y, d);
        SameViewRefl(FRESH, s[2..], d);
    }
  }

  lemma SameViewRefl(b: Behind, s: string, d: Dialect)
    ensures SameView(b, b, s, d)
  {
  }

  // ---------------------------------------------------------------- the whole text

  lemma StampedFollows(b: Behind, s: string, d: Dialect, ws: seq<pos>, bt: BindType, k: nat)
    requires |Names(Template(b, s, d))| == |ws|
    ensures Follows(s, Stamped(Template(b, s, d), ws, bt, k), bt)
  {
    hide *;
    StampedSwap(b, s, d, ws, bt, k);
    TagRunStamped(b, s, d, ws, bt, k);
    FollowsIs(s, Stamped(Template(b, s, d), ws, bt, k), bt);
  }

  lemma FollowsIs(s: string, y: string, bt: BindType)
    requires Swap(s, y, MarkHead(bt)) && TagSwap(s, y, MarkHead(bt))
    ensures Follows(s, y, bt)
  {
  }

  lemma SameHead(xs: seq<Piece>, ys: seq<Piece>, zs: seq<Piece>)
    ensures xs + ys == xs + zs <==> ys == zs
  {
    if xs + ys == xs + zs {
      assert ys == (xs + ys)[|xs|..] == (xs + zs)[|xs|..] == zs;
    }
  }

  /** The finished text is cut as the template says, with every mark read byte by byte, if
      and only if every parameter is mark safe: for every query, every driver, and every
      size of every group. */
  lemma {:induction false} FinishedLexes(
      b: Behind, b': Behind, s: string, d: Dialect, ws: seq<pos>, bt: BindType, k: nat)
    requires SameView(b, b', s, d) && |Names(Template(b, s, d))| == |ws|
    ensures var ps := Template(b, s, d);
            Lex(b', Stamped(ps, ws, bt, k), d) == StampedTokens(ps, ws, bt, k) <==> MarkSafe(b, b', s, d, bt)
    decreases |s|, 1
  {
    if s == [] {
      assert Lex(b', [], d) == [];
    } else {
      hide LitLen, Lex, After, Template, Names, Stamped, StampedTokens, PieceLen, PieceOf, Dangles, SameView, Follows;
      TemplateStep(b, s, d);
      if PieceOf(b, s, d).Param? {
        FinishParam(b, b', s, d, ws, bt, k);
      } else {
        FinishText(b, b', s, d, ws, bt, k);
      }
    }
  }

  lemma {:induction false} FinishText(b: Behind, b': Behind, s: string, d: Dialect, ws: seq<pos>, bt: BindType, k: nat)
    requires s != [] && SameView(b, b', s, d) && !PieceOf(b, s, d).Param? && |Names(Template(b, s, d))| == |ws|
    ensures var ps := Template(b, s, d);
            Lex(b', Stamped(ps, ws, bt, k), d) == StampedTokens(ps, ws, bt, k) <==> MarkSafe(b, b', s, d, bt)
    decreases |s|, 0
  {
    hide LitLen, Lex, After, Template, Names, Stamped, StampedTokens, PieceLen, PieceOf, Dangles, SameView, Follows;
    var x := s[..PieceLen(b, s, d)];
    var p := PieceOf(b, s, d);
    var c, r := After(b, x), s[|x|..];
    var rest := Template(c, r, d);
    TemplateStep(b, s, d);
    StampText(p, rest, ws, bt, k);
    var y := Stamped(rest, ws, bt, k);
    StampedFollows(c, r, d, ws, bt, k);
    PieceReads(b, b', s, y, d, bt);
    if bt.Dollar? && d.Postgres? && Dangles(b', s) {
      LexHead(b', x + y, d);
      assert StampedTokens([p] + rest, ws, bt, k)[0] == p;
    } else {
      FinishedLexes(c, After(b', x), r, d, ws, bt, k);
      SameHead(Tokens(p), Lex(After(b', x), y, d), StampedTokens(rest, ws, bt, k));
    }
  }

  lemma {:induction false} FinishParam(b: Behind, b': Behind, s: string, d: Dialect, ws: seq<pos>, bt: BindType, k: nat)
    requires s != [] && PieceOf(b, s, d).Param? && |Names(Template(b, s, d))| == |ws|
    ensures var ps := Template(b, s, d);
            Lex(b', Stamped(ps, ws, bt, k), d) == StampedTokens(ps, ws, bt, k) <==> MarkSafe(b, b', s, d, bt)
    decreases |s|, 0
  {
    hide LitLen, Lex, After, Template, Names, Stamped, StampedTokens, Group, Bytes, PieceLen, PieceOf, Dangles;
    var x := s[..PieceLen(b, s, d)];
    var p := PieceOf(b, s, d);
    var c, r := After(b, x), s[|x|..];
    var rest := Template(c, r, d);
    TemplateStep(b, s, d);
    StampParam(p, rest, ws, bt, k);
    var y := Stamped(rest, ws[1..], bt, k + ws[0]);
    LexGroup(b', bt, k, ws[0], y, d);
    SameHead(Bytes(Group(bt, k, ws[0])), Lex(AfterMark(bt), y, d), StampedTokens(rest, ws[1..], bt, k + ws[0]));
    ParamHead(b, s, d);
    NoDangle(b', s);
    PieceName(b, s, d);
    if SameLiteral(c, AfterMark(bt), r, d) {
      FinishedLexes(c, AfterMark(bt), r, d, ws[1..], bt, k + ws[0]);
    } else {
      FinishMoves(c, AfterMark(bt), r, d, ws[1..], bt, k + ws[0]);
    }
  }

  lemma NoDangle(b: Behind, s: string)
    requires s != [] && s[0] == ':'
    ensures !Dangles(b, s)
  {
  }

  lemma LexHead(b: Behind, s: string, d: Dialect)
    requires s != []
    ensures Lex(b, s, d) != [] && Lex(b, s, d)[0] == CutPiece(b, s, d)
  {
  }

  /** Where the two views differ, the cut of the finished text is not the template's. */
  lemma FinishMoves(b: Behind, b': Behind, s: string, d: Dialect, ws: seq<pos>, bt: BindType, k: nat)
    requires s != [] && LitLen(b, s, d) != LitLen(b', s, d) && |Names(Template(b, s, d))| == |ws|
    ensures var ps := Template(b, s, d);
            Lex(b', Stamped(ps, ws, bt, k), d) != StampedTokens(ps, ws, bt, k)
  {
    var p := PieceOf(b, s, d);
    MovesHead(b, b', s, d);
    hide LitLen, Lex, After, Template, Names, Stamped, StampedTokens, PieceOf, Follows;
    var x := s[..PieceLen(b, s, d)];
    var c, r := After(b, x), s[|x|..];
    var rest := Template(c, r, d);
    TemplateStep(b, s, d);
    StampText(p, rest, ws, bt, k);
    var y := Stamped(rest, ws, bt, k);
    StampedFollows(c, r, d, ws, bt, k);
    LexHead(b', x + y, d);
    assert StampedTokens([p] + rest, ws, bt, k)[0] == p;
    if p.Lit? {
      LitMoves(b, b', s, y, d, bt);
    } else {
      ChrMoves(b, b', s, y, d, bt);
    }
  }

  lemma MovesHead(b: Behind, b': Behind, s: string, d: Dialect)
    requires s != [] && LitLen(b, s, d) != LitLen(b', s, d)
    ensures var p := PieceOf(b, s, d);
            && s[..PieceLen(b, s, d)] == Source(p) && (p.Lit? || p == Chr(s[0]))
            && (p.Lit? <==> LitLen(b, s, d) > 0) && (p.Lit? ==> PieceLen(b, s, d) == LitLen(b, s, d))
            && (p.Chr? ==> PieceLen(b, s, d) == 1)
  {
  }

  lemma LitMoves(b: Behind, b': Behind, s: string, y: string, d: Dialect, bt: BindType)
    requires s != [] && LitLen(b, s, d) != LitLen(b', s, d) && LitLen(b, s, d) > 0
    requires Follows(s[LitLen(b, s, d)..], y, bt)
    ensures var x := s[..LitLen(b, s, d)]; CutPiece(b', x + y, d) != Lit(x)
  {
    hide LitLen, Swap, TagSwap, Edge;
    var n := LitLen(b, s, d);
    var x, r := s[..n], s[n..];
    assert s == x + r;
    SwapIsEdge(r, y, bt);
    EdgeSym(r, y);
    if LitLen(b', x + y, d) == n {
      LitStays(b', x, y, r, d);
    } else if LitLen(b', x + y, d) > 0 {
      assert |(x + y)[..LitLen(b', x + y, d)]| != n;
    }
  }

  lemma EdgeSym(r: string, r': string)
    requires Edge(r, r')
    ensures Edge(r', r)
  {
  }

  lemma ChrMoves(b: Behind, b': Behind, s: string, y: string, d: Dialect, bt: BindType)
    requires s != [] && LitLen(b, s, d) == 0 < LitLen(b', s, d) && Follows(s[1..], y, bt)
    ensures CutPiece(b', [s[0]] + y, d) != Chr(s[0])
  {
    assert s == [s[0]] + s[1..];
    if s[0] == '$' {
      hide LitLen, Swap, TagSwap;
      DollarStaysOpen(b', s[1..], y, d, MarkHead(bt));
    } else {
      OpenerSwaps(b', s[0], s[1..], y, d, bt);
    }
  }

  // ---------------------------------------------------------------- question marks

  function Ones(n: nat): (ws: seq<pos>)
    ensures |ws| == n
  {
    if n == 0 then [] else [1] + Ones(n - 1)
  }

  lemma {:induction false} OnesAreMarked(ps: seq<Piece>, k: nat)
    ensures Stamped(ps, Ones(|Names(ps)|), Question, k) == MarkedText(ps)
    ensures StampedTokens(ps, Ones(|Names(ps)|), Question, k) == TokensOf(ps)
  {
    if ps != [] {
      var ws := Ones(|Names(ps)|);
      if ps[0].Param? {
        assert ws[1..] == Ones(|Names(ps[1..])|);
        assert Bytes("?") == [HOLE] by { assert "?"[1..] == ""; }
        OnesAreMarked(ps[1..], k + 1);
      } else {
        OnesAreMarked(ps[1..], k);
      }
    }
  }

  /** Binding moves no literal boundary exactly when every parameter is boundary safe: the
      scanner then cuts the bound text just as the template says. */
  lemma BoundTextLexes(b: Behind, b': Behind, s: string, d: Dialect)
    requires SameView(b, b', s, d)
    ensures var ps := Template(b, s, d);
            Lex(b', MarkedText(ps), d) == TokensOf(ps) <==> BoundarySafe(b, s, d)
  {
    hide *;
    var ps := Template(b, s, d);
    OnesAreMarked(ps, 1);
    FinishedLexes(b, b', s, d, Ones(|Names(ps)|), Question, 1);
    QuestionSafe(b, b', s, d);
  }

  // ---------------------------------------------------------------- queries that are safe at a glance

  predicate StartsLiteral(p: Piece) { Source(p) != [] && (Source(p)[0] == '\'' || Source(p)[0] == '$') }

  /** No parameter name is directly followed by a single quote or a '$'. */
  predicate NamesApart(ps: seq<Piece>) {
    ps == [] || (NamesApart(ps[1..]) && (|ps| > 1 && ps[0].Param? ==> !StartsLiteral(ps[1])))
  }

  /** What a byte other than these two opens does not depend on the text behind. */
  lemma BehindMattersLittle(b: Behind, b': Behind, s: string, d: Dialect)
    requires s != [] ==> s[0] != '\'' && s[0] != '$'
    ensures SameLiteral(b, b', s, d)
  {
  }

  lemma DanglingIsLone(b: Behind, b': Behind, s: string, d: Dialect)
    requires s != [] && Dangles(b', s)
    ensures PieceOf(b, s, d) == Chr('$')
  {
    if LitLen(b, s, d) > 0 { LiteralsDoNotDangle(b, b', s, d); }
  }

  /** Such a query is mark safe for every driver, as long as it has no '$' outside literals
      where marks and dollar quotes start alike. */
  lemma {:induction false} ApartIsSafe(b: Behind, b': Behind, s: string, d: Dialect, bt: BindType)
    requires NamesApart(Template(b, s, d))
    requires bt.Dollar? && d.Postgres? ==> Chr('$') !in Template(b, s, d)
    ensures MarkSafe(b, b', s, d, bt) && BoundarySafe(b, s, d)
    decreases |s|
  {
    if s != [] {
      hide LitLen, After, Template, PieceLen, PieceOf, Dangles, SameLiteral, StartsLiteral;
      var x := s[..PieceLen(b, s, d)];
      var p := PieceOf(b, s, d);
      var c, r := After(b, x), s[|x|..];
      var rest := Template(c, r, d);
      TemplateStep(b, s, d);
      assert ([p] + rest)[1..] == rest && p in [p] + rest;
      ApartIsSafe(c, if p.Param? then AfterMark(bt) else After(b', x), r, d, bt);
      if p.Param? {
        ApartStep(c, r, d, p);
        BehindMattersLittle(c, AfterMark(bt), r, d);
        BehindMattersLittle(c, FRESH, r, d);
      }
      if Dangles(b', s) { DanglingIsLone(b, b', s, d); }
    }
  }

  lemma ApartStep(b: Behind, s: string, d: Dialect, p: Piece)
    requires p.Param? && NamesApart([p] + Template(b, s, d))
    ensures s != [] ==> s[0] != '\'' && s[0] != '$'
  {
    if s != [] {
      PieceHead(b, s, d);
      TemplateStep(b, s, d);
      hide LitLen, Template, PieceOf, PieceLen;
      assert ([p] + Template(b, s, d))[1] == PieceOf(b, s, d);
    }
  }

  // ---------------------------------------------------------------- where it fails

  /** The query `$:n`. */
  function DollarQuery(n: string): string { ['$'] + ([':'] + n) }

  predicate IsName(n: string) { n != [] && IsNameStart(n[0]) && NameRun(n) == |n| }

  lemma DollarDangles(n: string)
    requires IsName(n)
    ensures Dangles(FRESH, DollarQuery(n)) && LitLen(FRESH, DollarQuery(n), Postgres) == 0
  {
    var s := DollarQuery(n);
    assert s[1..] == [':'] + n;
    assert TagRun(s[1..]) == 0;
  }

  lemma DollarTail(b: Behind, n: string)
    requires IsName(n)
    ensures Template(b, [':'] + n, Postgres) == [Param(n)] && BoundarySafe(b, [':'] + n, Postgres)
  {
    var r := [':'] + n;
    MarksArePlain(b, r, Postgres);
    assert r[1..] == n && r[|r|..] == [];
    hide LitLen;
    assert PieceLen(b, r, Postgres) == |r| && PieceOf(b, r, Postgres) == Param(n);
    TemplateStep(b, r, Postgres);
  }

  lemma DollarPiece(n: string)
    requires IsName(n)
    ensures PieceOf(FRESH, DollarQuery(n), Postgres) == Chr('$') && PieceLen(FRESH, DollarQuery(n), Postgres) == 1
  {
    DollarDangles(n);
    hide LitLen, Dangles, IsName, TagRun;
  }

  /** The query `$:n` for a '$' mark: it is boundary safe and not mark safe, and its finished
      text starts with two '$', so the scanner reads one dollar-quoted string to its end. */
  lemma DollarMarkFails(n: string, k: nat)
    requires IsName(n)
    ensures var s := DollarQuery(n);
            && Template(FRESH, s, Postgres) == [Chr('$'), Param(n)]
            && BoundarySafe(FRESH, s, Postgres) && !MarkSafe(FRESH, FRESH, s, Postgres, Dollar)
    ensures var y := ['$'] + Mark(Dollar, k); Lex(FRESH, y, Postgres) == [Lit(y)]
  {
    var s := DollarQuery(n);
    DollarDangles(n);
    DollarMarkSwallows(k);
    DollarPiece(n);
    assert s != [] && s[..1] == ['$'] && s[1..] == [':'] + n;
    hide LitLen, After, Dangles, Template, TagRun, NameRun, Mark, PieceOf, PieceLen;
    hide DollarQuery, SameLiteral, Lex, IsName;
    DollarTail(After(FRESH, s[..1]), n);
    TemplateStep(FRESH, s, Postgres);
  }

  lemma DollarMarkSwallows(k: nat)
    ensures var y := ['$'] + Mark(Dollar, k); Lex(FRESH, y, Postgres) == [Lit(y)]
  {
    var y := ['$'] + Mark(Dollar, k);
    ItoaIsDigits(k);
    var digits := Itoa(k);
    assert y == ['$', '$'] + digits && y[1..] == ['$'] + digits;
    assert TagRun(y[1..]) == 0 && OpenerOf(FRESH, y, Postgres) == DollarQuoted(2);
    assert y[..2] == ['$', '$'] && y[2..] == digits;
    NotIn(digits, ['$', '$']);
    assert LitLen(FRESH, y, Postgres) == |y|;
    assert y[..|y|] == y && y[|y|..] == [];
    hide LitLen;
    LexStep(FRESH, y, Postgres);
  }

  lemma {:induction false} NotIn(t: string, delim: string)
    requires delim != [] && delim[0] !in t
    ensures Find(t, delim).None?
  {
    if t != [] {
      assert t[0] in t;
      NotIn(t[1..], delim);
    }
  }
}
