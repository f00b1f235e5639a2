/** The builder loops of db/bind.go, `protectColons`, `protectStrayColons`, `expandSlices`
    and `rebind`, and `bindQuery` itself, proved against the functions of SqlTemplate and
    SqlBind. */
module SqlBindLoops {
  import opened Wrappers
  import opened SqlScanner
  import opened SqlScanLoops
  import opened SqlMarks
  import opened SqlTemplate
  import opened SqlFinish
  import opened SqlBind

  // ---------------------------------------------------------------- protecting

  lemma ColonsUnfold(b: Behind, s: string, d: Dialect)
    requires s != []
    ensures var m := CutLen(b, s, d);
            Colons(b, s, d) ==
            (if LitLen(b, s, d) > 0 then Seal(s[..m]) else s[..m]) + Colons(After(b, s[..m]), s[m..], d)
  {
  }

  lemma ColonsAt(query: string, i: nat, d: Dialect)
    requires i < |query|
    ensures var n := LitLen(Look(query, i), query[i..], d);
            var m := if n > 0 then n else 1;
            Colons(Look(query, i), query[i..], d) ==
            (if n > 0 then Seal(query[i..i + n]) else [query[i]]) + Colons(Look(query, i + m), query[i + m..], d)
  {
    hide LitLen;
    hide After;
    hide Colons;
    hide Seal;
    var b, s := Look(query, i), query[i..];
    var m := CutLen(b, s, d);
    ColonsUnfold(b, s, d);
    LookNext(query, i, i + m);
    assert s[..m] == query[i..i + m] && s[m..] == query[i + m..];
  }

  lemma NoColons(b: Behind, d: Dialect)
    ensures Colons(b, [], d) == []
  {
  }

  lemma LookStart(query: string)
    ensures Look(query, 0) == FRESH && query[0..] == query
  {
    assert query[..0] == [];
  }

  method ProtectColons(query: string, d: Dialect) returns (out: string)
    ensures out == Colons(FRESH, query, d)
  {
    hide LitLen;
    hide Seal;
    hide Colons;
    hide Look;
    out := "";
    var i := 0;
    LookStart(query);
    while i < |query|
      invariant i <= |query|
      invariant Colons(FRESH, query, d) == out + Colons(Look(query, i), query[i..], d)
    {
      ColonsAt(query, i, d);
      var end := LiteralEnd(query, i, d);
      if end > i {
        out := out + Seal(query[i..end]);
        i := end;
        continue;
      }
      out := out + [query[i]];
      i := i + 1;
    }
    assert query[i..] == [];
    NoColons(Look(query, i), d);
  }

  method ProtectStrayColons(query: string) returns (out: string)
    ensures out == Strays(query)
  {
    hide Strays;
    out := "";
    assert query[0..] == query;
    for i := 0 to |query|
      invariant Strays(query) == out + Strays(query[i..])
    {
      StraysAt(query, i, out);
      if query[i] == ':' && (i + 1 == |query| || !IsNameStart(query[i + 1])) {
        out := out + [COLON_SENTINEL];
        continue;
      }
      out := out + [query[i]];
    }
    assert query[|query|..] == [] && Strays([]) == [] by { NoStrays(); }
  }

  lemma StraysAt(query: string, i: nat, out: string)
    requires i < |query|
    ensures var stray := query[i] == ':' && (i + 1 == |query| || !IsNameStart(query[i + 1]));
            out + Strays(query[i..]) == out + [if stray then COLON_SENTINEL else query[i]] + Strays(query[i + 1..])
  {
    assert query[i..][1..] == query[i + 1..];
  }

  lemma NoStrays()
    ensures Strays([]) == []
  {
  }

  // ---------------------------------------------------------------- filling at indexes

  lemma {:induction false} NoHoleFill(ps: seq<Piece>, off: nat)
    requires HoleIndexes(ps, off) == []
    ensures Holes(ps) == 0 && Fill(ps, []) == SourceText(ps)
  {
    if ps != [] {
      var p, tail := ps[0], ps[1..];
      assert ps == [p] + tail;
      IndexStep(p, tail, off);
      FillStep(p, tail, []);
      hide HoleIndexes, Holes, Fill, SourceText;
      NoHoleFill(tail, off + |Source(p)|);
    }
  }

  lemma {:induction false} HolesAreIndexes(ps: seq<Piece>, off: nat)
    ensures |HoleIndexes(ps, off)| == Holes(ps)
  {
    if ps != [] { HolesAreIndexes(ps[1..], off + |Source(ps[0])|); }
  }

  lemma IndexStep(p: Piece, tail: seq<Piece>, off: nat)
    ensures HoleIndexes([p] + tail, off) ==
            if p == HOLE then [off] + HoleIndexes(tail, off + 1) else HoleIndexes(tail, off + |Source(p)|)
    ensures SourceText([p] + tail) == Source(p) + SourceText(tail)
    ensures Holes([p] + tail) == (if p == HOLE then 1 else 0) + Holes(tail)
  {
    assert ([p] + tail)[1..] == tail;
    assert [] + HoleIndexes(tail, off + |Source(p)|) == HoleIndexes(tail, off + |Source(p)|);
  }

  /** Up to the first hole the text is copied; in `rest`, after it, the same question
      stands again. */
  predicate SplitsAtHole(ps: seq<Piece>, off: nat, fs: seq<string>, rest: seq<Piece>) {
    && Holes(ps) == |fs| && fs != [] && Holes(rest) == |fs| - 1
    && HoleIndexes(ps, off) != []
    && var k := HoleIndexes(ps, off)[0];
    && off <= k < off + |SourceText(ps)|
    && SourceText(rest) == SourceText(ps)[k - off + 1..]
    && HoleIndexes(rest, k + 1) == HoleIndexes(ps, off)[1..]
    && Fill(ps, fs) == SourceText(ps)[..k - off] + fs[0] + Fill(rest, fs[1..])
  }

  lemma SplitsHere(tail: seq<Piece>, off: nat, fs: seq<string>)
    requires Holes([HOLE] + tail) == |fs|
    ensures SplitsAtHole([HOLE] + tail, off, fs, tail)
  {
    hide HoleIndexes;
    hide SourceText;
    hide Holes;
    hide Fill;
    IndexStep(HOLE, tail, off);
    FillStep(HOLE, tail, fs);
    HoleFirst(SourceText(tail), fs[0], Fill(tail, fs[1..]));
  }

  lemma SplitsLater(p: Piece, tail: seq<Piece>, off: nat, fs: seq<string>, rest: seq<Piece>)
    requires p != HOLE && SplitsAtHole(tail, off + |Source(p)|, fs, rest)
    ensures SplitsAtHole([p] + tail, off, fs, rest)
  {
    hide HoleIndexes;
    hide SourceText;
    hide Holes;
    hide Fill;
    hide Source;
    var n := |Source(p)|;
    IndexStep(p, tail, off);
    FillStep(p, tail, fs);
    var k := HoleIndexes(tail, off + n)[0];
    Glue(Source(p), SourceText(tail), k - off - n, fs[0], Fill(rest, fs[1..]));
  }

  lemma {:induction false} FirstHole(ps: seq<Piece>, off: nat, fs: seq<string>) returns (rest: seq<Piece>)
    requires HoleIndexes(ps, off) != [] && Holes(ps) == |fs|
    ensures SplitsAtHole(ps, off, fs, rest)
  {
    hide SplitsAtHole;
    var p, tail := ps[0], ps[1..];
    assert ps == [p] + tail;
    hide HoleIndexes;
    hide Holes;
    IndexStep(p, tail, off);
    if p == HOLE {
      rest := tail;
      SplitsHere(tail, off, fs);
    } else {
      rest := FirstHole(tail, off + |Source(p)|, fs);
      SplitsLater(p, tail, off, fs, rest);
    }
  }

  lemma HoleFirst(t: string, f: string, y: string)
    ensures ("?" + t)[1..] == t && ("?" + t)[..0] + f + y == f + y
  {
  }

  lemma Glue(x: string, t: string, k: nat, f: string, y: string)
    requires k < |t|
    ensures x + (t[..k] + f + y) == (x + t)[..|x| + k] + f + y
    ensures (x + t)[|x| + k + 1..] == t[k + 1..]
  {
  }

  /** The loop that expandSlices and rebind share: copy up to each placeholder and write
      its filling in its place. */
  method Splice(query: string, placeholders: seq<nat>, fillings: seq<string>, ghost d: Dialect) returns (out: string)
    requires placeholders == HoleIndexes(Lex(FRESH, query, d), 0)
    requires |fillings| == |placeholders|
    ensures |fillings| == Holes(Lex(FRESH, query, d))
    ensures out == Fill(Lex(FRESH, query, d), fillings)
  {
    hide *;
    ghost var ps := Lex(FRESH, query, d);
    LexIsLossless(FRESH, query, d);
    HolesAreIndexes(ps, 0);
    out := "";
    var prev := 0;
    ghost var rest := ps;
    ghost var whole := Fill(ps, fillings);
    assert query[0..] == query && placeholders[0..] == placeholders && fillings[0..] == fillings;
    assert whole == out + Fill(rest, fillings[0..]);
    for i := 0 to |placeholders|
      invariant prev <= |query| && SourceText(rest) == query[prev..]
      invariant HoleIndexes(rest, prev) == placeholders[i..]
      invariant Holes(rest) == |fillings| - i
      invariant whole == out + Fill(rest, fillings[i..])
    {
      var idx := placeholders[i];
      Slide(placeholders, i);
      Slide(fillings, i);
      rest := SpliceStep(query, prev, rest, fillings[i..], out);
      out := out + query[prev..idx] + fillings[i];
      prev := idx + 1;
    }
    assert placeholders[|placeholders|..] == [] && fillings[|placeholders|..] == [];
    NoHoleFill(rest, prev);
    out := out + query[prev..];
  }

  /** One turn of the splice. */
  lemma SpliceStep(query: string, prev: nat, now: seq<Piece>, fs: seq<string>, out: string) returns (rest: seq<Piece>)
    requires prev <= |query| && SourceText(now) == query[prev..]
    requires HoleIndexes(now, prev) != [] && Holes(now) == |fs|
    ensures var idx := HoleIndexes(now, prev)[0];
            && prev <= idx < |query|
            && SourceText(rest) == query[idx + 1..]
            && HoleIndexes(rest, idx + 1) == HoleIndexes(now, prev)[1..]
            && fs != [] && Holes(rest) == |fs| - 1
            && out + Fill(now, fs) == (out + query[prev..idx] + fs[0]) + Fill(rest, fs[1..])
  {
    hide HoleIndexes;
    hide Holes;
    hide Fill;
    hide SourceText;
    var idx := HoleIndexes(now, prev)[0];
    rest := FirstHole(now, prev, fs);
    Slices(query, prev, idx);
    Assoc(out, query[prev..idx], fs[0], Fill(rest, fs[1..]));
  }

  lemma Slices(query: string, prev: nat, idx: nat)
    requires prev <= idx < |query|
    ensures query[prev..][..idx - prev] == query[prev..idx] && query[prev..][idx - prev + 1..] == query[idx + 1..]
  {
  }

  lemma Slide<T>(xs: seq<T>, i: nat)
    requires i < |xs|
    ensures xs[i..] != [] && xs[i..][0] == xs[i] && xs[i..][1..] == xs[i + 1..]
  {
  }

  lemma Assoc(a: string, b: string, c: string, e: string)
    ensures a + (b + c + e) == (a + b + c) + e
  {
  }

  // ---------------------------------------------------------------- expanding

  /** The group of marks that one argument writes, and the arguments it appends. */
  method ExpandOne<V>(v: Value<V>) returns (marks: string, flat: seq<V>)
    requires v.Slice? ==> v.items != []
    ensures marks == MarkList(Width(v)) && flat == Items(v)
  {
    if v.Slice? {
      marks, flat := "", [];
      for j := 0 to |v.items|
        invariant flat == v.items[..j]
        invariant j == 0 ==> marks == ""
        invariant j > 0 ==> marks == MarkList(j)
      {
        if j > 0 {
          marks := marks + ", ";
          MarkListGrows(j);
        }
        marks := marks + "?";
        flat := flat + [v.items[j]];
      }
    } else {
      marks, flat := "?", [v.v];
    }
  }

  lemma {:induction false} MarkListGrows(w: pos)
    ensures MarkList(w + 1) == MarkList(w) + ", " + "?"
  {
    OneMark();
    MarkListStep(w + 1);
    if w > 1 {
      MarkListStep(w);
      MarkListGrows(w - 1);
      hide *;
      Regroup("?, ", MarkList(w - 1) + ", ", "?");
    }
  }

  lemma {:induction false} ResolveFails<V>(args: seq<Arg<V>>, i: nat)
    requires i < |args| && args[i].Valuer? && args[i].outcome.None?
    ensures Resolve(args).None?
  {
    if i > 0 { ResolveFails(args[1..], i - 1); }
  }

  lemma {:induction false} ResolveIs<V>(args: seq<Arg<V>>, vs: seq<Value<V>>)
    requires |args| == |vs| && forall k :: 0 <= k < |args| ==> ValueOf(args[k]) == Some(vs[k])
    ensures Resolve(args) == Some(vs)
  {
    if args != [] {
      assert ValueOf(args[0]) == Some(vs[0]);
      assert forall k :: 0 <= k < |args| - 1 ==> args[1..][k] == args[k + 1] && vs[1..][k] == vs[k + 1];
      ResolveIs(args[1..], vs[1..]);
      assert vs == [vs[0]] + vs[1..];
    }
  }

  /** The first loop of expandSlices: every Valuer is replaced in place by its value. */
  method ResolveInPlace<V>(args: array<Arg<V>>) returns (ok: bool)
    modifies args
    ensures ok <==> Resolve(old(args[..])).Some?
    ensures ok ==> forall k :: 0 <= k < args.Length ==> args[k] == Ready(Resolve(old(args[..])).value[k])
    ensures forall k :: 0 <= k < args.Length ==> args[k] == old(args[k]) || ValueOf(old(args[k])) == ValueOf(args[k])
  {
    ghost var was := args[..];
    ghost var vs: seq<Value<V>> := [];
    for i := 0 to args.Length
      invariant |vs| == i && forall k :: 0 <= k < i ==> args[k] == Ready(vs[k]) && ValueOf(was[k]) == Some(vs[k])
      invariant forall k :: i <= k < args.Length ==> args[k] == was[k]
    {
      if args[i].Valuer? {
        if args[i].outcome.None? {
          ResolveFails(was, i);
          return false;
        }
        args[i] := Ready(args[i].outcome.value);
      }
      vs := vs + [args[i].value];
    }
    ResolveIs(was, vs);
    return true;
  }

  /** The second loop of expandSlices: is there a slice, and is one of them empty. */
  method CheckSlices<V>(vs: seq<Value<V>>) returns (expanded: bool, empty: bool)
    ensures empty <==> HasEmpty(vs)
    ensures !empty ==> (expanded <==> HasSlice(vs))
  {
    expanded, empty := false, false;
    for i := 0 to |vs|
      invariant expanded <==> exists k :: 0 <= k < i && vs[k].Slice?
      invariant forall k :: 0 <= k < i ==> !(vs[k].Slice? && vs[k].items == [])
    {
      if vs[i].Slice? {
        if |vs[i].items| == 0 {
          return expanded, true;
        }
        expanded := true;
      }
    }
  }

  method ExpandSlices<V>(query: string, args: array<Arg<V>>, d: Dialect) returns (r: Result<Query<V>>)
    modifies args
    ensures r == Expand(query, old(args[..]), d)
  {
    ghost var was := args[..];
    var ok := ResolveInPlace(args);
    if !ok {
      return Err(ValuerFailed);
    }
    ghost var vs := Resolve(was).value;
    assert |vs| == args.Length;
    hide *;
    var values: seq<Value<V>> := [];
    for i := 0 to args.Length
      invariant values == vs[..i]
    {
      values := values + [args[i].value];
    }
    assert vs[..args.Length] == vs;
    r := ExpandResolved(query, values, was, d);
  }

  method ExpandResolved<V>(query: string, vs: seq<Value<V>>, ghost was: seq<Arg<V>>, d: Dialect)
      returns (r: Result<Query<V>>)
    requires Resolve(was) == Some(vs)
    ensures r == Expand(query, was, d)
  {
    hide Lex;
    hide Fill;
    hide Holes;
    hide HasEmpty;
    hide HasSlice;
    hide Resolve;
    var expanded, empty := CheckSlices(vs);
    if empty {
      return Err(EmptySlice);
    }
    r := ExpandValues(query, vs, expanded, d);
  }

  /** The rest of expandSlices, once every argument is a value. */
  method ExpandValues<V>(query: string, vs: seq<Value<V>>, expanded: bool, d: Dialect) returns (r: Result<Query<V>>)
    requires !HasEmpty(vs) && (expanded <==> HasSlice(vs))
    ensures r == if !HasSlice(vs) then Ok(Query(query, Flatten(vs)))
                 else if Holes(Lex(FRESH, query, d)) < |vs| then Err(TooFewMarks)
                 else if Holes(Lex(FRESH, query, d)) > |vs| then Err(TooManyMarks)
                 else Ok(Query(Fill(Lex(FRESH, query, d), MarkLists(Widths(vs))), Flatten(vs)))
  {
    hide Lex;
    var fillings, flat := ExpandAll(vs);
    if !expanded {
      return Ok(Query(query, flat));
    }
    var placeholders := PlaceholderIndexes(query, d);
    HolesAreIndexes(Lex(FRESH, query, d), 0);
    if |placeholders| < |vs| {
      return Err(TooFewMarks);
    }
    if |placeholders| > |vs| {
      return Err(TooManyMarks);
    }
    var out := Splice(query, placeholders, fillings, d);
    return Ok(Query(out, flat));
  }

  method ExpandAll<V>(vs: seq<Value<V>>) returns (fillings: seq<string>, flat: seq<V>)
    requires !HasEmpty(vs)
    ensures fillings == MarkLists(Widths(vs)) && flat == Flatten(vs)
  {
    hide *;
    fillings, flat := [], [];
    assert vs[0..] == vs;
    for i := 0 to |vs|
      invariant !HasEmpty(vs[i..])
      invariant MarkLists(Widths(vs)) == fillings + MarkLists(Widths(vs[i..]))
      invariant Flatten(vs) == flat + Flatten(vs[i..])
    {
      Slide(vs, i);
      GroupStep(vs[i..], fillings, flat);
      var marks, items := ExpandOne(vs[i]);
      fillings := fillings + [marks];
      flat := flat + items;
    }
    NoGroups(vs[|vs|..]);
  }

  lemma NoGroups<V>(vs: seq<Value<V>>)
    requires |vs| == 0
    ensures !HasEmpty(vs) && MarkLists(Widths(vs)) == [] && Flatten(vs) == []
  {
  }

  lemma GroupStep<V>(vs: seq<Value<V>>, fillings: seq<string>, flat: seq<V>)
    requires vs != [] && !HasEmpty(vs)
    ensures !HasEmpty(vs[1..]) && (vs[0].Slice? ==> vs[0].items != [])
    ensures fillings + MarkLists(Widths(vs)) == (fillings + [MarkList(Width(vs[0]))]) + MarkLists(Widths(vs[1..]))
    ensures flat + Flatten(vs) == (flat + Items(vs[0])) + Flatten(vs[1..])
  {
    TailHasNoEmpty(vs);
    assert Widths(vs)[1..] == Widths(vs[1..]);
    var g := MarkLists(Widths(vs[1..]));
    assert MarkLists(Widths(vs)) == [MarkList(Width(vs[0]))] + g;
    hide *;
    assert fillings + ([MarkList(Width(vs[0]))] + g) == (fillings + [MarkList(Width(vs[0]))]) + g;
  }

  // ---------------------------------------------------------------- numbering

  lemma MarksStep(bt: BindType, k: nat, n: nat)
    requires n > 0
    ensures MarksFrom(bt, k, n) == [Mark(bt, k)] + MarksFrom(bt, k + 1, n - 1)
  {
  }

  method NumberMarks(bt: BindType, n: nat) returns (fillings: seq<string>)
    ensures fillings == MarksFrom(bt, 1, n)
  {
    hide Mark, MarksFrom;
    fillings := [];
    for i := 0 to n
      invariant |fillings| == i
      invariant MarksFrom(bt, 1, n) == fillings + MarksFrom(bt, i + 1, n - i)
    {
      MarksStep(bt, i + 1, n - i);
      Regroup(fillings, [Mark(bt, i + 1)], MarksFrom(bt, i + 2, n - i - 1));
      fillings := fillings + [Mark(bt, i + 1)];
    }
  }

  method RebindMarks(query: string, drv: Driver) returns (out: string)
    ensures out == Rebind(query, drv)
    ensures drv.bindType.Question? ==> out == query
    ensures var ps := Lex(FRESH, query, drv.dialect);
            var ms := MarksFrom(drv.bindType, 1, Holes(ps));
            out == Fill(ps, ms) && forall k :: 0 <= k < |ms| ==> IsMark(ms[k], drv.bindType, k + 1)
  {
    RebindFills(query, drv);
    if drv.bindType.Question? {
      return query;
    }
    hide IsMark;
    hide Lex;
    hide Fill;
    hide Holes;
    hide HoleIndexes;
    hide MarksFrom;
    var placeholders := PlaceholderIndexes(query, drv.dialect);
    HolesAreIndexes(Lex(FRESH, query, drv.dialect), 0);
    var fillings := NumberMarks(drv.bindType, |placeholders|);
    out := Splice(query, placeholders, fillings, drv.dialect);
  }

  // ---------------------------------------------------------------- bindQuery

  /** bindQuery. A nil argument leaves the query as it is. Otherwise the result is that of
      the stages, and on every query in the supported range it is the reference result. */
  method BindQuery<V>(drv: Driver, query: string, arg: Option<map<string, Arg<V>>>) returns (r: Result<Query<V>>)
    ensures r == Bind(drv, query, arg)
    ensures arg.None? ==> r == Ok(Query(query, []))
    ensures arg.Some? && SentinelFree(query) && BoundarySafe(FRESH, query, drv.dialect)
            && BareMarks(Template(FRESH, query, drv.dialect)) == 0 ==>
              && r == Reference(drv, query, arg.value)
              && var vs := ValuesOf(Names(Template(FRESH, query, drv.dialect)), arg.value);
              (r.Ok? ==> vs.Some? && IsFinished(drv, query, vs.value, r.value))
  {
    if arg.None? {
      return Ok(Query(query, []));
    }
    if SentinelFree(query) && BoundarySafe(FRESH, query, drv.dialect)
       && BareMarks(Template(FRESH, query, drv.dialect)) == 0 {
      BindIsReference(drv, query, arg.value);
      FinishedQuery(drv, query, arg.value);
    }
    hide IsFinished, ValuesOf;
    hide Casts;
    hide Colons;
    hide Strays;
    hide BindNames;
    hide Restore;
    hide Reference;
    hide BoundarySafe;
    hide Rebind;
    hide Expand;
    var protected := ProtectColons(Casts(query), drv.dialect);
    protected := ProtectStrayColons(protected);
    match BindNames(protected) {
      case Unreadable =>
        return Err(Malformed);
      case Named(text, names) =>
        match Lookup(names, arg.value) {
          case None =>
            return Err(MissingName);
          case Some(found) =>
            var args := new Arg<V>[|found|](k requires 0 <= k < |found| => found[k]);
            assert args[..] == found;
            var u := ExpandSlices(Restore(text), args, drv.dialect);
            if u.Err? {
              return Err(u.error);
            }
            var out := RebindMarks(u.value.text, drv);
            return Ok(Query(out, u.value.args));
        }
    }
  }
}
