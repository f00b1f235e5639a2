/** `bindQuery` of db/bind.go: bind the names, expand the slices, number the placeholders,
    and what the finished query is in terms of the query its author wrote. */
module SqlBind {
  import opened Wrappers
  import opened SqlScanner
  import opened SqlScanLoops
  import opened SqlMarks
  import opened SqlTemplate
  import opened SqlFinish

  datatype Driver = Driver(dialect: Dialect, bindType: BindType)

  /** A driver value: `Slice` stands for the slices that are expanded. A byte slice is a
      `Scalar`. */
  datatype Value<V> = Scalar(v: V) | Slice(items: seq<V>)

  /** A bound argument, or one that computes its value and may fail to. */
  datatype Arg<V> = Ready(value: Value<V>) | Valuer(outcome: Option<Value<V>>)

  datatype Error = Malformed | MissingName | ValuerFailed | EmptySlice | TooFewMarks | TooManyMarks

  datatype Result<T> = Ok(value: T) | Err(error: Error)

  datatype Query<V> = Query(text: string, args: seq<V>)

  // ---------------------------------------------------------------- arguments

  /** The value of an argument, or None when computing it fails. */
  function ValueOf<V>(a: Arg<V>): Option<Value<V>> {
    if a.Ready? then Some(a.value) else a.outcome
  }

  /** The values of the arguments, or None when one of them fails. */
  function Resolve<V>(args: seq<Arg<V>>): (r: Option<seq<Value<V>>>)
    ensures r.Some? ==> |r.value| == |args|
  {
    if args == [] then Some([])
    else
      match (ValueOf(args[0]), Resolve(args[1..]))
      case (Some(v), Some(vs)) => Some([v] + vs)
      case _ => None
  }

  function Width<V>(v: Value<V>): pos
    requires v.Slice? ==> v.items != []
  {
    if v.Slice? then |v.items| else 1
  }

  function Widths<V>(vs: seq<Value<V>>): (ws: seq<pos>)
    requires !HasEmpty(vs)
    ensures |ws| == |vs|
  {
    if vs == [] then []
    else
      assert forall k :: 0 <= k < |vs| - 1 ==> vs[1..][k] == vs[k + 1];
      [Width(vs[0])] + Widths(vs[1..])
  }

  function Items<V>(v: Value<V>): seq<V> {
    if v.Slice? then v.items else [v.v]
  }

  /** The arguments in order, each slice spelled out. */
  function Flatten<V>(vs: seq<Value<V>>): seq<V> {
    if vs == [] then [] else Items(vs[0]) + Flatten(vs[1..])
  }

  /** The values stand in the order of the arguments, those of a slice in its own order. */
  lemma {:induction false} FlattenAt<V>(vs: seq<Value<V>>, i: nat)
    requires i < |vs|
    ensures Flatten(vs) ==
            Flatten(vs[..i]) + (if vs[i].Slice? then vs[i].items else [vs[i].v]) + Flatten(vs[i + 1..])
  {
    FlattenHead(vs);
    if i == 0 {
      assert vs[..0] == [] && Flatten(vs[..0]) == [];
    } else {
      FlattenAt(vs[1..], i - 1);
      FlattenHead(vs[..i]);
      assert vs[1..][..i - 1] == vs[..i][1..] && vs[1..][i..] == vs[i + 1..];
      hide *;
      var mid := if vs[i].Slice? then vs[i].items else [vs[i].v];
      FourParts(Items(vs[0]), Flatten(vs[..i][1..]), mid, Flatten(vs[i + 1..]));
    }
  }

  lemma FlattenHead<V>(vs: seq<Value<V>>)
    requires vs != []
    ensures Flatten(vs) == Items(vs[0]) + Flatten(vs[1..])
    ensures Items(vs[0]) == if vs[0].Slice? then vs[0].items else [vs[0].v]
  {
  }

  lemma FourParts<V>(a: seq<V>, b: seq<V>, c: seq<V>, e: seq<V>)
    ensures a + (b + c + e) == (a + b) + c + e
  {
  }

  predicate HasSlice<V>(vs: seq<Value<V>>) { exists k :: 0 <= k < |vs| && vs[k].Slice? }

  predicate HasEmpty<V>(vs: seq<Value<V>>) {
    exists k :: 0 <= k < |vs| && vs[k].Slice? && vs[k].items == []
  }

  // ---------------------------------------------------------------- filling holes

  function Holes(ps: seq<Piece>): nat {
    if ps == [] then 0 else (if ps[0] == HOLE then 1 else 0) + Holes(ps[1..])
  }

  /** The text of the pieces with the k-th hole replaced by the k-th filling. */
  function Fill(ps: seq<Piece>, fs: seq<string>): string
    requires Holes(ps) == |fs|
  {
    if ps == [] then []
    else if ps[0] == HOLE then fs[0] + Fill(ps[1..], fs[1..])
    else Source(ps[0]) + Fill(ps[1..], fs)
  }

  /** "?, ?, ..." with `w` marks. */
  function MarkList(w: pos): string { Group(Question, 1, w) }

  function MarkLists(ws: seq<pos>): (fs: seq<string>)
    ensures |fs| == |ws|
  {
    if ws == [] then [] else [MarkList(ws[0])] + MarkLists(ws[1..])
  }

  /** The cut of "?, ?, ...". */
  function MarkPieces(w: pos): seq<Piece> { Bytes(MarkList(w)) }

  function Widen(ps: seq<Piece>, ws: seq<pos>): seq<Piece>
    requires Holes(ps) == |ws|
  {
    if ps == [] then []
    else if ps[0] == HOLE then MarkPieces(ws[0]) + Widen(ps[1..], ws[1..])
    else [ps[0]] + Widen(ps[1..], ws)
  }

  /** The marks for placeholders k, k + 1, ... */
  function MarksFrom(bt: BindType, k: nat, n: nat): (fs: seq<string>)
    ensures |fs| == n
    decreases n
  {
    if n == 0 then [] else [Mark(bt, k)] + MarksFrom(bt, k + 1, n - 1)
  }

  // ---------------------------------------------------------------- the stages

  function Expand<V>(query: string, args: seq<Arg<V>>, d: Dialect): Result<Query<V>> {
    match Resolve(args)
    case None => Err(ValuerFailed)
    case Some(vs) =>
      if HasEmpty(vs) then Err(EmptySlice)
      else if !HasSlice(vs) then Ok(Query(query, Flatten(vs)))
      else
        var ps := Lex(FRESH, query, d);
        if Holes(ps) < |vs| then Err(TooFewMarks)
        else if Holes(ps) > |vs| then Err(TooManyMarks)
        else
          Ok(Query(Fill(ps, MarkLists(Widths(vs))), Flatten(vs)))
  }

  lemma {:induction false} ResolveFailsIff<V>(args: seq<Arg<V>>)
    ensures Resolve(args).None? <==> exists k :: 0 <= k < |args| && args[k].Valuer? && args[k].outcome.None?
  {
    if args != [] {
      ResolveFailsIff(args[1..]);
      assert forall k :: 0 <= k < |args| - 1 ==> args[1..][k] == args[k + 1];
    }
  }

  /** When expansion fails and how: a Valuer that fails comes before an empty slice, and that
      before a count that does not match, which matters only when there is a slice. */
  lemma ExpandFails<V>(query: string, args: seq<Arg<V>>, d: Dialect)
    ensures var r := Expand(query, args, d);
            var vs := Resolve(args);
            var holes := Holes(Lex(FRESH, query, d));
            && (r == Err(ValuerFailed) <==> exists k :: 0 <= k < |args| && args[k].Valuer? && args[k].outcome.None?)
            && (r == Err(EmptySlice) <==>
                  vs.Some? && exists k :: 0 <= k < |vs.value| && vs.value[k].Slice? && vs.value[k].items == [])
            && (r == Err(TooFewMarks) ==> holes < |args|)
            && (r == Err(TooManyMarks) ==> holes > |args|)
            && (r.Ok? && (exists k :: 0 <= k < |vs.value| && vs.value[k].Slice?) ==> holes == |args|)
            && (r.Err? ==> r.error != Malformed && r.error != MissingName)
  {
    ResolveFailsIff(args);
    hide Lex, Fill, Holes, Resolve, Flatten;
  }

  function Rebind(query: string, drv: Driver): string {
    if drv.bindType.Question? then query
    else
      var ps := Lex(FRESH, query, drv.dialect);
      Fill(ps, MarksFrom(drv.bindType, 1, Holes(ps)))
  }

  function Lookup<V>(names: seq<string>, env: map<string, Arg<V>>): (r: Option<seq<Arg<V>>>)
    ensures r.Some? <==> forall n :: n in names ==> n in env
    ensures r.Some? ==> |r.value| == |names| && forall k :: 0 <= k < |names| ==> r.value[k] == env[names[k]]
  {
    if forall n :: n in names ==> n in env then
      Some(seq(|names|, k requires 0 <= k < |names| => env[names[k]]))
    else None
  }

  /** The query with all its marks still '?', and its flat arguments. */
  function Unnumbered<V>(drv: Driver, query: string, env: map<string, Arg<V>>): Result<Query<V>> {
    match BindNames(Protect(query, drv.dialect))
    case Unreadable => Err(Malformed)
    case Named(text, names) =>
      match Lookup(names, env)
      case None => Err(MissingName)
      case Some(args) => Expand(Restore(text), args, drv.dialect)
  }

  function Bind<V>(drv: Driver, query: string, arg: Option<map<string, Arg<V>>>): Result<Query<V>> {
    match arg
    case None => Ok(Query(query, []))
    case Some(env) =>
      match Unnumbered(drv, query, env)
      case Err(e) => Err(e)
      case Ok(u) => Ok(Query(Rebind(u.text, drv), u.args))
  }

  // ---------------------------------------------------------------- slice expansion

  lemma FillStep(p: Piece, rest: seq<Piece>, fs: seq<string>)
    ensures Holes([p] + rest) == (if p == HOLE then 1 else 0) + Holes(rest)
    ensures |fs| == Holes([p] + rest) ==>
              Fill([p] + rest, fs) == if p == HOLE then fs[0] + Fill(rest, fs[1..]) else Source(p) + Fill(rest, fs)
  {
    assert ([p] + rest)[1..] == rest;
  }

  lemma WidenStep(p: Piece, rest: seq<Piece>, ws: seq<pos>)
    requires |ws| == (if p == HOLE then 1 else 0) + Holes(rest)
    ensures Holes([p] + rest) == |ws|
    ensures Widen([p] + rest, ws) ==
            if p == HOLE then MarkPieces(ws[0]) + Widen(rest, ws[1..]) else [p] + Widen(rest, ws)
  {
    assert ([p] + rest)[1..] == rest;
  }

  lemma MarkListsStep(ws: seq<pos>)
    requires ws != []
    ensures MarkLists(ws)[0] == MarkList(ws[0]) && MarkLists(ws)[1..] == MarkLists(ws[1..])
  {
  }

  lemma {:induction false} FilledAlike(b: Behind, s: string, d: Dialect, ws: seq<pos>)
    requires Holes(Lex(b, s, d)) == |ws|
    ensures Alike(s, Fill(Lex(b, s, d), MarkLists(ws)))
    decreases |s|
  {
    hide *;
    if s == [] {
      FilledNothing(b, d, ws);
    } else {
      var m := CutLen(b, s, d);
      var p := CutPiece(b, s, d);
      var rest := Lex(After(b, s[..m]), s[m..], d);
      LexStep(b, s, d);
      FillStep(p, rest, MarkLists(ws));
      if p == HOLE {
        MarkListsStep(ws);
        MarkListIs(ws[0]);
        HoleCut(b, s, d);
        InertHeads(s, MarkList(ws[0]) + Fill(rest, MarkLists(ws[1..])));
      } else {
        FilledAlike(After(b, s[..m]), s[m..], d, ws);
        AlikePrefix(s[..m], s[m..], Fill(rest, MarkLists(ws)));
        assert s == s[..m] + s[m..];
      }
    }
  }

  lemma FilledNothing(b: Behind, d: Dialect, ws: seq<pos>)
    requires Holes(Lex(b, [], d)) == |ws|
    ensures Alike([], Fill(Lex(b, [], d), MarkLists(ws)))
  {
  }

  lemma InertHeads(s: string, y: string)
    requires s != [] && y != [] && s[0] == y[0] == '?'
    ensures Alike(s, y)
  {
  }

  lemma MarkListIs(w: pos)
    ensures MarkList(w) == Group(Question, 1, w) && MarkPieces(w) == Bytes(Group(Question, 1, w))
    ensures MarkList(w) != [] && MarkList(w)[0] == '?'
    ensures AfterMark(Question) == FRESH
  {
    GroupHead(Question, 1, w);
  }

  lemma {:induction false} QuestionsAlike(j: nat, k: nat, w: pos)
    ensures Group(Question, j, w) == Group(Question, k, w)
    decreases w
  {
    if w > 1 { QuestionsAlike(j + 1, k + 1, w - 1); }
  }

  lemma OneMark()
    ensures MarkList(1) == "?" && MarkPieces(1) == [HOLE]
  {
    assert "?"[1..] == "";
  }

  lemma MarkListStep(w: pos)
    requires w > 1
    ensures MarkList(w) == "?" + (", " + MarkList(w - 1))
    ensures MarkPieces(w) == [HOLE, Chr(','), Chr(' ')] + MarkPieces(w - 1)
  {
    QuestionsAlike(2, 1, w - 1);
    var g := MarkList(w - 1);
    hide MarkList, Group;
    assert "?" + (", " + g) == ['?'] + ([','] + ([' '] + g));
    BytesCons('?', [','] + ([' '] + g));
    BytesCons(',', [' '] + g);
    BytesCons(' ', g);
  }

  /** Expanding a slice moves no literal boundary: the scanner cuts the expanded text as it
      cut the original, with each hole widened. Holds for every query and every choice of
      widths. */
  lemma {:induction false} ExpansionLexes(b: Behind, s: string, d: Dialect, ws: seq<pos>)
    requires Holes(Lex(b, s, d)) == |ws|
    ensures Lex(b, Fill(Lex(b, s, d), MarkLists(ws)), d) == Widen(Lex(b, s, d), ws)
    decreases |s|
  {
    if s != [] {
      hide LitLen;
      hide CutLen;
      hide CutPiece;
      hide After;
      hide Lex;
      hide Fill;
      hide Holes;
      hide Widen;
      hide MarkLists;
      hide MarkList;
      hide MarkPieces;
      hide Source;
      var m := CutLen(b, s, d);
      var p := CutPiece(b, s, d);
      var c := After(b, s[..m]);
      var rest := Lex(c, s[m..], d);
      LexStep(b, s, d);
      FillStep(p, rest, MarkLists(ws));
      WidenStep(p, rest, ws);
      if p == HOLE {
        MarkListsStep(ws);
        HoleCut(b, s, d);
        ExpansionLexes(c, s[m..], d, ws[1..]);
        MarkListIs(ws[0]);
        LexGroup(b, Question, 1, ws[0], Fill(rest, MarkLists(ws[1..])), d);
      } else {
        ExpansionLexes(c, s[m..], d, ws);
        FilledAlike(c, s[m..], d, ws);
        SameCut(b, s, Fill(rest, MarkLists(ws)), d);
      }
    }
  }

  lemma HoleCut(b: Behind, s: string, d: Dialect)
    requires s != [] && CutPiece(b, s, d) == HOLE
    ensures s[0] == '?' && After(b, s[..CutLen(b, s, d)]) == FRESH
  {
    hide LitLen;
    AfterOne(b, s);
  }

  /** The cut at the head survives a change that starts at an inert byte after it. */
  lemma SameCut(b: Behind, s: string, y: string, d: Dialect)
    requires s != [] && Alike(s[CutLen(b, s, d)..], y)
    ensures var m := CutLen(b, s, d);
            Lex(b, s[..m] + y, d) == [CutPiece(b, s, d)] + Lex(After(b, s[..m]), y, d)
  {
    hide LitLen;
    hide Lex;
    hide After;
    hide Alike;
    var m := CutLen(b, s, d);
    var x := s[..m];
    assert s == x + s[m..];
    if LitLen(b, s, d) > 0 {
      RelRefl(x);
      LitKeeps(b, x, x, s[m..], y, d);
      LexLit(b, x, y, d);
    } else {
      assert x == [s[0]];
      AlikePrefix(x, s[m..], y);
      OpenerKeeps(b, s, x + y, d);
      LexChr(b, s[0], y, d);
      AfterOne(b, s);
    }
  }

  // ---------------------------------------------------------------- the reference

  /** A stretch of the finished query: text that is kept, or placeholder `number`, which
      stands for `value`. */
  datatype Out<V> = Keep(text: string) | Slot(number: nat, value: V)

  /** One slot per item, separated by ", ". */
  function Slots<V>(items: seq<V>, k: nat): seq<Out<V>>
    requires items != []
  {
    if |items| == 1 then [Slot(k, items[0])]
    else [Slot(k, items[0]), Keep(", ")] + Slots(items[1..], k + 1)
  }

  /** The finished query, read off the template: each parameter becomes the slots of its
      argument and everything else is kept byte for byte. */
  function Outline<V>(ps: seq<Piece>, vs: seq<Value<V>>, k: nat): seq<Out<V>>
    requires |Names(ps)| == |vs| && !HasEmpty(vs)
  {
    if ps == [] then []
    else if ps[0].Param? then
      TailHasNoEmpty(vs);
      Slots(Items(vs[0]), k) + Outline(ps[1..], vs[1..], k + Width(vs[0]))
    else [Keep(Source(ps[0]))] + Outline(ps[1..], vs, k)
  }

  lemma TailHasNoEmpty<V>(vs: seq<Value<V>>)
    requires vs != [] && !HasEmpty(vs)
    ensures !HasEmpty(vs[1..]) && Items(vs[0]) != [] && |Items(vs[0])| == Width(vs[0])
  {
    assert forall k :: 0 <= k < |vs| - 1 ==> vs[1..][k] == vs[k + 1];
  }

  function Render<V>(os: seq<Out<V>>, bt: BindType): string {
    if os == [] then []
    else Text(os[0], bt) + Render(os[1..], bt)
  }

  /** The values of the slots, in order. */
  function SlotValues<V>(os: seq<Out<V>>): seq<V> {
    if os == [] then [] else if os[0].Slot? then [os[0].value] + SlotValues(os[1..]) else SlotValues(os[1..])
  }

  function SlotNumbers<V>(os: seq<Out<V>>): seq<nat> {
    if os == [] then [] else if os[0].Slot? then [os[0].number] + SlotNumbers(os[1..]) else SlotNumbers(os[1..])
  }

  /** k, k + 1, ..., n of them. */
  function Count(k: nat, n: nat): (ks: seq<nat>)
    ensures |ks| == n
    decreases n
  {
    if n == 0 then [] else [k] + Count(k + 1, n - 1)
  }

  /** What binding means once every name has its argument. */
  function BoundReference<V>(drv: Driver, ps: seq<Piece>, args: seq<Arg<V>>): Result<Query<V>>
    requires |Names(ps)| == |args|
  {
    match Resolve(args)
    case None => Err(ValuerFailed)
    case Some(vs) =>
      if HasEmpty(vs) then Err(EmptySlice)
      else Ok(Query(Render(Outline(ps, vs, 1), drv.bindType), Flatten(vs)))
  }

  /** What binding means, stated on the template alone. */
  function Reference<V>(drv: Driver, query: string, env: map<string, Arg<V>>): Result<Query<V>> {
    var ps := Template(FRESH, query, drv.dialect);
    if Clash(ps) then Err(Malformed)
    else match Lookup(Names(ps), env)
      case None => Err(MissingName)
      case Some(args) => BoundReference(drv, ps, args)
  }

  lemma {:induction false} ClashIff(ps: seq<Piece>)
    ensures Clash(ps) <==> exists k :: 0 <= k < |ps| - 1 && ps[k].Param? && ps[k + 1].Param?
  {
    if |ps| > 1 {
      var rest := ps[1..];
      ClashIff(rest);
      assert forall k :: 0 <= k < |rest| ==> rest[k] == ps[k + 1];
      if k :| 0 <= k < |ps| - 1 && ps[k].Param? && ps[k + 1].Param? {
        if k > 0 { assert rest[k - 1].Param? && rest[k].Param?; }
      }
    }
  }

  lemma {:induction false} NamesIff(ps: seq<Piece>, n: string)
    ensures n in Names(ps) <==> Param(n) in ps
  {
    if ps != [] {
      NamesIff(ps[1..], n);
      assert ps == [ps[0]] + ps[1..];
    }
  }

  /** When binding fails before any argument is looked at: two parameters without a byte
      between them cannot be read, and every name must be known. */
  lemma ReferenceFails<V>(drv: Driver, query: string, env: map<string, Arg<V>>)
    ensures var r := Reference(drv, query, env);
            var ps := Template(FRESH, query, drv.dialect);
            && (r == Err(Malformed) <==> exists k :: 0 <= k < |ps| - 1 && ps[k].Param? && ps[k + 1].Param?)
            && (r == Err(MissingName) <==> r != Err(Malformed) && exists n :: Param(n) in ps && n !in env)
  {
    var ps := Template(FRESH, query, drv.dialect);
    ClashIff(ps);
    forall n ensures n in Names(ps) <==> Param(n) in ps {
      NamesIff(ps, n);
    }
    hide Template, Names, Clash, Resolve, HasEmpty, Outline, Render, Flatten;
  }

  /** The bare '?' that the author wrote outside literals. */
  function BareMarks(ps: seq<Piece>): nat {
    if ps == [] then 0 else (if ps[0] == HOLE then 1 else 0) + BareMarks(ps[1..])
  }

  // ---------------------------------------------------------------- what an outline holds

  /** Each slot contributes its value and its number in its place, and kept text nothing. */
  lemma {:induction false} SlotsAt<V>(os: seq<Out<V>>, i: nat)
    requires i < |os|
    ensures SlotValues(os) ==
            SlotValues(os[..i]) + (if os[i].Slot? then [os[i].value] else []) + SlotValues(os[i + 1..])
    ensures SlotNumbers(os) ==
            SlotNumbers(os[..i]) + (if os[i].Slot? then [os[i].number] else []) + SlotNumbers(os[i + 1..])
  {
    var mid, rest := [os[i]], os[i + 1..];
    OneSlot(os[i]);
    hide SlotValues, SlotNumbers;
    ValuesConcat(os[..i], mid);
    NumbersConcat(os[..i], mid);
    ValuesConcat(os[..i] + mid, rest);
    NumbersConcat(os[..i] + mid, rest);
    assert os == os[..i] + mid + rest;
  }

  lemma OneSlot<V>(o: Out<V>)
    ensures SlotValues([o]) == if o.Slot? then [o.value] else []
    ensures SlotNumbers([o]) == if o.Slot? then [o.number] else []
  {
    assert [o][1..] == [];
  }

  lemma {:induction false} CountIs(k: nat, n: nat, i: nat)
    requires i < n
    ensures Count(k, n)[i] == k + i
    decreases n
  {
    if i > 0 { CountIs(k + 1, n - 1, i - 1); }
  }

  lemma SlotsConcat<V>(xs: seq<Out<V>>, ys: seq<Out<V>>, bt: BindType)
    ensures Render(xs + ys, bt) == Render(xs, bt) + Render(ys, bt)
    ensures SlotValues(xs + ys) == SlotValues(xs) + SlotValues(ys)
    ensures SlotNumbers(xs + ys) == SlotNumbers(xs) + SlotNumbers(ys)
  {
    RenderConcat(xs, ys, bt);
    ValuesConcat(xs, ys);
    NumbersConcat(xs, ys);
  }

  lemma {:induction false} RenderConcat<V>(xs: seq<Out<V>>, ys: seq<Out<V>>, bt: BindType)
    ensures Render(xs + ys, bt) == Render(xs, bt) + Render(ys, bt)
  {
    if xs == [] {
      assert xs + ys == ys;
    } else {
      hide Text;
      assert (xs + ys)[1..] == xs[1..] + ys;
      RenderConcat(xs[1..], ys, bt);
    }
  }

  lemma {:induction false} ValuesConcat<V>(xs: seq<Out<V>>, ys: seq<Out<V>>)
    ensures SlotValues(xs + ys) == SlotValues(xs) + SlotValues(ys)
  {
    if xs == [] {
      assert xs + ys == ys;
    } else {
      assert (xs + ys)[1..] == xs[1..] + ys;
      ValuesConcat(xs[1..], ys);
    }
  }

  lemma {:induction false} NumbersConcat<V>(xs: seq<Out<V>>, ys: seq<Out<V>>)
    ensures SlotNumbers(xs + ys) == SlotNumbers(xs) + SlotNumbers(ys)
  {
    if xs == [] {
      assert xs + ys == ys;
    } else {
      assert (xs + ys)[1..] == xs[1..] + ys;
      NumbersConcat(xs[1..], ys);
    }
  }

  function Text<V>(o: Out<V>, bt: BindType): string {
    match o case Keep(t) => t case Slot(n, _) => Mark(bt, n)
  }

  lemma SlotsStep<V>(items: seq<V>, k: nat, bt: BindType)
    requires |items| > 1
    ensures var rest := Slots(items[1..], k + 1);
            && Render(Slots(items, k), bt) == Mark(bt, k) + ", " + Render(rest, bt)
            && SlotValues(Slots(items, k)) == [items[0]] + SlotValues(rest)
            && SlotNumbers(Slots(items, k)) == [k] + SlotNumbers(rest)
  {
    var rest := Slots(items[1..], k + 1);
    var head := [Slot(k, items[0]), Keep(", ")];
    SlotsConcat(head, rest, bt);
    assert head[1..] == [Keep(", ")] && head[1..][1..] == [];
    assert Render(head, bt) == Mark(bt, k) + (", " + []);
    assert SlotValues(head) == [items[0]] && SlotNumbers(head) == [k];
  }

  lemma SlotsOne<V>(items: seq<V>, k: nat, bt: BindType)
    requires |items| == 1
    ensures Render(Slots(items, k), bt) == Mark(bt, k)
    ensures SlotValues(Slots(items, k)) == items && SlotNumbers(Slots(items, k)) == [k]
  {
    assert Slots(items, k)[1..] == [];
    assert Render(Slots(items, k), bt) == Mark(bt, k) + [];
  }

  lemma {:induction false} SlotsHold<V>(items: seq<V>, k: nat)
    requires items != []
    ensures SlotValues(Slots(items, k)) == items
    ensures SlotNumbers(Slots(items, k)) == Count(k, |items|)
    decreases |items|
  {
    if |items| == 1 {
      SlotsOne(items, k, Question);
      assert Count(k, 1) == [k] + Count(k + 1, 0);
    } else {
      SlotsStep(items, k, Question);
      SlotsHold(items[1..], k + 1);
    }
  }

  lemma {:induction false} CountConcat(k: nat, m: nat, n: nat)
    ensures Count(k, m + n) == Count(k, m) + Count(k + m, n)
    decreases m
  {
    if m > 0 { CountConcat(k + 1, m - 1, n); }
  }

  /** The finished query has one slot per flattened argument, in order and numbered from
      `k` without gaps. */
  lemma {:induction false} OutlineHolds<V>(ps: seq<Piece>, vs: seq<Value<V>>, k: nat)
    requires |Names(ps)| == |vs| && !HasEmpty(vs)
    ensures SlotValues(Outline(ps, vs, k)) == Flatten(vs)
    ensures SlotNumbers(Outline(ps, vs, k)) == Count(k, |Flatten(vs)|)
    decreases |ps|
  {
    if ps != [] && ps[0].Param? {
      TailHasNoEmpty(vs);
      OutlineHolds(ps[1..], vs[1..], k + Width(vs[0]));
      OutlineUnfold(ps, vs, k);
      hide *;
      JoinSlots(Items(vs[0]), Outline(ps[1..], vs[1..], k + Width(vs[0])), Flatten(vs[1..]), k);
    } else if ps != [] {
      OutlineHolds(ps[1..], vs, k);
      KeepHolds(Source(ps[0]), Outline(ps[1..], vs, k));
    }
  }

  lemma KeepHolds<V>(t: string, os: seq<Out<V>>)
    ensures SlotValues([Keep(t)] + os) == SlotValues(os)
    ensures SlotNumbers([Keep(t)] + os) == SlotNumbers(os)
  {
    assert ([Keep(t)] + os)[1..] == os;
  }

  lemma JoinSlots<V>(items: seq<V>, rest: seq<Out<V>>, flat: seq<V>, k: nat)
    requires items != [] && SlotValues(rest) == flat && SlotNumbers(rest) == Count(k + |items|, |flat|)
    ensures SlotValues(Slots(items, k) + rest) == items + flat
    ensures SlotNumbers(Slots(items, k) + rest) == Count(k, |items + flat|)
  {
    hide *;
    SlotsHold(items, k);
    ValuesConcat(Slots(items, k), rest);
    NumbersConcat(Slots(items, k), rest);
    CountConcat(k, |items|, |flat|);
  }

  lemma OutlineUnfold<V>(ps: seq<Piece>, vs: seq<Value<V>>, k: nat)
    requires |Names(ps)| == |vs| && !HasEmpty(vs) && ps != [] && ps[0].Param?
    ensures vs != []
    ensures !HasEmpty(vs[1..]) && |Items(vs[0])| == Width(vs[0]) && |Names(ps[1..])| == |vs[1..]|
    ensures Outline(ps, vs, k) == Slots(Items(vs[0]), k) + Outline(ps[1..], vs[1..], k + Width(vs[0]))
    ensures Flatten(vs) == Items(vs[0]) + Flatten(vs[1..])
  {
    TailHasNoEmpty(vs);
    hide Slots;
    hide HasEmpty;
  }

  // ---------------------------------------------------------------- numbering

  /** Filling every hole with '?' changes nothing. */
  lemma {:induction false} FillQuestions(ps: seq<Piece>, k: nat)
    ensures Fill(ps, MarksFrom(Question, k, Holes(ps))) == SourceText(ps)
  {
    if ps != [] {
      if ps[0] == HOLE {
        FillQuestions(ps[1..], k + 1);
        var fs := MarksFrom(Question, k, Holes(ps));
        assert fs[1..] == MarksFrom(Question, k + 1, Holes(ps[1..]));
      } else {
        FillQuestions(ps[1..], k);
      }
    }
  }

  lemma {:induction false} MarksShow(bt: BindType, k: nat, n: nat)
    ensures forall i :: 0 <= i < n ==> IsMark(MarksFrom(bt, k, n)[i], bt, k + i)
    decreases n
  {
    hide IsMark, Mark;
    if n > 0 {
      MarkShows(bt, k);
      MarksShow(bt, k + 1, n - 1);
      var rest := MarksFrom(bt, k + 1, n - 1);
      assert forall i :: 0 < i < n ==> MarksFrom(bt, k, n)[i] == rest[i - 1];
    }
  }

  /** For every driver, rebinding fills the holes with the marks from 1 on, and each shows its
      number. */
  lemma RebindFills(query: string, drv: Driver)
    ensures var ps := Lex(FRESH, query, drv.dialect);
            var ms := MarksFrom(drv.bindType, 1, Holes(ps));
            && Rebind(query, drv) == Fill(ps, ms)
            && forall k :: 0 <= k < |ms| ==> IsMark(ms[k], drv.bindType, k + 1)
  {
    MarksShow(drv.bindType, 1, Holes(Lex(FRESH, query, drv.dialect)));
    hide IsMark, MarksFrom;
    hide Lex;
    hide Fill;
    if drv.bindType.Question? {
      LexIsLossless(FRESH, query, drv.dialect);
      FillQuestions(Lex(FRESH, query, drv.dialect), 1);
    }
  }

  lemma FillSkip(p: Piece, rest: seq<Piece>, bt: BindType, k: nat)
    ensures Holes([p] + rest) == (if p == HOLE then 1 else 0) + Holes(rest)
    ensures Fill([p] + rest, MarksFrom(bt, k, Holes([p] + rest))) ==
            if p == HOLE then Mark(bt, k) + Fill(rest, MarksFrom(bt, k + 1, Holes(rest)))
            else Source(p) + Fill(rest, MarksFrom(bt, k, Holes(rest)))
  {
    var fs := MarksFrom(bt, k, Holes([p] + rest));
    assert ([p] + rest)[1..] == rest;
    if p == HOLE { assert fs[1..] == MarksFrom(bt, k + 1, Holes(rest)); }
  }

  lemma {:induction false} FillGroup<V>(items: seq<V>, rest: seq<Piece>, bt: BindType, k: nat)
    requires items != []
    ensures var ps := MarkPieces(|items|) + rest;
            && Holes(ps) == |items| + Holes(rest)
            && Fill(ps, MarksFrom(bt, k, Holes(ps))) ==
               Render(Slots(items, k), bt) + Fill(rest, MarksFrom(bt, k + |items|, Holes(rest)))
    decreases |items|
  {
    hide Fill;
    hide Holes;
    hide Render;
    hide Slots;
    hide MarksFrom;
    hide Mark;
    if |items| == 1 {
      OneMark();
      SlotsOne(items, k, bt);
      FillSkip(HOLE, rest, bt, k);
    } else {
      SlotsStep(items, k, bt);
      FillGroup(items[1..], rest, bt, k + 1);
      FillSeparated(|items| - 1, rest, bt, k);
    }
  }

  lemma FillSeparated(w: pos, rest: seq<Piece>, bt: BindType, k: nat)
    ensures var z := MarkPieces(w) + rest;
            var ps := MarkPieces(w + 1) + rest;
            && Holes(ps) == 1 + Holes(z)
            && Fill(ps, MarksFrom(bt, k, Holes(ps))) == Mark(bt, k) + ", " + Fill(z, MarksFrom(bt, k + 1, Holes(z)))
  {
    var z := MarkPieces(w) + rest;
    MarkListStep(w + 1);
    hide *;
    Separated(HOLE, MarkPieces(w), rest);
    Spaced(Mark(bt, k), Fill(z, MarksFrom(bt, k + 1, Holes(z))));
    assert Source(Chr(',')) == [','] && Source(Chr(' ')) == [' '] && Chr(',') != HOLE && Chr(' ') != HOLE by {
      SeparatorSources();
    }
    FillSkip(HOLE, [Chr(',')] + ([Chr(' ')] + z), bt, k);
    FillSkip(Chr(','), [Chr(' ')] + z, bt, k + 1);
    FillSkip(Chr(' '), z, bt, k + 1);
  }

  lemma Separated(p: Piece, ps: seq<Piece>, rest: seq<Piece>)
    ensures [p, Chr(','), Chr(' ')] + ps + rest == [p] + ([Chr(',')] + ([Chr(' ')] + (ps + rest)))
  {
  }

  lemma Spaced(m: string, y: string)
    ensures m + ([','] + ([' '] + y)) == m + ", " + y
  {
  }

  lemma SeparatorSources()
    ensures Source(Chr(',')) == [','] && Source(Chr(' ')) == [' '] && Chr(',') != HOLE && Chr(' ') != HOLE
  {
  }

  // ---------------------------------------------------------------- templates and holes

  lemma {:induction false} HolesConcat(xs: seq<Piece>, ys: seq<Piece>)
    ensures Holes(xs + ys) == Holes(xs) + Holes(ys)
  {
    if xs == [] {
      assert xs + ys == ys;
    } else {
      assert (xs + ys)[1..] == xs[1..] + ys;
      HolesConcat(xs[1..], ys);
    }
  }

  lemma TokenHoles(p: Piece)
    ensures Holes(Tokens(p)) == if p.Param? || p == HOLE then 1 else 0
  {
    var ts := Tokens(p);
    var e: seq<Piece> := [];
    assert Holes(e) == 0;
    if p == Cast {
      assert ts[1..] == [Chr(':')] && [Chr(':')][1..] == e;
      assert Holes(ts) == Holes(ts[1..]) == Holes([Chr(':')][1..]);
    } else {
      assert ts[1..] == e;
    }
  }

  /** The placeholders of a bound text are its parameters and the bare marks. */
  lemma {:induction false} TemplateHoles(ps: seq<Piece>)
    ensures Holes(TokensOf(ps)) == |Names(ps)| + BareMarks(ps)
  {
    if ps != [] {
      TemplateHoles(ps[1..]);
      TokenHoles(ps[0]);
      HolesConcat(Tokens(ps[0]), TokensOf(ps[1..]));
    }
  }

  lemma {:induction false} WidenConcat(xs: seq<Piece>, ys: seq<Piece>, ws: seq<pos>)
    requires Holes(xs) == 0 && Holes(ys) == |ws|
    ensures Holes(xs + ys) == |ws| && Widen(xs + ys, ws) == xs + Widen(ys, ws)
  {
    HolesConcat(xs, ys);
    if xs == [] {
      assert xs + ys == ys;
    } else {
      assert xs[0] != HOLE && Holes(xs[1..]) == 0;
      hide *;
      WidenConcat(xs[1..], ys, ws);
      WidenStep(xs[0], xs[1..] + ys, ws);
      HeadAndTail(xs, ys);
      HeadAndTail(xs, Widen(ys, ws));
    }
  }

  lemma {:induction false} FillText(xs: seq<Piece>, ys: seq<Piece>, bt: BindType, k: nat)
    requires Holes(xs) == 0
    ensures Holes(xs + ys) == Holes(ys)
    ensures Fill(xs + ys, MarksFrom(bt, k, Holes(ys))) == SourceText(xs) + Fill(ys, MarksFrom(bt, k, Holes(ys)))
  {
    HolesConcat(xs, ys);
    if xs == [] {
      assert xs + ys == ys;
    } else {
      assert (xs + ys)[1..] == xs[1..] + ys;
      FillText(xs[1..], ys, bt, k);
    }
  }

  lemma TokenText(p: Piece)
    requires !p.Param?
    ensures SourceText(Tokens(p)) == Source(p)
  {
    var ts := Tokens(p);
    if p == Cast {
      assert ts[1..] == [Chr(':')] && [Chr(':')][1..] == [];
      assert SourceText([Chr(':')]) == [':'] + SourceText([Chr(':')][1..]);
      assert SourceText(ts) == [':'] + SourceText(ts[1..]);
    } else {
      assert ts[1..] == [];
      assert Source(p) + [] == Source(p);
    }
  }

  /** Numbering the widened template gives the outline. */
  lemma {:induction false} NumberedIsOutline<V>(ps: seq<Piece>, vs: seq<Value<V>>, bt: BindType, k: nat)
    requires |Names(ps)| == |vs| && !HasEmpty(vs) && BareMarks(ps) == 0
    ensures Holes(TokensOf(ps)) == |vs|
    ensures var w := Widen(TokensOf(ps), Widths(vs));
            Fill(w, MarksFrom(bt, k, Holes(w))) == Render(Outline(ps, vs, k), bt)
    decreases |ps|, 1
  {
    TemplateHoles(ps);
    if ps != [] {
      TemplateHoles(ps[1..]);
      var ts := TokensOf(ps[1..]);
      if ps[0].Param? {
        NumberParam(ps, vs, bt, k);
      } else {
        NumberedIsOutline(ps[1..], vs, bt, k);
        NumberText(ps, vs, bt, k);
      }
    }
  }

  lemma NumberText<V>(ps: seq<Piece>, vs: seq<Value<V>>, bt: BindType, k: nat)
    requires |Names(ps)| == |vs| && !HasEmpty(vs) && BareMarks(ps) == 0
    requires ps != [] && !ps[0].Param? && |Names(ps[1..])| == |vs|
    requires Holes(TokensOf(ps)) == |vs| && Holes(TokensOf(ps[1..])) == |vs|
    requires var w := Widen(TokensOf(ps[1..]), Widths(vs));
             Fill(w, MarksFrom(bt, k, Holes(w))) == Render(Outline(ps[1..], vs, k), bt)
    ensures var w := Widen(TokensOf(ps), Widths(vs));
            Fill(w, MarksFrom(bt, k, Holes(w))) == Render(Outline(ps, vs, k), bt)
  {
    var ts := TokensOf(ps[1..]);
    var w := Widen(ts, Widths(vs));
    TokenHoles(ps[0]);
    assert TokensOf(ps) == Tokens(ps[0]) + ts;
    assert Outline(ps, vs, k) == [Keep(Source(ps[0]))] + Outline(ps[1..], vs, k);
    hide Widen;
    hide Fill;
    hide Outline;
    hide TokensOf;
    WidenConcat(Tokens(ps[0]), ts, Widths(vs));
    FillText(Tokens(ps[0]), w, bt, k);
    TokenText(ps[0]);
    RenderKeep(Source(ps[0]), Outline(ps[1..], vs, k), bt);
  }

  lemma RenderKeep<V>(t: string, os: seq<Out<V>>, bt: BindType)
    ensures Render([Keep(t)] + os, bt) == t + Render(os, bt)
  {
    assert ([Keep(t)] + os)[1..] == os;
  }

  lemma {:induction false} NumberParam<V>(ps: seq<Piece>, vs: seq<Value<V>>, bt: BindType, k: nat)
    requires |Names(ps)| == |vs| && !HasEmpty(vs) && BareMarks(ps) == 0
    requires ps != [] && ps[0].Param? && Holes(TokensOf(ps)) == |vs|
    ensures var w := Widen(TokensOf(ps), Widths(vs));
            Fill(w, MarksFrom(bt, k, Holes(w))) == Render(Outline(ps, vs, k), bt)
    decreases |ps|, 0
  {
    hide *;
    ParamUnfold(ps, vs);
    OutlineUnfold(ps, vs, k);
    var n := Width(vs[0]);
    NumberedIsOutline(ps[1..], vs[1..], bt, k + n);
    var ts := TokensOf(ps[1..]);
    var ws := Widths(vs);
    var rest := Outline(ps[1..], vs[1..], k + n);
    WidenStep(HOLE, ts, ws);
    FillGroup(Items(vs[0]), Widen(ts, ws[1..]), bt, k);
    SlotsConcat(Slots(Items(vs[0]), k), rest, bt);
  }

  lemma ParamUnfold<V>(ps: seq<Piece>, vs: seq<Value<V>>)
    requires |Names(ps)| == |vs| && !HasEmpty(vs) && BareMarks(ps) == 0
    requires ps != [] && ps[0].Param?
    ensures !HasEmpty(vs[1..]) && (vs[0].Slice? ==> vs[0].items != [])
    ensures Items(vs[0]) != [] && |Items(vs[0])| == Width(vs[0])
    ensures BareMarks(ps[1..]) == 0 && TokensOf(ps) == [HOLE] + TokensOf(ps[1..])
    ensures Widths(vs) == [Width(vs[0])] + Widths(vs[1..]) && Widths(vs)[1..] == Widths(vs[1..])
  {
    TailHasNoEmpty(vs);
    hide HasEmpty;
  }

  // ---------------------------------------------------------------- end to end

  lemma {:induction false} WidenOnes<V>(ps: seq<Piece>, vs: seq<Value<V>>)
    requires Holes(ps) == |vs| && !HasSlice(vs) && !HasEmpty(vs)
    ensures Widen(ps, Widths(vs)) == ps
  {
    if ps != [] && ps[0] == HOLE {
      TailHasNoEmpty(vs);
      assert forall k :: 0 <= k < |vs| - 1 ==> vs[1..][k] == vs[k + 1];
      WidenOnes(ps[1..], vs[1..]);
      OneMark();
      assert Widths(vs)[1..] == Widths(vs[1..]) && MarkPieces(Widths(vs)[0]) == [HOLE];
    } else if ps != [] {
      WidenOnes(ps[1..], vs);
    }
  }

  lemma {:induction false} WidenedHoles<V>(ps: seq<Piece>, vs: seq<Value<V>>)
    requires Holes(ps) == |vs| && !HasEmpty(vs)
    ensures Holes(Widen(ps, Widths(vs))) == |Flatten(vs)|
  {
    if ps != [] && ps[0] == HOLE {
      TailHasNoEmpty(vs);
      WidenedHoles(ps[1..], vs[1..]);
      var rest := Widen(ps[1..], Widths(vs[1..]));
      assert Widths(vs)[1..] == Widths(vs[1..]);
      FillGroup(Items(vs[0]), rest, Question, 1);
    } else if ps != [] {
      WidenedHoles(ps[1..], vs);
      var rest := Widen(ps[1..], Widths(vs));
      assert ([ps[0]] + rest)[1..] == rest;
    }
  }

  /** The text that is numbered, once the slices are expanded. */
  function ExpandedText<V>(text: string, ps: seq<Piece>, vs: seq<Value<V>>): string
    requires Holes(ps) == |vs| && !HasEmpty(vs)
  {
    if HasSlice(vs) then Fill(ps, MarkLists(Widths(vs))) else text
  }

  lemma ExpandedLexes<V>(text: string, vs: seq<Value<V>>, d: Dialect)
    requires Holes(Lex(FRESH, text, d)) == |vs| && !HasEmpty(vs)
    ensures var ps := Lex(FRESH, text, d);
            Lex(FRESH, ExpandedText(text, ps, vs), d) == Widen(ps, Widths(vs))
  {
    hide Lex;
    hide Fill;
    hide Widen;
    if HasSlice(vs) {
      ExpansionLexes(FRESH, text, d, Widths(vs));
    } else {
      WidenOnes(Lex(FRESH, text, d), vs);
    }
  }

  lemma NamesOfTemplate(query: string, d: Dialect)
    requires SentinelFree(query)
    ensures var ps := Template(FRESH, query, d);
            BindNames(Protect(query, d)) == if Clash(ps) then Unreadable else Named(HalfText(ps), Names(ps))
    ensures Restore(HalfText(Template(FRESH, query, d))) == MarkedText(Template(FRESH, query, d))
  {
    ProtectionIsLossless(query, d);
    BindNamesOfTemplate(FRESH, query, d);
    RestoreHalf(FRESH, query, d);
  }

  lemma BoundTokens(query: string, d: Dialect)
    requires BoundarySafe(FRESH, query, d)
    ensures var ps := Template(FRESH, query, d);
            Lex(FRESH, MarkedText(ps), d) == TokensOf(ps) && Holes(TokensOf(ps)) == |Names(ps)| + BareMarks(ps)
  {
    hide *;
    SameViewRefl(FRESH, query, d);
    BoundTextLexes(FRESH, FRESH, query, d);
    TemplateHoles(Template(FRESH, query, d));
  }

  /** End to end: for every query without sentinels, without bare marks and with safe
      boundaries, and for every argument map, the staged pipeline returns exactly what the
      template says, results and errors alike. */
  lemma BindIsReference<V>(drv: Driver, query: string, env: map<string, Arg<V>>)
    requires SentinelFree(query) && BoundarySafe(FRESH, query, drv.dialect)
    requires BareMarks(Template(FRESH, query, drv.dialect)) == 0
    ensures Bind(drv, query, Some(env)) == Reference(drv, query, env)
  {
    var d := drv.dialect;
    var ps := Template(FRESH, query, d);
    NamesOfTemplate(query, d);
    hide *;
    if !Clash(ps) {
      match Lookup(Names(ps), env) {
        case None => NothingBound(drv, query, env);
        case Some(args) =>
          LookupHolds(Names(ps), env);
          ArgumentsBound(drv, query, args);
          BoundIs(drv, query, env, args);
      }
    } else {
      NothingBound(drv, query, env);
    }
  }

  /** A query that cannot be read or that lacks a name fails before any expansion. */
  lemma NothingBound<V>(drv: Driver, query: string, env: map<string, Arg<V>>)
    requires var ps := Template(FRESH, query, drv.dialect);
             BindNames(Protect(query, drv.dialect)) == if Clash(ps) then Unreadable else Named(HalfText(ps), Names(ps))
    requires var ps := Template(FRESH, query, drv.dialect); Clash(ps) || Lookup(Names(ps), env).None?
    ensures Bind(drv, query, Some(env)) == Reference(drv, query, env)
  {
    hide Template, Protect, BindNames, Names, Clash, HalfText, Lookup;
  }

  /** What becomes of the arguments that were found. */
  function Bound<V>(drv: Driver, text: string, args: seq<Arg<V>>): Result<Query<V>> {
    match Expand(text, args, drv.dialect)
    case Err(e) => Err(e)
    case Ok(u) => Ok(Query(Rebind(u.text, drv), u.args))
  }

  lemma LookupHolds<V>(names: seq<string>, env: map<string, Arg<V>>)
    requires Lookup(names, env).Some?
    ensures |Lookup(names, env).value| == |names|
  {
  }

  lemma BoundIs<V>(drv: Driver, query: string, env: map<string, Arg<V>>, args: seq<Arg<V>>)
    requires var ps := Template(FRESH, query, drv.dialect);
             && BindNames(Protect(query, drv.dialect)) == Named(HalfText(ps), Names(ps)) && !Clash(ps)
             && Restore(HalfText(ps)) == MarkedText(ps)
             && Lookup(Names(ps), env) == Some(args) && |Names(ps)| == |args|
             && Bound(drv, MarkedText(ps), args) == BoundReference(drv, ps, args)
    ensures Bind(drv, query, Some(env)) == Reference(drv, query, env)
  {
    hide Template, Protect, BindNames, Names, Clash, HalfText, Restore, MarkedText, Lookup;
    hide Expand, Rebind, Outline, Render, Resolve, HasEmpty, Flatten;
  }

  lemma ArgumentsBound<V>(drv: Driver, query: string, args: seq<Arg<V>>)
    requires SentinelFree(query) && BoundarySafe(FRESH, query, drv.dialect)
    requires BareMarks(Template(FRESH, query, drv.dialect)) == 0
    requires |Names(Template(FRESH, query, drv.dialect))| == |args|
    ensures var ps := Template(FRESH, query, drv.dialect);
            Bound(drv, MarkedText(ps), args) == BoundReference(drv, ps, args)
  {
    hide SentinelFree, BoundarySafe, BareMarks, Template, Names, MarkedText, Rebind, Outline, Render, Lex, Holes, Fill;
    hide HasEmpty, HasSlice, Flatten, Resolve, Widths, MarkLists;
    if Resolve(args).Some? && !HasEmpty(Resolve(args).value) {
      NumberedText(drv, query, Resolve(args).value);
    }
  }

  lemma NumberedText<V>(drv: Driver, query: string, vs: seq<Value<V>>)
    requires SentinelFree(query) && BoundarySafe(FRESH, query, drv.dialect)
    requires BareMarks(Template(FRESH, query, drv.dialect)) == 0
    requires |Names(Template(FRESH, query, drv.dialect))| == |vs| && !HasEmpty(vs)
    ensures var ps := Template(FRESH, query, drv.dialect);
            var text := MarkedText(ps);
            var ts := Lex(FRESH, text, drv.dialect);
            && Holes(ts) == |vs|
            && Rebind(ExpandedText(text, ts, vs), drv) == Render(Outline(ps, vs, 1), drv.bindType)
  {
    var d := drv.dialect;
    var ps := Template(FRESH, query, d);
    var text := MarkedText(ps);
    hide *;
    BoundTokens(query, d);
    ExpandedLexes(text, vs, d);
    RebindFills(ExpandedText(text, Lex(FRESH, text, d), vs), drv);
    NumberedIsOutline(ps, vs, drv.bindType, 1);
  }

  // ---------------------------------------------------------------- the finished query

  lemma {:induction false} SlotsAreGroup<V>(items: seq<V>, bt: BindType, k: nat)
    requires items != []
    ensures Render(Slots(items, k), bt) == Group(bt, k, |items|)
    decreases |items|
  {
    hide Render, Slots, Mark;
    if |items| == 1 {
      SlotsOne(items, k, bt);
    } else {
      SlotsStep(items, k, bt);
      SlotsAreGroup(items[1..], bt, k + 1);
    }
  }

  lemma {:induction false} OutlineIsStamped<V>(ps: seq<Piece>, vs: seq<Value<V>>, bt: BindType, k: nat)
    requires |Names(ps)| == |vs| && !HasEmpty(vs)
    ensures Render(Outline(ps, vs, k), bt) == Stamped(ps, Widths(vs), bt, k)
    decreases |ps|
  {
    hide *;
    if ps == [] {
      NothingStamped(ps, vs, bt, k);
    } else if ps[0].Param? {
      OutlineUnfold(ps, vs, k);
      StampedUnfold(ps, vs, bt, k);
      var n := Width(vs[0]);
      OutlineIsStamped(ps[1..], vs[1..], bt, k + n);
      SlotsAreGroup(Items(vs[0]), bt, k);
      SlotsConcat(Slots(Items(vs[0]), k), Outline(ps[1..], vs[1..], k + n), bt);
    } else {
      TextUnfold(ps, vs, bt, k);
      OutlineIsStamped(ps[1..], vs, bt, k);
      RenderKeep(Source(ps[0]), Outline(ps[1..], vs, k), bt);
    }
  }

  lemma NothingStamped<V>(ps: seq<Piece>, vs: seq<Value<V>>, bt: BindType, k: nat)
    requires ps == [] && |Names(ps)| == |vs| && !HasEmpty(vs)
    ensures Render(Outline(ps, vs, k), bt) == Stamped(ps, Widths(vs), bt, k)
  {
  }

  lemma TextUnfold<V>(ps: seq<Piece>, vs: seq<Value<V>>, bt: BindType, k: nat)
    requires |Names(ps)| == |vs| && !HasEmpty(vs) && ps != [] && !ps[0].Param?
    ensures |Names(ps[1..])| == |vs|
    ensures Outline(ps, vs, k) == [Keep(Source(ps[0]))] + Outline(ps[1..], vs, k)
    ensures Stamped(ps, Widths(vs), bt, k) == Source(ps[0]) + Stamped(ps[1..], Widths(vs), bt, k)
  {
    hide HasEmpty, Widths;
  }

  lemma StampedUnfold<V>(ps: seq<Piece>, vs: seq<Value<V>>, bt: BindType, k: nat)
    requires |Names(ps)| == |vs| && !HasEmpty(vs) && ps != [] && ps[0].Param?
    ensures !HasEmpty(vs[1..]) && (vs[0].Slice? ==> vs[0].items != []) && Items(vs[0]) != []
    ensures Stamped(ps, Widths(vs), bt, k) ==
            Group(bt, k, Width(vs[0])) + Stamped(ps[1..], Widths(vs[1..]), bt, k + Width(vs[0]))
  {
    TailHasNoEmpty(vs);
    hide HasEmpty, Group;
    assert Widths(vs)[1..] == Widths(vs[1..]);
  }

  /** The values that the names stand for, or None when one is missing or fails. */
  function ValuesOf<V>(names: seq<string>, env: map<string, Arg<V>>): Option<seq<Value<V>>> {
    match Lookup(names, env) case None => None case Some(args) => Resolve(args)
  }

  /** What is written for each slot is the placeholder of its number. */
  predicate ShowsNumbers<V>(os: seq<Out<V>>, bt: BindType) {
    forall i :: 0 <= i < |os| ==>
      if os[i].Keep? then Text(os[i], bt) == os[i].text else IsMark(Text(os[i], bt), bt, os[i].number)
  }

  lemma SlotsShow<V>(os: seq<Out<V>>, bt: BindType)
    ensures ShowsNumbers(os, bt)
  {
    hide IsMark, Mark;
    forall i | 0 <= i < |os| && os[i].Slot? ensures IsMark(Text(os[i], bt), bt, os[i].number) {
      MarkShows(bt, os[i].number);
    }
  }

  /** What a caller gets: the text is the query with a group of marks for each parameter and
      no other byte changed; it has one mark per argument, and mark k carries the number k and
      stands for the k-th argument; the arguments are the flattened values; and the scanner
      reads in it every mark outside literals, and everything else as in the query, if and
      only if every parameter is mark safe. */
  ghost predicate IsFinished<V>(drv: Driver, query: string, vs: seq<Value<V>>, q: Query<V>) {
    var ps := Template(FRESH, query, drv.dialect);
    && |Names(ps)| == |vs| && !HasEmpty(vs)
    && q.args == Flatten(vs)
    && var os := Outline(ps, vs, 1);
    && q.text == Render(os, drv.bindType)
    && SlotValues(os) == q.args && SlotNumbers(os) == Count(1, |q.args|)
    && ShowsNumbers(os, drv.bindType)
    && query == Weave(Gaps(ps), References(Names(ps)))
    && q.text == Weave(Gaps(ps), Groups(drv.bindType, 1, Widths(vs)))
    && (Lex(FRESH, q.text, drv.dialect) == StampedTokens(ps, Widths(vs), drv.bindType, 1)
        <==> MarkSafe(FRESH, FRESH, query, drv.dialect, drv.bindType))
  }

  lemma FinishedIs<V>(drv: Driver, query: string, vs: seq<Value<V>>)
    requires |Names(Template(FRESH, query, drv.dialect))| == |vs| && !HasEmpty(vs)
    ensures IsFinished(drv, query, vs,
                       Query(Render(Outline(Template(FRESH, query, drv.dialect), vs, 1), drv.bindType), Flatten(vs)))
  {
    var ps := Template(FRESH, query, drv.dialect);
    OutlineIsStamped(ps, vs, drv.bindType, 1);
    OutlineHolds(ps, vs, 1);
    SlotsShow(Outline(ps, vs, 1), drv.bindType);
    SameViewRefl(FRESH, query, drv.dialect);
    FinishedLexes(FRESH, FRESH, query, drv.dialect, Widths(vs), drv.bindType, 1);
    EveryOtherByteIsKept(FRESH, query, drv.dialect, Widths(vs), drv.bindType, 1);
    hide Render, Outline, Template, Names, HasEmpty, Widths, Stamped, StampedTokens, Lex, MarkSafe, Weave, Gaps, Groups;
    hide References, Flatten, SlotValues, SlotNumbers, Count, ShowsNumbers;
  }

  lemma FinishedQuery<V>(drv: Driver, query: string, env: map<string, Arg<V>>)
    requires SentinelFree(query) && BoundarySafe(FRESH, query, drv.dialect)
    requires BareMarks(Template(FRESH, query, drv.dialect)) == 0
    ensures var r := Bind(drv, query, Some(env));
            var vs := ValuesOf(Names(Template(FRESH, query, drv.dialect)), env);
            r.Ok? ==> vs.Some? && IsFinished(drv, query, vs.value, r.value)
  {
    BindIsReference(drv, query, env);
    hide Bind, IsFinished, Render, Outline, Template, Names, Clash, HasEmpty, Resolve, Lookup, Flatten;
    var ps := Template(FRESH, query, drv.dialect);
    var vs := ValuesOf(Names(ps), env);
    if vs.Some? && !HasEmpty(vs.value) {
      FinishedIs(drv, query, vs.value);
    }
  }

  /** A query that can be told to be safe at a glance: no name directly followed by a single
      quote or a '$', no bare '?' and, where marks and dollar quotes start alike, no '$'
      outside literals. The scanner reads its finished text as the template says. */
  lemma PlainQueryIsRead<V>(drv: Driver, query: string, env: map<string, Arg<V>>)
    requires var ps := Template(FRESH, query, drv.dialect);
             && SentinelFree(query) && NamesApart(ps) && BareMarks(ps) == 0
             && (drv.bindType.Dollar? && drv.dialect.Postgres? ==> Chr('$') !in ps)
    ensures var r := Bind(drv, query, Some(env));
            var ps := Template(FRESH, query, drv.dialect);
            var vs := ValuesOf(Names(ps), env);
            r.Ok? ==>
              && vs.Some? && IsFinished(drv, query, vs.value, r.value)
              && Lex(FRESH, r.value.text, drv.dialect) == StampedTokens(ps, Widths(vs.value), drv.bindType, 1)
  {
    hide *;
    ApartIsSafe(FRESH, FRESH, query, drv.dialect, drv.bindType);
    ApartIsSafe(FRESH, FRESH, query, drv.dialect, Question);
    FinishedQuery(drv, query, env);
    var vs := ValuesOf(Names(Template(FRESH, query, drv.dialect)), env);
    var q := Bind(drv, query, Some(env));
    if q.Ok? { FinishedReads(drv, query, vs.value, q.value); }
  }

  lemma FinishedReads<V>(drv: Driver, query: string, vs: seq<Value<V>>, q: Query<V>)
    requires IsFinished(drv, query, vs, q) && MarkSafe(FRESH, FRESH, query, drv.dialect, drv.bindType)
    ensures var ps := Template(FRESH, query, drv.dialect);
            && |Names(ps)| == |vs| && !HasEmpty(vs)
            && Lex(FRESH, q.text, drv.dialect) == StampedTokens(ps, Widths(vs), drv.bindType, 1)
  {
    hide Lex, Template, Names, HasEmpty, MarkSafe, Widths, StampedTokens, Weave, Gaps, Groups, References;
    hide Outline, Render, Flatten, SlotValues, SlotNumbers, Count, ShowsNumbers;
  }

  /** The returned arguments match the placeholders of the query exactly when its author
      wrote no bare '?' outside literals. */
  lemma MarksMatchArguments<V>(drv: Driver, query: string, env: map<string, Arg<V>>)
    requires SentinelFree(query) && BoundarySafe(FRESH, query, drv.dialect)
    ensures match Unnumbered(drv, query, env)
            case Err(_) => true
            case Ok(u) =>
              Holes(Lex(FRESH, u.text, drv.dialect)) == |u.args|
              <==> BareMarks(Template(FRESH, query, drv.dialect)) == 0
  {
    var d := drv.dialect;
    var ps := Template(FRESH, query, d);
    NamesOfTemplate(query, d);
    BoundTokens(query, d);
    hide Lex;
    hide Template;
    hide Protect;
    hide Restore;
    hide BindNames;
    hide Holes;
    if !Clash(ps) && Lookup(Names(ps), env).Some? {
      var args := Lookup(Names(ps), env).value;
      if Resolve(args).Some? && !HasEmpty(Resolve(args).value) {
        var vs := Resolve(args).value;
        if HasSlice(vs) {
          if Holes(TokensOf(ps)) == |vs| {
            ExpandedLexes(MarkedText(ps), vs, d);
            WidenedHoles(TokensOf(ps), vs);
          }
        } else {
          FlatScalars(vs);
        }
      }
    }
  }

  lemma {:induction false} FlatScalars<V>(vs: seq<Value<V>>)
    requires !HasSlice(vs)
    ensures |Flatten(vs)| == |vs|
  {
    if vs != [] {
      assert forall k :: 0 <= k < |vs| - 1 ==> vs[1..][k] == vs[k + 1];
      FlatScalars(vs[1..]);
    }
  }

  // ---------------------------------------------------------------- outside the range

  /** A bare '?' breaks the count: the query `?` has a placeholder and no argument. */
  lemma BareMarkExample<V>(s: string, env: map<string, Arg<V>>, drv: Driver)
    requires |s| == 1 && s[0] == '?'
    ensures var u := Unnumbered(drv, s, env);
            u.Ok? && u.value.args == [] && Holes(Lex(FRESH, u.value.text, drv.dialect)) != 0
  {
    LoneMark(s, drv.dialect);
    var ps := Template(FRESH, s, drv.dialect);
    NamesOfTemplate(s, drv.dialect);
    MarksMatchArguments(drv, s, env);
    hide Template;
    hide Protect;
    hide Restore;
    hide BindNames;
    hide Lex;
    hide Holes;
    assert Lookup(Names(ps), env) == Some([]);
  }

  lemma LoneMark(s: string, d: Dialect)
    requires |s| == 1 && s[0] == '?'
    ensures var ps := Template(FRESH, s, d);
            Names(ps) == [] && !Clash(ps) && BareMarks(ps) == 1
    ensures SentinelFree(s) && BoundarySafe(FRESH, s, d)
  {
    MarksArePlain(FRESH, s, d);
    hide LitLen;
    var ps := Template(FRESH, s, d);
    assert s[1..] == [];
    assert ps == [HOLE] + Template(After(FRESH, s[..1]), s[1..], d);
    assert ps[1..] == [];
  }

  lemma EscapedLength(b: Behind, t: string)
    ensures LitLen(b, ['\''] + (['\\'] + (['\''] + t)), Postgres) ==
            if b.escape then 3 + QuotedTail(t, '\'', true)
            else 2 + QuotedTail(['\''] + t, '\'', false)
  {
    var y := ['\''] + t;
    var x := ['\\'] + y;
    assert (['\''] + x)[1..] == x && x[1..] == y && x[2..] == t;
  }

  /** The query `$:n` through the whole of Bind, for a PostgreSQL driver: it is in the range
      of BindIsReference, its one argument is returned, and the finished text is one
      dollar-quoted string that swallows the mark. */
  lemma DollarMarkSwallowed<V>(n: string, v: V)
    requires IsName(n)
    ensures var drv := Driver(Postgres, Dollar);
            var text := ['$'] + Mark(Dollar, 1);
            && Bind(drv, DollarQuery(n), Some(map[n := Ready(Scalar(v))])) == Ok(Query(text, [v]))
            && Lex(FRESH, text, Postgres) == [Lit(text)]
  {
    var drv := Driver(Postgres, Dollar);
    var env := map[n := Ready(Scalar(v))];
    var s := DollarQuery(n);
    DollarMarkFails(n, 1);
    NoSentinels(n);
    var ps := [Chr('$'), Param(n)];
    LonePair(n);
    ClashFree(ps);
    BindIsReference(drv, s, env);
    hide DollarQuery, Bind, Template, Lex, Mark, SentinelFree, MarkSafe, BoundarySafe, IsName;
    var vs := [Scalar(v)];
    SingleScalar(v, n);
    OutlineIsStamped(ps, vs, Dollar, 1);
    StampedPair(n, vs);
  }

  lemma NoSentinels(n: string)
    requires IsName(n)
    ensures SentinelFree(DollarQuery(n))
  {
  }

  lemma LonePair(n: string)
    ensures var ps := [Chr('$'), Param(n)]; Names(ps) == [n] && BareMarks(ps) == 0
  {
    var tail := [Param(n)];
    assert [Chr('$'), Param(n)][1..] == tail && tail[1..] == [];
    assert Names(tail) == [n] + Names(tail[1..]);
    assert BareMarks(tail) == BareMarks(tail[1..]) == 0;
  }

  lemma ClashFree(ps: seq<Piece>)
    requires |ps| == 2 && !ps[0].Param?
    ensures !Clash(ps)
  {
    assert |ps[1..]| == 1;
  }

  lemma SingleScalar<V>(v: V, n: string)
    ensures var vs := [Scalar(v)];
            var args := [Ready(Scalar(v))];
            && Lookup([n], map[n := Ready(Scalar(v))]) == Some(args)
            && Resolve(args) == Some(vs) && !HasEmpty(vs) && Flatten(vs) == [v]
  {
    var vs := [Scalar(v)];
    var args := [Ready(Scalar(v))];
    assert vs[1..] == [] && args[1..] == [];
    assert Lookup([n], map[n := Ready(Scalar(v))]).value == args;
    ResolveReady(Scalar(v));
    assert Flatten(vs) == [v] + Flatten(vs[1..]);
  }

  lemma ResolveReady<V>(v: Value<V>)
    ensures Resolve([Ready(v)]) == Some([v])
  {
    var args: seq<Arg<V>> := [Ready(v)];
    assert args[1..] == [];
    assert Resolve(args[1..]) == Some([]);
    assert [v] + [] == [v];
  }

  lemma StampedPair<V>(n: string, vs: seq<Value<V>>)
    requires |vs| == 1 && vs[0].Scalar?
    ensures !HasEmpty(vs) && |Names([Chr('$'), Param(n)])| == 1
    ensures Stamped([Chr('$'), Param(n)], Widths(vs), Dollar, 1) == ['$'] + Mark(Dollar, 1)
  {
    var ps := [Chr('$'), Param(n)];
    LonePair(n);
    hide Mark;
    assert ps[1..] == [Param(n)] && ps[1..][1..] == [];
    assert Stamped([Param(n)], Widths(vs), Dollar, 1) == Mark(Dollar, 1) + [];
  }

  lemma AfterE()
    ensures After(FRESH, [':', 'e']).escape
  {
    assert [':', 'e'][1..] == ['e'] && ['e'][1..] == [];
    assert After(FRESH, [':', 'e']) == After(Step(FRESH, ':'), ['e']);
  }

  /** A name before a quote moves a boundary: in `:e'\\'...` the name reads as the prefix of
      an escape string, and the mark that replaces it does not. */
  lemma EscapePrefixMoves(t: string)
    requires t != [] && t[0] != '\''
    ensures !BoundarySafe(FRESH, [':'] + (['e'] + (['\''] + (['\\'] + (['\''] + t)))), Postgres)
  {
    var r := ['\''] + (['\\'] + (['\''] + t));
    var n := ['e'] + r;
    var s := [':'] + n;
    assert s[1..] == n && n[1..] == r && s[2..] == r && s[1..2] == ['e'];
    assert NameRun(n) == 1 + NameRun(n[1..]) == 1;
    MarksArePlain(FRESH, s, Postgres);
    var b := After(FRESH, s[..2]);
    assert s[..2] == [':', 'e'];
    AfterE();
    hide After;
    EscapedLength(b, t);
    EscapedLength(FRESH, t);
    hide LitLen;
    assert PieceLen(FRESH, s, Postgres) == 2;
  }
}
