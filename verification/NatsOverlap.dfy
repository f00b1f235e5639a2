/** When two subject patterns overlap, and when a patched stream is free of overlaps, as
    JetStream demands of the subjects of one stream. */
module NatsOverlap {
  import opened NatsSubjects
  import opened NatsRouting

  // ---------------------------------------------------------------- overlap

  /** Whether some subject matches both patterns, token by token. */
  predicate Meets(p: seq<string>, q: seq<string>) {
    if p == [] || q == [] then p == q
    else if p[0] == REST || q[0] == REST then true
    else (p[0] == ANY || q[0] == ANY || p[0] == q[0]) && Meets(p[1..], q[1..])
  }

  ghost predicate Overlap(p: seq<string>, q: seq<string>) {
    exists x :: Concrete(x) && Matches(p, x) && Matches(q, x)
  }

  /** A subject that both match, with `f` where both have a wildcard. */
  function Common(p: seq<string>, q: seq<string>, f: string): seq<string> {
    if p == [] || q == [] then []
    else if p[0] == REST then Sample(q, f)
    else if q[0] == REST then Sample(p, f)
    else [if p[0] != ANY then p[0] else if q[0] != ANY then q[0] else f] + Common(p[1..], q[1..], f)
  }

  lemma {:induction false} CommonMatches(p: seq<string>, q: seq<string>, f: string)
    requires Meets(p, q) && f != ANY && f != REST
    ensures var x := Common(p, q, f); Concrete(x) && Matches(p, x) && Matches(q, x)
  {
    if p != [] && q != [] {
      var x := Common(p, q, f);
      if p[0] == REST {
        SampleMatches(q, f);
        assert x != [];
      } else if q[0] == REST {
        SampleMatches(p, f);
        assert x != [];
      } else {
        CommonMatches(p[1..], q[1..], f);
        assert x[1..] == Common(p[1..], q[1..], f);
      }
    }
  }

  lemma {:induction false} MatchedMeet(p: seq<string>, q: seq<string>, x: seq<string>)
    requires Matches(p, x) && Matches(q, x)
    ensures Meets(p, q)
  {
    if p != [] && q != [] && p[0] != REST && q[0] != REST { MatchedMeet(p[1..], q[1..], x[1..]); }
  }

  /** The token test decides overlap. */
  lemma MeetsIsOverlap(p: seq<string>, q: seq<string>)
    ensures Meets(p, q) <==> Overlap(p, q)
  {
    if Meets(p, q) {
      var f := "x";
      assert f[0] == 'x' && ANY[0] == '*' && REST[0] == '>';
      CommonMatches(p, q, f);
    } else if Overlap(p, q) {
      var x :| Concrete(x) && Matches(p, x) && Matches(q, x);
      MatchedMeet(p, q, x);
      assert false;
    }
  }

  predicate Meet(s: string, t: string) { Meets(Split(s), Split(t)) }

  /** Wider patterns overlap where narrower ones do. */
  lemma CoverersMeet(r: string, r': string, s: string, e: string)
    requires Cov(r, s) && Cov(r', e) && Meet(s, e)
    ensures Meet(r, r')
  {
    hide Split, Covers, Matches, Meets;
    MeetsIsOverlap(Split(s), Split(e));
    var x :| Concrete(x) && Matches(Split(s), x) && Matches(Split(e), x);
    CoversIsSound(Split(r), Split(s), x);
    CoversIsSound(Split(r'), Split(e), x);
    MatchedMeet(Split(r), Split(r'), x);
  }

  lemma CoverMeets(r: string, s: string)
    requires Cov(r, s)
    ensures Meet(r, s) && Meet(s, r)
  {
    hide Split, Covers, Matches, Meets, Sample;
    var f := "x";
    assert f[0] == 'x' && ANY[0] == '*' && REST[0] == '>';
    SampleMatches(Split(s), f);
    var x := Sample(Split(s), f);
    CoversIsSound(Split(r), Split(s), x);
    MatchedMeet(Split(r), Split(s), x);
    MatchedMeet(Split(s), Split(r), x);
  }

  lemma MeetSym(s: string, t: string)
    requires Meet(s, t)
    ensures Meet(t, s)
  {
    CoversReflexive(Split(s));
    CoversReflexive(Split(t));
    hide Split, Covers, Matches, Meets;
    MeetsIsOverlap(Split(s), Split(t));
    MeetsIsOverlap(Split(t), Split(s));
  }

  // ---------------------------------------------------------------- lists without overlaps

  /** No subject is matched at two places of the list. */
  predicate Disjoint(ss: seq<string>) {
    forall i, j :: 0 <= i < |ss| && 0 <= j < |ss| && i != j ==> !Meet(ss[i], ss[j])
  }

  /** Wherever an old subject and a new one overlap, one of them covers the other. */
  predicate Comparable(ss: seq<string>, news: seq<string>) {
    forall e, s :: e in ss && s in news && Meet(e, s) ==> Cov(e, s) || Cov(s, e)
  }

  lemma DisjointSame(ss: seq<string>, e: string, f: string)
    requires Disjoint(ss) && e in ss && f in ss && Meet(e, f)
    ensures e == f
  {
    hide Meet;
    var i :| 0 <= i < |ss| && ss[i] == e;
    var j :| 0 <= j < |ss| && ss[j] == f;
  }

  lemma {:induction false} WithoutIsDisjoint(ss: seq<string>, s: string)
    requires Disjoint(ss)
    ensures Disjoint(Without(ss, s))
  {
    hide Cov, Meet;
    if ss != [] {
      var r := Without(ss[1..], s);
      assert forall i :: 0 <= i < |ss| - 1 ==> ss[1..][i] == ss[i + 1];
      WithoutIsDisjoint(ss[1..], s);
      forall j | 0 <= j < |r| ensures !Meet(ss[0], r[j]) && !Meet(r[j], ss[0]) {
        assert r[j] in r;
        var k :| 0 <= k < |ss| - 1 && ss[1..][k] == r[j];
      }
    }
  }

  lemma MergeIsDisjoint(ss: seq<string>, s: string)
    requires Disjoint(ss) && Comparable(ss, [s])
    ensures Disjoint(Merge(ss, s))
  {
    hide Cov, Meet;
    if !Covered(ss, s) {
      WithoutIsDisjoint(ss, s);
      var w := Without(ss, s);
      forall i | 0 <= i < |w| ensures !Meet(w[i], s) && !Meet(s, w[i]) {
        assert w[i] in w && s in [s];
        if Meet(s, w[i]) { MeetSym(s, w[i]); }
      }
    }
  }

  lemma MergeStaysComparable(ss: seq<string>, news: seq<string>)
    requires news != [] && Disjoint(news) && Comparable(ss, news)
    ensures Disjoint(news[1..]) && Comparable(ss, [news[0]]) && Comparable(Merge(ss, news[0]), news[1..])
  {
    hide Cov, Meet;
    var first := news[0];
    var m := Merge(ss, first);
    assert first in news;
    forall e, s | e in m && s in news[1..] && Meet(e, s) ensures Cov(e, s) || Cov(s, e) {
      assert e in ss || e == first;
      var j :| 0 <= j < |news| - 1 && news[1..][j] == s;
      assert news[j + 1] == s && s in news;
    }
  }

  lemma {:induction false} ComparableIsDisjoint(ss: seq<string>, news: seq<string>)
    requires Disjoint(ss) && Disjoint(news) && Comparable(ss, news)
    ensures Disjoint(MergeAll(ss, news))
    decreases |news|
  {
    hide Disjoint, Comparable, Merge;
    if news != [] {
      MergeStaysComparable(ss, news);
      MergeIsDisjoint(ss, news[0]);
      ComparableIsDisjoint(Merge(ss, news[0]), news[1..]);
    }
  }

  lemma {:induction false} MergeAllFrom(ss: seq<string>, news: seq<string>, r: string)
    requires r in MergeAll(ss, news)
    ensures r in ss || r in news
    decreases |news|
  {
    hide Cov;
    if news != [] { MergeAllFrom(Merge(ss, news[0]), news[1..], r); }
  }

  /** If an old and a new subject overlap and neither covers the other, the merge keeps an
      overlap. */
  lemma DisjointIsComparable(ss: seq<string>, news: seq<string>, e: string, s: string)
    requires Disjoint(ss) && Disjoint(news) && Disjoint(MergeAll(ss, news))
    requires e in ss && s in news && Meet(e, s)
    ensures Cov(e, s) || Cov(s, e)
  {
    var m := MergeAll(ss, news);
    MergeAllDominates(ss, news);
    hide Disjoint, MergeAll, Cov, Meet;
    assert Covered(m, e) && Covered(m, s);
    var r :| r in m && Cov(r, s);
    var r' :| r' in m && Cov(r', e);
    MeetSym(e, s);
    CoverersMeet(r, r', s, e);
    DisjointSame(m, r, r');
    CoverMeets(r, s);
    CoverMeets(r, e);
    MergeAllFrom(ss, news, r);
    if r in ss { DisjointSame(ss, r, e); } else { DisjointSame(news, r, s); }
  }

  /** Merging lists without overlaps gives one if and only if every old subject and every new
      one are disjoint or comparable. */
  lemma MergeIsDisjointIff(ss: seq<string>, news: seq<string>)
    requires Disjoint(ss) && Disjoint(news)
    ensures Disjoint(MergeAll(ss, news)) <==> Comparable(ss, news)
  {
    hide Disjoint, MergeAll, Cov, Meet;
    if Comparable(ss, news) {
      ComparableIsDisjoint(ss, news);
    }
    if Disjoint(MergeAll(ss, news)) {
      forall e, s | e in ss && s in news && Meet(e, s) ensures Cov(e, s) || Cov(s, e) {
        DisjointIsComparable(ss, news, e, s);
      }
    }
  }

  // ---------------------------------------------------------------- layouts

  lemma LayoutTokens(topic: string)
    requires Literal(topic)
    ensures var l := LayoutSubjects(topic);
            && |l| == 3 && l[..2] == DataSubjects(topic) && l[0] == topic && DataSubjects(topic) == [l[0], l[1]]
            && Split(l[0]) == [topic] && Split(l[1]) == [topic, REST] && Split(l[2]) == [SCHEDULES, topic, REST]
  {
    hide Split;
    FilterTokens(topic, "");
    FilterTokens(topic, ANY);
    WildcardTokens(topic);
    assert LayoutSubjects(topic)[0] == FilterFor(topic, "") && LayoutSubjects(topic)[1] == FilterFor(topic, ANY);
  }

  lemma ThreeMeets(topic: string)
    requires Literal(topic)
    ensures var a, b, c := [topic], [topic, REST], [SCHEDULES, topic, REST];
            && !Meets(a, b) && !Meets(b, a) && !Meets(a, c) && !Meets(c, a)
            && (Meets(b, c) <==> topic == SCHEDULES) && (Meets(c, b) <==> topic == SCHEDULES)
  {
    var a, b, c := [topic], [topic, REST], [SCHEDULES, topic, REST];
    assert a[1..] == [] && b[1..] == [REST] && c[1..] == [topic, REST];
    assert SCHEDULES[0] == 's' && ANY[0] == '*' && REST[0] == '>';
  }

  /** The layout of a topic overlaps itself exactly for the topic "schedules". */
  lemma LayoutIsDisjointIff(topic: string)
    requires Literal(topic)
    ensures Disjoint(LayoutSubjects(topic)) <==> topic != SCHEDULES
    ensures Disjoint(DataSubjects(topic))
  {
    LayoutTokens(topic);
    ThreeMeets(topic);
    hide Split, Meets, LayoutSubjects, DataSubjects;
    var l := LayoutSubjects(topic);
    if topic == SCHEDULES {
      assert Meet(l[1], l[2]);
    }
  }

  /** What the merge takes of a layout: for "schedules" the data subjects cover the rest. */
  function Effective(topic: string): seq<string> {
    if topic == SCHEDULES then DataSubjects(topic) else LayoutSubjects(topic)
  }

  lemma EffectiveMerges(ss: seq<string>, topic: string)
    requires Literal(topic)
    ensures MergeAll(ss, LayoutSubjects(topic)) == MergeAll(ss, Effective(topic))
  {
    if topic == SCHEDULES {
      var l := LayoutSubjects(topic);
      LayoutTokens(topic);
      SchedulesCover(topic);
      hide Split, Covers, LayoutSubjects, DataSubjects;
      var m := Merge(Merge(ss, l[0]), l[1]);
      MergeDominates(Merge(ss, l[0]), l[1]);
      assert Covered(m, l[2]) by {
        var r :| r in m && Cov(r, l[1]);
        CoversTransitive(Split(r), Split(l[1]), Split(l[2]));
      }
      hide Merge, Covered, Cov;
      MergeThree(ss, l[0], l[1], l[2]);
      assert l == [l[0], l[1], l[2]];
      MergeKeeps(m, l[2]);
    }
  }

  lemma SchedulesCover(topic: string)
    requires topic == SCHEDULES
    ensures Covers([topic, REST], [SCHEDULES, topic, REST])
  {
    assert [topic, REST][1..] == [REST] && [SCHEDULES, topic, REST][1..] == [topic, REST];
    assert SCHEDULES[0] == 's' && REST[0] == '>';
  }

  lemma MergeKeeps(ss: seq<string>, s: string)
    requires Covered(ss, s)
    ensures Merge(ss, s) == ss
  {
  }

  lemma MergeHead(ss: seq<string>, s: string, rest: seq<string>)
    ensures MergeAll(ss, [s] + rest) == MergeAll(Merge(ss, s), rest)
    ensures rest == [] ==> MergeAll(ss, [s]) == Merge(ss, s)
  {
    assert ([s] + rest)[0] == s && ([s] + rest)[1..] == rest;
    assert rest == [] ==> [s] + rest == [s];
    hide Merge;
  }

  lemma MergeThree(ss: seq<string>, a: string, b: string, c: string)
    ensures MergeAll(ss, [a, b, c]) == Merge(Merge(Merge(ss, a), b), c)
    ensures MergeAll(ss, [a, b]) == Merge(Merge(ss, a), b)
  {
    hide *;
    var m1 := Merge(ss, a);
    assert [a, b, c] == [a] + [b, c] && [b, c] == [b] + [c] && [a, b] == [a] + [b];
    MergeHead(ss, a, [b, c]);
    MergeHead(m1, b, [c]);
    MergeHead(Merge(m1, b), c, []);
    MergeHead(ss, a, [b]);
    MergeHead(m1, b, []);
  }

  /** A patch of a stream without overlaps has none if and only if each of its subjects is
      disjoint from each subject of the layout or comparable with it. */
  lemma PatchIsDisjointIff(cfg: StreamConfig, topic: string, p: Patch)
    requires IsPatch(cfg, topic, p) && p.Patched? && Literal(topic) && Disjoint(cfg.subjects)
    ensures Disjoint(p.cfg.subjects) <==> Comparable(cfg.subjects, Effective(topic))
  {
    LayoutIsDisjointIff(topic);
    EffectiveMerges(cfg.subjects, topic);
    hide Disjoint, Comparable, LayoutSubjects, DataSubjects, MergeAll;
    MergeIsDisjointIff(cfg.subjects, Effective(topic));
  }

  /** A pattern such as `*.x` is not comparable with the data subjects of any topic, so the
      patch leaves both and they overlap. */
  lemma PartialOverlapStays(cfg: StreamConfig, topic: string, t: string, p: Patch)
    requires IsPatch(cfg, topic, p) && p.Patched? && Literal(topic) && Literal(t)
    requires |cfg.subjects| == 1 && Split(cfg.subjects[0]) == [ANY, t]
    ensures Disjoint(cfg.subjects) && !Disjoint(p.cfg.subjects)
  {
    var l := LayoutSubjects(topic);
    LayoutTokens(topic);
    StarMeets(topic, t);
    PatchIsDisjointIff(cfg, topic, p);
    hide Split, Covers, Meets, LayoutSubjects, Disjoint;
    var e := cfg.subjects[0];
    assert l[1] in Effective(topic);
    assert e in cfg.subjects && Meet(e, l[1]) && !Cov(e, l[1]) && !Cov(l[1], e);
  }

  lemma StarMeets(topic: string, t: string)
    requires Literal(topic) && Literal(t)
    ensures var p, q := [ANY, t], [topic, REST]; Meets(p, q) && !Covers(p, q) && !Covers(q, p)
  {
    var p, q := [ANY, t], [topic, REST];
    assert p[1..] == [t] && q[1..] == [REST];
    assert ANY[0] == '*' && REST[0] == '>';
  }
}
