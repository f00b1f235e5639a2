/** The subject algebra of nats/internal/wire: `covers` decides inclusion of wildcard
    subjects, and `PatchStream` merges the subjects of a topic into a stream. */
module NatsSubjects {

  // ---------------------------------------------------------------- tokens

  /** strings.Split at '.'. */
  function Split(s: string): (ts: seq<string>)
    ensures ts != []
  {
    if s == [] then [[]]
    else if s[0] == '.' then [[]] + Split(s[1..])
    else
      var ts := Split(s[1..]);
      [[s[0]] + ts[0]] + ts[1..]
  }

  const ANY := "*"
  const REST := ">"

  /** The subjects a pattern stands for: "*" is any one token, ">" is one or more tokens to
      the end, and any other token is itself. */
  predicate Matches(p: seq<string>, x: seq<string>) {
    if p == [] then x == []
    else if p[0] == REST then x != []
    else x != [] && (p[0] == ANY || p[0] == x[0]) && Matches(p[1..], x[1..])
  }

  /** A subject a message is published to holds no wildcard. */
  predicate Concrete(x: seq<string>) { forall t :: t in x ==> t != ANY && t != REST }

  /** covers, token by token. */
  predicate Covers(w: seq<string>, n: seq<string>) {
    if w == [] then n == []
    else if w[0] == REST then n != []
    else if n == [] || n[0] == REST then false
    else (w[0] == ANY || w[0] == n[0]) && Covers(w[1..], n[1..])
  }

  /** covers, as the source loops over the tokens of `wide`. */
  method CoversScan(wide: string, narrow: string) returns (r: bool)
    ensures r == Cov(wide, narrow)
  {
    hide Split;
    var w, n := Split(wide), Split(narrow);
    assert w[0..] == w && n[0..] == n;
    for i := 0 to |w|
      invariant i <= |n|
      invariant Covers(w, n) == Covers(w[i..], n[i..])
    {
      assert w[i..][1..] == w[i + 1..];
      if w[i] == REST {
        return i < |n|;
      }
      if i >= |n| || n[i] == REST {
        return false;
      }
      assert n[i..][1..] == n[i + 1..];
      if w[i] != ANY && w[i] != n[i] {
        return false;
      }
    }
    return |w| == |n|;
  }

  // ---------------------------------------------------------------- inclusion

  lemma {:induction false} CoversIsSound(w: seq<string>, n: seq<string>, x: seq<string>)
    requires Covers(w, n) && Matches(n, x)
    ensures Matches(w, x)
  {
    if w != [] && w[0] != REST {
      CoversIsSound(w[1..], n[1..], x[1..]);
    }
  }

  /** A subject that `n` matches, with `f` for each wildcard. */
  function Sample(n: seq<string>, f: string): seq<string> {
    if n == [] then [] else if n[0] == REST then [f] else [if n[0] == ANY then f else n[0]] + Sample(n[1..], f)
  }

  /** A subject that `n` matches and `w` does not. */
  function Escape(w: seq<string>, n: seq<string>, f: string): seq<string> {
    if w == [] || n == [] then Sample(n, f)
    else if n[0] == REST then if |w| == 1 then [f, f] else [f]
    else if w[0] == ANY || w[0] == n[0] then [if n[0] == ANY then f else n[0]] + Escape(w[1..], n[1..], f)
    else Sample(n, f)
  }

  lemma {:induction false} SampleMatches(n: seq<string>, f: string)
    requires f != ANY && f != REST
    ensures Matches(n, Sample(n, f)) && Concrete(Sample(n, f))
  {
    if n != [] && n[0] != REST {
      SampleMatches(n[1..], f);
      var x := Sample(n, f);
      assert x[1..] == Sample(n[1..], f);
    }
  }

  lemma {:induction false} EscapeEscapes(w: seq<string>, n: seq<string>, f: string)
    requires !Covers(w, n) && f != ANY && f != REST && f !in w
    ensures var x := Escape(w, n, f); Matches(n, x) && Concrete(x) && !Matches(w, x)
  {
    if w == [] || n == [] {
      SampleMatches(n, f);
    } else if n[0] == REST {
    } else if w[0] == ANY || w[0] == n[0] {
      EscapeEscapes(w[1..], n[1..], f);
      var x := Escape(w, n, f);
      assert x[1..] == Escape(w[1..], n[1..], f);
    } else {
      SampleMatches(n, f);
      assert w[0] in w;
    }
  }

  /** A token longer than every token of `w`. */
  function Fresh(w: seq<string>): (f: string)
    ensures f != [] && forall c :: c in f ==> c == 'x'
    ensures forall t :: t in w ==> |t| < |f|
  {
    if w == [] then "x"
    else
      var f := Fresh(w[1..]);
      var g := if |w[0]| < |f| then f else seq(|w[0]| + 1, k => 'x');
      assert forall t :: t in w ==> t == w[0] || t in w[1..];
      g
  }

  ghost predicate Includes(w: seq<string>, n: seq<string>) {
    forall x :: Concrete(x) && Matches(n, x) ==> Matches(w, x)
  }

  /** covers is sound and complete: it holds exactly when every subject that `n` matches is
      one that `w` matches. */
  lemma CoversIsInclusion(w: seq<string>, n: seq<string>)
    ensures Covers(w, n) <==> Includes(w, n)
  {
    if Covers(w, n) {
      forall x | Concrete(x) && Matches(n, x) ensures Matches(w, x) { CoversIsSound(w, n, x); }
    } else {
      var f := Fresh(w);
      assert f[0] in f && ANY[0] == '*' && REST[0] == '>';
      EscapeEscapes(w, n, f);
    }
  }

  lemma CoversReflexive(p: seq<string>)
    ensures Covers(p, p)
  {
    CoversIsInclusion(p, p);
  }

  lemma CoversTransitive(a: seq<string>, b: seq<string>, c: seq<string>)
    requires Covers(a, b) && Covers(b, c)
    ensures Covers(a, c)
  {
    hide Covers;
    CoversIsInclusion(a, b);
    CoversIsInclusion(b, c);
    CoversIsInclusion(a, c);
  }

  /** ">" only in last position. */
  predicate WellFormed(p: seq<string>) { forall i :: 0 <= i < |p| - 1 ==> p[i] != REST }

  /** On well-formed patterns, two that match the same subjects are the same pattern. */
  lemma {:induction false} CoversAntisymmetric(a: seq<string>, b: seq<string>)
    requires WellFormed(a) && WellFormed(b) && Covers(a, b) && Covers(b, a)
    ensures a == b
  {
    if a != [] {
      if a[0] == REST {
        assert b[0] == REST;
        assert |a| == 1 && |b| == 1;
      } else {
        CoversAntisymmetric(a[1..], b[1..]);
        assert a == [a[0]] + a[1..] && b == [b[0]] + b[1..];
      }
    }
  }

  /** The wildcards: a star is any one token, a '>' is one token or more, and every other token
      is itself and nothing else. A concrete subject has neither. */
  lemma WildcardsAre(x: seq<string>, t: string)
    ensures Matches([['*']], x) <==> |x| == 1
    ensures Matches([['>']], x) <==> |x| >= 1
    ensures t != ['*'] && t != ['>'] ==> (Matches([t], x) <==> x == [t])
    ensures Concrete(x) <==> ['*'] !in x && ['>'] !in x
  {
    assert ANY == ['*'] && REST == ['>'] && ANY[0] == '*' && REST[0] == '>';
    assert [t][1..] == [] && [['*']][1..] == [];
    if x != [] { assert x[1..] == [] <==> |x| == 1; }
  }

  /** Token by token: a first token that is no '>' matches the first token, and the rest the
      rest. */
  lemma MatchesTokenwise(p: seq<string>, x: seq<string>)
    requires p != [] && p[0] != ['>'] && |p| > 1
    ensures Matches(p, x) <==> x != [] && (p[0] == ['*'] || p[0] == x[0]) && Matches(p[1..], x[1..])
  {
    assert ANY == ['*'] && REST == ['>'];
  }

  // ---------------------------------------------------------------- merging one subject

  predicate Cov(wide: string, narrow: string) { Covers(Split(wide), Split(narrow)) }

  predicate Covered(ss: seq<string>, s: string) { exists e :: e in ss && Cov(e, s) }

  /** slices.DeleteFunc: without the subjects that `s` covers. */
  function Without(ss: seq<string>, s: string): (r: seq<string>)
    ensures forall e :: e in r <==> e in ss && !Cov(s, e)
  {
    if ss == [] then [] else if Cov(s, ss[0]) then Without(ss[1..], s) else [ss[0]] + Without(ss[1..], s)
  }

  function Merge(ss: seq<string>, s: string): seq<string> {
    if Covered(ss, s) then ss else Without(ss, s) + [s]
  }

  function MergeAll(ss: seq<string>, news: seq<string>): seq<string>
    decreases |news|
  {
    if news == [] then ss else MergeAll(Merge(ss, news[0]), news[1..])
  }

  /** Some subject of the list matches `x`. */
  predicate Carries(ss: seq<string>, x: seq<string>) { exists e :: e in ss && Matches(Split(e), x) }

  lemma MergeCarries(ss: seq<string>, s: string, x: seq<string>)
    ensures Carries(Merge(ss, s), x) <==> Carries(ss, x) || Matches(Split(s), x)
  {
    hide Covers;
    hide Matches;
    hide Split;
    if Covered(ss, s) {
      var e :| e in ss && Cov(e, s);
      if Matches(Split(s), x) { CoversIsSound(Split(e), Split(s), x); }
    } else {
      var r := Without(ss, s) + [s];
      assert s in r;
      if Carries(ss, x) {
        var e :| e in ss && Matches(Split(e), x);
        if Cov(s, e) { CoversIsSound(Split(s), Split(e), x); } else { assert e in r; }
      }
    }
  }

  /** Every subject of `b` is covered by one of `a`. */
  predicate Dominates(a: seq<string>, b: seq<string>) { forall e :: e in b ==> Covered(a, e) }

  lemma DominatesRefl(a: seq<string>)
    ensures Dominates(a, a)
  {
    forall e | e in a ensures Covered(a, e) { CoversReflexive(Split(e)); }
  }

  lemma DominatesCovers(a: seq<string>, b: seq<string>, s: string)
    requires Dominates(a, b) && Covered(b, s)
    ensures Covered(a, s)
  {
    var e :| e in b && Cov(e, s);
    assert Covered(a, e);
    var f :| f in a && Cov(f, e);
    CoversTransitive(Split(f), Split(e), Split(s));
  }

  lemma DominatesTrans(a: seq<string>, b: seq<string>, c: seq<string>)
    requires Dominates(a, b) && Dominates(b, c)
    ensures Dominates(a, c)
  {
    forall e | e in c ensures Covered(a, e) { DominatesCovers(a, b, e); }
  }

  lemma MergeDominates(ss: seq<string>, s: string)
    ensures Dominates(Merge(ss, s), ss) && Covered(Merge(ss, s), s)
  {
    hide Covers;
    DominatesRefl(ss);
    CoversReflexive(Split(s));
    var r := Merge(ss, s);
    if !Covered(ss, s) {
      assert s in r;
      forall e | e in ss ensures Covered(r, e) {
        if !Cov(s, e) {
          assert e in Without(ss, s);
          assert e in r;
          CoversReflexive(Split(e));
        }
      }
    }
  }

  lemma {:induction false} MergeAllDominates(ss: seq<string>, news: seq<string>)
    ensures var r := MergeAll(ss, news); Dominates(r, ss) && Dominates(r, news)
    decreases |news|
  {
    if news == [] {
      DominatesRefl(ss);
    } else {
      var m := Merge(ss, news[0]);
      var r := MergeAll(ss, news);
      MergeDominates(ss, news[0]);
      MergeAllDominates(m, news[1..]);
      DominatesTrans(r, m, ss);
      DominatesCovers(r, m, news[0]);
      forall e | e in news ensures Covered(r, e) {
        assert e == news[0] || e in news[1..];
      }
    }
  }

  // ---------------------------------------------------------------- merging a layout

  /** The merged list carries exactly the subjects of the old list and of the layout. */
  lemma {:induction false} MergeAllCarries(ss: seq<string>, news: seq<string>, x: seq<string>)
    ensures Carries(MergeAll(ss, news), x) <==> Carries(ss, x) || Carries(news, x)
    decreases |news|
  {
    if news != [] {
      MergeCarries(ss, news[0], x);
      MergeAllCarries(Merge(ss, news[0]), news[1..], x);
      assert forall e :: e in news <==> e == news[0] || e in news[1..];
    }
  }

  /** Some step of the merge appended its subject. */
  predicate Appends(ss: seq<string>, news: seq<string>)
    decreases |news|
  {
    news != [] && (!Covered(ss, news[0]) || Appends(Merge(ss, news[0]), news[1..]))
  }

  lemma {:induction false} QuietMergeKeeps(ss: seq<string>, news: seq<string>)
    requires !Appends(ss, news)
    ensures MergeAll(ss, news) == ss
    decreases |news|
  {
    if news != [] { QuietMergeKeeps(ss, news[1..]); }
  }

  /** A merge that appended anything cannot end in a list that its start dominates. */
  lemma {:induction false} LoudMergeGrows(ss: seq<string>, news: seq<string>, base: seq<string>)
    requires Appends(ss, news) && Dominates(ss, base)
    ensures !Dominates(base, MergeAll(ss, news))
    decreases |news|
  {
    var m := Merge(ss, news[0]);
    MergeDominates(ss, news[0]);
    if !Covered(ss, news[0]) {
      var r := MergeAll(m, news[1..]);
      MergeAllDominates(m, news[1..]);
      DominatesCovers(r, m, news[0]);
      if Dominates(base, r) {
        DominatesCovers(base, r, news[0]);
        DominatesCovers(ss, base, news[0]);
      }
    } else {
      LoudMergeGrows(m, news[1..], base);
    }
  }

  /** The merge reports a change exactly when the list changed. */
  lemma ChangeIsReal(ss: seq<string>, news: seq<string>)
    ensures Appends(ss, news) <==> MergeAll(ss, news) != ss
  {
    if Appends(ss, news) {
      DominatesRefl(ss);
      LoudMergeGrows(ss, news, ss);
    } else {
      QuietMergeKeeps(ss, news);
    }
  }

  lemma {:induction false} DominatedMergeIsQuiet(ss: seq<string>, news: seq<string>)
    requires Dominates(ss, news)
    ensures !Appends(ss, news)
  {
    if news != [] {
      assert news[0] in news;
      assert forall e :: e in news[1..] ==> e in news;
      DominatedMergeIsQuiet(ss, news[1..]);
    }
  }

  /** Merging the same layout again does nothing. */
  lemma MergeAgainIsQuiet(ss: seq<string>, news: seq<string>)
    ensures !Appends(MergeAll(ss, news), news) && MergeAll(MergeAll(ss, news), news) == MergeAll(ss, news)
  {
    MergeAllDominates(ss, news);
    DominatedMergeIsQuiet(MergeAll(ss, news), news);
    QuietMergeKeeps(MergeAll(ss, news), news);
  }

  /** No subject covers another at a different place. */
  predicate Apart(ss: seq<string>) {
    forall i, j :: 0 <= i < |ss| && 0 <= j < |ss| && i != j ==> !Cov(ss[i], ss[j])
  }

  predicate IsSubsequence(a: seq<string>, b: seq<string>) {
    a == [] || (b != [] && ((a[0] == b[0] && IsSubsequence(a[1..], b[1..])) || IsSubsequence(a, b[1..])))
  }

  lemma {:induction false} WithoutIsSubsequence(ss: seq<string>, s: string)
    ensures IsSubsequence(Without(ss, s), ss)
  {
    hide Cov;
    if ss != [] { WithoutIsSubsequence(ss[1..], s); }
  }

  lemma {:induction false} WithoutIsApart(ss: seq<string>, s: string)
    requires Apart(ss)
    ensures Apart(Without(ss, s))
  {
    hide Cov;
    if ss != [] {
      var r := Without(ss[1..], s);
      assert forall i :: 0 <= i < |ss| - 1 ==> ss[1..][i] == ss[i + 1];
      WithoutIsApart(ss[1..], s);
      if !Cov(s, ss[0]) {
        forall j | 0 <= j < |r| ensures !Cov(ss[0], r[j]) && !Cov(r[j], ss[0]) {
          assert r[j] in r;
          var k :| 0 <= k < |ss| - 1 && ss[1..][k] == r[j];
        }
      }
    }
  }

  lemma MergeIsApart(ss: seq<string>, s: string)
    requires Apart(ss)
    ensures Apart(Merge(ss, s))
  {
    hide Cov;
    if !Covered(ss, s) {
      WithoutIsApart(ss, s);
      var w := Without(ss, s);
      forall i | 0 <= i < |w| ensures !Cov(w[i], s) && !Cov(s, w[i]) { assert w[i] in w; }
    }
  }

  lemma {:induction false} MergeAllIsApart(ss: seq<string>, news: seq<string>)
    requires Apart(ss)
    ensures Apart(MergeAll(ss, news))
    decreases |news|
  {
    if news != [] {
      MergeIsApart(ss, news[0]);
      MergeAllIsApart(Merge(ss, news[0]), news[1..]);
    }
  }

  lemma {:induction false} SubsequenceTrans(a: seq<string>, b: seq<string>, c: seq<string>)
    requires IsSubsequence(a, b) && IsSubsequence(b, c)
    ensures IsSubsequence(a, c)
    decreases |a| + |b| + |c|
  {
    if a != [] {
      if b[0] == c[0] && IsSubsequence(b[1..], c[1..]) {
        if a[0] == b[0] && IsSubsequence(a[1..], b[1..]) {
          SubsequenceTrans(a[1..], b[1..], c[1..]);
        } else {
          SubsequenceTrans(a, b[1..], c[1..]);
        }
      } else {
        SubsequenceTrans(a, b, c[1..]);
      }
    }
  }

  lemma {:induction false} SubsequenceRefl(a: seq<string>)
    ensures IsSubsequence(a, a)
  {
    if a != [] { SubsequenceRefl(a[1..]); }
  }

  lemma {:induction false} WithoutConcat(x: seq<string>, y: seq<string>, s: string)
    ensures Without(x + y, s) == Without(x, s) + Without(y, s)
  {
    hide Cov;
    if x == [] {
      assert x + y == y;
    } else {
      assert (x + y)[1..] == x[1..] + y;
      WithoutConcat(x[1..], y, s);
    }
  }

  /** What survives of the old list comes first and in its old order, and what was added
      follows in the order of the layout. */
  ghost predicate KeepsOrder(was: seq<string>, news: seq<string>, r: seq<string>) {
    exists kept, added :: r == kept + added && IsSubsequence(kept, was) && IsSubsequence(added, news)
  }

  lemma {:induction false} SubsequenceConcat(a: seq<string>, b: seq<string>, x: seq<string>, y: seq<string>)
    requires IsSubsequence(a, x) && IsSubsequence(b, y)
    ensures IsSubsequence(a + b, x + y)
    decreases |a| + |x|
  {
    if a == [] && x == [] {
      assert a + b == b && x + y == y;
    } else {
      assert (x + y)[1..] == x[1..] + y;
      if a != [] && a[0] == x[0] && IsSubsequence(a[1..], x[1..]) {
        assert (a + b)[1..] == a[1..] + b;
        SubsequenceConcat(a[1..], b, x[1..], y);
      } else {
        SubsequenceConcat(a, b, x[1..], y);
      }
    }
  }

  lemma {:induction false} MergeAllOrder(kept: seq<string>, added: seq<string>, news: seq<string>,
      base: seq<string>, done: seq<string>)
    requires IsSubsequence(kept, base) && IsSubsequence(added, done)
    ensures KeepsOrder(base, done + news, MergeAll(kept + added, news))
    decreases |news|
  {
    hide IsSubsequence, Covered, Without;
    if news == [] {
      assert done + news == done;
      assert MergeAll(kept + added, news) == kept + added;
    } else {
      var s := news[0];
      var done' := done + [s];
      assert done' + news[1..] == done + news;
      if Covered(kept + added, s) {
        OrderSkips(added, done, s);
        MergeAllOrder(kept, added, news[1..], base, done');
      } else {
        OrderAppends(kept, added, base, done, s);
        MergeAllOrder(Without(kept, s), Without(added, s) + [s], news[1..], base, done');
      }
    }
  }

  lemma OrderSkips(added: seq<string>, done: seq<string>, s: string)
    requires IsSubsequence(added, done)
    ensures IsSubsequence(added, done + [s])
  {
    assert IsSubsequence([], [s]);
    hide IsSubsequence;
    SubsequenceConcat(added, [], done, [s]);
    assert added + [] == added;
  }

  lemma OrderAppends(kept: seq<string>, added: seq<string>, base: seq<string>, done: seq<string>, s: string)
    requires IsSubsequence(kept, base) && IsSubsequence(added, done) && !Covered(kept + added, s)
    ensures Merge(kept + added, s) == Without(kept, s) + (Without(added, s) + [s])
    ensures IsSubsequence(Without(kept, s), base) && IsSubsequence(Without(added, s) + [s], done + [s])
  {
    WithoutConcat(kept, added, s);
    hide IsSubsequence, Covered, Without;
    WithoutIsSubsequence(kept, s);
    SubsequenceTrans(Without(kept, s), kept, base);
    WithoutIsSubsequence(added, s);
    SubsequenceTrans(Without(added, s), added, done);
    SubsequenceRefl([s]);
    SubsequenceConcat(Without(added, s), [s], done, [s]);
  }

  lemma MergeKeepsOrder(ss: seq<string>, news: seq<string>)
    ensures KeepsOrder(ss, news, MergeAll(ss, news))
  {
    SubsequenceRefl(ss);
    assert IsSubsequence([], []);
    MergeAllOrder(ss, [], news, ss, []);
    assert ss + [] == ss && [] + news == news;
  }

  // ---------------------------------------------------------------- streams

  datatype StreamConfig = StreamConfig(
    name: string,
    subjects: seq<string>,
    allowMsgSchedules: bool,
    denyPurge: bool,
    discardNew: bool,
    mirror: bool,
    sources: nat,
    allowMsgCounter: bool)

  datatype Patch = Patched(cfg: StreamConfig, changed: bool) | Refused(setting: string)

  function DataSubjects(topic: string): seq<string> {
    [topic, topic + ".>"]
  }

  function ScheduleWildcard(topic: string): string {
    "schedules." + topic + ".>"
  }

  /** The layout of a topic: its data subjects and its schedule subjects. */
  function LayoutSubjects(topic: string): seq<string> {
    DataSubjects(topic) + [ScheduleWildcard(topic)]
  }

  /** The first setting that the server rejects together with schedules, or "". */
  function ScheduleIncompatibility(cfg: StreamConfig): string {
    if cfg.denyPurge then "DenyPurge"
    else if cfg.discardNew then "Discard policy DiscardNew"
    else if cfg.mirror then "Mirror"
    else if cfg.sources > 0 then "Sources"
    else if cfg.allowMsgCounter then "AllowMsgCounter"
    else ""
  }

  predicate Compatible(cfg: StreamConfig) {
    !cfg.denyPurge && !cfg.discardNew && !cfg.mirror && cfg.sources == 0 && !cfg.allowMsgCounter
  }

  /** What the patch must be: a refusal, or the merge of the layout with schedules on. */
  predicate IsPatch(cfg: StreamConfig, topic: string, p: Patch) {
    if !Compatible(cfg) then p.Refused?
    else
      && p.Patched?
      && p.cfg == cfg.(subjects := MergeAll(cfg.subjects, LayoutSubjects(topic)), allowMsgSchedules := true)
      && (p.changed <==> p.cfg != cfg)
  }

  method ContainsCovering(ss: seq<string>, s: string) returns (r: bool)
    ensures r <==> Covered(ss, s)
  {
    for i := 0 to |ss|
      invariant forall k :: 0 <= k < i ==> !Cov(ss[k], s)
    {
      var c := CoversScan(ss[i], s);
      if c {
        return true;
      }
    }
    return false;
  }

  method DeleteCovered(ss: seq<string>, s: string) returns (r: seq<string>)
    ensures r == Without(ss, s)
  {
    hide Cov;
    r := [];
    assert ss[0..] == ss;
    for i := 0 to |ss|
      invariant Without(ss, s) == r + Without(ss[i..], s)
    {
      assert ss[i..][1..] == ss[i + 1..];
      var c := CoversScan(s, ss[i]);
      if !c {
        r := r + [ss[i]];
      }
    }
  }

  /** PatchStream: merge the layout subject by subject, tracking whether anything changed.
      The flag is exact: it is set if and only if the configuration differs. */
  method PatchStream(cfg: StreamConfig, topic: string) returns (p: Patch)
    ensures IsPatch(cfg, topic, p)
    ensures p.Refused? <==> cfg.denyPurge || cfg.discardNew || cfg.mirror || cfg.sources > 0 || cfg.allowMsgCounter
    ensures p.Refused? ==>
              p.setting == if cfg.denyPurge then "DenyPurge"
                           else if cfg.discardNew then "Discard policy DiscardNew"
                           else if cfg.mirror then "Mirror"
                           else if cfg.sources > 0 then "Sources"
                           else "AllowMsgCounter"
    ensures p.Patched? ==> p.cfg.allowMsgSchedules && (p.changed <==> p.cfg != cfg) && p.cfg.name == cfg.name
  {
    var bad := ScheduleIncompatibility(cfg);
    if bad != "" {
      return Refused(bad);
    }
    var changed := false;
    var subjects := cfg.subjects;
    var layout := LayoutSubjects(topic);
    hide LayoutSubjects;
    hide Covered;
    hide Without;
    assert layout[0..] == layout;
    for i := 0 to |layout|
      invariant MergeAll(cfg.subjects, layout) == MergeAll(subjects, layout[i..])
      invariant Appends(cfg.subjects, layout) <==> changed || Appends(subjects, layout[i..])
    {
      var s := layout[i];
      assert layout[i..][1..] == layout[i + 1..];
      var covered := ContainsCovering(subjects, s);
      if covered {
        continue;
      }
      subjects := DeleteCovered(subjects, s);
      subjects := subjects + [s];
      changed := true;
    }
    assert layout[|layout|..] == [];
    ChangeIsReal(cfg.subjects, layout);
    if !cfg.allowMsgSchedules {
      changed := true;
    }
    p := Patched(cfg.(subjects := subjects, allowMsgSchedules := true), changed);
  }

  /** A patch is a correct merge: the new stream carries what the old one and the layout
      carry and nothing else, survivors keep their order, a list without overlaps stays so,
      and patching the result again changes nothing. */
  lemma PatchIsMerge(cfg: StreamConfig, topic: string, p: Patch, p': Patch, x: seq<string>)
    requires IsPatch(cfg, topic, p) && p.Patched? && IsPatch(p.cfg, topic, p')
    ensures Carries(p.cfg.subjects, x) <==> Carries(cfg.subjects, x) || Carries(LayoutSubjects(topic), x)
    ensures LayoutSubjects(topic) == [topic, topic + ".>", "schedules." + topic + ".>"]
    ensures KeepsOrder(cfg.subjects, LayoutSubjects(topic), p.cfg.subjects)
    ensures (forall i, j :: 0 <= i < |cfg.subjects| && 0 <= j < |cfg.subjects| && i != j ==>
               !Cov(cfg.subjects[i], cfg.subjects[j])) ==>
            forall i, j :: 0 <= i < |p.cfg.subjects| && 0 <= j < |p.cfg.subjects| && i != j ==>
              !Cov(p.cfg.subjects[i], p.cfg.subjects[j])
    ensures p' == Patched(p.cfg, false)
  {
    var layout := LayoutSubjects(topic);
    assert layout == [topic, topic + ".>", "schedules." + topic + ".>"];
    hide LayoutSubjects;
    MergeAllCarries(cfg.subjects, layout, x);
    MergeKeepsOrder(cfg.subjects, layout);
    if Apart(cfg.subjects) { MergeAllIsApart(cfg.subjects, layout); }
    MergeAgainIsQuiet(cfg.subjects, layout);
  }

  /** A subsequence has its elements at increasing places of the whole. */
  lemma {:induction false} SubsequencePlaces(a: seq<string>, b: seq<string>) returns (places: seq<nat>)
    requires IsSubsequence(a, b)
    ensures |places| == |a|
    ensures forall k :: 0 <= k < |a| ==> places[k] < |b| && b[places[k]] == a[k]
    ensures forall j, k :: 0 <= j < k < |a| ==> places[j] < places[k]
    decreases |b|
  {
    if a == [] {
      places := [];
    } else if a[0] == b[0] && IsSubsequence(a[1..], b[1..]) {
      var rest: seq<nat> := SubsequencePlaces(a[1..], b[1..]);
      places := [0] + seq(|rest|, k requires 0 <= k < |rest| => rest[k] + 1);
    } else {
      var rest: seq<nat> := SubsequencePlaces(a, b[1..]);
      places := seq(|rest|, k requires 0 <= k < |rest| => rest[k] + 1);
    }
  }
}
