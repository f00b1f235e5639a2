/** From publisher to handler: the subject a message is published to, the filters a consumer
    asks for, and the tag the handler reads back. */
module NatsRouting {
  import opened NatsSubjects

  /** A topic or a tag that is one ordinary token. */
  predicate Literal(t: string) { t != "" && '.' !in t && t != ANY && t != REST }

  // ---------------------------------------------------------------- publishing

  /** buildSubject. */
  function BuildSubject(topic: string, tag: string): string {
    if tag == "" || tag == topic then topic else topic + "." + tag
  }

  /** The parts of a published message that carry its tag. An absent header reads as "". */
  datatype Published = Published(subject: string, tagHeader: string)

  /** buildMsg, as far as the tag goes. */
  function BuildMsg(topic: string, tag: string): Published {
    Published(BuildSubject(topic, tag), tag)
  }

  /** ScheduleSubject, with the unique part given. */
  function ScheduleSubject(topic: string, id: string): string {
    "schedules." + topic + "." + id
  }

  // ---------------------------------------------------------------- consuming

  /** A tag that selects every tagged message. */
  predicate Wild(tag: string) { tag == ANY || tag == REST }

  predicate Everything(tags: seq<string>) { tags == [] || tags == [ANY] }

  function FilterFor(topic: string, tag: string): string {
    if tag == ANY then topic + ".>"
    else if tag == "" || tag == topic then topic
    else topic + "." + tag
  }

  method BuildFilterSubjects(topic: string, tags: seq<string>) returns (subjects: seq<string>)
    ensures subjects == Filters(topic, tags)
    ensures tags == [] || tags == ["*"] ==> subjects == [topic, topic + ".>"]
    ensures tags != [] && tags != ["*"] ==>
              && |subjects| == |tags|
              && forall k :: 0 <= k < |tags| ==>
                   subjects[k] == if tags[k] == "*" then topic + ".>"
                                  else if tags[k] == "" || tags[k] == topic then topic
                                  else topic + "." + tags[k]
  {
    if |tags| == 0 || (|tags| == 1 && tags[0] == ANY) {
      return DataSubjects(topic);
    }
    hide FilterFor;
    subjects := [];
    for i := 0 to |tags|
      invariant |subjects| == i && forall k :: 0 <= k < i ==> subjects[k] == FilterFor(topic, tags[k])
    {
      subjects := subjects + [FilterFor(topic, tags[i])];
    }
  }

  /** What buildFilterSubjects returns, as a function. */
  function Filters(topic: string, tags: seq<string>): seq<string> {
    if Everything(tags) then DataSubjects(topic)
    else seq(|tags|, k requires 0 <= k < |tags| => FilterFor(topic, tags[k]))
  }

  /** The tag that newMessage reads. */
  function TagOf(msg: Published, topic: string): string {
    var prefix := topic + ".";
    if msg.tagHeader == "" && prefix <= msg.subject then msg.subject[|prefix|..] else msg.tagHeader
  }

  // ---------------------------------------------------------------- tokens of a subject

  lemma {:induction false} SplitPlain(a: string)
    requires '.' !in a
    ensures Split(a) == [a]
  {
    if a != [] {
      assert a[0] in a;
      SplitPlain(a[1..]);
      assert a == [a[0]] + a[1..];
    }
  }

  lemma {:induction false} SplitDot(a: string, b: string)
    requires '.' !in a
    ensures Split(a + "." + b) == [a] + Split(b)
  {
    var s := a + "." + b;
    if a == [] {
      assert s[0] == '.' && s[1..] == b;
    } else {
      assert a[0] in a;
      SplitDot(a[1..], b);
      assert s[1..] == a[1..] + "." + b;
      assert a == [a[0]] + a[1..];
      assert ([a[1..]] + Split(b))[1..] == Split(b);
    }
  }

  lemma SubjectTokens(topic: string, tag: string)
    requires Literal(topic) && '.' !in tag
    ensures Split(BuildSubject(topic, tag)) == if tag == "" || tag == topic then [topic] else [topic, tag]
  {
    SplitPlain(topic);
    SplitPlain(tag);
    SplitDot(topic, tag);
  }

  lemma FilterTokens(topic: string, tag: string)
    requires Literal(topic) && '.' !in tag
    ensures Split(FilterFor(topic, tag)) ==
            if Wild(tag) then [topic, REST] else if tag == "" || tag == topic then [topic] else [topic, tag]
  {
    hide Split;
    assert '.' !in REST;
    assert topic + ".>" == topic + "." + REST;
    SplitPlain(topic);
    SplitPlain(tag);
    SplitPlain(REST);
    SplitDot(topic, REST);
    SplitDot(topic, tag);
  }

  lemma ScheduleTokens(topic: string, id: string)
    requires Literal(topic) && Literal(id)
    ensures Split(ScheduleSubject(topic, id)) == [SCHEDULES, topic, id]
  {
    hide Split;
    assert ScheduleSubject(topic, id) == SCHEDULES + "." + (topic + "." + id);
    assert '.' !in SCHEDULES;
    SplitDot(SCHEDULES, topic + "." + id);
    SplitDot(topic, id);
    SplitPlain(id);
  }

  const SCHEDULES := "schedules"

  // ---------------------------------------------------------------- selection

  /** Whether a message on `subject` reaches a consumer with these filters. */
  predicate Selected(topic: string, tags: seq<string>, subject: string) {
    Carries(Filters(topic, tags), Split(subject))
  }

  /** What Validate demands of tags, besides that none is empty. */
  predicate TagsOk(tags: seq<string>) { forall k :: 0 <= k < |tags| ==> '.' !in tags[k] }

  predicate IsBare(topic: string, tag: string) { tag == "" || tag == topic }

  predicate Plain(topic: string, tag: string) { !IsBare(topic, tag) && !Wild(tag) }

  lemma MatchesOne(a: string, x: seq<string>)
    ensures Matches([a], x) <==> if a == REST then x != [] else |x| == 1 && (a == ANY || a == x[0])
  {
    assert [a][1..] == [];
    if x != [] { assert |x[1..]| == |x| - 1; }
  }

  lemma MatchesTwo(a: string, b: string, x: seq<string>)
    requires a != REST && a != ANY
    ensures Matches([a, b], x) <==>
            |x| >= 2 && a == x[0] && if b == REST then true else |x| == 2 && (b == ANY || b == x[1])
  {
    assert [a, b][1..] == [b];
    if x != [] { MatchesOne(b, x[1..]); }
  }

  lemma FilterMatches(topic: string, tag: string, x: seq<string>)
    requires Literal(topic) && '.' !in tag
    ensures Matches(Split(FilterFor(topic, tag)), x) <==>
            && x != [] && x[0] == topic
            && if Wild(tag) then |x| >= 2 else if IsBare(topic, tag) then |x| == 1 else |x| == 2 && x[1] == tag
  {
    hide Matches;
    hide Split;
    FilterTokens(topic, tag);
    MatchesOne(topic, x);
    MatchesTwo(topic, REST, x);
    MatchesTwo(topic, tag, x);
  }

  lemma SelectedIff(topic: string, tags: seq<string>, subject: string)
    requires Literal(topic) && TagsOk(tags)
    ensures var x := Split(subject);
            Selected(topic, tags, subject) <==>
            && x[0] == topic
            && (|| Everything(tags)
                || (|x| == 1 && exists k :: 0 <= k < |tags| && IsBare(topic, tags[k]))
                || (|x| >= 2 && exists k :: 0 <= k < |tags| && Wild(tags[k]))
                || (|x| == 2 && exists k :: 0 <= k < |tags| && Plain(topic, tags[k]) && tags[k] == x[1]))
  {
    hide Matches;
    hide Split;
    var x := Split(subject);
    var fs := Filters(topic, tags);
    if Everything(tags) {
      FilterMatches(topic, "", x);
      FilterMatches(topic, ANY, x);
      assert fs[0] == FilterFor(topic, "") && fs[1] == FilterFor(topic, ANY);
      assert fs[0] in fs && fs[1] in fs;
    } else {
      forall k | 0 <= k < |tags|
        ensures fs[k] in fs && (Matches(Split(fs[k]), x) <==>
                  && x[0] == topic
                  && if Wild(tags[k]) then |x| >= 2
                     else if IsBare(topic, tags[k]) then |x| == 1
                     else |x| == 2 && x[1] == tags[k])
      {
        FilterMatches(topic, tags[k], x);
      }
      if Carries(fs, x) {
        var e :| e in fs && Matches(Split(e), x);
        var k :| 0 <= k < |fs| && fs[k] == e;
        assert 0 <= k < |tags|;
      }
    }
  }

  /** A message with any tag `t` that the producer accepts reaches a consumer exactly when the
      consumer asks for everything, or lists the tag, where an empty tag and the topic name
      mean the same. A "*" among other tags, or a ">", selects the tagged messages only. */
  lemma RoutingIsExact(topic: string, tags: seq<string>, t: string)
    requires Literal(topic) && TagsOk(tags) && '.' !in t
    ensures BuildSubject(topic, t) == if t == "" || t == topic then topic else topic + "." + t
    ensures Selected(topic, tags, BuildSubject(topic, t)) <==>
            || tags == [] || tags == ["*"]
            || ((t == "" || t == topic) && exists k :: 0 <= k < |tags| && (tags[k] == "" || tags[k] == topic))
            || (t != "" && t != topic
                && exists k :: 0 <= k < |tags| && (tags[k] == t || tags[k] == "*" || tags[k] == ">"))
  {
    hide Matches;
    hide Split;
    hide Selected;
    SubjectTokens(topic, t);
    SelectedIff(topic, tags, BuildSubject(topic, t));
  }

  /** A "*" listed beside other tags, none of them bare, does not select the untagged messages. */
  lemma MixedStarDropsUntagged(topic: string, tags: seq<string>)
    requires Literal(topic) && TagsOk(tags) && |tags| > 1
    requires forall k :: 0 <= k < |tags| ==> tags[k] != "" && tags[k] != topic
    ensures !Selected(topic, tags, topic)
  {
    hide Selected;
    RoutingIsExact(topic, tags, "");
    assert BuildSubject(topic, "") == topic;
  }

  /** A schedule subject is never selected, except when the topic itself is "schedules" and
      the consumer asks for every tag. */
  lemma SchedulesAreSkipped(topic: string, tags: seq<string>, id: string)
    requires Literal(topic) && TagsOk(tags) && Literal(id)
    ensures Selected(topic, tags, ScheduleSubject(topic, id)) <==>
            topic == "schedules"
            && (tags == [] || tags == ["*"] || exists k :: 0 <= k < |tags| && (tags[k] == "*" || tags[k] == ">"))
  {
    hide Matches;
    hide Split;
    hide Selected;
    ScheduleTokens(topic, id);
    SelectedIff(topic, tags, ScheduleSubject(topic, id));
  }

  /** Everything a topic publishes, data or schedule, is stored by a stream that was patched
      for it. */
  lemma StreamStoresTopic(topic: string, t: string, id: string)
    requires Literal(topic) && '.' !in t && Literal(id)
    ensures Carries(LayoutSubjects(topic), Split(BuildSubject(topic, t)))
    ensures Carries(LayoutSubjects(topic), Split(ScheduleSubject(topic, id)))
  {
    hide Matches;
    hide Split;
    var ss := LayoutSubjects(topic);
    SubjectTokens(topic, t);
    ScheduleTokens(topic, id);
    FilterMatches(topic, "", Split(BuildSubject(topic, t)));
    FilterMatches(topic, ANY, Split(BuildSubject(topic, t)));
    assert ss[0] == FilterFor(topic, "") && ss[1] == FilterFor(topic, ANY);
    assert ss[0] in ss && ss[1] in ss && ss[2] in ss;
    WildcardTokens(topic);
    var x := [SCHEDULES, topic, id];
    assert [SCHEDULES, topic, REST][1..] == [topic, REST] && x[1..] == [topic, id];
    MatchesTwo(topic, REST, x[1..]);
    MatchesStep([SCHEDULES, topic, REST], x);
  }

  lemma MatchesStep(p: seq<string>, x: seq<string>)
    requires p != [] && x != [] && p[0] == x[0] && p[0] != REST && Matches(p[1..], x[1..])
    ensures Matches(p, x)
  {
  }

  lemma WildcardTokens(topic: string)
    requires Literal(topic)
    ensures Split(ScheduleWildcard(topic)) == [SCHEDULES, topic, REST]
  {
    hide Split;
    assert ScheduleWildcard(topic) == SCHEDULES + "." + (topic + "." + REST);
    assert '.' !in SCHEDULES && '.' !in REST;
    SplitDot(SCHEDULES, topic + "." + REST);
    SplitDot(topic, REST);
    SplitPlain(REST);
  }

  /** The handler reads back the tag that was published, whatever the topic and the tag. */
  lemma TagRoundTrip(topic: string, tag: string)
    ensures TagOf(BuildMsg(topic, tag), topic) == tag
  {
    if tag == "" {
      assert !(topic + "." <= topic);
    }
  }

  /** Without the header the subject still gives the tag, unless the tag is the topic. */
  lemma TagFromSubject(topic: string, tag: string)
    ensures TagOf(BuildMsg(topic, tag).(tagHeader := ""), topic) == tag <==> tag == "" || tag != topic
  {
    var prefix := topic + ".";
    assert !(prefix <= topic);
    assert prefix <= prefix + tag && (prefix + tag)[|prefix|..] == tag;
  }

  /** Covering in the written form of subjects: a star covers one token in its place, a final
      '>' covers one token or more, and a token covers no wildcard. */
  lemma CovExamples(a: string, x: string)
    requires Literal(a) && Literal(x)
    ensures Cov("*." + x, a + "." + x) && !Cov(a + "." + x, "*." + x)
    ensures Cov(a + ".>", a + "." + x) && !Cov(a + ".>", a) && !Cov(a + "." + x, a + ".>")
  {
    hide Split, Covers;
    TokensCover(a, x);
    assert '.' !in ANY && '.' !in REST;
    SplitPlain(a);
    SplitPlain(x);
    SplitPlain(REST);
    SplitDot(a, x);
    SplitDot(a, REST);
    SplitDot(ANY, x);
    assert "*." + x == ANY + "." + x && a + ".>" == a + "." + REST;
    assert [a] + [x] == [a, x] && [ANY] + [x] == [ANY, x] && [a] + [REST] == [a, REST];
  }

  lemma TokensCover(a: string, x: string)
    requires Literal(a) && Literal(x)
    ensures Covers([ANY, x], [a, x]) && !Covers([a, x], [ANY, x])
    ensures Covers([a, REST], [a, x]) && !Covers([a, REST], [a]) && !Covers([a, x], [a, REST])
  {
    assert ANY[0] == '*' && REST[0] == '>';
    assert [a, x][1..] == [x] && [ANY, x][1..] == [x] && [a, REST][1..] == [REST] && [a][1..] == [] && [x][1..] == [];
    assert Covers([x], [x]) && !Covers([x], [REST]) && Covers([REST], [x]) && !Covers([REST], []);
  }
}
