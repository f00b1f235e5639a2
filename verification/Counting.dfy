/** Counting the entries of a map that satisfy a predicate. */
module Counting {

  ghost function Where<K, V>(m: map<K, V>, p: V -> bool): set<K> {
    set k | k in m && p(m[k])
  }

  ghost function Tally<K, V>(m: map<K, V>, p: V -> bool): nat { |Where(m, p)| }

  ghost function One(b: bool): nat { if b then 1 else 0 }

  /** Updating one entry moves the count by at most that entry. */
  lemma TallyUpdate<K, V>(m: map<K, V>, k: K, v: V, p: V -> bool)
    ensures Tally(m[k := v], p) == Tally(m, p) - One(k in m && p(m[k])) + One(p(v))
  {
    var before, after := Where(m, p), Where(m[k := v], p);
    if p(v) {
      assert after == before + {k};
    } else {
      assert after == before - {k};
    }
  }

  lemma TallyZero<K, V>(m: map<K, V>, p: V -> bool, k: K)
    requires Tally(m, p) == 0 && k in m
    ensures !p(m[k])
  {
    assert k in Where(m, p) <==> p(m[k]);
  }

  lemma TallyNone<K, V>(m: map<K, V>, p: V -> bool)
    requires forall k :: k in m ==> !p(m[k])
    ensures Tally(m, p) == 0
  {
    assert Where(m, p) == {};
  }

  /** A predicate that is one of two exclusive others counts their sum. */
  lemma TallySplit<K, V>(m: map<K, V>, p: V -> bool, q: V -> bool, r: V -> bool)
    requires forall k :: k in m ==> One(p(m[k])) == One(q(m[k])) + One(r(m[k]))
    ensures Tally(m, p) == Tally(m, q) + Tally(m, r)
  {
    assert Where(m, p) == Where(m, q) + Where(m, r);
    assert Where(m, q) !! Where(m, r);
  }

  lemma TallyWithin<K, V>(m: map<K, V>, p: V -> bool, q: V -> bool)
    requires Where(m, p) <= Where(m, q)
    ensures Tally(m, p) <= Tally(m, q)
  {
    assert Where(m, q) == Where(m, p) + (Where(m, q) - Where(m, p));
  }
}
