/**
 Ordinal (character-code) lexicographic order on strings, sorted duplicate-free
 lists, and the sort that turns a set of names into such a list.
 */
module Ordering {
  import opened Models

  /** `a` comes no later than `b`: a prefix comes first, otherwise the first differing character decides. */
  predicate Below(a: string, b: string)
  {
    |a| == 0 || (|b| > 0 && (a[0] < b[0] || (a[0] == b[0] && Below(a[1..], b[1..]))))
  }

  ghost predicate Less(a: string, b: string)
  {
    Below(a, b) && a != b
  }

  lemma {:induction false} BelowReflexive(a: string)
    ensures Below(a, a)
  {
    if |a| > 0 {
      BelowReflexive(a[1..]);
    }
  }

  lemma {:induction false} BelowAntisymmetric(a: string, b: string)
    requires Below(a, b) && Below(b, a)
    ensures a == b
  {
    if |a| > 0 && |b| > 0 {
      BelowAntisymmetric(a[1..], b[1..]);
      assert a == [a[0]] + a[1..] && b == [b[0]] + b[1..];
    }
  }

  lemma {:induction false} BelowTransitive(a: string, b: string, c: string)
    requires Below(a, b) && Below(b, c)
    ensures Below(a, c)
  {
    if |a| > 0 && a[0] == b[0] && b[0] == c[0] {
      BelowTransitive(a[1..], b[1..], c[1..]);
    }
  }

  lemma {:induction false} BelowTotal(a: string, b: string)
    ensures Below(a, b) || Below(b, a)
  {
    if |a| > 0 && |b| > 0 && a[0] == b[0] {
      BelowTotal(a[1..], b[1..]);
    }
  }

  /** Ascending with no repeated entry. */
  ghost predicate StrictlySorted(s: seq<string>)
  {
    forall i, j :: 0 <= i < j < |s| ==> Less(s[i], s[j])
  }

  ghost predicate NoDuplicates(s: seq<string>)
  {
    forall i, j :: 0 <= i < j < |s| ==> s[i] != s[j]
  }

  /** A list without repeats has exactly as many entries as distinct elements. */
  lemma {:induction false} DistinctCount(s: seq<string>)
    requires NoDuplicates(s)
    ensures |Elems(s)| == |s|
  {
    if |s| > 0 {
      DistinctCount(s[1..]);
      assert Elems(s) == {s[0]} + Elems(s[1..]);
      assert s[0] !in Elems(s[1..]);
    }
  }

  /** A sorted duplicate-free list is determined by its elements. */
  lemma {:induction false} SortedDetermined(a: seq<string>, b: seq<string>)
    requires StrictlySorted(a) && StrictlySorted(b)
    requires Elems(a) == Elems(b)
    ensures a == b
  {
    assert |a| > 0 ==> a[0] in Elems(b);
    assert |b| > 0 ==> b[0] in Elems(a);
    if |a| > 0 && |b| > 0 {
      assert a[0] in Elems(b);
      assert b[0] in Elems(a);
      assert Below(a[0], b[0]) by {
        var k :| 0 <= k < |a| && a[k] == b[0];
        if k > 0 { assert Less(a[0], a[k]); } else { BelowReflexive(a[0]); }
      }
      assert Below(b[0], a[0]) by {
        var k :| 0 <= k < |b| && b[k] == a[0];
        if k > 0 { assert Less(b[0], b[k]); } else { BelowReflexive(b[0]); }
      }
      BelowAntisymmetric(a[0], b[0]);
      TailElems(a);
      TailElems(b);
      SortedDetermined(a[1..], b[1..]);
      assert a == [a[0]] + a[1..] && b == [b[0]] + b[1..];
    }
  }

  lemma TailElems(s: seq<string>)
    requires StrictlySorted(s) && |s| > 0
    ensures StrictlySorted(s[1..])
    ensures Elems(s[1..]) == Elems(s) - {s[0]}
  {
  }

  /** Moving the least remaining name `m` to the end of `r` keeps `r` sorted and below the rest. */
  lemma SortStep(r: seq<string>, rest: set<string>, m: string)
    requires StrictlySorted(r)
    requires forall i, y :: 0 <= i < |r| && y in rest ==> Less(r[i], y)
    requires m in rest && forall y :: y in rest ==> Below(m, y)
    ensures StrictlySorted(r + [m])
    ensures Elems(r + [m]) + (rest - {m}) == Elems(r) + rest
    ensures forall i, y :: 0 <= i < |r + [m]| && y in rest - {m} ==> Less((r + [m])[i], y)
  {
  }

  /** Finds the least element of a non-empty set by scanning it once. */
  method Minimum(s: set<string>) returns (m: string)
    requires s != {}
    ensures m in s
    ensures forall y :: y in s ==> Below(m, y)
  {
    m :| m in s;
    BelowReflexive(m);
    var rest := s - {m};
    while rest != {}
      invariant m in s && rest <= s
      invariant forall y :: y in s - rest ==> Below(m, y)
      decreases rest
    {
      var y :| y in rest;
      BelowTotal(m, y);
      if !Below(m, y) {
        forall z | z in s - rest
          ensures Below(y, z)
        {
          BelowTransitive(y, m, z);
        }
        m := y;
      }
      BelowReflexive(y);
      rest := rest - {y};
    }
  }

  /** The names of `s` in ascending order, each once. */
  method SortAscending(s: set<string>) returns (r: seq<string>)
    ensures StrictlySorted(r)
    ensures Elems(r) == s
    ensures |r| == |s|
  {
    r := [];
    var rest := s;
    while rest != {}
      invariant rest <= s
      invariant Elems(r) + rest == s
      invariant StrictlySorted(r)
      invariant forall i, y :: 0 <= i < |r| && y in rest ==> Less(r[i], y)
      decreases rest
    {
      var m := Minimum(rest);
      SortStep(r, rest, m);
      r := r + [m];
      rest := rest - {m};
    }
    assert NoDuplicates(r);
    DistinctCount(r);
  }
}
