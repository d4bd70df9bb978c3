/**
 * The PHP built-ins the membership checks rely on: `explode`/`implode` on a
 * one-character delimiter, `array_intersect` on lists of strings, and the
 * sequence facts about them that the checks need.
 */
module Php {

  /** No element occurs twice. */
  predicate Distinct<T(==)>(s: seq<T>)
  {
    forall i, j :: 0 <= i < j < |s| ==> s[i] != s[j]
  }

  /** The elements of a list, as a set. */
  function Elements<T>(s: seq<T>): set<T>
  {
    set x | x in s
  }

  /** `explode(sep, s)`: the pieces between occurrences of `sep`, empty ones included. */
  function Explode(sep: char, s: string): (pieces: seq<string>)
    ensures |pieces| >= 1
    ensures forall p :: p in pieces ==> sep !in p
  {
    if s == [] then [""]
    else
      var rest := Explode(sep, s[1..]);
      if s[0] == sep then [""] + rest
      else [[s[0]] + rest[0]] + rest[1..]
  }

  /** `implode(sep, pieces)`: the pieces with `sep` between neighbours. */
  function Join(sep: char, pieces: seq<string>): string
  {
    if |pieces| == 0 then ""
    else if |pieces| == 1 then pieces[0]
    else pieces[0] + [sep] + Join(sep, pieces[1..])
  }

  /** Joining a piece in front of at least one more piece puts `sep` between them. */
  lemma JoinCons(sep: char, first: string, rest: seq<string>)
    requires |rest| >= 1
    ensures Join(sep, [first] + rest) == first + [sep] + Join(sep, rest)
  {
    assert ([first] + rest)[1..] == rest;
  }

  /** Splitting and joining again gives the string back. */
  lemma {:induction false} JoinExplode(sep: char, s: string)
    ensures Join(sep, Explode(sep, s)) == s
  {
    if s != [] {
      var rest := Explode(sep, s[1..]);
      JoinExplode(sep, s[1..]);
      assert s == [s[0]] + s[1..];
      if s[0] == sep {
        JoinCons(sep, "", rest);
      } else if |rest| == 1 {
        assert Explode(sep, s) == [[s[0]] + rest[0]];
      } else {
        assert rest == [rest[0]] + rest[1..];
        JoinCons(sep, rest[0], rest[1..]);
        JoinCons(sep, [s[0]] + rest[0], rest[1..]);
      }
    }
  }

  /** A prefix free of `sep` is glued onto the first piece of what follows it. */
  lemma {:induction false} ExplodePrefix(sep: char, a: string, t: string)
    requires sep !in a
    ensures Explode(sep, a + t) == [a + Explode(sep, t)[0]] + Explode(sep, t)[1..]
  {
    if a != [] {
      ExplodePrefix(sep, a[1..], t);
      assert (a + t)[1..] == a[1..] + t;
      assert (a + t)[0] == a[0];
      assert [a[0]] + (a[1..] + Explode(sep, t)[0]) == a + Explode(sep, t)[0];
    } else {
      var pieces := Explode(sep, t);
      assert a + t == t && a + pieces[0] == pieces[0];
      assert pieces == [pieces[0]] + pieces[1..];
    }
  }

  /** Joining pieces that are free of `sep` and splitting again gives the pieces back. */
  lemma {:induction false} ExplodeJoin(sep: char, pieces: seq<string>)
    requires |pieces| >= 1
    requires forall p :: p in pieces ==> sep !in p
    ensures Explode(sep, Join(sep, pieces)) == pieces
  {
    if |pieces| == 1 {
      ExplodePrefix(sep, pieces[0], "");
      assert pieces[0] + "" == pieces[0];
    } else {
      var tail := Join(sep, pieces[1..]);
      ExplodeJoin(sep, pieces[1..]);
      ExplodePrefix(sep, pieces[0], [sep] + tail);
      assert ([sep] + tail)[1..] == tail;
      assert Explode(sep, [sep] + tail) == [""] + pieces[1..];
      assert pieces[0] + [sep] + tail == pieces[0] + ([sep] + tail);
      assert pieces[0] + "" == pieces[0];
    }
  }

  /** A character other than `sep` is in the joined string iff some piece holds it. */
  lemma {:induction false} JoinHolds(sep: char, pieces: seq<string>, c: char)
    requires c != sep
    ensures c in Join(sep, pieces) <==> exists p :: p in pieces && c in p
  {
    if |pieces| >= 2 {
      JoinHolds(sep, pieces[1..], c);
      assert forall p :: p in pieces <==> p == pieces[0] || p in pieces[1..];
    }
  }

  /** The delimiter is in the joined string when there are at least two pieces. */
  lemma JoinHoldsSeparator(sep: char, pieces: seq<string>)
    requires |pieces| >= 2
    ensures sep in Join(sep, pieces)
  {
    assert Join(sep, pieces)[|pieces[0]|] == sep;
  }

  /**
   * `array_intersect(a, b)`: the elements of `a`, in order and with their
   * repetitions, that also occur in `b`.
   */
  function Intersect(a: seq<string>, b: seq<string>): (r: seq<string>)
    ensures |r| <= |a|
    ensures forall x :: x in r <==> x in a && x in b
    ensures forall x :: multiset(r)[x] == if x in b then multiset(a)[x] else 0
  {
    if a == [] then []
    else
      assert a == [a[0]] + a[1..];
      (if a[0] in b then [a[0]] else []) + Intersect(a[1..], b)
  }

  /** Splitting a list into its head and tail for distinctness. */
  lemma DistinctCons<T>(s: seq<T>)
    requires |s| >= 1
    ensures Distinct(s) <==> s[0] !in s[1..] && Distinct(s[1..])
  {
    if Distinct(s) {
      forall i | 0 <= i < |s[1..]| ensures s[1..][i] != s[0] {
        assert s[1..][i] == s[i + 1];
      }
    }
    if s[0] !in s[1..] && Distinct(s[1..]) {
      forall i, j | 0 <= i < j < |s| ensures s[i] != s[j] {
        if i == 0 {
          assert s[j] == s[1..][j - 1];
        } else {
          assert s[i] == s[1..][i - 1] && s[j] == s[1..][j - 1];
        }
      }
    }
  }

  /** A list has at least as many positions as distinct elements, and as many iff it is distinct. */
  lemma {:induction false} ElementsCount<T>(s: seq<T>)
    ensures |Elements(s)| <= |s|
    ensures |Elements(s)| == |s| <==> Distinct(s)
  {
    if s != [] {
      ElementsCount(s[1..]);
      DistinctCons(s);
      assert Elements(s) == {s[0]} + Elements(s[1..]);
      if s[0] in s[1..] {
        assert Elements(s) == Elements(s[1..]);
      } else {
        assert s[0] !in Elements(s[1..]);
      }
    }
  }

  /** Intersecting a distinct list keeps it distinct. */
  lemma {:induction false} IntersectDistinct(a: seq<string>, b: seq<string>)
    requires Distinct(a)
    ensures Distinct(Intersect(a, b))
  {
    if a != [] {
      DistinctCons(a);
      IntersectDistinct(a[1..], b);
      var r := Intersect(a, b);
      if a[0] in b {
        assert r == [a[0]] + Intersect(a[1..], b);
        assert r[1..] == Intersect(a[1..], b);
        DistinctCons(r);
      } else {
        assert r == Intersect(a[1..], b);
      }
    }
  }

  /** Some element of `a` is in `b` iff the intersection is non-empty (`(bool) array_intersect`). */
  lemma IntersectNonEmpty(a: seq<string>, b: seq<string>)
    ensures |Intersect(a, b)| > 0 <==> exists x :: x in a && x in b
  {
    if |Intersect(a, b)| > 0 {
      assert Intersect(a, b)[0] in Intersect(a, b);
    }
  }

  /**
   * For a distinct `a`, the intersection is as long as `b` exactly when `b`
   * is itself distinct and every element of `b` is in `a`.
   */
  lemma IntersectFull(a: seq<string>, b: seq<string>)
    requires Distinct(a)
    ensures |Intersect(a, b)| == |b| <==> Distinct(b) && forall x :: x in b ==> x in a
  {
    var r := Intersect(a, b);
    IntersectDistinct(a, b);
    ElementsCount(r);
    ElementsCount(b);
    assert Elements(r) == Elements(b) * Elements(a);
    assert |Elements(b) - Elements(a)| == |Elements(b)| - |Elements(r)|;
    if |r| == |b| {
      assert Elements(b) - Elements(a) == {};
      forall x | x in b ensures x in a {
        assert x !in Elements(b) - Elements(a);
      }
    }
    if Distinct(b) && forall x :: x in b ==> x in a {
      assert Elements(b) - Elements(a) == {};
    }
  }
}
