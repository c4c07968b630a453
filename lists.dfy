/** Filtering a list, as a list comprehension with a condition does it. */
module Lists {
  /** The entries of s that keep accepts, in their order in s (a list
      comprehension with a condition). */
  function Select<T>(s: seq<T>, keep: T -> bool): (r: seq<T>)
    ensures |r| <= |s|
  {
    if s == [] then [] else (if keep(s[0]) then [s[0]] else []) + Select(s[1..], keep)
  }

  /** Selection keeps exactly the accepted entries. */
  lemma {:induction false} SelectMembers<T>(s: seq<T>, keep: T -> bool, x: T)
    ensures x in Select(s, keep) <==> x in s && keep(x)
  {
    if s != [] {
      SelectMembers(s[1..], keep, x);
      assert s == [s[0]] + s[1..];
    }
  }

  /** Selection keeps order: selecting from a concatenation concatenates
      the selections. */
  lemma {:induction false} SelectAppend<T>(a: seq<T>, b: seq<T>, keep: T -> bool)
    ensures Select(a + b, keep) == Select(a, keep) + Select(b, keep)
  {
    if a == [] {
      assert a + b == b;
    } else {
      var head := if keep(a[0]) then [a[0]] else [];
      assert (a + b)[0] == a[0] && (a + b)[1..] == a[1..] + b;
      assert Select(a + b, keep) == head + Select(a[1..] + b, keep);
      SelectAppend(a[1..], b, keep);
      assert head + (Select(a[1..], keep) + Select(b, keep)) == (head + Select(a[1..], keep)) + Select(b, keep);
    }
  }

  /** Python's `list.index`: the first position of x. */
  function IndexOf<T(==)>(s: seq<T>, x: T): (k: nat)
    requires x in s
    ensures k < |s| && s[k] == x && forall i :: 0 <= i < k ==> s[i] != x
  {
    if s[0] == x then 0 else 1 + IndexOf(s[1..], x)
  }

  /** No entry of s occurs twice. */
  predicate Distinct<T(==)>(s: seq<T>)
  {
    forall i, j :: 0 <= i < j < |s| ==> s[i] != s[j]
  }

  /** Selection keeps order: of two selected entries, the earlier one
      sits earlier in the original list. */
  lemma {:induction false} SelectOrdered<T>(s: seq<T>, keep: T -> bool)
    requires Distinct(s)
    ensures forall x :: x in Select(s, keep) ==> x in s
    ensures forall a, b :: 0 <= a < b < |Select(s, keep)| ==>
              IndexOf(s, Select(s, keep)[a]) < IndexOf(s, Select(s, keep)[b])
  {
    forall x | x in Select(s, keep)
      ensures x in s
    {
      SelectMembers(s, keep, x);
    }
    if s != [] {
      var t := s[1..];
      assert Distinct(t) by {
        forall i, j | 0 <= i < j < |t|
          ensures t[i] != t[j]
        {
          assert t[i] == s[i + 1] && t[j] == s[j + 1];
        }
      }
      SelectOrdered(t, keep);
      var head := if keep(s[0]) then [s[0]] else [];
      var r := Select(s, keep);
      assert r == head + Select(t, keep);
      forall y | y in Select(t, keep)
        ensures y != s[0] && IndexOf(s, y) == 1 + IndexOf(t, y)
      {
        var k := IndexOf(t, y);
        assert s[k + 1] == y;
      }
      forall a, b | 0 <= a < b < |r|
        ensures IndexOf(s, r[a]) < IndexOf(s, r[b])
      {
        var n := |head|;
        assert r[b] == Select(t, keep)[b - n];
        if a < n {
          assert r[a] == s[0];
        } else {
          assert r[a] == Select(t, keep)[a - n];
        }
      }
    }
  }

  /** A filter over a list without repeats, in one statement: it keeps
      exactly the accepted entries, in their original order. */
  lemma SelectSubsequence<T>(s: seq<T>, keep: T -> bool)
    requires Distinct(s)
    ensures forall x :: x in Select(s, keep) <==> x in s && keep(x)
    ensures forall a, b :: 0 <= a < b < |Select(s, keep)| ==>
              IndexOf(s, Select(s, keep)[a]) < IndexOf(s, Select(s, keep)[b])
  {
    forall x
      ensures x in Select(s, keep) <==> x in s && keep(x)
    {
      SelectMembers(s, keep, x);
    }
    SelectOrdered(s, keep);
  }
}
