/** Duplicate-free sequences, and appending what is new. */
module Sequences {

  ghost predicate Distinct<T>(s: seq<T>) {
    forall a, b :: 0 <= a < b < |s| ==> s[a] != s[b]
  }

  lemma DistinctConcat<T>(a: seq<T>, b: seq<T>)
    ensures Distinct(a + b) <==> Distinct(a) && Distinct(b) && forall x :: x in b ==> x !in a
  {
    assert forall i :: 0 <= i < |a| ==> (a + b)[i] == a[i];
    assert forall i :: 0 <= i < |b| ==> (a + b)[|a| + i] == b[i];
    if Distinct(a + b) {
      forall i, j | 0 <= i < j < |b| ensures b[i] != b[j] {
        assert (a + b)[|a| + i] != (a + b)[|a| + j];
      }
      forall i, j | 0 <= i < |a| && 0 <= j < |b| ensures a[i] != b[j] {
        assert (a + b)[i] != (a + b)[|a| + j];
      }
    }
    if Distinct(a) && Distinct(b) && forall x :: x in b ==> x !in a {
      forall i, j | 0 <= i < j < |a + b| ensures (a + b)[i] != (a + b)[j] {
        if i < |a| <= j {
          assert b[j - |a|] in b && a[i] in a;
        }
      }
    }
  }

  /** Those of the first n elements of `come` that are not in `have`, in order, repetitions included. */
  function Fresh<T(==)>(have: seq<T>, come: seq<T>, n: nat): (r: seq<T>)
    requires n <= |come|
    ensures forall x :: x in r ==> x !in have
  {
    if n == 0 then []
    else if come[n - 1] in have then Fresh(have, come, n - 1)
    else Fresh(have, come, n - 1) + [come[n - 1]]
  }

  lemma FreshStep<T>(have: seq<T>, come: seq<T>, n: nat)
    requires n <= |come|
    ensures Fresh(have, come, 0) == []
    ensures n > 0 ==> Fresh(have, come, n) ==
                      if come[n - 1] in have then Fresh(have, come, n - 1)
                      else Fresh(have, come, n - 1) + [come[n - 1]]
  {
  }

  lemma {:induction false} FreshMember<T>(have: seq<T>, come: seq<T>, n: nat, x: T)
    requires n <= |come|
    ensures x in Fresh(have, come, n) <==> x !in have && exists m :: 0 <= m < n && come[m] == x
  {
    if n > 0 {
      FreshMember(have, come, n - 1, x);
    }
  }

  /** No element that is new occurs twice among the first n. */
  ghost predicate FreshOnce<T>(have: seq<T>, come: seq<T>, n: nat)
    requires n <= |come|
  {
    forall i, j :: 0 <= i < j < n && come[i] == come[j] ==> come[i] in have
  }

  lemma {:induction false} FreshDistinctIff<T>(have: seq<T>, come: seq<T>, n: nat)
    requires n <= |come|
    ensures Distinct(Fresh(have, come, n)) <==> FreshOnce(have, come, n)
  {
    if n > 0 {
      FreshDistinctIff(have, come, n - 1);
      FreshMember(have, come, n - 1, come[n - 1]);
      if come[n - 1] !in have {
        DistinctConcat(Fresh(have, come, n - 1), [come[n - 1]]);
      }
    }
  }

  /** Appending the new elements keeps a duplicate-free sequence so exactly when none of them comes twice. */
  lemma AppendFreshDistinctIff<T>(have: seq<T>, come: seq<T>)
    requires Distinct(have)
    ensures Distinct(have + Fresh(have, come, |come|)) <==> FreshOnce(have, come, |come|)
  {
    FreshDistinctIff(have, come, |come|);
    DistinctConcat(have, Fresh(have, come, |come|));
  }
}
