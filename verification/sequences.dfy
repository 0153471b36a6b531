/** The few facts about sequences that several modules share. */
module Sequences {
  predicate NoDuplicates<T(==)>(q: seq<T>) {
    forall i, j :: 0 <= i < j < |q| ==> q[i] != q[j]
  }

  function Elements<T>(q: seq<T>): set<T> {
    set x | x in q
  }

  /** `q` without the first occurrence of `x`. */
  function Without<T(==)>(q: seq<T>, x: T): seq<T> {
    if q == [] then [] else if q[0] == x then q[1..] else [q[0]] + Without(q[1..], x)
  }

  /** The members of `keep` in the order in which `q` lists them. */
  function Restrict<T(==)>(q: seq<T>, keep: set<T>): seq<T> {
    if q == [] then []
    else if q[0] in keep then [q[0]] + Restrict(q[1..], keep)
    else Restrict(q[1..], keep)
  }

  /** All the parts, one after the other. */
  function Flatten<T>(parts: seq<seq<T>>): seq<T> {
    if parts == [] then [] else parts[0] + Flatten(parts[1..])
  }

  lemma {:induction false} FlattenAppend<T>(parts: seq<seq<T>>, part: seq<T>)
    ensures Flatten(parts + [part]) == Flatten(parts) + part
  {
    if parts == [] {
    } else {
      assert (parts + [part])[1..] == parts[1..] + [part];
      FlattenAppend(parts[1..], part);
    }
  }

  lemma {:induction false} FlattenConcat<T>(front: seq<seq<T>>, back: seq<seq<T>>)
    ensures Flatten(front + back) == Flatten(front) + Flatten(back)
  {
    if front == [] {
      assert front + back == back;
    } else {
      assert (front + back)[1..] == front[1..] + back;
      FlattenConcat(front[1..], back);
    }
  }

  lemma ElementsCons<T>(x: T, q: seq<T>)
    ensures Elements([x] + q) == {x} + Elements(q)
  {
    assert forall y :: y in [x] + q <==> y == x || y in q;
  }

  lemma ElementsOfPrefix<T>(q: seq<T>, n: nat)
    requires n < |q|
    ensures Elements(q[..n + 1]) == Elements(q[..n]) + {q[n]}
  {
    assert q[..n + 1] == q[..n] + [q[n]];
    assert forall y :: y in q[..n + 1] <==> y in q[..n] || y == q[n];
  }

  lemma {:induction false} WithoutElements<T>(q: seq<T>, x: T)
    requires NoDuplicates(q)
    ensures NoDuplicates(Without(q, x))
    ensures Elements(Without(q, x)) == Elements(q) - {x}
  {
    if q == [] {
    } else if q[0] == x {
      assert q == [x] + q[1..];
    } else {
      WithoutElements(q[1..], x);
      assert q == [q[0]] + q[1..];
      var w := Without(q[1..], x);
      ElementsCons(q[0], q[1..]);
      ElementsCons(q[0], w);
      assert q[0] !in Elements(w);
    }
  }

  lemma {:induction false} WithoutAbsent<T>(q: seq<T>, x: T)
    requires x !in q
    ensures Without(q, x) == q
  {
    if q != [] {
      WithoutAbsent(q[1..], x);
    }
  }

  lemma {:induction false} RestrictElements<T>(q: seq<T>, keep: set<T>)
    ensures Elements(Restrict(q, keep)) == Elements(q) * keep
    ensures NoDuplicates(q) ==> NoDuplicates(Restrict(q, keep))
  {
    if q == [] {
    } else {
      RestrictElements(q[1..], keep);
      assert q == [q[0]] + q[1..];
      ElementsCons(q[0], q[1..]);
      if q[0] in keep {
        var r := Restrict(q[1..], keep);
        ElementsCons(q[0], r);
        if NoDuplicates(q) {
          assert q[0] !in Elements(q[1..]);
          assert q[0] !in Elements(r);
        }
      }
    }
  }

  lemma {:induction false} RestrictAll<T>(q: seq<T>, keep: set<T>)
    requires Elements(q) <= keep
    ensures Restrict(q, keep) == q
  {
    if q != [] {
      assert q[0] in Elements(q);
      assert Elements(q[1..]) <= Elements(q);
      RestrictAll(q[1..], keep);
    }
  }

  lemma {:induction false} RestrictTwice<T>(q: seq<T>, outer: set<T>, inner: set<T>)
    ensures Restrict(Restrict(q, outer), inner) == Restrict(q, outer * inner)
  {
    if q != [] {
      RestrictTwice(q[1..], outer, inner);
      if q[0] in outer {
        var r := Restrict(q[1..], outer);
        assert ([q[0]] + r)[1..] == r;
      }
    }
  }

  lemma {:induction false} RestrictAppend<T>(q: seq<T>, x: T, keep: set<T>)
    ensures Restrict(q + [x], keep) == if x in keep then Restrict(q, keep) + [x] else Restrict(q, keep)
  {
    if q == [] {
      assert q + [x] == [x];
    } else {
      assert (q + [x])[1..] == q[1..] + [x];
      RestrictAppend(q[1..], x, keep);
    }
  }

  /** Only membership of the listed elements matters to a restriction. */
  lemma {:induction false} RestrictAgree<T>(q: seq<T>, a: set<T>, b: set<T>)
    requires forall x :: x in q ==> (x in a <==> x in b)
    ensures Restrict(q, a) == Restrict(q, b)
  {
    if q != [] {
      RestrictAgree(q[1..], a, b);
    }
  }

  /** In a queue without repetitions, taking out the first occurrence takes out the element. */
  lemma {:induction false} WithoutIsRestrict<T>(q: seq<T>, x: T, keep: set<T>)
    requires NoDuplicates(q)
    ensures Restrict(Without(q, x), keep) == Restrict(q, keep - {x})
  {
    if q == [] {
    } else if q[0] == x {
      assert forall y :: y in q[1..] ==> y != x;
      RestrictAgree(q[1..], keep, keep - {x});
    } else {
      WithoutIsRestrict(q[1..], x, keep);
      var w := Without(q[1..], x);
      assert ([q[0]] + w)[1..] == w;
    }
  }

  lemma {:induction false} SizeOfElements<T>(q: seq<T>)
    requires NoDuplicates(q)
    ensures |Elements(q)| == |q|
  {
    if q != [] {
      SizeOfElements(q[1..]);
      assert q == [q[0]] + q[1..];
      assert Elements(q) == Elements(q[1..]) + {q[0]};
      assert q[0] !in q[1..];
    }
  }

  /** Repetitions are exactly what makes a sequence longer than its set of elements. */
  lemma {:induction false} SizeWithRepetitions<T>(q: seq<T>)
    ensures |Elements(q)| <= |q|
    ensures |Elements(q)| == |q| <==> NoDuplicates(q)
  {
    if NoDuplicates(q) {
      SizeOfElements(q);
    } else {
      var rest := q[1..];
      SizeWithRepetitions(rest);
      assert q == [q[0]] + rest;
      ElementsCons(q[0], rest);
      if q[0] in rest {
        assert Elements(q) == Elements(rest);
      }
    }
  }
}
