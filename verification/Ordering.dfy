/** Code-point order on strings (Python's `<` on str and Redis' member order), and the one listing
    of a finite set that a strict total order allows. */
module Ordering {

  /** Code-point order: a proper prefix comes first. */
  predicate Less(a: string, b: string) {
    if b == "" then false
    else if a == "" then true
    else if a[0] != b[0] then a[0] < b[0]
    else Less(a[1..], b[1..])
  }

  lemma {:induction false} LessIsAsymmetric(a: string, b: string)
    ensures !(Less(a, b) && Less(b, a))
    ensures a == b ==> !Less(a, b)
  {
    if a != "" && b != "" && a[0] == b[0] {
      LessIsAsymmetric(a[1..], b[1..]);
    }
  }

  lemma {:induction false} LessIsConnected(a: string, b: string)
    ensures a == b || Less(a, b) || Less(b, a)
  {
    if a != "" && b != "" && a[0] == b[0] {
      LessIsConnected(a[1..], b[1..]);
      assert a == [a[0]] + a[1..] && b == [b[0]] + b[1..];
    }
  }

  lemma {:induction false} LessIsTransitive(a: string, b: string, c: string)
    requires Less(a, b) && Less(b, c)
    ensures Less(a, c)
  {
    if a != "" && a[0] == b[0] == c[0] {
      LessIsTransitive(a[1..], b[1..], c[1..]);
    }
  }

  /** A common prefix does not matter to the order. */
  lemma {:induction false} LessAfterPrefix(p: string, a: string, b: string)
    ensures Less(p + a, p + b) <==> Less(a, b)
  {
    if p == "" {
      assert p + a == a && p + b == b;
    } else {
      assert (p + a)[1..] == p[1..] + a && (p + b)[1..] == p[1..] + b;
      LessAfterPrefix(p[1..], a, b);
    }
  }

  ghost predicate StrictTotalOrder<T(!new)>(lt: (T, T) -> bool) {
    && (forall a, b :: !(lt(a, b) && lt(b, a)))
    && (forall a, b, c :: lt(a, b) && lt(b, c) ==> lt(a, c))
    && (forall a, b :: a == b || lt(a, b) || lt(b, a))
  }

  lemma LessIsStrictTotalOrder()
    ensures StrictTotalOrder(Less)
  {
    forall a, b ensures !(Less(a, b) && Less(b, a)) { LessIsAsymmetric(a, b); }
    forall a, b, c | Less(a, b) && Less(b, c) ensures Less(a, c) { LessIsTransitive(a, b, c); }
    forall a, b ensures a == b || Less(a, b) || Less(b, a) { LessIsConnected(a, b); }
  }

  ghost predicate Sorted<T>(lt: (T, T) -> bool, s: seq<T>) {
    forall i, j :: 0 <= i < j < |s| ==> lt(s[i], s[j])
  }

  ghost predicate IsLeast<T>(lt: (T, T) -> bool, s: set<T>, x: T) {
    x in s && forall y :: y in s && y != x ==> lt(x, y)
  }

  lemma {:induction false} LeastExists<T(!new)>(lt: (T, T) -> bool, s: set<T>)
    requires StrictTotalOrder(lt) && s != {}
    ensures exists x :: IsLeast(lt, s, x)
  {
    var a :| a in s;
    var rest := s - {a};
    if rest == {} {
      assert s == {a};
      assert IsLeast(lt, s, a);
    } else {
      LeastExists(lt, rest);
      var m :| IsLeast(lt, rest, m);
      assert s == rest + {a};
      if lt(a, m) {
        assert IsLeast(lt, s, a);
      } else {
        assert IsLeast(lt, s, m);
      }
    }
  }

  function Least<T(!new, ==)>(lt: (T, T) -> bool, s: set<T>): (x: T)
    requires StrictTotalOrder(lt) && s != {}
    ensures x in s && forall y :: y in s && y != x ==> lt(x, y)
  {
    LeastExists(lt, s);
    var x :| x in s && forall y :: y in s && y != x ==> lt(x, y);
    x
  }

  /** The listing of a finite set in increasing order. */
  function Listing<T(!new, ==)>(lt: (T, T) -> bool, s: set<T>): (r: seq<T>)
    requires StrictTotalOrder(lt)
    ensures Sorted(lt, r)
    ensures forall x :: x in r <==> x in s
    decreases |s|
  {
    if s == {} then []
    else
      var x := Least(lt, s);
      [x] + Listing(lt, s - {x})
  }

  /** Two sorted sequences over the same elements are equal, so the listing is the only one. */
  lemma {:induction false} SortedIsUnique<T(!new)>(lt: (T, T) -> bool, a: seq<T>, b: seq<T>)
    requires StrictTotalOrder(lt) && Sorted(lt, a) && Sorted(lt, b)
    requires forall x :: x in a <==> x in b
    ensures a == b
  {
    assert b == [] || b[0] in a;
    if a != [] {
      assert a[0] in b && b != [];
      assert b[0] in a;
      assert a[0] == b[0];
      forall x ensures x in a[1..] <==> x in b[1..] {
        TailMembers(lt, a, x);
        TailMembers(lt, b, x);
      }
      SortedIsUnique(lt, a[1..], b[1..]);
      assert a == [a[0]] + a[1..] && b == [b[0]] + b[1..];
    }
  }

  lemma TailMembers<T(!new)>(lt: (T, T) -> bool, a: seq<T>, x: T)
    requires StrictTotalOrder(lt) && Sorted(lt, a) && a != []
    ensures x in a[1..] <==> x in a && x != a[0]
  {
    if x in a && x != a[0] {
      var k :| 0 <= k < |a| && a[k] == x;
      assert a[1..][k - 1] == x;
    }
    if x in a[1..] {
      var k :| 0 <= k < |a[1..]| && a[1..][k] == x;
      assert lt(a[0], a[k + 1]);
    }
  }

  /** The elements satisfying `keep`, in order. */
  function Select<T(!new)>(s: seq<T>, keep: T -> bool): (r: seq<T>)
    ensures forall x :: x in r <==> x in s && keep(x)
  {
    if s == [] then []
    else if keep(s[0]) then [s[0]] + Select(s[1..], keep)
    else Select(s[1..], keep)
  }

  lemma {:induction false} SelectAppend<T(!new)>(a: seq<T>, b: seq<T>, keep: T -> bool)
    ensures Select(a + b, keep) == Select(a, keep) + Select(b, keep)
  {
    if a == [] {
      assert a + b == b;
    } else {
      assert (a + b)[1..] == a[1..] + b;
      SelectAppend(a[1..], b, keep);
    }
  }

  lemma {:induction false} SelectKeepsSorted<T(!new)>(lt: (T, T) -> bool, s: seq<T>, keep: T -> bool)
    requires Sorted(lt, s)
    ensures Sorted(lt, Select(s, keep))
  {
    if s != [] {
      SelectKeepsSorted(lt, s[1..], keep);
      var rest := Select(s[1..], keep);
      forall i | 0 <= i < |rest| ensures lt(s[0], rest[i]) {
        assert rest[i] in rest;
        var k :| 0 <= k < |s[1..]| && s[1..][k] == rest[i];
        assert s[k + 1] == rest[i];
      }
    }
  }
}
