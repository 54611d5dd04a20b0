/** Python's stable sort by an integer key, as insertion behind everything of the same key; what it
    keeps, and with which element it starts. */
module StableSort {

  function Insert<T>(key: T -> int, a: T, s: seq<T>): seq<T> {
    if s == [] || key(s[|s| - 1]) <= key(a) then s + [a]
    else Insert(key, a, s[..|s| - 1]) + [s[|s| - 1]]
  }

  function Sort<T>(key: T -> int, s: seq<T>): seq<T> {
    if s == [] then [] else Insert(key, s[|s| - 1], Sort(key, s[..|s| - 1]))
  }

  predicate Rising<T>(key: T -> int, s: seq<T>) {
    forall i, j :: 0 <= i < j < |s| ==> key(s[i]) <= key(s[j])
  }

  predicate UpTo<T>(key: T -> int, s: seq<T>, top: int) {
    forall i :: 0 <= i < |s| ==> key(s[i]) <= top
  }

  lemma {:induction false} InsertStaysUpTo<T>(key: T -> int, a: T, s: seq<T>, top: int)
    requires UpTo(key, s, top) && key(a) <= top
    ensures UpTo(key, Insert(key, a, s), top)
  {
    if !(s == [] || key(s[|s| - 1]) <= key(a)) {
      InsertStaysUpTo(key, a, s[..|s| - 1], top);
    }
  }

  lemma {:induction false} InsertRises<T>(key: T -> int, a: T, s: seq<T>)
    requires Rising(key, s)
    ensures Rising(key, Insert(key, a, s))
  {
    if s == [] || key(s[|s| - 1]) <= key(a) {
    } else {
      var n := |s| - 1;
      InsertRises(key, a, s[..n]);
      InsertStaysUpTo(key, a, s[..n], key(s[n]));
    }
  }

  lemma {:induction false} InsertContents<T>(key: T -> int, a: T, s: seq<T>)
    ensures multiset(Insert(key, a, s)) == multiset(s) + multiset{a} && |Insert(key, a, s)| == |s| + 1
  {
    if !(s == [] || key(s[|s| - 1]) <= key(a)) {
      var n := |s| - 1;
      InsertContents(key, a, s[..n]);
      assert s == s[..n] + [s[n]];
    }
  }

  lemma {:induction false} SortRises<T>(key: T -> int, s: seq<T>)
    ensures Rising(key, Sort(key, s))
  {
    if s != [] {
      SortRises(key, s[..|s| - 1]);
      InsertRises(key, s[|s| - 1], Sort(key, s[..|s| - 1]));
    }
  }

  lemma {:induction false} SortContents<T>(key: T -> int, s: seq<T>)
    ensures multiset(Sort(key, s)) == multiset(s) && |Sort(key, s)| == |s|
  {
    if s != [] {
      var n := |s| - 1;
      SortContents(key, s[..n]);
      InsertContents(key, s[n], Sort(key, s[..n]));
      assert s == s[..n] + [s[n]];
    }
  }

  /** The elements with one key, in order. */
  function WithKey<T>(key: T -> int, s: seq<T>, k: int): seq<T> {
    if s == [] then []
    else WithKey(key, s[..|s| - 1], k) + (if key(s[|s| - 1]) == k then [s[|s| - 1]] else [])
  }

  lemma {:induction false} InsertIsStable<T>(key: T -> int, a: T, s: seq<T>, k: int)
    ensures WithKey(key, Insert(key, a, s), k) == WithKey(key, s + [a], k)
  {
    if !(s == [] || key(s[|s| - 1]) <= key(a)) {
      var n := |s| - 1;
      var t := Insert(key, a, s[..n]);
      InsertIsStable(key, a, s[..n], k);
    }
  }

  /** Elements with the same key keep their order. */
  lemma {:induction false} SortIsStable<T>(key: T -> int, s: seq<T>, k: int)
    ensures WithKey(key, Sort(key, s), k) == WithKey(key, s, k)
  {
    if s != [] {
      var n := |s| - 1;
      var t := Sort(key, s[..n]);
      SortIsStable(key, s[..n], k);
      InsertIsStable(key, s[n], t, k);
    }
  }

  lemma {:induction false} InsertHead<T>(key: T -> int, a: T, s: seq<T>)
    requires Rising(key, s)
    ensures Insert(key, a, s)[0] == if s != [] && key(s[0]) <= key(a) then s[0] else a
  {
    if !(s == [] || key(s[|s| - 1]) <= key(a)) {
      InsertHead(key, a, s[..|s| - 1]);
    }
  }

  /** No element has a lower key than the k-th, and those before it have higher ones. */
  predicate IsFirstLowest<T>(key: T -> int, s: seq<T>, k: nat) {
    && k < |s|
    && (forall i :: 0 <= i < k ==> key(s[k]) < key(s[i]))
    && (forall i :: k < i < |s| ==> key(s[k]) <= key(s[i]))
  }

  lemma LowestGrows<T>(key: T -> int, s: seq<T>, k: nat)
    requires s != [] && IsFirstLowest(key, s[..|s| - 1], k)
    ensures IsFirstLowest(key, s, if key(s[k]) <= key(s[|s| - 1]) then k else |s| - 1)
  {
    var n := |s| - 1;
    assert forall i :: 0 <= i < n ==> s[..n][i] == s[i];
    forall i | 0 <= i < n ensures key(s[k]) <= key(s[i]) {
      assert key(s[..n][k]) <= key(s[..n][i]);
    }
  }

  lemma {:induction false} SortStartsWith<T>(key: T -> int, s: seq<T>) returns (k: nat)
    requires s != []
    ensures IsFirstLowest(key, s, k) && Sort(key, s) != [] && Sort(key, s)[0] == s[k]
  {
    var n := |s| - 1;
    k := n;
    if n > 0 {
      var j := SortStartsWith(key, s[..n]);
      LowestGrows(key, s, j);
      SortRises(key, s[..n]);
      InsertHead(key, s[n], Sort(key, s[..n]));
      if key(s[j]) <= key(s[n]) { k := j; }
    }
  }

  /** How many elements have a key below `k`. */
  function CountBelow<T>(key: T -> int, s: seq<T>, k: int): nat {
    if s == [] then 0
    else CountBelow(key, s[..|s| - 1], k) + (if key(s[|s| - 1]) < k then 1 else 0)
  }

  lemma {:induction false} InsertCounts<T>(key: T -> int, a: T, s: seq<T>, k: int)
    ensures CountBelow(key, Insert(key, a, s), k) == CountBelow(key, s + [a], k)
  {
    if !(s == [] || key(s[|s| - 1]) <= key(a)) {
      var n := |s| - 1;
      InsertCounts(key, a, s[..n], k);
    }
  }

  lemma {:induction false} SortCounts<T>(key: T -> int, s: seq<T>, k: int)
    ensures CountBelow(key, Sort(key, s), k) == CountBelow(key, s, k)
  {
    if s != [] {
      var n := |s| - 1;
      var t := Sort(key, s[..n]);
      SortCounts(key, s[..n], k);
      InsertCounts(key, s[n], t, k);
    }
  }

  /** In rising order the elements with a key below `k` are the first ones. */
  lemma {:induction false} LowKeysComeFirst<T>(key: T -> int, s: seq<T>, k: int, i: nat)
    requires Rising(key, s) && i < |s|
    ensures key(s[i]) < k <==> i < CountBelow(key, s, k)
    ensures CountBelow(key, s, k) <= |s|
  {
    var n := |s| - 1;
    if i < n {
      LowKeysComeFirst(key, s[..n], k, i);
    }
    if n > 0 {
      LowKeysComeFirst(key, s[..n], k, n - 1);
    }
  }
}
