/** Pending writes of agent/subagent/checkpoint.py: what a batch leaves in the hash, that a
    replay changes nothing. */
module PendingWrites {
  import opened Basics
  import opened Ordering
  import opened Checkpoint

  // ---------------------------------------------------------------- field names

  lemma {:induction false} DigitsShape(n: nat)
    ensures |Digits(n)| >= 1 && (|Digits(n)| == 1 <==> n < 10)
    ensures forall k :: 0 <= k < |Digits(n)| ==> '0' <= Digits(n)[k] <= '9'
  {
    if n >= 10 {
      DigitsShape(n / 10);
      DigitsShape(n % 10);
    }
  }

  lemma {:induction false} DigitsInjective(a: nat, b: nat)
    requires Digits(a) == Digits(b)
    ensures a == b
  {
    DigitsShape(a);
    DigitsShape(b);
    if a >= 10 {
      DigitsShape(a % 10);
      DigitsShape(b % 10);
      var m := |Digits(a)| - 1;
      assert Digits(a / 10) == Digits(a)[..m] == Digits(b)[..m] == Digits(b / 10);
      assert Digits(a % 10) == Digits(a)[m..] == Digits(b)[m..] == Digits(b % 10);
      DigitsInjective(a / 10, b / 10);
    }
  }

  lemma IntTextInjective(a: int, b: int)
    requires IntText(a) == IntText(b)
    ensures a == b
  {
    DigitsShape(if a < 0 then -a else a);
    DigitsShape(if b < 0 then -b else b);
    assert IntText(a)[0] == IntText(b)[0];
    if a < 0 && b < 0 {
      assert Digits(-a) == IntText(a)[1..] == IntText(b)[1..] == Digits(-b);
      DigitsInjective(-a, -b);
    } else if a >= 0 && b >= 0 {
      DigitsInjective(a, b);
    }
  }

  lemma IntTextHasNoColon(n: int)
    ensures ':' !in IntText(n)
  {
    DigitsShape(if n < 0 then -n else n);
  }

  /** A field names one task and one index, whatever the task id contains. */
  lemma FieldInjective(t: string, i: int, u: string, j: int)
    requires Field(t, i) == Field(u, j)
    ensures t == u && i == j
  {
    var a, b := IntText(i), IntText(j);
    IntTextHasNoColon(i);
    IntTextHasNoColon(j);
    var f := Field(t, i);
    assert f[|t|] == ':' && f[|u|] == ':';
    assert forall k :: |t| < k < |f| ==> f[k] == a[k - |t| - 1];
    assert forall k :: |u| < k < |f| ==> f[k] == b[k - |u| - 1];
    assert |t| == |u|;
    assert t == f[..|t|] == f[..|u|] == u;
    assert a == f[|t| + 1..] == f[|u| + 1..] == b;
    IntTextInjective(i, j);
  }

  lemma FieldsCollide(c: WritesCall, i: nat, j: nat)
    requires i < |c.writes| && j < |c.writes| && FieldOf(c, i) == FieldOf(c, j)
    ensures i == j || (c.writes[i].0 == c.writes[j].0 && IsSpecial(c.writes[i].0))
  {
    FieldInjective(c.task, WriteIndex(c.writes[i].0, i), c.task, WriteIndex(c.writes[j].0, j));
  }

  // ---------------------------------------------------------------- one batch

  lemma {:induction false} OtherFieldsStay(h: map<string, WriteRecord>, c: WritesCall, n: nat, f: string)
    requires n <= |c.writes| && forall i: nat :: i < n ==> FieldOf(c, i) != f
    ensures var r := ApplyWrites(h, c, n); (f in r <==> f in h) && (f in h ==> r[f] == h[f])
  {
    if n > 0 {
      OtherFieldsStay(h, c, n - 1, f);
    }
  }

  lemma OrdinaryFieldIsOwn(c: WritesCall, i: nat, k: nat)
    requires i < |c.writes| && k < |c.writes| && i != k && !IsSpecial(c.writes[i].0)
    ensures FieldOf(c, k) != FieldOf(c, i)
  {
    if FieldOf(c, k) == FieldOf(c, i) { FieldsCollide(c, i, k); }
  }

  /** What a write leaves under its field: its task, channel, value and path. */
  lemma RecordCarries(c: WritesCall, i: nat)
    requires i < |c.writes|
    ensures var r := RecordOf(c, i); var (channel, value) := c.writes[i];
      && r.task == c.task && r.channel == channel && r.path == c.path
      && Serialized(r.kind, Latin1Encode(r.payload)) == value
  {
    Latin1RoundTrip(c.writes[i].1.payload);
  }

  /** The i-th write's field holds what was there before the batch, else the write's record. */
  predicate HoldsFirst(h: map<string, WriteRecord>, c: WritesCall, n: nat, i: nat)
    requires i < |c.writes| && n <= |c.writes|
  {
    var r, f := ApplyWrites(h, c, n), FieldOf(c, i);
    f in r && r[f] == if f in h then h[f] else RecordOf(c, i)
  }

  lemma OrdinaryIsWritten(h: map<string, WriteRecord>, c: WritesCall, i: nat)
    requires i < |c.writes| && !IsSpecial(c.writes[i].0)
    ensures HoldsFirst(h, c, i + 1, i)
  {
    var f := FieldOf(c, i);
    forall k: nat | k < i ensures FieldOf(c, k) != f { OrdinaryFieldIsOwn(c, i, k); }
    OtherFieldsStay(h, c, i, f);
  }

  lemma OrdinaryIsKept(h: map<string, WriteRecord>, c: WritesCall, n: nat, i: nat)
    requires i < n < |c.writes| && !IsSpecial(c.writes[i].0) && HoldsFirst(h, c, n, i)
    ensures HoldsFirst(h, c, n + 1, i)
  {
    OrdinaryFieldIsOwn(c, i, n);
  }

  lemma {:induction false} Climb(p: nat -> bool, low: nat, high: nat)
    requires low <= high && p(low) && forall k: nat :: low <= k < high && p(k) ==> p(k + 1)
    ensures p(high)
    decreases high
  {
    if low < high {
      Climb(p, low, high - 1);
      assert p(high - 1) ==> p(high - 1 + 1);
    }
  }

  /** An ordinary position keeps the first value it ever got. */
  lemma OrdinaryKeepsFirst(h: map<string, WriteRecord>, c: WritesCall, n: nat, i: nat)
    requires i < n <= |c.writes| && !IsSpecial(c.writes[i].0)
    ensures HoldsFirst(h, c, n, i)
  {
    var p := (k: nat) => k <= |c.writes| && HoldsFirst(h, c, k, i);
    OrdinaryIsWritten(h, c, i);
    forall k: nat | i + 1 <= k < n && p(k) ensures p(k + 1) { OrdinaryIsKept(h, c, k, i); }
    Climb(p, i + 1, n);
  }

  predicate HoldsLast(h: map<string, WriteRecord>, c: WritesCall, n: nat, i: nat)
    requires i < |c.writes| && n <= |c.writes|
  {
    var r, f := ApplyWrites(h, c, n), FieldOf(c, i); f in r && r[f] == RecordOf(c, i)
  }

  lemma SpecialIsKept(h: map<string, WriteRecord>, c: WritesCall, n: nat, i: nat)
    requires i < n < |c.writes| && c.writes[n].0 != c.writes[i].0 && HoldsLast(h, c, n, i)
    ensures HoldsLast(h, c, n + 1, i)
  {
    if FieldOf(c, n) == FieldOf(c, i) { FieldsCollide(c, i, n); }
  }

  /** None of the writes between the i-th and the n-th goes to the i-th one's channel. */
  predicate IsLastOfChannel(c: WritesCall, i: nat, n: nat)
    requires i < n <= |c.writes|
  {
    forall k :: i < k < n ==> c.writes[k].0 != c.writes[i].0
  }

  lemma {:induction false} IsKeptWhileLast(h: map<string, WriteRecord>, c: WritesCall, n: nat, i: nat)
    requires i < n <= |c.writes| && IsLastOfChannel(c, i, n) && HoldsLast(h, c, i + 1, i)
    ensures HoldsLast(h, c, n, i)
    decreases n
  {
    if i + 1 < n {
      IsKeptWhileLast(h, c, n - 1, i);
      SpecialIsKept(h, c, n - 1, i);
    }
  }

  /** A special channel keeps the last value of the batch. */
  lemma SpecialKeepsLast(h: map<string, WriteRecord>, c: WritesCall, n: nat, i: nat)
    requires i < n <= |c.writes| && IsSpecial(c.writes[i].0) && IsLastOfChannel(c, i, n)
    ensures HoldsLast(h, c, n, i)
  {
    IsKeptWhileLast(h, c, n, i);
  }

  lemma {:induction false} LastOfChannel(c: WritesCall, i: nat) returns (k: nat)
    requires i < |c.writes|
    ensures i <= k < |c.writes| && c.writes[k].0 == c.writes[i].0 && IsLastOfChannel(c, k, |c.writes|)
    decreases |c.writes| - i
  {
    if j :| i < j < |c.writes| && c.writes[j].0 == c.writes[i].0 {
      k := LastOfChannel(c, j);
    } else {
      k := i;
    }
  }

  // ---------------------------------------------------------------- replay

  function ApplyAll(h: map<string, WriteRecord>, calls: seq<WritesCall>): map<string, WriteRecord> {
    if calls == [] then h
    else
      var n := |calls| - 1;
      ApplyWrites(ApplyAll(h, calls[..n]), calls[n], |calls[n].writes|)
  }

  lemma {:induction false} OtherTasksStay(h: map<string, WriteRecord>, calls: seq<WritesCall>, task: string, index: int)
    requires forall k :: 0 <= k < |calls| ==> calls[k].task != task
    ensures var r, f := ApplyAll(h, calls), Field(task, index); (f in r <==> f in h) && (f in h ==> r[f] == h[f])
  {
    if calls != [] {
      var n := |calls| - 1;
      var c, f := calls[n], Field(task, index);
      OtherTasksStay(h, calls[..n], task, index);
      forall i: nat | i < |c.writes| ensures FieldOf(c, i) != f {
        if FieldOf(c, i) == f { FieldInjective(c.task, WriteIndex(c.writes[i].0, i), task, index); }
      }
      OtherFieldsStay(ApplyAll(h, calls[..n]), c, |c.writes|, f);
    }
  }

  /** Replaying a batch changes nothing, even after other tasks have written to the same
      checkpoint in the meantime. */
  lemma ReplayChangesNothing(h: map<string, WriteRecord>, c: WritesCall, others: seq<WritesCall>)
    requires forall k :: 0 <= k < |others| ==> others[k].task != c.task
    ensures var now := ApplyAll(ApplyWrites(h, c, |c.writes|), others); ApplyWrites(now, c, |c.writes|) == now
  {
    var n := |c.writes|;
    var first := ApplyWrites(h, c, n);
    var now := ApplyAll(first, others);
    var again := ApplyWrites(now, c, n);
    forall f ensures (f in again <==> f in now) && (f in now ==> again[f] == now[f]) {
      if i: nat :| i < n && FieldOf(c, i) == f {
        OtherTasksStay(first, others, c.task, WriteIndex(c.writes[i].0, i));
        if IsSpecial(c.writes[i].0) {
          var k := LastOfChannel(c, i);
          SpecialKeepsLast(h, c, n, k);
          SpecialKeepsLast(now, c, n, k);
        } else {
          OrdinaryKeepsFirst(h, c, n, i);
          OrdinaryKeepsFirst(now, c, n, i);
        }
      } else {
        OtherFieldsStay(now, c, n, f);
      }
    }
  }
}
