/** In which order the pending writes of one task's batch are read back. */
module PendingReads {
  import opened Basics
  import opened Ordering
  import opened Checkpoint
  import opened PendingWrites

  // ---------------------------------------------------------------- fields and their tasks

  /** Every field is named after the task of its record. */
  ghost predicate WellFormed(h: map<string, WriteRecord>) {
    forall f :: f in h ==> NamedAfter(f, h[f].task)
  }

  ghost predicate NamedAfter(f: string, task: string) {
    exists index :: f == Field(task, index)
  }

  lemma {:induction false} BatchKeepsWellFormed(h: map<string, WriteRecord>, c: WritesCall, n: nat)
    requires n <= |c.writes| && WellFormed(h)
    ensures WellFormed(ApplyWrites(h, c, n))
  {
    if n > 0 {
      BatchKeepsWellFormed(h, c, n - 1);
    }
  }

  // ---------------------------------------------------------------- positions of ordinary writes

  /** The positions of the first `n` writes that go to ordinary channels. */
  function Positions(c: WritesCall, n: nat): seq<nat>
    requires n <= |c.writes|
  {
    if n == 0 then [] else Positions(c, n - 1) + (if IsSpecial(c.writes[n - 1].0) then [] else [n - 1])
  }

  lemma {:induction false} PositionsAre(c: WritesCall, n: nat)
    requires n <= |c.writes|
    ensures forall i: nat :: i in Positions(c, n) <==> i < n && !IsSpecial(c.writes[i].0)
  {
    if n > 0 { PositionsAre(c, n - 1); }
  }

  lemma {:induction false} PositionsRise(c: WritesCall, n: nat)
    requires n <= |c.writes|
    ensures forall a, b :: 0 <= a < b < |Positions(c, n)| ==> Positions(c, n)[a] < Positions(c, n)[b]
  {
    if n > 0 {
      PositionsAre(c, n - 1);
      PositionsRise(c, n - 1);
      var before := Positions(c, n - 1);
      assert forall a :: 0 <= a < |before| ==> before[a] in before;
    }
  }

  function FieldsAt(task: string, p: seq<nat>): seq<string> {
    seq(|p|, k requires 0 <= k < |p| => Field(task, p[k]))
  }

  /** The positions' digits are in text order. */
  predicate InTextOrder(p: seq<nat>) {
    forall a, b :: 0 <= a < b < |p| ==> Less(Digits(p[a]), Digits(p[b]))
  }

  lemma FieldsOrdered(task: string, i: nat, j: nat)
    ensures Less(Field(task, i), Field(task, j)) <==> Less(Digits(i), Digits(j))
  {
    LessAfterPrefix(task + ":", Digits(i), Digits(j));
  }

  lemma FieldsSortedExactlyWhen(task: string, p: seq<nat>)
    ensures Sorted(Less, FieldsAt(task, p)) <==> InTextOrder(p)
  {
    var fields := FieldsAt(task, p);
    forall a, b | 0 <= a < |p| && 0 <= b < |p|
      ensures Less(fields[a], fields[b]) <==> Less(Digits(p[a]), Digits(p[b]))
    {
      FieldsOrdered(task, p[a], p[b]);
    }
  }

  /** In a batch of at most ten writes the order is right, whatever is special in it. */
  lemma ShortBatchInOrder(c: WritesCall)
    requires |c.writes| <= 10
    ensures InTextOrder(Positions(c, |c.writes|))
  {
    var p := Positions(c, |c.writes|);
    PositionsAre(c, |c.writes|);
    PositionsRise(c, |c.writes|);
    forall a, b | 0 <= a < b < |p| ensures Less(Digits(p[a]), Digits(p[b])) {
      assert p[a] in p && p[b] in p;
    }
  }

  lemma {:induction false} AllPositions(c: WritesCall, n: nat)
    requires n <= |c.writes| && forall i :: 0 <= i < n ==> !IsSpecial(c.writes[i].0)
    ensures Positions(c, n) == seq(n, i requires 0 <= i < n => i)
  {
    if n > 0 { AllPositions(c, n - 1); }
  }

  /** A batch of ordinary writes alone is in order exactly when it has at most ten. */
  lemma OrdinaryBatchInOrderExactlyWhen(c: WritesCall)
    requires forall i :: 0 <= i < |c.writes| ==> !IsSpecial(c.writes[i].0)
    ensures InTextOrder(Positions(c, |c.writes|)) <==> |c.writes| <= 10
  {
    if |c.writes| <= 10 {
      ShortBatchInOrder(c);
    } else {
      AllPositions(c, |c.writes|);
      var p := Positions(c, |c.writes|);
      assert p[2] == 2 && p[10] == 10;
    }
  }

  // ---------------------------------------------------------------- what is read back

  predicate IsOwn(h: map<string, WriteRecord>, task: string, f: string) {
    f in h && h[f].task == task && !IsSpecial(h[f].channel)
  }

  /** The task's ordinary fields, in the order of reading. */
  function OwnFields(h: map<string, WriteRecord>, task: string): seq<string> {
    Select(SortedFields(h), f => IsOwn(h, task, f))
  }

  predicate IsOwnWrite(task: string, w: PendingWrite) {
    w.task == task && !IsSpecial(w.channel)
  }

  /** The task's ordinary writes, as they are read. */
  function OwnWrites(h: map<string, WriteRecord>, task: string): seq<PendingWrite> {
    Select(LoadWrites(h), (w: PendingWrite) => IsOwnWrite(task, w))
  }

  function ReadAll(h: map<string, WriteRecord>, fields: seq<string>): seq<PendingWrite> {
    if fields == [] then []
    else if fields[0] in h then [ReadWrite(h[fields[0]])] + ReadAll(h, fields[1..])
    else ReadAll(h, fields[1..])
  }

  lemma {:induction false} ReadAllAt(h: map<string, WriteRecord>, fields: seq<string>)
    requires forall i :: 0 <= i < |fields| ==> fields[i] in h
    ensures |ReadAll(h, fields)| == |fields|
    ensures forall i :: 0 <= i < |fields| ==> ReadAll(h, fields)[i] == ReadWrite(h[fields[i]])
  {
    if fields != [] { ReadAllAt(h, fields[1..]); }
  }

  lemma LoadedAre(h: map<string, WriteRecord>)
    ensures LoadWrites(h) == ReadAll(h, SortedFields(h))
  {
    var fields := SortedFields(h);
    assert forall i :: 0 <= i < |fields| ==> fields[i] in fields;
    ReadAllAt(h, fields);
  }

  lemma {:induction false} SelectMapped(h: map<string, WriteRecord>, fields: seq<string>, task: string)
    requires forall i :: 0 <= i < |fields| ==> fields[i] in h
    ensures Select(ReadAll(h, fields), (w: PendingWrite) => IsOwnWrite(task, w))
         == ReadAll(h, Select(fields, f => IsOwn(h, task, f)))
  {
    if fields != [] {
      SelectMapped(h, fields[1..], task);
      var first := ReadWrite(h[fields[0]]);
      assert IsOwnWrite(task, first) <==> IsOwn(h, task, fields[0]);
      var read := ReadAll(h, fields);
      assert read == [first] + ReadAll(h, fields[1..]) && read[1..] == ReadAll(h, fields[1..]);
      var own := Select(fields[1..], f => IsOwn(h, task, f));
      assert ([fields[0]] + own)[1..] == own;
    }
  }

  lemma OwnWritesAre(h: map<string, WriteRecord>, task: string)
    ensures OwnWrites(h, task) == ReadAll(h, OwnFields(h, task))
  {
    var fields := SortedFields(h);
    assert forall i :: 0 <= i < |fields| ==> fields[i] in fields;
    LoadedAre(h);
    SelectMapped(h, fields, task);
  }

  // ---------------------------------------------------------------- one batch

  /** A checkpoint on which the task of the call has not written yet; others may have. */
  ghost predicate IsNewTo(h: map<string, WriteRecord>, c: WritesCall) {
    WellFormed(h) && forall f :: f in h ==> h[f].task != c.task
  }

  lemma OwnFieldIsNew(h: map<string, WriteRecord>, c: WritesCall, i: nat)
    requires IsNewTo(h, c) && i < |c.writes|
    ensures FieldOf(c, i) !in h
  {
    var f := FieldOf(c, i);
    if f in h {
      assert NamedAfter(f, h[f].task);
      var index :| f == Field(h[f].task, index);
      FieldInjective(c.task, WriteIndex(c.writes[i].0, i), h[f].task, index);
    }
  }

  lemma OrdinaryIsOwn(h: map<string, WriteRecord>, c: WritesCall, i: nat)
    requires IsNewTo(h, c) && i < |c.writes| && !IsSpecial(c.writes[i].0)
    ensures var r, f := ApplyWrites(h, c, |c.writes|), Field(c.task, i);
      f == FieldOf(c, i) && IsOwn(r, c.task, f) && r[f] == RecordOf(c, i)
  {
    OwnFieldIsNew(h, c, i);
    OrdinaryKeepsFirst(h, c, |c.writes|, i);
  }

  lemma SpecialIsNotOwn(h: map<string, WriteRecord>, c: WritesCall, i: nat)
    requires i < |c.writes| && IsSpecial(c.writes[i].0)
    ensures !IsOwn(ApplyWrites(h, c, |c.writes|), c.task, FieldOf(c, i))
  {
    var k := LastOfChannel(c, i);
    SpecialKeepsLast(h, c, |c.writes|, k);
    assert FieldOf(c, k) == FieldOf(c, i);
  }

  lemma OrdinaryFieldIsListed(c: WritesCall, i: nat)
    requires i < |c.writes| && !IsSpecial(c.writes[i].0)
    ensures FieldOf(c, i) in FieldsAt(c.task, Positions(c, |c.writes|))
  {
    var p := Positions(c, |c.writes|);
    PositionsAre(c, |c.writes|);
    assert i in p;
    var k :| 0 <= k < |p| && p[k] == i;
    assert FieldsAt(c.task, p)[k] == FieldOf(c, i);
  }

  /** After the batch the task's ordinary fields are exactly those at the ordinary positions. */
  lemma OwnFieldsOfBatch(h: map<string, WriteRecord>, c: WritesCall, f: string)
    requires IsNewTo(h, c)
    ensures IsOwn(ApplyWrites(h, c, |c.writes|), c.task, f) <==> f in FieldsAt(c.task, Positions(c, |c.writes|))
  {
    var n, p := |c.writes|, Positions(c, |c.writes|);
    PositionsAre(c, n);
    if f in FieldsAt(c.task, p) {
      var k :| 0 <= k < |p| && f == Field(c.task, p[k]);
      assert p[k] in p;
      OrdinaryIsOwn(h, c, p[k]);
    } else if i: nat :| i < n && FieldOf(c, i) == f {
      if IsSpecial(c.writes[i].0) {
        SpecialIsNotOwn(h, c, i);
      } else {
        OrdinaryFieldIsListed(c, i);
      }
    } else {
      OtherFieldsStay(h, c, n, f);
    }
  }

  /** The ordinary writes of the batch, in write order. */
  function OrdinaryWrites(c: WritesCall): seq<PendingWrite> {
    var p := Positions(c, |c.writes|);
    seq(|p|, k requires 0 <= k < |p| =>
      if p[k] < |c.writes| then PendingWrite(c.task, c.writes[p[k]].0, c.writes[p[k]].1)
      else PendingWrite(c.task, "", EMPTY_BLOB))
  }

  lemma BatchIsReadAt(h: map<string, WriteRecord>, c: WritesCall)
    requires IsNewTo(h, c)
    ensures var r, p := ApplyWrites(h, c, |c.writes|), Positions(c, |c.writes|);
      ReadAll(r, FieldsAt(c.task, p)) == OrdinaryWrites(c)
  {
    var r, p := ApplyWrites(h, c, |c.writes|), Positions(c, |c.writes|);
    var fields := FieldsAt(c.task, p);
    PositionsAre(c, |c.writes|);
    forall k | 0 <= k < |p| ensures fields[k] in r && ReadWrite(r[fields[k]]) == OrdinaryWrites(c)[k] {
      assert p[k] in p;
      OrdinaryIsOwn(h, c, p[k]);
    }
    ReadAllAt(r, fields);
  }

  /** For any batch, special writes among it or not, on a checkpoint that other tasks may have
      written to as well: its ordinary fields are read in write order exactly when the digits of
      their positions are in text order, and then every channel and payload comes back as it was
      written, in that order. */
  lemma BatchReadsBackExactlyWhen(h: map<string, WriteRecord>, c: WritesCall)
    requires IsNewTo(h, c)
    ensures var r, p := ApplyWrites(h, c, |c.writes|), Positions(c, |c.writes|);
      && (OwnFields(r, c.task) == FieldsAt(c.task, p) <==> InTextOrder(p))
      && (InTextOrder(p) ==> OwnWrites(r, c.task) == OrdinaryWrites(c))
  {
    var r, p := ApplyWrites(h, c, |c.writes|), Positions(c, |c.writes|);
    var own, order := OwnFields(r, c.task), FieldsAt(c.task, p);
    LessIsStrictTotalOrder();
    SelectKeepsSorted(Less, SortedFields(r), f => IsOwn(r, c.task, f));
    FieldsSortedExactlyWhen(c.task, p);
    if InTextOrder(p) {
      forall f ensures f in own <==> f in order { OwnFieldsOfBatch(h, c, f); }
      SortedIsUnique(Less, own, order);
      OwnWritesAre(r, c.task);
      BatchIsReadAt(h, c);
    }
  }

  /** In particular: a batch of ordinary writes alone is read back in write order exactly when it
      has at most ten, and the ordinary writes of any batch of at most ten always are. */
  lemma BatchReadsBackInOrder(h: map<string, WriteRecord>, c: WritesCall)
    requires IsNewTo(h, c)
    ensures var r, p := ApplyWrites(h, c, |c.writes|), Positions(c, |c.writes|);
      && ((forall i :: 0 <= i < |c.writes| ==> !IsSpecial(c.writes[i].0)) ==>
            (OwnFields(r, c.task) == FieldsAt(c.task, p) <==> |c.writes| <= 10))
      && (|c.writes| <= 10 ==> OwnWrites(r, c.task) == OrdinaryWrites(c))
  {
    BatchReadsBackExactlyWhen(h, c);
    if |c.writes| <= 10 { ShortBatchInOrder(c); }
    if forall i :: 0 <= i < |c.writes| ==> !IsSpecial(c.writes[i].0) { OrdinaryBatchInOrderExactlyWhen(c); }
  }
}
