/** agent/subagent/checkpoint.py: the Redis-backed checkpointer. */
module Checkpoint {
  import opened Basics
  import opened Ordering

  // Redis is modelled as maps: hashes for blobs, checkpoint rows and pending writes, a sorted set
  // (member to score) per thread and namespace. A pipeline is a batch of updates executed at the
  // end. The serialiser is taken as a bijection, so a value is its (type, bytes) pair; the type
  // "empty" is not one that it produces.

  datatype Serialized = Serialized(kind: string, payload: seq<Byte>)
  type Value = s: Serialized | s.kind != "empty" witness Serialized("null", [])

  const EMPTY_BLOB := Serialized("empty", [])

  /** A metadata value; Python's `None` is also what a missing key reads as. */
  datatype MetaValue = NoneValue | Given(text: string)

  datatype Scope = Scope(thread: string, ns: string)
  datatype BlobKey = BlobKey(scope: Scope, channel: string, version: string)
  datatype CheckpointKey = CheckpointKey(scope: Scope, id: string)

  /** `rest` stands for the checkpoint fields that the store copies without reading. */
  datatype Snapshot = Snapshot(id: string, rest: string, versions: map<string, string>, values: map<string, Value>)

  datatype Row = Row(rest: string, versions: map<string, string>, meta: map<string, MetaValue>, parent: string)

  /** Text whose characters are all below 256, as `bytes.decode("latin1")` gives. */
  type Latin1Text = s: string | forall i :: 0 <= i < |s| ==> s[i] < 256 as char

  datatype WriteRecord = WriteRecord(task: string, channel: string, kind: string, payload: Latin1Text, path: string)
  datatype PendingWrite = PendingWrite(task: string, channel: string, value: Serialized)

  datatype Db = Db(
    blobs: map<BlobKey, Serialized>,
    rows: map<CheckpointKey, Row>,
    index: map<Scope, map<string, int>>,
    writes: map<CheckpointKey, map<string, WriteRecord>>)

  const EMPTY_DB := Db(map[], map[], map[], map[])

  datatype Entry = Entry(score: int, member: string)

  datatype CheckpointTuple = CheckpointTuple(
    scope: Scope, snapshot: Snapshot, meta: map<string, MetaValue>, pending: seq<PendingWrite>, parent: Option<string>)

  datatype PutCall = PutCall(
    scope: Scope, snapshot: Snapshot, parent: Option<string>, meta: map<string, MetaValue>,
    newVersions: map<string, string>, now: int)

  datatype WritesCall = WritesCall(key: CheckpointKey, writes: seq<(string, Serialized)>, task: string, path: string)

  // ---------------------------------------------------------------- put

  /** What put stores for a channel: its value, or the "empty" marker when it has none. */
  function BlobFor(s: Snapshot, channel: string): Serialized {
    if channel in s.values then s.values[channel] else EMPTY_BLOB
  }

  function BlobWrites(c: PutCall): map<BlobKey, Serialized> {
    map ch | ch in c.newVersions :: BlobKey(c.scope, ch, c.newVersions[ch]) := BlobFor(c.snapshot, ch)
  }

  function Members(db: Db, scope: Scope): map<string, int> {
    if scope in db.index then db.index[scope] else map[]
  }

  function OrElse(o: Option<string>, other: string): string {
    if o.Some? then o.value else other
  }

  function RowOf(c: PutCall): Row {
    Row(c.snapshot.rest, c.snapshot.versions, c.meta, OrElse(c.parent, ""))
  }

  function Put(db: Db, c: PutCall): Db {
    var key := CheckpointKey(c.scope, c.snapshot.id);
    db.(blobs := db.blobs + BlobWrites(c),
        rows := db.rows[key := RowOf(c)],
        index := db.index[c.scope := Members(db, c.scope)[c.snapshot.id := c.now]])
  }

  // ---------------------------------------------------------------- reading

  /** Redis lists a sorted set by score, equal scores by member; zrevrange lists it backwards. */
  predicate Newer(a: Entry, b: Entry) {
    a.score > b.score || (a.score == b.score && Less(b.member, a.member))
  }

  lemma NewerIsStrictTotalOrder()
    ensures StrictTotalOrder(Newer)
  {
    LessIsStrictTotalOrder();
    forall a, b ensures !(Newer(a, b) && Newer(b, a)) {}
    forall a, b, c | Newer(a, b) && Newer(b, c) ensures Newer(a, c) {}
    forall a, b ensures a == b || Newer(a, b) || Newer(b, a) {}
  }

  function Entries(z: map<string, int>): set<Entry> {
    set m | m in z :: Entry(z[m], m)
  }

  function ZRevRange(z: map<string, int>): seq<Entry> {
    NewerIsStrictTotalOrder();
    Listing(Newer, Entries(z))
  }

  function LoadBlobs(db: Db, scope: Scope, versions: map<string, string>): map<string, Value> {
    map ch | ch in versions && BlobKey(scope, ch, versions[ch]) in db.blobs
             && db.blobs[BlobKey(scope, ch, versions[ch])].kind != "empty"
      :: db.blobs[BlobKey(scope, ch, versions[ch])]
  }

  function Latin1Decode(b: seq<Byte>): (s: Latin1Text) {
    seq(|b|, i requires 0 <= i < |b| => b[i] as int as char)
  }

  function Latin1Encode(s: Latin1Text): (b: seq<Byte>) {
    seq(|s|, i requires 0 <= i < |s| => s[i] as int as Byte)
  }

  lemma Latin1RoundTrip(b: seq<Byte>)
    ensures Latin1Encode(Latin1Decode(b)) == b
  {}

  function ReadWrite(r: WriteRecord): PendingWrite {
    PendingWrite(r.task, r.channel, Serialized(r.kind, Latin1Encode(r.payload)))
  }

  function SortedFields(h: map<string, WriteRecord>): (r: seq<string>)
    ensures Sorted(Less, r) && forall f :: f in r <==> f in h
  {
    LessIsStrictTotalOrder();
    Listing(Less, h.Keys)
  }

  function LoadWrites(h: map<string, WriteRecord>): seq<PendingWrite> {
    var fields := SortedFields(h);
    seq(|fields|, i requires 0 <= i < |fields| => assert fields[i] in fields; ReadWrite(h[fields[i]]))
  }

  function WritesAt(db: Db, key: CheckpointKey): map<string, WriteRecord> {
    if key in db.writes then db.writes[key] else map[]
  }

  function GetTupleById(db: Db, scope: Scope, id: string): Option<CheckpointTuple> {
    var key := CheckpointKey(scope, id);
    if key !in db.rows then None
    else
      var row := db.rows[key];
      Some(CheckpointTuple(
        scope,
        Snapshot(id, row.rest, row.versions, LoadBlobs(db, scope, row.versions)),
        row.meta,
        LoadWrites(WritesAt(db, key)),
        if row.parent == "" then None else Some(row.parent)))
  }

  /** An absent or empty id asks for the newest index member. */
  function GetTuple(db: Db, scope: Scope, id: Option<string>): Option<CheckpointTuple> {
    if id.Some? && id.value != "" then GetTupleById(db, scope, id.value)
    else
      var ids := ZRevRange(Members(db, scope));
      if ids == [] then None else GetTupleById(db, scope, ids[0].member)
  }

  function MetaGet(meta: map<string, MetaValue>, k: string): MetaValue {
    if k in meta then meta[k] else NoneValue
  }

  predicate Matches(meta: map<string, MetaValue>, filter: map<string, MetaValue>) {
    forall k :: k in filter ==> MetaGet(meta, k) == filter[k]
  }

  /** `before` absent or empty lets every id through. */
  predicate Below(id: string, before: string) {
    before == "" || Less(id, before)
  }

  /** How many items list may yield: no limit when it is absent or zero; the check comes
      after the first yield, so a negative limit still lets one through. */
  function Quota(limit: Option<int>): Option<nat> {
    match limit
    case None => None
    case Some(n) => if n == 0 then None else if n < 0 then Some(1) else Some(n)
  }

  function Cut<T>(s: seq<T>, quota: Option<nat>): seq<T> {
    if quota.None? || |s| <= quota.value then s else s[..quota.value]
  }

  // ---------------------------------------------------------------- list

  /** The item that list yields for one index member, if any. */
  function ItemFor(db: Db, scope: Scope, id: string, filter: map<string, MetaValue>,
      before: string): seq<CheckpointTuple> {
    if !Below(id, before) then []
    else
      var item := GetTuple(db, scope, Some(id));
      if item.None? || !Matches(item.value.meta, filter) then [] else [item.value]
  }

  function Collect(db: Db, scope: Scope, ids: seq<Entry>, filter: map<string, MetaValue>,
      before: string): seq<CheckpointTuple> {
    if ids == [] then []
    else
      var n := |ids| - 1;
      Collect(db, scope, ids[..n], filter, before) + ItemFor(db, scope, ids[n].member, filter, before)
  }

  function List(db: Db, scope: Scope, filter: map<string, MetaValue>, before: string,
      limit: Option<int>): seq<CheckpointTuple> {
    Cut(Collect(db, scope, ZRevRange(Members(db, scope)), filter, before), Quota(limit))
  }

  lemma {:induction false} CollectPrefix(db: Db, scope: Scope, ids: seq<Entry>, n: nat,
      filter: map<string, MetaValue>, before: string)
    requires n <= |ids|
    ensures Collect(db, scope, ids[..n], filter, before) <= Collect(db, scope, ids, filter, before)
    decreases |ids|
  {
    if n < |ids| {
      var m := |ids| - 1;
      CollectPrefix(db, scope, ids[..m], n, filter, before);
      assert ids[..m][..n] == ids[..n];
    } else {
      assert ids[..n] == ids;
    }
  }

  lemma CollectStep(db: Db, scope: Scope, ids: seq<Entry>, i: nat, filter: map<string, MetaValue>, before: string)
    requires i < |ids|
    ensures Collect(db, scope, ids[..i + 1], filter, before)
         == Collect(db, scope, ids[..i], filter, before) + ItemFor(db, scope, ids[i].member, filter, before)
  {
    assert ids[..i + 1][..i] == ids[..i];
  }

  /** The test after each yield. */
  predicate Full(yielded: nat, limit: Option<int>) {
    yielded > 0 && limit.Some? && limit.value != 0 && yielded >= limit.value
  }

  lemma CutAtFull<T>(out: seq<T>, all: seq<T>, limit: Option<int>)
    requires out <= all && Full(|out|, limit) && !Full(|out| - 1, limit)
    ensures out == Cut(all, Quota(limit))
  {}

  /** A collection that has just become full is the list itself. */
  lemma CollectedEnough(
      db: Db, scope: Scope, ids: seq<Entry>, n: nat, filter: map<string, MetaValue>, before: string, limit: Option<int>,
      out: seq<CheckpointTuple>)
    requires n <= |ids| && out == Collect(db, scope, ids[..n], filter, before)
    requires Full(|out|, limit) && !Full(|out| - 1, limit)
    ensures out == Cut(Collect(db, scope, ids, filter, before), Quota(limit))
  {
    CollectPrefix(db, scope, ids, n, filter, before);
    CutAtFull(out, Collect(db, scope, ids, filter, before), limit);
  }

  lemma NotFullIsUncut<T>(out: seq<T>, limit: Option<int>)
    requires !Full(|out|, limit)
    ensures out == Cut(out, Quota(limit))
  {}

  // ---------------------------------------------------------------- pending writes

  /** LangGraph's reserved channels and their fixed, negative write indices. */
  const WRITES_IDX_MAP: map<string, int> :=
    map["__error__" := -1, "__scheduled__" := -2, "__interrupt__" := -3, "__resume__" := -4]

  predicate IsSpecial(channel: string) {
    channel in WRITES_IDX_MAP
  }

  function WriteIndex(channel: string, position: nat): int {
    if IsSpecial(channel) then WRITES_IDX_MAP[channel] else position
  }

  function IntText(n: int): string {
    if n < 0 then "-" + Digits(-n) else Digits(n)
  }

  function Field(task: string, index: int): string {
    task + ":" + IntText(index)
  }

  function FieldOf(c: WritesCall, i: nat): string
    requires i < |c.writes|
  {
    Field(c.task, WriteIndex(c.writes[i].0, i))
  }

  function RecordOf(c: WritesCall, i: nat): WriteRecord
    requires i < |c.writes|
  {
    var (channel, value) := c.writes[i];
    WriteRecord(c.task, channel, value.kind, Latin1Decode(value.payload), c.path)
  }

  /** A write is left out when it is ordinary and its field was there before the batch:
      the existence test does not see the batch's own, still unexecuted, commands. */
  predicate Skipped(h: map<string, WriteRecord>, c: WritesCall, i: nat)
    requires i < |c.writes|
  {
    WriteIndex(c.writes[i].0, i) >= 0 && FieldOf(c, i) in h
  }

  /** The hash after the first `n` writes of the batch have been executed on `h`. */
  function ApplyWrites(h: map<string, WriteRecord>, c: WritesCall, n: nat): map<string, WriteRecord>
    requires n <= |c.writes|
  {
    if n == 0 then h
    else if Skipped(h, c, n - 1) then ApplyWrites(h, c, n - 1)
    else ApplyWrites(h, c, n - 1)[FieldOf(c, n - 1) := RecordOf(c, n - 1)]
  }

  lemma PipelineStep(h: map<string, WriteRecord>, pipe: map<string, WriteRecord>, c: WritesCall, i: nat)
    requires i < |c.writes| && h + pipe == ApplyWrites(h, c, i)
    ensures h + (if Skipped(h, c, i) then pipe else pipe[FieldOf(c, i) := RecordOf(c, i)]) == ApplyWrites(h, c, i + 1)
  {}

  function PutWrites(db: Db, c: WritesCall): Db {
    db.(writes := db.writes[c.key := ApplyWrites(WritesAt(db, c.key), c, |c.writes|)])
  }

  // ---------------------------------------------------------------- the saver

  class RedisCheckpointSaver {
    var blobs: map<BlobKey, Serialized>
    var rows: map<CheckpointKey, Row>
    var index: map<Scope, map<string, int>>
    var writes: map<CheckpointKey, map<string, WriteRecord>>

    function View(): Db
      reads this
    {
      Db(blobs, rows, index, writes)
    }

    constructor ()
      ensures View() == EMPTY_DB
    {
      blobs, rows, index, writes := map[], map[], map[], map[];
    }

    method PutCheckpoint(c: PutCall) returns (key: CheckpointKey)
      modifies this
      ensures View() == Put(old(View()), c)
      ensures key == CheckpointKey(c.scope, c.snapshot.id)
    {
      key := CheckpointKey(c.scope, c.snapshot.id);
      var pipe: map<BlobKey, Serialized> := map[];
      var todo := c.newVersions.Keys;
      while todo != {}
        invariant todo <= c.newVersions.Keys
        invariant pipe == map ch | ch in c.newVersions && ch !in todo
                            :: BlobKey(c.scope, ch, c.newVersions[ch]) := BlobFor(c.snapshot, ch)
        invariant unchanged(this)
        decreases todo
      {
        var ch :| ch in todo;
        var blob := EMPTY_BLOB;
        if ch in c.snapshot.values { blob := c.snapshot.values[ch]; }
        pipe := pipe[BlobKey(c.scope, ch, c.newVersions[ch]) := blob];
        todo := todo - {ch};
      }
      assert pipe == BlobWrites(c);
      var row := Row(c.snapshot.rest, c.snapshot.versions, c.meta, OrElse(c.parent, ""));
      blobs := blobs + pipe;
      rows := rows[key := row];
      index := index[c.scope := Members(View(), c.scope)[c.snapshot.id := c.now]];
    }

    method PutPendingWrites(c: WritesCall)
      modifies this
      ensures View() == PutWrites(old(View()), c)
      ensures blobs == old(blobs) && rows == old(rows) && index == old(index)
      ensures forall key :: key != c.key ==> WritesAt(View(), key) == old(WritesAt(View(), key))
      ensures WritesAt(View(), c.key) == ApplyWrites(old(WritesAt(View(), c.key)), c, |c.writes|)
    {
      var hash := WritesAt(View(), c.key);
      var pipe: map<string, WriteRecord> := map[];
      for i := 0 to |c.writes|
        invariant hash + pipe == ApplyWrites(hash, c, i)
        invariant unchanged(this)
      {
        PipelineStep(hash, pipe, c, i);
        var (channel, value) := c.writes[i];
        var writeIndex := WriteIndex(channel, i);
        var field := Field(c.task, writeIndex);
        var record := WriteRecord(c.task, channel, value.kind, Latin1Decode(value.payload), c.path);
        assert field == FieldOf(c, i) && record == RecordOf(c, i);
        if !(writeIndex >= 0 && field in hash) {
          pipe := pipe[field := record];
        }
      }
      writes := writes[c.key := hash + pipe];
    }

    method LoadBlobsOf(scope: Scope, versions: map<string, string>) returns (result: map<string, Value>)
      ensures result == LoadBlobs(View(), scope, versions)
    {
      result := map[];
      var todo := versions.Keys;
      while todo != {}
        invariant todo <= versions.Keys
        invariant result.Keys == LoadBlobs(View(), scope, versions).Keys - todo
        invariant forall ch :: ch in result ==> result[ch] == LoadBlobs(View(), scope, versions)[ch]
        decreases todo
      {
        var ch :| ch in todo;
        todo := todo - {ch};
        var key := BlobKey(scope, ch, versions[ch]);
        if key in blobs && blobs[key].kind != "empty" {
          result := result[ch := blobs[key]];
        }
      }
    }

    method LoadWritesOf(key: CheckpointKey) returns (pending: seq<PendingWrite>)
      ensures pending == LoadWrites(WritesAt(View(), key))
    {
      var raw := WritesAt(View(), key);
      var fields := SortedFields(raw);
      pending := [];
      for i := 0 to |fields|
        invariant pending == LoadWrites(raw)[..i]
      {
        assert fields[i] in fields;
        pending := pending + [ReadWrite(raw[fields[i]])];
      }
    }

    method Get(scope: Scope, id: Option<string>) returns (result: Option<CheckpointTuple>)
      ensures result == GetTuple(View(), scope, id)
    {
      var checkpointId := OrElse(id, "");
      if checkpointId == "" {
        var latest := ZRevRange(Members(View(), scope));
        if latest == [] { return None; }
        checkpointId := latest[0].member;
      }
      var key := CheckpointKey(scope, checkpointId);
      if key !in rows { return None; }
      var row := rows[key];
      var pending := LoadWritesOf(key);
      var values := LoadBlobsOf(scope, row.versions);
      var parent := if row.parent == "" then None else Some(row.parent);
      var snapshot := Snapshot(checkpointId, row.rest, row.versions, values);
      return Some(CheckpointTuple(scope, snapshot, row.meta, pending, parent));
    }

    /** The body of list's loop for one index member: what it yields, if anything. */
    method Visit(scope: Scope, id: string, filter: map<string, MetaValue>, before: string)
      returns (item: Option<CheckpointTuple>)
      ensures ItemFor(View(), scope, id, filter, before) == if item.None? then [] else [item.value]
    {
      item := None;
      if before != "" && !Less(id, before) { return; }
      var found := Get(scope, Some(id));
      if found.None? { return; }
      if !Matches(found.value.meta, filter) { return; }
      item := found;
    }

    /** The loop of list over the index members. */
    method CollectItems(scope: Scope, ids: seq<Entry>, filter: map<string, MetaValue>, before: string,
        limit: Option<int>)
      returns (out: seq<CheckpointTuple>)
      ensures out == Cut(Collect(View(), scope, ids, filter, before), Quota(limit))
    {
      ghost var db := View();
      out := [];
      for i := 0 to |ids|
        invariant out == Collect(db, scope, ids[..i], filter, before)
        invariant !Full(|out|, limit)
      {
        var item := Visit(scope, ids[i].member, filter, before);
        CollectStep(db, scope, ids, i, filter, before);
        if item.Some? {
          out := out + [item.value];
          if Full(|out|, limit) {
            CollectedEnough(db, scope, ids, i + 1, filter, before, limit, out);
            return;
          }
        } else {
          assert out + [] == out;
        }
      }
      assert ids[..|ids|] == ids;
      NotFullIsUncut(out, limit);
    }

    /** The generator of the source, run to its end. An absent configuration lists nothing. */
    method ListCheckpoints(scope: Option<Scope>, filter: map<string, MetaValue>, before: string, limit: Option<int>)
      returns (out: seq<CheckpointTuple>)
      ensures out == if scope.None? then [] else List(View(), scope.value, filter, before, limit)
    {
      if scope.None? { return []; }
      var ids := ZRevRange(Members(View(), scope.value));
      out := CollectItems(scope.value, ids, filter, before, limit);
    }
  }
}
