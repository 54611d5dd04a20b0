/** The checkpointer against a history of whole snapshots. */
module CheckpointHistory {
  import opened Basics
  import opened Ordering
  import opened Checkpoint
  import opened PendingWrites

  // A run is any sequence of put and put_writes calls on an empty store. Blobs are stored only for
  // the channels named in new_versions, so a snapshot is rebuilt from blobs that many different
  // calls may have written.

  datatype Command = Save(put: PutCall) | SaveWrites(call: WritesCall)

  function Step(db: Db, cmd: Command): Db {
    match cmd
    case Save(c) => Put(db, c)
    case SaveWrites(c) => PutWrites(db, c)
  }

  function After(run: seq<Command>): Db {
    if run == [] then EMPTY_DB else Step(After(run[..|run| - 1]), run[|run| - 1])
  }

  predicate Saves(cmd: Command, scope: Scope) {
    cmd.Save? && cmd.put.scope == scope
  }

  predicate SavesAs(cmd: Command, key: CheckpointKey) {
    Saves(cmd, key.scope) && cmd.put.snapshot.id == key.id
  }

  predicate WritesBlob(cmd: Command, key: BlobKey) {
    Saves(cmd, key.scope) && key.channel in cmd.put.newVersions && cmd.put.newVersions[key.channel] == key.version
  }

  /** The value a snapshot holds for a channel, if any. */
  function ValueOf(s: Snapshot, channel: string): Option<Value> {
    if channel in s.values then Some(s.values[channel]) else None
  }

  /** What the last put of a (channel, version) pair in the run held for that channel. */
  function LastValue(run: seq<Command>, key: BlobKey): Option<Value> {
    if run == [] then None
    else
      var n := |run| - 1;
      if WritesBlob(run[n], key) then ValueOf(run[n].put.snapshot, key.channel) else LastValue(run[..n], key)
  }

  function LastSave(run: seq<Command>, key: CheckpointKey): Option<PutCall> {
    if run == [] then None
    else
      var n := |run| - 1;
      if SavesAs(run[n], key) then Some(run[n].put) else LastSave(run[..n], key)
  }

  function ReadBlob(db: Db, key: BlobKey): Option<Value> {
    if key in db.blobs && db.blobs[key].kind != "empty" then Some(db.blobs[key]) else None
  }

  lemma {:induction false} BlobsAfter(run: seq<Command>, key: BlobKey)
    ensures ReadBlob(After(run), key) == LastValue(run, key)
  {
    if run != [] {
      BlobsAfter(run[..|run| - 1], key);
    }
  }

  lemma {:induction false} RowsAfter(run: seq<Command>, key: CheckpointKey)
    ensures var c := LastSave(run, key); var db := After(run);
      && (c.Some? <==> key in db.rows)
      && (c.Some? <==> key.id in Members(db, key.scope))
      && (c.Some? ==> c.value.scope == key.scope && c.value.snapshot.id == key.id)
      && (c.Some? ==> Members(db, key.scope)[key.id] == c.value.now)
      && (c.Some? ==> db.rows[key] == RowOf(c.value))
  {
    if run != [] {
      RowsAfter(run[..|run| - 1], key);
    }
  }

  /** A snapshot's values for the channels its channel_versions names. */
  function Original(s: Snapshot): map<string, Value> {
    map ch | ch in s.versions && ch in s.values :: s.values[ch]
  }

  function NonEmpty(o: Option<string>): Option<string> {
    if o == Some("") then None else o
  }

  // ---------------------------------------------------------------- pending writes of a run

  predicate WritesTo(cmd: Command, key: CheckpointKey) {
    cmd.SaveWrites? && cmd.call.key == key
  }

  /** The run's batches for one checkpoint, in order. */
  function Batches(run: seq<Command>, key: CheckpointKey): seq<WritesCall> {
    if run == [] then []
    else
      var n := |run| - 1;
      Batches(run[..n], key) + (if WritesTo(run[n], key) then [run[n].call] else [])
  }

  lemma OneMoreBatch(calls: seq<WritesCall>, c: WritesCall)
    ensures ApplyAll(map[], calls + [c]) == ApplyWrites(ApplyAll(map[], calls), c, |c.writes|)
  {
    assert (calls + [c])[..|calls|] == calls;
  }

  /** Only a batch for the checkpoint itself changes its pending writes. */
  lemma WritesStep(db: Db, cmd: Command, key: CheckpointKey)
    ensures !WritesTo(cmd, key) ==> WritesAt(Step(db, cmd), key) == WritesAt(db, key)
    ensures WritesTo(cmd, key) ==>
              WritesAt(Step(db, cmd), key) == ApplyWrites(WritesAt(db, key), cmd.call, |cmd.call.writes|)
  {}

  /** After any run a checkpoint's pending writes are those of its own batches, in order: batches
      of other checkpoints and threads, and puts, leave them alone. */
  lemma {:induction false} WritesAfter(run: seq<Command>, key: CheckpointKey)
    ensures WritesAt(After(run), key) == ApplyAll(map[], Batches(run, key))
  {
    if run != [] {
      var n := |run| - 1;
      var before, calls := After(run[..n]), Batches(run[..n], key);
      WritesAfter(run[..n], key);
      WritesStep(before, run[n], key);
      if WritesTo(run[n], key) {
        OneMoreBatch(calls, run[n].call);
        assert Batches(run, key) == calls + [run[n].call];
      } else {
        assert Batches(run, key) == calls;
      }
    }
  }

  // ---------------------------------------------------------------- whole tuples

  /** The whole tuple that the simple specification returns for a saved snapshot: its values and
      metadata, and the pending writes of the run's batches for it. */
  function TupleOf(run: seq<Command>, c: PutCall): CheckpointTuple {
    CheckpointTuple(c.scope, c.snapshot.(values := Original(c.snapshot)), c.meta,
                    LoadWrites(ApplyAll(map[], Batches(run, CheckpointKey(c.scope, c.snapshot.id)))),
                    NonEmpty(c.parent))
  }

  function VersionKey(c: PutCall, channel: string): BlobKey
    requires channel in c.snapshot.versions
  {
    BlobKey(c.scope, channel, c.snapshot.versions[channel])
  }

  /** For every run whatever: a stored checkpoint reads back as its original snapshot exactly
      when, for each channel it names, the last put of that (channel, version) pair anywhere
      in the run held the snapshot's own value. */
  lemma RestoredExactlyWhen(run: seq<Command>, key: CheckpointKey)
    requires key.id != "" && LastSave(run, key).Some?
    ensures var c := LastSave(run, key).value;
      GetTuple(After(run), key.scope, Some(key.id)) == Some(TupleOf(run, c))
      <==> forall ch :: ch in c.snapshot.versions ==> LastValue(run, VersionKey(c, ch)) == ValueOf(c.snapshot, ch)
  {
    var c, db := LastSave(run, key).value, After(run);
    RowsAfter(run, key);
    var loaded := LoadBlobs(db, key.scope, c.snapshot.versions);
    forall ch | ch in c.snapshot.versions ensures Lookup(loaded, ch) == LastValue(run, VersionKey(c, ch)) {
      BlobsAfter(run, VersionKey(c, ch));
    }
    OriginalExactlyWhen(loaded, c.snapshot);
    WritesAfter(run, key);
    TupleExactlyWhen(run, db, key, c);
  }

  function Lookup(m: map<string, Value>, ch: string): Option<Value> {
    if ch in m then Some(m[ch]) else None
  }

  lemma OriginalExactlyWhen(loaded: map<string, Value>, s: Snapshot)
    requires loaded.Keys <= s.versions.Keys
    ensures loaded == Original(s) <==> forall ch :: ch in s.versions ==> Lookup(loaded, ch) == ValueOf(s, ch)
  {
    if loaded == Original(s) {
      forall ch | ch in s.versions ensures Lookup(loaded, ch) == ValueOf(s, ch) {
        assert ch in loaded <==> ch in Original(s);
      }
    }
    if forall ch :: ch in s.versions ==> Lookup(loaded, ch) == ValueOf(s, ch) {
      forall ch ensures ch in loaded <==> ch in Original(s) {
        assert ch in s.versions ==> Lookup(loaded, ch) == ValueOf(s, ch);
      }
      assert loaded == Original(s);
    }
  }

  lemma TupleIs(db: Db, key: CheckpointKey, c: PutCall, loaded: map<string, Value>)
    requires key.id != "" && key == CheckpointKey(c.scope, c.snapshot.id) && key in db.rows
    requires db.rows[key] == RowOf(c) && loaded == LoadBlobs(db, key.scope, c.snapshot.versions)
    ensures GetTuple(db, key.scope, Some(key.id))
         == Some(CheckpointTuple(c.scope, c.snapshot.(values := loaded), c.meta, LoadWrites(WritesAt(db, key)),
                                 NonEmpty(c.parent)))
  {}

  lemma TupleExactlyWhen(run: seq<Command>, db: Db, key: CheckpointKey, c: PutCall)
    requires key.id != "" && key == CheckpointKey(c.scope, c.snapshot.id) && key in db.rows
    requires db.rows[key] == RowOf(c) && WritesAt(db, key) == ApplyAll(map[], Batches(run, key))
    ensures GetTuple(db, key.scope, Some(key.id)) == Some(TupleOf(run, c))
       <==> LoadBlobs(db, key.scope, c.snapshot.versions) == Original(c.snapshot)
  {
    var loaded := LoadBlobs(db, key.scope, c.snapshot.versions);
    TupleIs(db, key, c, loaded);
    assert c.snapshot.(values := loaded) == c.snapshot.(values := Original(c.snapshot))
      <==> loaded == Original(c.snapshot);
  }

  // ---------------------------------------------------------------- disciplined runs

  predicate BothSave(run: seq<Command>, i: nat, j: nat) {
    i < |run| && j < |run| && run[i].Save? && run[j].Save? && run[i].put.scope == run[j].put.scope
  }

  ghost predicate FreshIds(run: seq<Command>) {
    forall i: nat, j: nat :: i < j && BothSave(run, i, j) ==> run[i].put.snapshot.id != run[j].put.snapshot.id
  }

  /** Call `i` stores the (channel, version) pair that snapshot `j` names. */
  predicate Supplies(run: seq<Command>, i: nat, j: nat, ch: string) {
    && BothSave(run, i, j) && ch in run[i].put.newVersions && ch in run[j].put.snapshot.versions
    && run[i].put.newVersions[ch] == run[j].put.snapshot.versions[ch]
  }

  /** A (channel, version) pair never gets a second value. */
  ghost predicate OneValuePerVersion(run: seq<Command>) {
    forall i: nat, j: nat, ch :: Supplies(run, i, j, ch)
      ==> ValueOf(run[i].put.snapshot, ch) == ValueOf(run[j].put.snapshot, ch)
  }

  /** An unchanged channel keeps the version under which it was stored. */
  ghost predicate UnchangedKeepsVersion(run: seq<Command>) {
    forall j: nat, ch :: j < |run| && run[j].Save? && ch in run[j].put.snapshot.versions
      && ch in run[j].put.snapshot.values
      ==> exists i: nat :: i <= j && Supplies(run, i, j, ch)
  }

  ghost predicate Disciplined(run: seq<Command>) {
    FreshIds(run) && OneValuePerVersion(run) && UnchangedKeepsVersion(run)
  }

  lemma {:induction false} LastSaveIsFresh(run: seq<Command>, j: nat)
    requires FreshIds(run) && j < |run| && run[j].Save?
    ensures LastSave(run, CheckpointKey(run[j].put.scope, run[j].put.snapshot.id)) == Some(run[j].put)
  {
    var n := |run| - 1;
    if j < n {
      var key := CheckpointKey(run[j].put.scope, run[j].put.snapshot.id);
      assert !SavesAs(run[n], key) by { assert BothSave(run, j, n) || !Saves(run[n], key.scope); }
      forall i: nat, k: nat | i < k && BothSave(run[..n], i, k)
        ensures run[..n][i].put.snapshot.id != run[..n][k].put.snapshot.id
      {
        assert BothSave(run, i, k);
      }
      LastSaveIsFresh(run[..n], j);
    }
  }

  /** The value of the last supplier, or nothing when no call supplies the pair. */
  lemma {:induction false} LastValueIsSupplied(run: seq<Command>, key: BlobKey) returns (i: nat)
    ensures i <= |run|
    ensures i == |run| ==> LastValue(run, key) == None && forall k :: 0 <= k < |run| ==> !WritesBlob(run[k], key)
    ensures i < |run| ==> WritesBlob(run[i], key) && LastValue(run, key) == ValueOf(run[i].put.snapshot, key.channel)
  {
    if run == [] {
      return 0;
    }
    var n := |run| - 1;
    if WritesBlob(run[n], key) {
      return n;
    }
    i := LastValueIsSupplied(run[..n], key);
    if i == n {
      i := n + 1;
    }
  }

  /** In a disciplined run every checkpoint ever put still reads back whole, however many
      calls follow it. */
  lemma EveryCheckpointIsRestored(run: seq<Command>, j: nat)
    requires Disciplined(run) && j < |run| && run[j].Save? && run[j].put.snapshot.id != ""
    ensures var c := run[j].put;
      GetTuple(After(run), c.scope, Some(c.snapshot.id)) == Some(TupleOf(run, c))
  {
    var c := run[j].put;
    LastSaveIsFresh(run, j);
    forall ch | ch in c.snapshot.versions ensures LastValue(run, VersionKey(c, ch)) == ValueOf(c.snapshot, ch) {
      if ch in c.snapshot.values {
        var k: nat :| k <= j && Supplies(run, k, j, ch);
        assert WritesBlob(run[k], VersionKey(c, ch));
      }
      var i := LastValueIsSupplied(run, VersionKey(c, ch));
      assert i < |run| ==> Supplies(run, i, j, ch);
    }
    RestoredExactlyWhen(run, CheckpointKey(c.scope, c.snapshot.id));
  }

  // ---------------------------------------------------------------- newest and list

  /** For every run: get_tuple without an id answers with the last checkpoint put in the
      thread and namespace exactly when its index entry is ahead of every other member's. */
  lemma NewestExactlyWhen(run: seq<Command>, scope: Scope, k: nat)
    requires k < |run| && Saves(run[k], scope)
    requires forall j :: k < j < |run| ==> !Saves(run[j], scope)
    ensures var c := run[k].put; var members := Members(After(run), scope); var t := GetTuple(After(run), scope, None);
      && t.Some?
      && (t.value.snapshot.id == c.snapshot.id
          <==> forall m :: m in members && m != c.snapshot.id ==>
                 members[m] < c.now || (members[m] == c.now && Less(m, c.snapshot.id)))
  {
    var c, members := run[k].put, Members(After(run), scope);
    var e := Entry(c.now, c.snapshot.id);
    LastSaveIsNewest(run, scope, k);
    RowsAfter(run, CheckpointKey(scope, c.snapshot.id));
    assert e in Entries(members);
    NewerIsStrictTotalOrder();
    var ids := ZRevRange(members);
    assert e in ids;
    assert ids[0] in Entries(members);
    RowsAfter(run, CheckpointKey(scope, ids[0].member));
    forall m | m in members && m != ids[0].member ensures Newer(ids[0], Entry(members[m], m)) {
      assert Entry(members[m], m) in ids;
    }
  }

  lemma {:induction false} LastSaveIsNewest(run: seq<Command>, scope: Scope, k: nat)
    requires k < |run| && Saves(run[k], scope)
    requires forall j :: k < j < |run| ==> !Saves(run[j], scope)
    ensures LastSave(run, CheckpointKey(scope, run[k].put.snapshot.id)) == Some(run[k].put)
  {
    if k < |run| - 1 {
      LastSaveIsNewest(run[..|run| - 1], scope, k);
    }
  }

  ghost predicate ClockIncreases(run: seq<Command>) {
    forall i: nat, j: nat :: i < j && BothSave(run, i, j) ==> run[i].put.now < run[j].put.now
  }

  /** The saves of one scope, newest first. */
  function History(run: seq<Command>, scope: Scope): seq<PutCall> {
    if run == [] then []
    else
      var n := |run| - 1;
      (if Saves(run[n], scope) then [run[n].put] else []) + History(run[..n], scope)
  }

  lemma {:induction false} HistoryIndex(run: seq<Command>, scope: Scope, h: nat) returns (j: nat)
    requires h < |History(run, scope)|
    ensures j < |run| && Saves(run[j], scope) && run[j].put == History(run, scope)[h]
    ensures |History(run[..j], scope)| == |History(run, scope)| - h - 1
  {
    var n := |run| - 1;
    if Saves(run[n], scope) && h == 0 {
      j := n;
    } else {
      j := HistoryIndex(run[..n], scope, if Saves(run[n], scope) then h - 1 else h);
      assert run[..n][..j] == run[..j];
    }
  }

  lemma {:induction false} HistoryHolds(run: seq<Command>, scope: Scope, j: nat)
    requires j < |run| && Saves(run[j], scope)
    ensures run[j].put in History(run, scope)
  {
    if j < |run| - 1 {
      HistoryHolds(run[..|run| - 1], scope, j);
    }
  }

  lemma {:induction false} HistoryGrows(run: seq<Command>, scope: Scope, i: nat, j: nat)
    requires i <= j <= |run|
    ensures |History(run[..i], scope)| <= |History(run[..j], scope)|
  {
    if i < j {
      HistoryGrows(run, scope, i, j - 1);
      assert run[..j][..j - 1] == run[..j - 1];
    }
  }

  function EntryOf(c: PutCall): Entry {
    Entry(c.now, c.snapshot.id)
  }

  function EntriesOf(h: seq<PutCall>): seq<Entry> {
    seq(|h|, i requires 0 <= i < |h| => EntryOf(h[i]))
  }

  /** The put's index entry comes first: by score, then by id, both falling. */
  predicate Leads(a: PutCall, b: PutCall) {
    if a.now == b.now then Less(b.snapshot.id, a.snapshot.id) else a.now > b.now
  }

  lemma LeadExactlyWhen(h: seq<PutCall>)
    ensures Sorted(Newer, EntriesOf(h)) <==> forall i, j :: 0 <= i < j < |h| ==> Leads(h[i], h[j])
  {
    assert forall i, j :: 0 <= i < j < |h| ==> (Newer(EntriesOf(h)[i], EntriesOf(h)[j]) <==> Leads(h[i], h[j]));
  }

  /** The saves of one scope, in the order of the index. */
  ghost predicate IsIndexed(run: seq<Command>, scope: Scope, h: seq<PutCall>) {
    (forall c :: c in h <==> c in History(run, scope)) && forall i, j :: 0 <= i < j < |h| ==> Leads(h[i], h[j])
  }

  /** zrevrange lists the history in that order, whatever the clock did. */
  lemma IndexListsHistory(run: seq<Command>, scope: Scope) returns (h: seq<PutCall>)
    requires FreshIds(run)
    ensures IsIndexed(run, scope, h) && ZRevRange(Members(After(run), scope)) == EntriesOf(h)
  {
    var members := Members(After(run), scope);
    var ids := ZRevRange(members);
    NewerIsStrictTotalOrder();
    forall a | 0 <= a < |ids| ensures IsSaved(run, scope, ids[a]) { MemberIsSaved(run, scope, ids[a]); }
    h := seq(|ids|, a requires 0 <= a < |ids| => SavedAs(run, scope, ids[a]));
    assert EntriesOf(h) == ids;
    LeadExactlyWhen(h);
    forall c ensures c in h <==> c in History(run, scope) {
      if c in History(run, scope) {
        var a: nat :| a < |History(run, scope)| && History(run, scope)[a] == c;
        var i := HistoryIndex(run, scope, a);
        LastSaveIsFresh(run, i);
        RowsAfter(run, CheckpointKey(scope, c.snapshot.id));
        assert EntryOf(c) in Entries(members);
        var b: nat :| b < |ids| && ids[b] == EntryOf(c);
        assert h[b] == c;
      }
    }
  }

  /** The entry is that of the last save of its member. */
  ghost predicate IsSaved(run: seq<Command>, scope: Scope, e: Entry) {
    var c := LastSave(run, CheckpointKey(scope, e.member));
    c.Some? && EntryOf(c.value) == e && c.value in History(run, scope)
  }

  function SavedAs(run: seq<Command>, scope: Scope, e: Entry): PutCall
    requires LastSave(run, CheckpointKey(scope, e.member)).Some?
  {
    LastSave(run, CheckpointKey(scope, e.member)).value
  }

  lemma MemberIsSaved(run: seq<Command>, scope: Scope, e: Entry)
    requires e in Entries(Members(After(run), scope))
    ensures IsSaved(run, scope, e)
  {
    var key := CheckpointKey(scope, e.member);
    RowsAfter(run, key);
    var i := LastSaveIndex(run, key);
    HistoryHolds(run, scope, i);
  }

  /** With an increasing clock that order is the history itself, newest first. */
  lemma IndexIsHistory(run: seq<Command>, scope: Scope)
    requires FreshIds(run) && ClockIncreases(run)
    ensures ZRevRange(Members(After(run), scope)) == EntriesOf(History(run, scope))
  {
    var h := History(run, scope);
    var entries := EntriesOf(h);
    NewerIsStrictTotalOrder();
    forall a, b | 0 <= a < b < |entries| ensures Newer(entries[a], entries[b]) {
      var i := HistoryIndex(run, scope, a);
      var j := HistoryIndex(run, scope, b);
      if i <= j {
        HistoryGrows(run, scope, i, j);
        assert false;
      }
      assert BothSave(run, j, i);
    }
    var g := IndexListsHistory(run, scope);
    LeadExactlyWhen(g);
    forall e ensures e in EntriesOf(g) <==> e in entries { SameEntries(g, h, e); }
    SortedIsUnique(Newer, EntriesOf(g), entries);
  }

  lemma SameEntries(g: seq<PutCall>, h: seq<PutCall>, e: Entry)
    requires forall c :: c in g <==> c in h
    ensures e in EntriesOf(g) <==> e in EntriesOf(h)
  {
    if e in EntriesOf(g) {
      var a :| 0 <= a < |g| && EntriesOf(g)[a] == e;
      assert g[a] in h;
      var b :| 0 <= b < |h| && h[b] == g[a];
      assert EntriesOf(h)[b] == e;
    }
    if e in EntriesOf(h) {
      var b :| 0 <= b < |h| && EntriesOf(h)[b] == e;
      assert h[b] in g;
      var a :| 0 <= a < |g| && g[a] == h[b];
      assert EntriesOf(g)[a] == e;
    }
  }

  lemma {:induction false} LastSaveIndex(run: seq<Command>, key: CheckpointKey) returns (i: nat)
    requires LastSave(run, key).Some?
    ensures i < |run| && SavesAs(run[i], key) && LastSave(run, key) == Some(run[i].put)
  {
    var n := |run| - 1;
    if SavesAs(run[n], key) {
      i := n;
    } else {
      i := LastSaveIndex(run[..n], key);
    }
  }

  /** Looked up by its id, the put gives back its whole snapshot. */
  predicate IsRestored(run: seq<Command>, scope: Scope, c: PutCall) {
    GetTuple(After(run), scope, Some(c.snapshot.id)) == Some(TupleOf(run, c))
  }

  /** The id comes before `before`, unless that is empty, and every entry of the filter is in the
      metadata, an absent one counting as null. */
  predicate Wanted(c: PutCall, filter: map<string, MetaValue>, before: string) {
    && (before == "" || Less(c.snapshot.id, before))
    && forall k :: k in filter ==> if k in c.meta then c.meta[k] == filter[k] else filter[k] == NoneValue
  }

  function SpecItem(run: seq<Command>, c: PutCall, filter: map<string, MetaValue>, before: string):
    seq<CheckpointTuple>
  {
    if Wanted(c, filter, before) then [TupleOf(run, c)] else []
  }

  /** The simple specification of list over whole snapshots. */
  function SpecItems(run: seq<Command>, h: seq<PutCall>, filter: map<string, MetaValue>, before: string):
    seq<CheckpointTuple>
  {
    if h == [] then []
    else
      var n := |h| - 1;
      SpecItems(run, h[..n], filter, before) + SpecItem(run, h[n], filter, before)
  }

  lemma ItemIsSpec(run: seq<Command>, scope: Scope, c: PutCall, filter: map<string, MetaValue>, before: string)
    requires IsRestored(run, scope, c)
    ensures ItemFor(After(run), scope, c.snapshot.id, filter, before) == SpecItem(run, c, filter, before)
  {
    assert Matches(c.meta, filter) && Below(c.snapshot.id, before) <==> Wanted(c, filter, before);
  }

  lemma EntriesGrow(h: seq<PutCall>, n: nat)
    requires n + 1 == |h|
    ensures EntriesOf(h) == EntriesOf(h[..n]) + [Entry(h[n].now, h[n].snapshot.id)]
  {}

  lemma CollectGrows(db: Db, scope: Scope, ids: seq<Entry>, e: Entry, filter: map<string, MetaValue>, before: string)
    ensures Collect(db, scope, ids + [e], filter, before)
            == Collect(db, scope, ids, filter, before) + ItemFor(db, scope, e.member, filter, before)
  {
    assert (ids + [e])[..|ids|] == ids;
  }

  lemma {:induction false} CollectIsSpec(run: seq<Command>, scope: Scope, h: seq<PutCall>,
      filter: map<string, MetaValue>, before: string)
    requires forall i :: 0 <= i < |h| ==> IsRestored(run, scope, h[i])
    ensures Collect(After(run), scope, EntriesOf(h), filter, before) == SpecItems(run, h, filter, before)
  {
    if h != [] {
      var n := |h| - 1;
      CollectIsSpec(run, scope, h[..n], filter, before);
      ItemIsSpec(run, scope, h[n], filter, before);
      EntriesGrow(h, n);
      CollectGrows(After(run), scope, EntriesOf(h[..n]), Entry(h[n].now, h[n].snapshot.id), filter, before);
    }
  }

  /** Each item of the history is found under its own id. */
  lemma HistoryIsRestored(run: seq<Command>, scope: Scope, c: PutCall)
    requires Disciplined(run) && c in History(run, scope)
    requires forall j :: 0 <= j < |run| && run[j].Save? ==> run[j].put.snapshot.id != ""
    ensures c.snapshot.id != "" && IsRestored(run, scope, c)
  {
    var a: nat :| a < |History(run, scope)| && History(run, scope)[a] == c;
    var j := HistoryIndex(run, scope, a);
    EveryCheckpointIsRestored(run, j);
  }

  /** An absent or empty id gives the first of the puts `h`. */
  predicate ShowsNewest(run: seq<Command>, scope: Scope, h: seq<PutCall>) {
    var first := if h == [] then None else Some(TupleOf(run, h[0]));
    GetTuple(After(run), scope, None) == first && GetTuple(After(run), scope, Some("")) == first
  }

  lemma NewestIsFirst(run: seq<Command>, scope: Scope, h: seq<PutCall>)
    requires ZRevRange(Members(After(run), scope)) == EntriesOf(h)
    requires h != [] ==> h[0].snapshot.id != "" && IsRestored(run, scope, h[0])
    ensures ShowsNewest(run, scope, h)
  {
    if h != [] { assert ZRevRange(Members(After(run), scope))[0].member == h[0].snapshot.id; }
  }

  /** What a limit lets through: everything when it is absent or zero, else the first items, as many
      as it says but at least one, for the test comes after the first yield. */
  ghost predicate IsCutTo(out: seq<CheckpointTuple>, items: seq<CheckpointTuple>, limit: Option<int>) {
    && out <= items
    && (limit == None || limit == Some(0) ==> out == items)
    && (limit.Some? && limit.value > 0 ==> |out| == if |items| < limit.value then |items| else limit.value)
    && (limit.Some? && limit.value < 0 ==> |out| == if items == [] then 0 else 1)
  }

  lemma ListIsCut(db: Db, scope: Scope, filter: map<string, MetaValue>, before: string, limit: Option<int>)
    ensures IsCutTo(List(db, scope, filter, before, limit),
                    Collect(db, scope, ZRevRange(Members(db, scope)), filter, before), limit)
  {}

  /** The store shows the puts `h`: get_tuple without an id gives the first, and list gives them in
      order, ids below `before`, metadata matching, cut to the limit, each a whole snapshot. */
  ghost predicate Shows(run: seq<Command>, scope: Scope, h: seq<PutCall>) {
    && ShowsNewest(run, scope, h)
    && forall filter, before, limit ::
         IsCutTo(List(After(run), scope, filter, before, limit), SpecItems(run, h, filter, before), limit)
  }

  lemma IndexedIsShown(run: seq<Command>, scope: Scope, h: seq<PutCall>)
    requires Disciplined(run) && forall c :: c in h ==> c in History(run, scope)
    requires forall j :: 0 <= j < |run| && run[j].Save? ==> run[j].put.snapshot.id != ""
    requires ZRevRange(Members(After(run), scope)) == EntriesOf(h)
    ensures Shows(run, scope, h)
  {
    var db := After(run);
    forall c | c in h ensures c.snapshot.id != "" && IsRestored(run, scope, c) { HistoryIsRestored(run, scope, c); }
    NewestIsFirst(run, scope, h);
    forall filter, before, limit
      ensures IsCutTo(List(db, scope, filter, before, limit), SpecItems(run, h, filter, before), limit)
    {
      CollectIsSpec(run, scope, h, filter, before);
      ListIsCut(db, scope, filter, before, limit);
    }
  }

  /** In every disciplined run the store shows its whole history, in the order of the index,
      whatever the clock did; with an increasing clock that is the history newest first. */
  lemma ListIsHistory(run: seq<Command>, scope: Scope) returns (h: seq<PutCall>)
    requires Disciplined(run) && forall j :: 0 <= j < |run| && run[j].Save? ==> run[j].put.snapshot.id != ""
    ensures IsIndexed(run, scope, h) && Shows(run, scope, h)
    ensures ClockIncreases(run) ==> Shows(run, scope, History(run, scope))
  {
    h := IndexListsHistory(run, scope);
    IndexedIsShown(run, scope, h);
    if ClockIncreases(run) {
      IndexIsHistory(run, scope);
      IndexedIsShown(run, scope, History(run, scope));
    }
  }
}
