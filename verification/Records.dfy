/** The write-through store of jobs and schedules: a dict in memory, a cache of what was saved, and
    the rows of one kind in the records table. */
module Records {
  import opened Prelude

  /** The keys the program itself uses in records, and all others. */
  datatype Key = Status | StatusBeforeRestart | InterruptedAt | Detection | Problem | Task | Request | CreatedAt
    | Duration | Indefinite | LastRun | Runs | LastError | ResumedAt | Resumes | CompletedNote | Other(name: string)

  /** Texts the program compares or writes in records, and all others. */
  datatype Word = Running | Starting | Queued | Interrupted | Stopped | Completed | Failed | Waiting | Checking
    | NotChecked | CutOff | ContainerNotFound | RanOut | Text(text: string)

  datatype Json = Null | Bool(b: bool) | Num(n: int) | Str(w: Word) | Object(fields: map<Key, Json>)

  type Id = nat

  datatype Config = Config(active: set<Word>, transient: set<Key>, prunable: bool)

  /** `json.dumps` with sorted keys: one text for each value. */
  datatype Data = Data(value: Json)

  /** The digest of a text, as its own constructor: equal only for equal texts. */
  datatype Digest = Digest(of: Data)

  datatype Row = Row(status: Json, data: Data, createdAt: int, updatedAt: int)

  /** Transient keys are dropped at the top level only. */
  function Serialize(c: Config, v: Json): Data {
    match v
    case Object(fields) => Data(Object(fields - c.transient))
    case _ => Data(v)
  }

  function StatusOf(v: Json): Json {
    if v.Object? && Status in v.fields then v.fields[Status] else Null
  }

  predicate IsActive(c: Config, v: Json) {
    v.Object? && Status in v.fields && v.fields[Status].Str? && v.fields[Status].w in c.active
  }

  predicate AwaitsDetection(v: Json) {
    v.Object? && Detection in v.fields && v.fields[Detection].Object? &&
    StatusOf(v.fields[Detection]) in {Str(Waiting), Str(Checking)}
  }

  /** What loading makes of a stored record: a running one is interrupted, a detection check that was
      cut off is marked so. */
  function Interrupt(c: Config, v: Json, now: int): Json {
    if IsActive(c, v) then
      Object(v.fields[StatusBeforeRestart := v.fields[Status]][Status := Str(Interrupted)][InterruptedAt := Num(now)])
    else v
  }

  function CutOffDetection(v: Json): Json {
    if AwaitsDetection(v) then
      var detection := v.fields[Detection].fields[Status := Str(NotChecked)][Problem := Str(CutOff)];
      Object(v.fields[Detection := Object(detection)])
    else v
  }

  function Recovered(c: Config, v: Json, now: int): Json {
    CutOffDetection(Interrupt(c, v, now))
  }

  /** `w` is `v` without its transient keys, which only the top level of an object has. */
  ghost predicate Stripped(c: Config, v: Json, w: Json) {
    if v.Object? then
      w.Object? && forall key ::
        && (key in w.fields <==> key in v.fields && key !in c.transient)
        && (key in w.fields ==> w.fields[key] == v.fields[key])
    else w == v
  }

  lemma SerializeStrips(c: Config, v: Json)
    ensures Stripped(c, v, Serialize(c, v).value)
  {
  }

  /** The record says that it was going on. */
  ghost predicate WasGoing(c: Config, v: Json) {
    v.Object? && Status in v.fields && exists w :: w in c.active && v.fields[Status] == Str(w)
  }

  /** The record has a check in it that was waiting or being made. */
  ghost predicate WasChecking(v: Json) {
    v.Object? && Detection in v.fields && v.fields[Detection].Object? && Status in v.fields[Detection].fields
    && v.fields[Detection].fields[Status] in {Str(Waiting), Str(Checking)}
  }

  ghost predicate SameField(key: Key, v: map<Key, Json>, w: map<Key, Json>) {
    (key in w <==> key in v) && (key in v ==> w[key] == v[key])
  }

  /** `w` is `v` as a restart leaves it: if it was going on, interrupted now, with its status kept beside; a check
      cut off says so; and nothing else is touched. */
  ghost predicate CutShort(c: Config, v: Json, w: Json, now: int) {
    if !v.Object? then w == v
    else
      && w.Object?
      && (forall key :: key !in {Status, StatusBeforeRestart, InterruptedAt, Detection} ==>
            SameField(key, v.fields, w.fields))
      && (if WasGoing(c, v)
          then {Status, StatusBeforeRestart, InterruptedAt} <= w.fields.Keys
            && w.fields[Status] == Str(Interrupted) && w.fields[StatusBeforeRestart] == v.fields[Status]
            && w.fields[InterruptedAt] == Num(now)
          else forall key :: key in {Status, StatusBeforeRestart, InterruptedAt} ==> SameField(key, v.fields, w.fields))
      && (if WasChecking(v)
          then Detection in w.fields && w.fields[Detection].Object?
            && CheckCut(v.fields[Detection].fields, w.fields[Detection].fields)
          else SameField(Detection, v.fields, w.fields))
  }

  ghost predicate CheckCut(v: map<Key, Json>, w: map<Key, Json>) {
    && Status in w && w[Status] == Str(NotChecked) && Problem in w && w[Problem] == Str(CutOff)
    && forall key :: key !in {Status, Problem} ==> SameField(key, v, w)
  }

  lemma RecoveredIsCutShort(c: Config, v: Json, now: int)
    ensures CutShort(c, v, Recovered(c, v, now), now)
  {
  }

  // --- the store as a value ---

  datatype Store = Store(mem: map<Id, Json>, saved: map<Id, Digest>, table: map<Id, Row>, attached: bool)

  function Upsert(c: Config, row: Option<Row>, v: Json, now: int): Row {
    Row(StatusOf(v), Serialize(c, v), if row.Some? then row.value.createdAt else now, now)
  }

  function RowOf(s: Store, key: Id): Option<Row> {
    if key in s.table then Some(s.table[key]) else None
  }

  /** There is a record to write, and it differs from what was saved last. */
  predicate Dirty(c: Config, s: Store, key: Id) {
    && s.attached && key in s.mem && s.mem[key] != Null
    && !(key in s.saved && s.saved[key] == Digest(Serialize(c, s.mem[key])))
  }

  /** `save` of one key. */
  function Saved(c: Config, s: Store, key: Id, now: int): Store {
    if !Dirty(c, s, key) then s
    else s.(table := s.table[key := Upsert(c, RowOf(s, key), s.mem[key], now)],
            saved := s.saved[key := Digest(Serialize(c, s.mem[key]))])
  }

  function Deleted(s: Store, key: Id): Store {
    s.(mem := s.mem - {key}, saved := s.saved - {key}, table := if s.attached then s.table - {key} else s.table)
  }

  /** `save` of several keys, one after the other. */
  function SavedSeq(c: Config, s: Store, keys: seq<Id>, now: int): Store
    decreases |keys|
  {
    if keys == [] then s else SavedSeq(c, Saved(c, s, keys[0], now), keys[1..], now)
  }

  predicate Expired(c: Config, row: Row, before: int) {
    row.updatedAt < before && !(row.status.Str? && row.status.w in c.active)
  }

  function Prunable(c: Config, s: Store, before: int): set<Id> {
    if c.prunable && s.attached then set k | k in s.table && Expired(c, s.table[k], before) else {}
  }

  function Pruned(c: Config, s: Store, before: int): Store {
    Minus(s, Prunable(c, s, before))
  }

  /** The records a load changes. */
  predicate Touched(c: Config, v: Json) {
    IsActive(c, v) || AwaitsDetection(v)
  }

  /** One row read at startup. A detection check that was cut off is saved at once. */
  function ReadRow(c: Config, s: Store, k: Id, data: Data, now: int): Store {
    var read := s.(mem := s.mem[k := Recovered(c, data.value, now)], saved := s.saved[k := Digest(data)]);
    if AwaitsDetection(Interrupt(c, data.value, now)) then Saved(c, read, k, now) else read
  }

  function ReadAll(c: Config, s: Store, order: seq<Id>, table: map<Id, Row>, now: int): Store
    requires forall k :: k in order ==> k in table
    decreases |order|
  {
    if order == [] then s
    else ReadAll(c, ReadRow(c, s, order[0], table[order[0]].data, now), order[1..], table, now)
  }

  function ActiveIn(c: Config, order: seq<Id>, table: map<Id, Row>): seq<Id>
    requires forall k :: k in order ==> k in table
    decreases |order|
  {
    if order == [] then []
    else (if IsActive(c, table[order[0]].data.value) then [order[0]] else []) + ActiveIn(c, order[1..], table)
  }

  /** The keys of a map, each once, in some order. */
  ghost predicate Lists<V>(order: seq<Id>, m: map<Id, V>) {
    (forall k :: k in order <==> k in m) && forall i, j :: 0 <= i < j < |order| ==> order[i] != order[j]
  }

  /** A new process attached to the table: every row read in the order given, then what was running
      saved as interrupted. */
  function Loaded(c: Config, table: map<Id, Row>, order: seq<Id>, now: int): Store
    requires forall k :: k in order ==> k in table
  {
    SavedSeq(c, ReadAll(c, Store(map[], map[], table, true), order, table, now), ActiveIn(c, order, table), now)
  }

  // --- agreement ---

  predicate Storable(c: Config, v: Json) {
    v.Object? ==> v.fields.Keys !! c.transient
  }

  /** The digest cache describes exactly the rows of the table; every row was written from a record
      without transient keys, with its status beside it, and has a record in memory. */
  ghost predicate Agrees(c: Config, s: Store) {
    && s.attached
    && s.saved.Keys == s.table.Keys && s.table.Keys <= s.mem.Keys
    && forall k :: k in s.table ==>
         && s.saved[k] == Digest(s.table[k].data)
         && s.table[k].status == StatusOf(s.table[k].data.value)
         && Storable(c, s.table[k].data.value) && s.table[k].data.value != Null
  }

  /** The configurations the program uses: the status column and the recovery fields are kept. */
  predicate Sensible(c: Config) {
    && c.transient !! {Status, StatusBeforeRestart, InterruptedAt, Detection, Problem, Request, CreatedAt, Duration,
                       Indefinite}
    && Interrupted !in c.active
  }

  lemma SerializedStatus(c: Config, v: Json)
    requires Sensible(c) && v != Null
    ensures StatusOf(Serialize(c, v).value) == StatusOf(v)
    ensures Storable(c, Serialize(c, v).value) && Serialize(c, v).value != Null
  {
  }

  lemma SaveAgrees(c: Config, s: Store, key: Id, now: int)
    requires Sensible(c) && Agrees(c, s)
    ensures Agrees(c, Saved(c, s, key, now))
    ensures key in s.mem && s.mem[key] != Null ==>
      key in Saved(c, s, key, now).table && Saved(c, s, key, now).table[key].data == Serialize(c, s.mem[key])
  {
    if key in s.mem && s.mem[key] != Null {
      SerializedStatus(c, s.mem[key]);
    }
  }

  function SavedOf(s: Store, key: Id): Option<Digest> {
    if key in s.saved then Some(s.saved[key]) else None
  }

  /** Saving is not order dependent: each key gets the row and the digest it would get alone. */
  lemma {:induction false} SavedSeqAt(c: Config, s: Store, keys: seq<Id>, k: Id, now: int)
    ensures var t := SavedSeq(c, s, keys, now);
            && t.mem == s.mem && t.attached == s.attached
            && RowOf(t, k) ==
               (if k in keys && Dirty(c, s, k) then Some(Upsert(c, RowOf(s, k), s.mem[k], now)) else RowOf(s, k))
            && SavedOf(t, k) ==
               (if k in keys && Dirty(c, s, k) then Some(Digest(Serialize(c, s.mem[k]))) else SavedOf(s, k))
    decreases |keys|
  {
    if keys != [] {
      var u := Saved(c, s, keys[0], now);
      SavedSeqAt(c, u, keys[1..], k, now);
      if k == keys[0] {
        assert !Dirty(c, u, k);
      } else {
        assert RowOf(u, k) == RowOf(s, k) && SavedOf(u, k) == SavedOf(s, k);
        assert Dirty(c, u, k) <==> Dirty(c, s, k);
      }
    }
  }

  lemma {:induction false} SavedSeqAgrees(c: Config, s: Store, keys: seq<Id>, now: int)
    requires Sensible(c) && Agrees(c, s)
    ensures Agrees(c, SavedSeq(c, s, keys, now))
    decreases |keys|
  {
    if keys != [] {
      SaveAgrees(c, s, keys[0], now);
      SavedSeqAgrees(c, Saved(c, s, keys[0], now), keys[1..], now);
    }
  }

  // --- what the store promises ---

  /** Every non-null record in memory is in the table as it would be written now. */
  ghost predicate Synced(c: Config, s: Store) {
    forall k :: k in s.mem && s.mem[k] != Null ==> k in s.table && s.table[k].data == Serialize(c, s.mem[k])
  }

  /** After a flush, whatever the order of the keys, the table holds the serialized memory. */
  lemma FlushSyncs(c: Config, s: Store, order: seq<Id>, now: int)
    requires Sensible(c) && Agrees(c, s) && forall k :: k in s.mem ==> k in order
    ensures var t := SavedSeq(c, s, order, now);
            Agrees(c, t) && Synced(c, t) && t.mem == s.mem
  {
    SavedSeqAgrees(c, s, order, now);
    var t := SavedSeq(c, s, order, now);
    SavedSeqAt(c, s, order, 0, now);
    forall k | k in t.mem && t.mem[k] != Null
      ensures k in t.table && t.table[k].data == Serialize(c, t.mem[k])
    {
      SavedSeqAt(c, s, order, k, now);
      assert RowOf(t, k).Some?;
    }
  }

  /** A table this store wrote. */
  ghost predicate Written(c: Config, table: map<Id, Row>) {
    forall k :: k in table ==>
      && table[k].status == StatusOf(table[k].data.value)
      && Storable(c, table[k].data.value) && table[k].data.value != Null
  }

  lemma RecoveredSerializes(c: Config, v: Json, now: int)
    requires Sensible(c) && v != Null && Storable(c, v)
    ensures Serialize(c, Recovered(c, v, now)) == Data(Recovered(c, v, now)) && Recovered(c, v, now) != Null
    ensures Recovered(c, v, now) != v ==> Touched(c, v)
  {
    var r := Recovered(c, v, now);
    if r.Object? {
      assert r.fields.Keys !! c.transient;
      assert r.fields - c.transient == r.fields;
    }
  }

  /** Two stores hold the same about one key. */
  predicate SameAt(s: Store, t: Store, k: Id) {
    && RowOf(t, k) == RowOf(s, k) && SavedOf(t, k) == SavedOf(s, k)
    && (k in t.mem <==> k in s.mem) && (k in s.mem ==> t.mem[k] == s.mem[k])
  }

  /** Where the data stay the row stays; other data carry the time they were written, in a row that keeps the time
      it was made, or is made now. */
  predicate KeepsTimes(before: Option<Row>, after: Option<Row>, now: int) {
    && (after.Some? && before.Some? && before.value.data == after.value.data ==> after == before)
    && (after.Some? && !(before.Some? && before.value.data == after.value.data) ==>
          after.value.updatedAt == now
          && after.value.createdAt == if before.Some? then before.value.createdAt else now)
  }

  /** A store holds the record recovered from a row, cached as its row has it; the row is only behind
      when the record was running. */
  predicate ReadFrom(c: Config, t: Store, k: Id, row: Row, now: int) {
    && k in t.mem && t.mem[k] == Recovered(c, row.data.value, now)
    && k in t.table && SavedOf(t, k) == Some(Digest(t.table[k].data))
    && (t.table[k] == row || (t.table[k] == Upsert(c, Some(row), t.mem[k], now) && t.table[k].data != row.data))
    && (!IsActive(c, row.data.value) ==> t.table[k].data == Serialize(c, t.mem[k]))
  }

  /** Where one row read leaves every key. */
  lemma ReadRowAt(c: Config, s: Store, k: Id, row: Row, now: int, j: Id)
    requires Sensible(c) && row.data.value != Null && Storable(c, row.data.value)
    requires s.attached && k in s.table && s.table[k] == row
    ensures var t := ReadRow(c, s, k, row.data, now);
            t.attached && if j == k then ReadFrom(c, t, k, row, now) else SameAt(s, t, j)
  {
    RecoveredSerializes(c, row.data.value, now);
    assert Serialize(c, row.data.value) == row.data by {
      if row.data.value.Object? {
        assert row.data.value.fields - c.transient == row.data.value.fields;
      }
    }
  }

  lemma {:induction false} ReadAllAt(c: Config, s: Store, order: seq<Id>, table: map<Id, Row>, now: int, k: Id)
    requires Sensible(c) && Written(c, table) && s.attached && forall j :: j in order ==> j in table
    requires forall i, j :: 0 <= i < j < |order| ==> order[i] != order[j]
    requires forall j :: j in order ==> j in s.table && s.table[j] == table[j]
    ensures var t := ReadAll(c, s, order, table, now);
            t.attached && if k in order then ReadFrom(c, t, k, table[k], now) else SameAt(s, t, k)
    decreases |order|
  {
    if order != [] {
      var first, rest := order[0], order[1..];
      var u := ReadRow(c, s, first, table[first].data, now);
      assert first !in rest;
      forall j | j in rest
        ensures j in u.table && u.table[j] == table[j]
      {
        ReadRowAt(c, s, first, table[first], now, j);
        assert RowOf(u, j) == RowOf(s, j);
      }
      ReadRowAt(c, s, first, table[first], now, k);
      ReadAllAt(c, u, rest, table, now, k);
    }
  }

  lemma {:induction false} ActiveInMembers(c: Config, order: seq<Id>, table: map<Id, Row>, k: Id)
    requires forall j :: j in order ==> j in table
    ensures k in ActiveIn(c, order, table) <==> k in order && IsActive(c, table[k].data.value)
    decreases |order|
  {
    if order != [] {
      ActiveInMembers(c, order[1..], table, k);
    }
  }

  /** The ids a load returns are those of the records that were going on. */
  lemma InterruptedWereGoing(c: Config, order: seq<Id>, table: map<Id, Row>, k: Id)
    requires forall j :: j in order ==> j in table
    ensures k in ActiveIn(c, order, table) <==> k in order && WasGoing(c, table[k].data.value)
  {
    ActiveInMembers(c, order, table, k);
  }

  lemma LoadedAt(c: Config, table: map<Id, Row>, order: seq<Id>, now: int, k: Id)
    requires Sensible(c) && Written(c, table) && Lists(order, table)
    ensures var s := Loaded(c, table, order, now);
            && s.attached && (k in s.mem <==> k in table)
            && (k in s.table <==> k in table) && (k in s.saved <==> k in table)
            && (k in table ==>
                 && s.mem[k] == Recovered(c, table[k].data.value, now)
                 && s.table[k].data == Serialize(c, s.mem[k]) && s.saved[k] == Digest(s.table[k].data)
                 && s.table[k].status == StatusOf(s.mem[k]) && KeepsTimes(Some(table[k]), Some(s.table[k]), now))
  {
    var start := Store(map[], map[], table, true);
    var read := ReadAll(c, start, order, table, now);
    var active := ActiveIn(c, order, table);
    var s := Loaded(c, table, order, now);
    ReadAllAt(c, start, order, table, now, k);
    ActiveInMembers(c, order, table, k);
    SavedSeqAt(c, read, active, k, now);
    assert RowOf(s, k).Some? <==> k in table;
    assert SavedOf(s, k).Some? <==> k in table;
    if k in table {
      RecoveredSerializes(c, table[k].data.value, now);
      assert RowOf(s, k) == Some(s.table[k]) && SavedOf(s, k) == Some(s.saved[k]);
    }
  }

  lemma LoadAgrees(c: Config, table: map<Id, Row>, order: seq<Id>, now: int)
    requires Sensible(c) && Written(c, table) && Lists(order, table)
    ensures Agrees(c, Loaded(c, table, order, now)) && Loaded(c, table, order, now).table.Keys == table.Keys
  {
    var s := Loaded(c, table, order, now);
    LoadedAt(c, table, order, now, 0);
    forall k
      ensures (k in s.mem <==> k in table) && (k in s.table <==> k in table) && (k in s.saved <==> k in table)
    {
      LoadedAt(c, table, order, now, k);
    }
    forall k | k in table
      ensures s.saved[k] == Digest(s.table[k].data) && s.table[k].status == StatusOf(s.table[k].data.value)
      ensures Storable(c, s.table[k].data.value) && s.table[k].data.value != Null
    {
      LoadedAt(c, table, order, now, k);
      RecoveredSerializes(c, table[k].data.value, now);
      SerializedStatus(c, s.mem[k]);
    }
  }

  /** Loading gives memory back from the table with every running record, and no other, interrupted,
      and leaves table, cache and memory in step, in whatever order the rows are read. */
  lemma LoadRecovers(c: Config, table: map<Id, Row>, order: seq<Id>, now: int)
    requires Sensible(c) && Written(c, table) && Lists(order, table)
    ensures var s := Loaded(c, table, order, now);
            && Agrees(c, s) && Synced(c, s)
            && s.mem.Keys == table.Keys == s.table.Keys
            && forall k :: k in table ==>
                 && s.mem[k] == Recovered(c, table[k].data.value, now)
                 && CutShort(c, table[k].data.value, s.mem[k], now)
  {
    var s := Loaded(c, table, order, now);
    LoadAgrees(c, table, order, now);
    forall k
      ensures k in s.mem <==> k in table
      ensures k in table ==> s.mem[k] == Recovered(c, table[k].data.value, now)
      ensures k in table ==> CutShort(c, table[k].data.value, Recovered(c, table[k].data.value, now), now)
      ensures k in table && k in s.mem ==> k in s.table && s.table[k].data == Serialize(c, s.mem[k])
    {
      LoadedAt(c, table, order, now, k);
      if k in table {
        RecoveredIsCutShort(c, table[k].data.value, now);
      }
    }
  }

  /** A second restart changes nothing more: what was interrupted stays as the first one left it. */
  lemma RecoveryIsStable(c: Config, v: Json, now: int, later: int)
    requires Sensible(c)
    ensures Recovered(c, Recovered(c, v, now), later) == Recovered(c, v, now)
    ensures IsActive(c, v) <==> StatusOf(Recovered(c, v, now)) != StatusOf(v)
    ensures !IsActive(c, Recovered(c, v, now)) && !AwaitsDetection(Recovered(c, v, now))
  {
    var r := Recovered(c, v, now);
    if r.Object? && Status in r.fields {
      assert StatusOf(r) == if IsActive(c, v) then Str(Interrupted) else StatusOf(v);
    }
  }

  /** A restart after a flush loses nothing but the transient keys. */
  lemma FlushThenRestart(c: Config, s: Store, order: seq<Id>, now: int, rows: seq<Id>, later: int)
    requires Sensible(c) && Agrees(c, s) && forall k :: k in s.mem ==> k in order
    requires Lists(rows, SavedSeq(c, s, order, now).table)
    ensures var t := Loaded(c, SavedSeq(c, s, order, now).table, rows, later);
            forall k :: k in s.mem && s.mem[k] != Null ==>
              var saved := Serialize(c, s.mem[k]).value;
              && k in t.mem && t.mem[k] == Recovered(c, saved, later)
              && Stripped(c, s.mem[k], saved) && CutShort(c, saved, t.mem[k], later)
  {
    forall k | k in s.mem && s.mem[k] != Null
      ensures Stripped(c, s.mem[k], Serialize(c, s.mem[k]).value)
      ensures CutShort(c, Serialize(c, s.mem[k]).value, Recovered(c, Serialize(c, s.mem[k]).value, later), later)
    {
      SerializeStrips(c, s.mem[k]);
      RecoveredIsCutShort(c, Serialize(c, s.mem[k]).value, later);
    }
    FlushSyncs(c, s, order, now);
    AgreesWritten(c, SavedSeq(c, s, order, now));
    LoadRecovers(c, SavedSeq(c, s, order, now).table, rows, later);
  }

  lemma AgreesWritten(c: Config, s: Store)
    requires Agrees(c, s)
    ensures Written(c, s.table)
  {
  }

  /** Pruning removes exactly the rows that are old and not marked active; in particular a record that
      is active in memory goes only if its row is out of date. */
  lemma PruneIsExact(c: Config, s: Store, before: int, k: Id)
    requires Sensible(c) && Agrees(c, s)
    ensures var t := Pruned(c, s, before);
            && Agrees(c, t)
            && (k in t.mem <==> k in s.mem && !(c.prunable && k in s.table && Expired(c, s.table[k], before)))
            && (k in t.mem ==> t.mem[k] == s.mem[k])
            && (k in s.mem && k !in t.mem && IsActive(c, s.mem[k]) ==> s.table[k].data != Serialize(c, s.mem[k]))
  {
    if k in s.mem && IsActive(c, s.mem[k]) {
      SerializedStatus(c, s.mem[k]);
    }
  }

  // --- every run ---

  datatype Op =
    | SetItem(key: Id, v: Json)      // store[key] = v
    | InPlace(key: Id, v: Json)      // the record changed where it is
    | Remove(key: Id)                // del or pop of a key that is there
    | Save(key: Id)
    | Flush(order: seq<Id>)
    | Prune(before: int)
    | Restart(rows: seq<Id>)         // a crash, or a stop: memory is lost and loaded again

  function Step(c: Config, s: Store, op: Op, now: int): Store {
    match op
    case SetItem(k, v) => Saved(c, s.(mem := s.mem[k := v]), k, now)
    case InPlace(k, v) => if k in s.mem then s.(mem := s.mem[k := v]) else s
    case Remove(k) => if k in s.mem then Deleted(s, k) else s
    case Save(k) => Saved(c, s, k, now)
    case Flush(order) => SavedSeq(c, s, order, now)
    case Prune(before) => Pruned(c, s, before)
    case Restart(rows) => if forall k :: k in rows ==> k in s.table then Loaded(c, s.table, rows, now) else s
  }

  lemma StepAgrees(c: Config, s: Store, op: Op, now: int)
    requires Sensible(c) && Agrees(c, s) && (op.Restart? ==> Lists(op.rows, s.table))
    ensures Agrees(c, Step(c, s, op, now))
  {
    match op
    case SetItem(k, v) => SaveAgrees(c, s.(mem := s.mem[k := v]), k, now);
    case InPlace(k, v) =>
    case Remove(k) =>
    case Save(k) => SaveAgrees(c, s, k, now);
    case Flush(order) => SavedSeqAgrees(c, s, order, now);
    case Prune(before) =>
    case Restart(rows) =>
      AgreesWritten(c, s);
      LoadRecovers(c, s.table, rows, now);
  }

  /** A run: operations at their times, each restart reading all rows in some order. */
  ghost predicate Reaches(c: Config, s: Store, ops: seq<(Op, int)>, t: Store)
    decreases |ops|
  {
    if ops == [] then t == s
    else
      var (op, now) := ops[0];
      (op.Restart? ==> Lists(op.rows, s.table)) && Reaches(c, Step(c, s, op, now), ops[1..], t)
  }

  /** The cache and the table agree after any run of operations and restarts. */
  lemma {:induction false} EveryRunAgrees(c: Config, s: Store, ops: seq<(Op, int)>, t: Store)
    requires Sensible(c) && Agrees(c, s) && Reaches(c, s, ops, t)
    ensures Agrees(c, t)
    decreases |ops|
  {
    if ops != [] {
      StepAgrees(c, s, ops[0].0, ops[0].1);
      EveryRunAgrees(c, Step(c, s, ops[0].0, ops[0].1), ops[1..], t);
    }
  }

  /** Before it is attached a store is a dict and nothing more: no operation touches a table. */
  lemma DetachedWritesNothing(c: Config, s: Store, op: Op, now: int)
    requires !s.attached && !op.Restart?
    ensures var t := Step(c, s, op, now);
            && t.table == s.table && !t.attached
            && (op.SetItem? ==> t.mem == s.mem[op.key := op.v]) && (op.Remove? ==> t.mem == s.mem - {op.key})
            && (op.Save? || op.Flush? || op.Prune? ==> t.mem == s.mem)
  {
    match op
    case Flush(order) => DetachedFlush(c, s, order, now);
    case _ =>
  }

  lemma {:induction false} DetachedFlush(c: Config, s: Store, order: seq<Id>, now: int)
    requires !s.attached
    ensures SavedSeq(c, s, order, now) == s
    decreases |order|
  {
    if order != [] {
      DetachedFlush(c, s, order[1..], now);
    }
  }

  // --- the times of a row ---

  function Held(s: Store, k: Id): Option<Data> {
    if k in s.table then Some(s.table[k].data) else None
  }

  lemma SavedTimes(c: Config, s: Store, key: Id, k: Id, now: int)
    requires Agrees(c, s)
    ensures KeepsTimes(RowOf(s, k), RowOf(Saved(c, s, key, now), k), now)
  {
  }

  lemma FlushTimes(c: Config, s: Store, order: seq<Id>, k: Id, now: int)
    requires Agrees(c, s)
    ensures KeepsTimes(RowOf(s, k), RowOf(SavedSeq(c, s, order, now), k), now)
  {
    SavedSeqAt(c, s, order, k, now);
  }

  lemma StepTimes(c: Config, s: Store, op: Op, now: int, k: Id)
    requires Sensible(c) && Agrees(c, s) && (op.Restart? ==> Lists(op.rows, s.table))
    ensures KeepsTimes(RowOf(s, k), RowOf(Step(c, s, op, now), k), now)
  {
    match op
    case SetItem(key, v) => SavedTimes(c, s.(mem := s.mem[key := v]), key, k, now);
    case InPlace(key, v) =>
    case Remove(key) =>
    case Save(key) => SavedTimes(c, s, key, k, now);
    case Flush(order) => FlushTimes(c, s, order, k, now);
    case Prune(before) =>
    case Restart(rows) =>
      AgreesWritten(c, s);
      LoadedAt(c, s.table, rows, now, k);
  }

  /** The stores a run goes through: `states[i]` is there before operation `i`, the last one after all of them. */
  ghost predicate Trace(c: Config, states: seq<Store>, ops: seq<(Op, int)>) {
    && |states| == |ops| + 1
    && forall i :: 0 <= i < |ops| ==> Steps(c, states, ops, i)
  }

  ghost predicate Steps(c: Config, states: seq<Store>, ops: seq<(Op, int)>, i: nat)
    requires i < |ops| && |states| == |ops| + 1
  {
    && (ops[i].0.Restart? ==> Lists(ops[i].0.rows, states[i].table))
    && states[i + 1] == Step(c, states[i], ops[i].0, ops[i].1)
  }

  lemma {:induction false} ReachesTrace(c: Config, s: Store, ops: seq<(Op, int)>, t: Store) returns (states: seq<Store>)
    requires Reaches(c, s, ops, t)
    ensures Trace(c, states, ops) && states[0] == s && states[|ops|] == t
    decreases |ops|
  {
    if ops == [] {
      states := [s];
    } else {
      var rest := ReachesTrace(c, Step(c, s, ops[0].0, ops[0].1), ops[1..], t);
      states := [s] + rest;
      forall i | 0 <= i < |ops|
        ensures Steps(c, states, ops, i)
      {
        assert i > 0 ==> Steps(c, rest, ops[1..], i - 1);
      }
    }
  }

  lemma {:induction false} TraceAgrees(c: Config, states: seq<Store>, ops: seq<(Op, int)>, n: nat)
    requires Sensible(c) && Trace(c, states, ops) && Agrees(c, states[0]) && n <= |ops|
    ensures Agrees(c, states[n])
    decreases n
  {
    if n > 0 {
      TraceAgrees(c, states, ops, n - 1);
      assert Steps(c, states, ops, n - 1);
      StepAgrees(c, states[n - 1], ops[n - 1].0, ops[n - 1].1);
    }
  }

  lemma TraceTimes(c: Config, states: seq<Store>, ops: seq<(Op, int)>, i: nat, k: Id)
    requires Sensible(c) && Trace(c, states, ops) && Agrees(c, states[0]) && i < |ops|
    ensures KeepsTimes(RowOf(states[i], k), RowOf(states[i + 1], k), ops[i].1)
  {
    TraceAgrees(c, states, ops, i);
    assert Steps(c, states, ops, i);
    StepTimes(c, states[i], ops[i].0, ops[i].1, k);
  }

  /** Operation `i` is the last, of the first `n`, that changed what the table holds for a key. */
  ghost predicate LastChange(states: seq<Store>, k: Id, i: nat, n: nat)
    requires i < n < |states|
  {
    Held(states[i], k) != Held(states[n], k) && forall j :: i < j <= n ==> Held(states[j], k) == Held(states[n], k)
  }

  /** Over any run a row's `updatedAt` is the time of the last operation that changed what it holds. */
  lemma {:induction false} UpdatedAtTheLastChange(c: Config, states: seq<Store>, ops: seq<(Op, int)>, k: Id, i: nat,
                                                  n: nat)
    requires Sensible(c) && Trace(c, states, ops) && Agrees(c, states[0])
    requires i < n <= |ops| && LastChange(states, k, i, n) && k in states[n].table
    ensures states[n].table[k].updatedAt == ops[i].1
    decreases n
  {
    TraceTimes(c, states, ops, n - 1, k);
    if n > i + 1 {
      assert Held(states[n - 1], k) == Held(states[n], k);
      UpdatedAtTheLastChange(c, states, ops, k, i, n - 1);
    }
  }

  /** And its `createdAt` is the time the present row was first written: no later save or restart changes it. */
  lemma {:induction false} CreatedAtTheFirstWrite(c: Config, states: seq<Store>, ops: seq<(Op, int)>, k: Id, i: nat,
                                                  n: nat)
    requires Sensible(c) && Trace(c, states, ops) && Agrees(c, states[0])
    requires i < n <= |ops| && k !in states[i].table && forall j :: i < j <= n ==> k in states[j].table
    ensures states[n].table[k].createdAt == ops[i].1
    decreases n
  {
    TraceTimes(c, states, ops, n - 1, k);
    if n > i + 1 {
      CreatedAtTheFirstWrite(c, states, ops, k, i, n - 1);
    }
  }

  /** So a prune keeps every record written at or after its bound, and drops a finished one last written before. */
  lemma PruneGoesByTheLastWrite(c: Config, states: seq<Store>, ops: seq<(Op, int)>, k: Id, i: nat, n: nat, before: int)
    requires Sensible(c) && Trace(c, states, ops) && Agrees(c, states[0])
    requires i < n <= |ops| && LastChange(states, k, i, n) && k in states[n].table
    ensures var t, data := Pruned(c, states[n], before), states[n].table[k].data;
            var dropped := c.prunable && ops[i].1 < before &&
                           forall w :: w in c.active ==> StatusOf(data.value) != Str(w);
            (k !in t.table <==> dropped) && (k !in t.mem <==> dropped)
  {
    UpdatedAtTheLastChange(c, states, ops, k, i, n);
    TraceAgrees(c, states, ops, n);
  }

  // --- the store ---

  function CountDirty(c: Config, s: Store, keys: seq<Id>): nat
    decreases |keys|
  {
    if keys == [] then 0 else (if Dirty(c, s, keys[0]) then 1 else 0) + CountDirty(c, s, keys[1..])
  }

  lemma DirtyChanges(c: Config, s: Store, order: seq<Id>, k: Id, now: int)
    requires Agrees(c, s)
    ensures Held(SavedSeq(c, s, order, now), k) != Held(s, k) <==> k in order && Dirty(c, s, k)
  {
    SavedSeqAt(c, s, order, k, now);
    assert RowOf(s, k).Some? <==> k in s.table;
    assert RowOf(SavedSeq(c, s, order, now), k).Some? <==> k in SavedSeq(c, s, order, now).table;
  }

  lemma {:induction false} CountsDirty(c: Config, s: Store, keys: seq<Id>)
    requires forall i, j :: 0 <= i < j < |keys| ==> keys[i] != keys[j]
    ensures CountDirty(c, s, keys) == |set k | k in keys && Dirty(c, s, k)|
    decreases |keys|
  {
    var dirty := set k | k in keys && Dirty(c, s, k);
    if keys == [] {
      assert dirty == {};
    } else {
      CountsDirty(c, s, keys[1..]);
      var rest := set k | k in keys[1..] && Dirty(c, s, k);
      assert keys == [keys[0]] + keys[1..] && keys[0] !in keys[1..];
      assert dirty == if Dirty(c, s, keys[0]) then rest + {keys[0]} else rest;
    }
  }

  /** What a flush counts is the keys whose row it writes. */
  lemma FlushCounts(c: Config, s: Store, order: seq<Id>, now: int)
    requires Agrees(c, s) && forall i, j :: 0 <= i < j < |order| ==> order[i] != order[j]
    ensures CountDirty(c, s, order) == |set k | k in order && Held(SavedSeq(c, s, order, now), k) != Held(s, k)|
  {
    CountsDirty(c, s, order);
    forall k
      ensures Held(SavedSeq(c, s, order, now), k) != Held(s, k) <==> k in order && Dirty(c, s, k)
    {
      DirtyChanges(c, s, order, k, now);
    }
    assert (set k | k in order && Dirty(c, s, k)) ==
           (set k | k in order && Held(SavedSeq(c, s, order, now), k) != Held(s, k));
  }

  function Minus(s: Store, gone: set<Id>): Store {
    s.(mem := s.mem - gone, saved := s.saved - gone, table := s.table - gone)
  }

  lemma MinusStep(s: Store, gone: set<Id>, key: Id)
    requires s.attached
    ensures Deleted(Minus(s, gone), key) == Minus(s, gone + {key})
  {
    assert s.mem - gone - {key} == s.mem - (gone + {key});
    assert s.saved - gone - {key} == s.saved - (gone + {key});
    assert s.table - gone - {key} == s.table - (gone + {key});
  }

  lemma MinusNothing(s: Store)
    ensures Minus(s, {}) == s
  {
    assert s.mem - {} == s.mem && s.saved - {} == s.saved && s.table - {} == s.table;
  }

  /** Saving one key shows in the cache exactly when it writes, and leaves the others as dirty as they were. */
  lemma {:induction false} CleanElsewhere(c: Config, s: Store, key: Id, rest: seq<Id>, now: int)
    requires key !in rest
    ensures SavedOf(Saved(c, s, key, now), key) != SavedOf(s, key) <==> Dirty(c, s, key)
    ensures CountDirty(c, Saved(c, s, key, now), rest) == CountDirty(c, s, rest)
    decreases |rest|
  {
    if rest != [] {
      CleanElsewhere(c, s, key, rest[1..], now);
      assert SavedOf(Saved(c, s, key, now), rest[0]) == SavedOf(s, rest[0]);
    }
  }

  class PersistentStore {
    const config: Config
    var mem: map<Id, Json>
    var saved: map<Id, Digest>
    var table: map<Id, Row>
    var attached: bool

    function Value(): Store
      reads this
    {
      Store(mem, saved, table, attached)
    }

    constructor (config: Config)
      ensures this.config == config && Value() == Store(map[], map[], map[], false)
    {
      this.config, mem, saved, table, attached := config, map[], map[], map[], false;
    }

    /** `raced`: the record changed while it was being written out; the next flush gets it. */
    method SaveKey(key: Id, raced: bool, now: int)
      modifies this`saved, this`table
      ensures Value() == if raced then old(Value()) else Saved(config, old(Value()), key, now)
    {
      if !attached || key !in mem || mem[key] == Null || raced {
        return;
      }
      var data := Serialize(config, mem[key]);
      if key in saved && saved[key] == Digest(data) {
        return;
      }
      var createdAt := if key in table then table[key].createdAt else now;
      table := table[key := Row(StatusOf(mem[key]), data, createdAt, now)];
      saved := saved[key := Digest(data)];
    }

    /** `list(self.keys())`. */
    method Keys() returns (order: seq<Id>)
      ensures Lists(order, mem)
    {
      order := [];
      var left := mem.Keys;
      while left != {}
        invariant forall k :: k in mem <==> k in left || k in order
        invariant forall k :: k in order ==> k !in left
        invariant forall i, j :: 0 <= i < j < |order| ==> order[i] != order[j]
        decreases |left|
      {
        var k :| k in left;
        left, order := left - {k}, order + [k];
      }
    }

    /** Save records changed in place since they were last saved; returns how many were. */
    method FlushAll(now: int) returns (count: nat, order: seq<Id>)
      modifies this`saved, this`table
      ensures Lists(order, old(mem)) && Value() == SavedSeq(config, old(Value()), order, now)
      ensures count == CountDirty(config, old(Value()), order)
    {
      order := Keys();
      count := 0;
      var i := 0;
      assert order[0..] == order;
      while i < |order|
        invariant 0 <= i <= |order|
        invariant SavedSeq(config, Value(), order[i..], now) == SavedSeq(config, old(Value()), order, now)
        invariant count + CountDirty(config, Value(), order[i..]) == CountDirty(config, old(Value()), order)
      {
        ghost var s := Value();
        var key := order[i];
        assert order[i..][0] == key && order[i..][1..] == order[i + 1..];
        assert forall j :: i + 1 <= j < |order| ==> order[j] != key;
        CleanElsewhere(config, s, key, order[i + 1..], now);
        var before := SavedOf(Value(), key);
        SaveKey(key, false, now);
        if SavedOf(Value(), key) != before {
          count := count + 1;
        }
        i := i + 1;
      }
    }

    /** One row read at startup: memory and cache filled, a running record marked interrupted. */
    method ReadOne(k: Id, data: Data, now: int) returns (running: bool)
      modifies this`mem, this`saved, this`table
      ensures Value() == ReadRow(config, old(Value()), k, data, now)
      ensures running == IsActive(config, data.value)
    {
      var value := data.value;
      saved := saved[k := Digest(data)];
      running := IsActive(config, value);
      value := Interrupt(config, value, now);
      var pending := AwaitsDetection(value);
      mem := mem[k := CutOffDetection(value)];
      if pending {
        SaveKey(k, false, now);
      }
    }

    method ReadRows(rows: map<Id, Row>, order: seq<Id>, now: int) returns (interrupted: seq<Id>)
      requires forall k :: k in order ==> k in rows
      modifies this`mem, this`saved, this`table
      ensures Value() == ReadAll(config, old(Value()), order, rows, now)
      ensures interrupted == ActiveIn(config, order, rows)
    {
      interrupted := [];
      var i := 0;
      assert order[0..] == order;
      while i < |order|
        invariant 0 <= i <= |order|
        invariant ReadAll(config, Value(), order[i..], rows, now) == ReadAll(config, old(Value()), order, rows, now)
        invariant interrupted + ActiveIn(config, order[i..], rows) == ActiveIn(config, order, rows)
      {
        var k := order[i];
        assert order[i..][0] == k && order[i..][1..] == order[i + 1..];
        var running := ReadOne(k, rows[k].data, now);
        if running {
          interrupted := interrupted + [k];
        }
        i := i + 1;
      }
      assert order[i..] == [];
    }

    /** At startup: read every row, mark what was running as interrupted, and save what changed. */
    method Load(rows: map<Id, Row>, order: seq<Id>, now: int) returns (interrupted: seq<Id>)
      requires mem == map[] && saved == map[] && Lists(order, rows)
      modifies this
      ensures Value() == Loaded(config, rows, order, now)
      ensures interrupted == ActiveIn(config, order, rows)
    {
      table, attached := rows, true;
      interrupted := ReadRows(rows, order, now);
      SaveThese(interrupted, now);
    }

    method SaveThese(keys: seq<Id>, now: int)
      modifies this`saved, this`table
      ensures Value() == SavedSeq(config, old(Value()), keys, now)
    {
      var i := 0;
      assert keys[0..] == keys;
      while i < |keys|
        invariant 0 <= i <= |keys|
        invariant SavedSeq(config, Value(), keys[i..], now) == SavedSeq(config, old(Value()), keys, now)
      {
        assert keys[i..][0] == keys[i] && keys[i..][1..] == keys[i + 1..];
        SaveKey(keys[i], false, now);
        i := i + 1;
      }
    }

    method Forget(key: Id)
      modifies this
      ensures Value() == Deleted(old(Value()), key)
    {
      mem, saved := mem - {key}, saved - {key};
      if attached {
        table := table - {key};
      }
    }

    /** Forget finished records last written before `before`. */
    method PruneOld(before: int) returns (count: nat)
      modifies this
      ensures Value() == Pruned(config, old(Value()), before)
      ensures count == |Prunable(config, old(Value()), before)|
    {
      ghost var start := Value();
      var ids := Prunable(config, Value(), before);
      count := |ids|;
      var left := ids;
      ghost var gone: set<Id> := {};
      MinusNothing(start);
      while left != {}
        invariant left + gone == ids && Value() == Minus(start, gone)
        decreases |left|
      {
        var key :| key in left;
        MinusStep(start, gone, key);
        Forget(key);
        left, gone := left - {key}, gone + {key};
      }
      assert gone == ids;
    }

    method Put(key: Id, v: Json, now: int)
      modifies this
      ensures Value() == Step(config, old(Value()), SetItem(key, v), now)
    {
      mem := mem[key := v];
      SaveKey(key, false, now);
    }

    /** `del store[key]`: false stands for KeyError. */
    method Delete(key: Id) returns (found: bool)
      modifies this
      ensures found <==> key in old(mem)
      ensures Value() == Step(config, old(Value()), Remove(key), 0)
    {
      found := key in mem;
      if found {
        Forget(key);
      }
    }

    /** `pop`: the record, or the default; None for KeyError. */
    method Pop(key: Id, default: Option<Json>) returns (r: Option<Json>)
      modifies this
      ensures r == if key in old(mem) then Some(old(mem)[key]) else default
      ensures Value() == Step(config, old(Value()), Remove(key), 0)
    {
      if key !in mem {
        return default;
      }
      r := Some(mem[key]);
      Forget(key);
    }

    method SetDefault(key: Id, v: Json, now: int) returns (r: Json)
      modifies this
      ensures r == if key in old(mem) then old(mem)[key] else v
      ensures Value() == if key in old(mem) then old(Value()) else Step(config, old(Value()), SetItem(key, v), now)
    {
      if key !in mem {
        Put(key, v, now);
      }
      r := mem[key];
    }
  }
}
