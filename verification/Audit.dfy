/** The hash-chained audit log: append, prune to an anchor, verify. */
module Audit {
  import opened Prelude

  /** What an entry says, as it goes into the hash. */
  datatype Content = Content(ts: int, action: string, status: string, user: Option<string>, token: Option<string>,
                             ip: Option<string>, requestId: Option<string>, details: string)

  /** A hash text. `Link` is the digest of the JSON list [previous hash, id, content]: two digests
      are equal only when all of it is. `Text` is any other text a hash column may hold. */
  datatype Digest = Genesis | Link(prev: Digest, id: int, content: Content) | Text(raw: string)

  function EntryHash(prev: Digest, id: int, content: Content): Digest {
    Link(prev, id, content)
  }

  datatype Row = Row(id: int, content: Content, prevHash: Digest, hash: Digest)

  /** The audit table in id order and the anchor kept in the meta table. */
  datatype Log = Log(anchorId: int, anchorHash: Digest, rows: seq<Row>)

  const EMPTY := Log(0, Genesis, [])

  /** The primary key: no two rows share an id. */
  predicate Keyed(rows: seq<Row>) {
    forall i, j :: 0 <= i < j < |rows| ==> rows[i].id < rows[j].id
  }

  function HeadId(log: Log): int {
    if log.rows == [] then log.anchorId else log.rows[|log.rows| - 1].id
  }

  function HeadHash(log: Log): Digest {
    if log.rows == [] then log.anchorHash else log.rows[|log.rows| - 1].hash
  }

  /** Row `i` follows on from what is before it. */
  predicate Linked(log: Log, i: nat)
    requires i < |log.rows|
  {
    var row, prev := log.rows[i], if i == 0 then log.anchorHash else log.rows[i - 1].hash;
    row.id == log.anchorId + 1 + i && row.prevHash == prev && row.hash == EntryHash(prev, row.id, row.content)
  }

  /** The property the log promises: contiguous ids from the anchor, every entry bound to the one before. */
  predicate Intact(log: Log) {
    forall i :: 0 <= i < |log.rows| ==> Linked(log, i)
  }

  // --- operations on values ---

  function NextRow(id: int, prev: Digest, content: Content): Row {
    Row(id, content, prev, EntryHash(prev, id, content))
  }

  function Appended(log: Log, content: Content): Log {
    log.(rows := log.rows + [NextRow(HeadId(log) + 1, HeadHash(log), content)])
  }

  /** One past the position of the newest entry older than `before`; 0 when there is none. */
  function Cut(rows: seq<Row>, before: int): (n: nat)
    ensures n <= |rows|
    ensures n > 0 ==> rows[n - 1].content.ts < before
    ensures forall i :: n <= i < |rows| ==> rows[i].content.ts >= before
  {
    if rows == [] then 0
    else if rows[|rows| - 1].content.ts < before then |rows|
    else Cut(rows[..|rows| - 1], before)
  }

  function Pruned(log: Log, before: int): Log {
    var n := Cut(log.rows, before);
    if n == 0 then log else Log(log.rows[n - 1].id, log.rows[n - 1].hash, log.rows[n..])
  }

  // --- what verification finds ---

  datatype Problem = Missing(expected: int, found: int) | BrokenLink(id: int) | Changed(id: int)

  datatype Report = Report(problem: Option<Problem>, checked: nat, anchorId: int,
                           lastId: Option<int>, headHash: Option<Digest>)

  /** The trail as an object over the tables. */
  class Trail {
    var rows: seq<Row>
    var anchorId: int
    var anchorHash: Digest

    function Value(): Log
      reads this
    {
      Log(anchorId, anchorHash, rows)
    }

    constructor (log: Log)
      ensures Value() == log
    {
      rows, anchorId, anchorHash := log.rows, log.anchorId, log.anchorHash;
    }

    method Append(content: Content) returns (id: int, digest: Digest)
      modifies this
      ensures Value() == Appended(old(Value()), content)
      ensures id == HeadId(Value()) && digest == HeadHash(Value())
    {
      var prevId, prevHash := anchorId, anchorHash;
      if rows != [] {
        prevId, prevHash := rows[|rows| - 1].id, rows[|rows| - 1].hash;
      }
      id := prevId + 1;
      digest := EntryHash(prevHash, id, content);
      rows := rows + [Row(id, content, prevHash, digest)];
    }

    method Prune(before: int, dryRun: bool) returns (count: nat)
      modifies this
      ensures count == Cut(old(rows), before)
      ensures Value() == if dryRun then old(Value()) else Pruned(old(Value()), before)
    {
      var n := Cut(rows, before);
      if n == 0 || dryRun {
        return n;
      }
      anchorId, anchorHash := rows[n - 1].id, rows[n - 1].hash;
      rows := rows[n..];
      return n;
    }

    /** ok is exactly `Intact`; otherwise the first entry that does not follow is named, with what
        is wrong with it. */
    method Verify() returns (report: Report)
      ensures report.problem.None? <==> Intact(Value())
      ensures report.anchorId == anchorId && report.checked <= |rows|
      ensures forall i :: 0 <= i < report.checked ==> Linked(Value(), i)
      ensures report.problem.None? ==>
        report.checked == |rows| && report.lastId == Some(HeadId(Value())) && report.headHash == Some(HeadHash(Value()))
      ensures report.problem.Some? ==>
        && report.lastId.None? && report.headHash.None?
        && report.checked < |rows| && !Linked(Value(), report.checked)
        && var row, expected := rows[report.checked], anchorId + 1 + report.checked;
           match report.problem.value
           case Missing(e, f) => e == expected && f == row.id != expected
           case BrokenLink(id) => id == row.id == expected &&
             row.prevHash != HeadHash(Log(anchorId, anchorHash, rows[..report.checked]))
           case Changed(id) => id == row.id == expected && row.hash != EntryHash(row.prevHash, id, row.content)
    {
      var expectedId, prevHash := anchorId, anchorHash;
      var checked := 0;
      var problem: Option<Problem> := None;
      while checked < |rows| && problem.None?
        invariant checked <= |rows|
        invariant forall i :: 0 <= i < checked ==> Linked(Value(), i)
        invariant prevHash == if checked == 0 then anchorHash else rows[checked - 1].hash
        invariant expectedId == anchorId + checked + (if problem.Some? then 1 else 0)
        invariant problem.Some? ==> checked < |rows| && !Linked(Value(), checked)
        invariant problem.Some? ==> var row := rows[checked];
          match problem.value
          case Missing(e, f) => e == expectedId && f == row.id != expectedId
          case BrokenLink(id) => id == row.id == expectedId && row.prevHash != prevHash
          case Changed(id) => id == row.id == expectedId && row.hash != EntryHash(row.prevHash, id, row.content)
        decreases |rows| - checked, problem.None?
      {
        var row := rows[checked];
        expectedId := expectedId + 1;
        if row.id != expectedId {
          problem := Some(Missing(expectedId, row.id));
        } else if row.prevHash != prevHash {
          problem := Some(BrokenLink(row.id));
        } else if EntryHash(prevHash, row.id, row.content) != row.hash {
          problem := Some(Changed(row.id));
        } else {
          prevHash := row.hash;
          checked := checked + 1;
        }
      }
      if problem.Some? {
        return Report(problem, checked, anchorId, None, None);
      }
      assert rows != [] ==> Linked(Value(), |rows| - 1);
      return Report(None, checked, anchorId, Some(expectedId), Some(prevHash));
    }
  }

  // --- tamper evidence ---

  /** Two intact logs, pruned anywhere, that agree on the hash at one id agree on every entry they
      share up to it; where one was pruned further, its anchor is the other's hash there. */
  lemma {:induction false} SameHashSamePast(a: Log, b: Log, i: nat, j: nat)
    requires Intact(a) && Intact(b)
    requires i < |a.rows| && j < |b.rows| && a.rows[i].hash == b.rows[j].hash
    ensures a.anchorId + i == b.anchorId + j
    ensures i <= j ==> a.rows[..i + 1] == b.rows[j - i..j + 1]
    ensures i < j ==> a.anchorHash == b.rows[j - i - 1].hash
    ensures i == j ==> a.anchorHash == b.anchorHash
    ensures i > j ==> b.rows[..j + 1] == a.rows[i - j..i + 1] && b.anchorHash == a.rows[i - j - 1].hash
    decreases i
  {
    assert Linked(a, i) && Linked(b, j);
    assert a.rows[i] == b.rows[j];
    if i > 0 && j > 0 {
      SameHashSamePast(a, b, i - 1, j - 1);
      assert a.rows[..i + 1] == a.rows[..i] + [a.rows[i]];
      assert b.rows[..j + 1] == b.rows[..j] + [b.rows[j]];
      if i <= j {
        assert b.rows[j - i..j + 1] == b.rows[j - i..j] + [b.rows[j]];
      } else {
        assert a.rows[i - j..i + 1] == a.rows[i - j..i] + [a.rows[i]];
      }
    }
  }

  lemma SameHashSameEntry(log: Log, other: Log, i: nat, j: nat)
    requires Intact(log) && Intact(other) && log.anchorId == other.anchorId
    requires i <= j < |log.rows| && j < |other.rows| && log.rows[j].hash == other.rows[j].hash
    ensures log.rows[i] == other.rows[i]
  {
    SameHashSamePast(log, other, j, j);
    assert log.rows[..j + 1][i] == other.rows[..j + 1][i];
  }

  /** Any rewrite of an intact log that still verifies from the same anchor, but differs at position
      `i`, has another hash at every position from there to the head. */
  lemma TamperingChangesEveryLaterHash(log: Log, other: Log, i: nat, j: nat)
    requires Intact(log) && Intact(other)
    requires log.anchorId == other.anchorId && log.anchorHash == other.anchorHash
    requires i <= j < |log.rows| && j < |other.rows| && log.rows[i] != other.rows[i]
    ensures log.rows[j].hash != other.rows[j].hash
  {
    if log.rows[j].hash == other.rows[j].hash {
      SameHashSameEntry(log, other, i, j);
      assert false;
    }
  }

  /** A table that verifies and still ends in the recorded head is the log itself: nothing was
      edited, removed, added or reordered. */
  lemma HeadPinsTheLog(log: Log, other: Log)
    requires Intact(log) && Intact(other)
    requires log.anchorId == other.anchorId && HeadHash(log) == HeadHash(other)
    requires log.rows != [] && other.rows != []
    ensures log == other
  {
    SameHashSamePast(log, other, |log.rows| - 1, |other.rows| - 1);
    assert log.rows == log.rows[..|log.rows|] && other.rows == other.rows[..|other.rows|];
  }

  /** Removing one entry breaks verification unless it is the newest one: the chain by itself does
      not show a truncated end, only the head hash written to the server log does. */
  lemma RemovalDetectedUnlessNewest(log: Log, i: nat)
    requires Intact(log) && i < |log.rows|
    ensures Intact(log.(rows := log.rows[..i] + log.rows[i + 1..])) <==> i == |log.rows| - 1
  {
    var cut := log.(rows := log.rows[..i] + log.rows[i + 1..]);
    if i == |log.rows| - 1 {
      forall k | 0 <= k < |cut.rows|
        ensures Linked(cut, k)
      {
        assert Linked(log, k);
      }
    } else {
      assert cut.rows[i] == log.rows[i + 1];
      assert Linked(log, i + 1);
      assert !Linked(cut, i);
    }
  }

  lemma EditBelowTheHeadBreaks(log: Log, i: nat, row: Row)
    requires Intact(log) && i + 1 < |log.rows| && row != log.rows[i]
    ensures !Intact(log.(rows := log.rows[i := row]))
  {
    var edited := log.(rows := log.rows[i := row]);
    assert Linked(log, i) && Linked(log, i + 1);
    assert !(Linked(edited, i) && Linked(edited, i + 1));
  }

  /** Putting another row in an entry's place verifies only at the end, and only with the row the
      log itself would have written for that content. */
  lemma EditDetected(log: Log, i: nat, row: Row)
    requires Intact(log) && i < |log.rows| && row != log.rows[i]
    ensures Intact(log.(rows := log.rows[i := row])) <==>
            && i == |log.rows| - 1
            && log.(rows := log.rows[i := row]) == Appended(log.(rows := log.rows[..i]), row.content)
  {
    var edited, before := log.(rows := log.rows[i := row]), log.(rows := log.rows[..i]);
    if i + 1 < |log.rows| {
      EditBelowTheHeadBreaks(log, i, row);
    } else {
      assert edited.rows == log.rows[..i] + [row];
      forall k | 0 <= k < i
        ensures Linked(before, k) && Linked(edited, k)
      {
        assert Linked(log, k);
      }
      if i > 0 {
        assert Linked(log, i - 1);
      }
      var proper := Row(HeadId(before) + 1, row.content, HeadHash(before),
                       EntryHash(HeadHash(before), HeadId(before) + 1, row.content));
      assert Linked(edited, i) <==> row == proper;
      assert Appended(before, row.content).rows == log.rows[..i] + [proper];
      assert edited == Appended(before, row.content) <==> row == proper by {
        assert (log.rows[..i] + [proper])[i] == proper && edited.rows[i] == row;
      }
    }
  }

  /** The log's own entries in another order, some left out or repeated, under contiguous ids: what anyone can
      build who changes ids, deletes and copies rows but cannot make new hashes. */
  function Renumbered(log: Log, order: seq<nat>): Log
    requires forall k :: 0 <= k < |order| ==> order[k] < |log.rows|
  {
    log.(rows := seq(|order|, k requires 0 <= k < |order| => log.rows[order[k]].(id := log.anchorId + 1 + k)))
  }

  /** Such a table has proper ids, and verifies if and only if every entry is where it was: the log itself, or
      its beginning. */
  lemma RearrangementDetected(log: Log, order: seq<nat>)
    requires Intact(log) && forall k :: 0 <= k < |order| ==> order[k] < |log.rows|
    ensures Keyed(Renumbered(log, order).rows)
    ensures Intact(Renumbered(log, order)) <==> forall k :: 0 <= k < |order| ==> order[k] == k
  {
    var other := Renumbered(log, order);
    forall k | 0 <= k < |order|
      ensures Linked(other, k) ==> order[k] == k
      ensures (forall j :: 0 <= j < |order| ==> order[j] == j) ==> Linked(other, k)
    {
      assert Linked(log, order[k]);
      if forall j :: 0 <= j < |order| ==> order[j] == j {
        assert order[k] == k && (k > 0 ==> order[k - 1] == k - 1);
      }
    }
  }

  /** Two entries that exchange ids leave a table with the same ids that never verifies. */
  lemma ReorderDetected(log: Log, i: nat, j: nat)
    requires Intact(log) && i < j < |log.rows|
    ensures var a, b := log.rows[i], log.rows[j];
            var exchanged := log.rows[i := b.(id := a.id)][j := a.(id := b.id)];
            Keyed(exchanged) && !Intact(log.(rows := exchanged))
  {
    var order := seq(|log.rows|, k requires 0 <= k < |log.rows| => if k == i then j else if k == j then i else k);
    RearrangementDetected(log, order);
    var a, b := log.rows[i], log.rows[j];
    var exchanged := log.rows[i := b.(id := a.id)][j := a.(id := b.id)];
    forall k | 0 <= k < |log.rows|
      ensures exchanged[k] == Renumbered(log, order).rows[k]
    {
      assert Linked(log, k);
    }
    assert exchanged == Renumbered(log, order).rows;
    assert order[i] != i;
  }

  // --- every run ---

  datatype Op = Append(content: Content) | Prune(before: int) | DryRun(before: int)

  function Step(log: Log, op: Op): Log {
    match op
    case Append(c) => Appended(log, c)
    case Prune(t) => Pruned(log, t)
    case DryRun(_) => log
  }

  function Run(log: Log, ops: seq<Op>): Log
    decreases |ops|
  {
    if ops == [] then log else Run(Step(log, ops[0]), ops[1..])
  }

  /** The run with every prune left out. */
  function Appends(ops: seq<Op>): seq<Op> {
    if ops == [] then []
    else (if ops[0].Append? then [ops[0]] else []) + Appends(ops[1..])
  }

  /** `kept` is what pruning left of `full`. */
  predicate TailOf(kept: Log, full: Log) {
    var n := kept.anchorId - full.anchorId;
    && 0 <= n <= |full.rows|
    && kept.rows == full.rows[n..]
    && kept.anchorHash == if n == 0 then full.anchorHash else full.rows[n - 1].hash
  }

  lemma AppendKeepsIntact(log: Log, content: Content)
    requires Intact(log)
    ensures Intact(Appended(log, content)) && HeadId(Appended(log, content)) == HeadId(log) + 1
  {
    var after := Appended(log, content);
    if log.rows != [] {
      assert Linked(log, |log.rows| - 1);
    }
    forall i | 0 <= i < |after.rows|
      ensures Linked(after, i)
    {
      if i < |log.rows| {
        assert Linked(log, i);
      }
    }
  }

  /** The log from entry `n` on, with entry `n - 1` as the anchor. */
  lemma TailKeepsIntact(log: Log, n: nat)
    requires Intact(log) && 0 < n <= |log.rows|
    ensures var after := Log(log.rows[n - 1].id, log.rows[n - 1].hash, log.rows[n..]);
            && Intact(after) && TailOf(after, log) && after.anchorId == log.anchorId + n
            && HeadId(after) == HeadId(log) && HeadHash(after) == HeadHash(log)
  {
    var after := Log(log.rows[n - 1].id, log.rows[n - 1].hash, log.rows[n..]);
    assert Linked(log, n - 1);
    forall i | 0 <= i < |after.rows|
      ensures Linked(after, i)
    {
      assert Linked(log, n + i);
    }
    if after.rows != [] {
      assert after.rows[|after.rows| - 1] == log.rows[|log.rows| - 1];
    }
  }

  /** Pruning removes exactly the entries up to the newest old one, whatever the order of their
      times; the rest still verifies and the head stays. */
  lemma PruneKeepsIntact(log: Log, before: int)
    requires Intact(log)
    ensures var after := Pruned(log, before);
            && Intact(after)
            && TailOf(after, log)
            && after.anchorId == log.anchorId + Cut(log.rows, before)
            && HeadId(after) == HeadId(log) && HeadHash(after) == HeadHash(log)
            && (forall i :: 0 <= i < |after.rows| ==> after.rows[i].content.ts >= before)
            && (Cut(log.rows, before) > 0 ==> log.rows[Cut(log.rows, before) - 1].content.ts < before)
  {
    if Cut(log.rows, before) > 0 {
      TailKeepsIntact(log, Cut(log.rows, before));
    }
  }

  /** Pruning keeps the head. */
  lemma TailHead(kept: Log, full: Log)
    requires Intact(full) && Intact(kept) && TailOf(kept, full)
    ensures HeadId(kept) == HeadId(full) && HeadHash(kept) == HeadHash(full)
  {
    if kept.rows != [] {
      assert kept.rows[|kept.rows| - 1] == full.rows[|full.rows| - 1];
    } else if full.rows != [] {
      assert Linked(full, |full.rows| - 1);
    }
  }

  lemma TailWithRow(kept: Log, full: Log, row: Row)
    requires TailOf(kept, full)
    ensures TailOf(kept.(rows := kept.rows + [row]), full.(rows := full.rows + [row]))
  {
    var n := kept.anchorId - full.anchorId;
    assert (full.rows + [row])[n..] == full.rows[n..] + [row];
  }

  lemma TailAfterAppend(kept: Log, full: Log, content: Content)
    requires Intact(full) && Intact(kept) && TailOf(kept, full)
    ensures TailOf(Appended(kept, content), Appended(full, content))
  {
    var row := NextRow(HeadId(full) + 1, HeadHash(full), content);
    TailHead(kept, full);
    TailWithRow(kept, full, row);
    assert Appended(kept, content) == kept.(rows := kept.rows + [row]);
  }

  lemma TailAfterPrune(kept: Log, full: Log, before: int)
    requires Intact(kept) && TailOf(kept, full)
    ensures TailOf(Pruned(kept, before), full)
  {
    var n, c := kept.anchorId - full.anchorId, Cut(kept.rows, before);
    if c > 0 {
      assert Linked(kept, c - 1);
      assert Pruned(kept, before) == Log(kept.anchorId + c, kept.rows[c - 1].hash, kept.rows[c..]);
      assert kept.rows[c - 1] == full.rows[n + c - 1];
      assert full.rows[n..][c..] == full.rows[n + c..];
    }
  }

  /** Over any run, pruning is invisible: what is kept is the tail of the log that was never pruned,
      so every entry has the id and hash it would have had, and the head is the same. */
  lemma {:induction false} PruningIsInvisible(kept: Log, full: Log, ops: seq<Op>)
    requires Intact(kept) && Intact(full) && TailOf(kept, full)
    ensures var k, f := Run(kept, ops), Run(full, Appends(ops));
            Intact(k) && Intact(f) && TailOf(k, f) && HeadId(k) == HeadId(f) && HeadHash(k) == HeadHash(f)
    decreases |ops|
  {
    if ops == [] {
      if kept.rows == [] && full.rows != [] {
        assert Linked(full, |full.rows| - 1);
      }
    } else {
      var op := ops[0];
      StepKeepsIntact(kept, op);
      if op.Append? {
        StepKeepsIntact(full, op);
        TailAfterAppend(kept, full, op.content);
        assert Appends(ops) == [op] + Appends(ops[1..]);
        assert ([op] + Appends(ops[1..]))[1..] == Appends(ops[1..]);
        PruningIsInvisible(Step(kept, op), Step(full, op), ops[1..]);
      } else {
        assert Appends(ops) == Appends(ops[1..]);
        if op.Prune? {
          TailAfterPrune(kept, full, op.before);
        }
        PruningIsInvisible(Step(kept, op), full, ops[1..]);
      }
    }
  }

  lemma StepKeepsIntact(log: Log, op: Op)
    requires Intact(log)
    ensures Intact(Step(log, op))
  {
    match op
    case Append(c) => AppendKeepsIntact(log, c);
    case Prune(t) => PruneKeepsIntact(log, t);
    case DryRun(_) =>
  }

  /** Every log the program can reach from the empty one verifies, with ids counted from its anchor. */
  lemma EveryRunVerifies(ops: seq<Op>)
    ensures var log := Run(EMPTY, ops);
            && Intact(log)
            && Keyed(log.rows)
            && HeadId(log) == |Appends(ops)|
            && log.anchorId + |log.rows| == |Appends(ops)|
  {
    PruningIsInvisible(EMPTY, EMPTY, ops);
    var log := Run(EMPTY, ops);
    AppendsOnly(ops);
    AppendsCount(EMPTY, Appends(ops));
    if log.rows != [] {
      assert Linked(log, |log.rows| - 1);
    }
    forall i, j | 0 <= i < j < |log.rows|
      ensures log.rows[i].id < log.rows[j].id
    {
      assert Linked(log, i) && Linked(log, j);
    }
  }

  lemma {:induction false} AppendsOnly(ops: seq<Op>)
    ensures forall op :: op in Appends(ops) ==> op.Append?
  {
    if ops != [] {
      AppendsOnly(ops[1..]);
    }
  }

  lemma {:induction false} AppendsCount(log: Log, ops: seq<Op>)
    requires Intact(log) && forall op :: op in ops ==> op.Append?
    ensures HeadId(Run(log, ops)) == HeadId(log) + |ops|
    decreases |ops|
  {
    if ops != [] {
      AppendKeepsIntact(log, ops[0].content);
      AppendsCount(Step(log, ops[0]), ops[1..]);
    }
  }
}
