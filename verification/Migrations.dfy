/** Stepping a database over schema versions, one transaction per migration. The schema and its
    contents are any type; a migration may raise halfway, leaving changes to be rolled back. */
module Migrations {
  import opened Prelude

  datatype Outcome<S> = Applied(schema: S) | Raised(partial: S)

  /** Migration number `i + 1` is element `i` of a list; some have no `down`. */
  datatype Migration<!S> = Migration(up: S -> Outcome<S>, down: Option<S -> Outcome<S>>)

  /** A row of schema_history. */
  datatype Entry = Up(version: nat) | Down(version: nat)

  datatype State<S> = State(schema: S, version: nat, history: seq<Entry>)

  datatype Reply =
    | Stepped(versions: seq<nat>)   // the migrations applied or undone, in order
    | TooNew
    | NothingToUndo
    | OutOfRange
    | CannotUndo                    // some step has no `down`
    | RolledBack(version: nat)      // that step raised

  const KEEP_BACKUPS := 10

  function Trimmed<T>(backups: seq<T>): seq<T> {
    if |backups| > KEEP_BACKUPS then backups[|backups| - KEEP_BACKUPS..] else backups
  }

  /** The newest ten stay, in order. */
  lemma NewestTenStay<T>(backups: seq<T>)
    ensures var kept := Trimmed(backups);
            && |kept| == Min(10, |backups|)
            && forall i :: 0 <= i < |kept| ==> kept[i] == backups[|backups| - |kept| + i]
  {
  }

  // --- the steps as functions ---

  function UpStep<S>(migrations: seq<Migration<S>>, s: State<S>, v: nat): Option<State<S>>
    requires 1 <= v <= |migrations|
  {
    var outcome := migrations[v - 1].up(s.schema);
    if outcome.Applied? then Some(State(outcome.schema, v, s.history + [Up(v)])) else None
  }

  predicate HasDown<S>(migrations: seq<Migration<S>>, v: nat) {
    1 <= v <= |migrations| && migrations[v - 1].down.Some?
  }

  function DownStep<S>(migrations: seq<Migration<S>>, s: State<S>, v: nat): Option<State<S>>
    requires HasDown(migrations, v)
  {
    var outcome := migrations[v - 1].down.value(s.schema);
    if outcome.Applied? then Some(State(outcome.schema, v - 1, s.history + [Down(v)])) else None
  }

  /** Steps `from + 1` up to `to`, each its own transaction: None if one raises. */
  function Climb<S>(migrations: seq<Migration<S>>, s: State<S>, from: nat, end: nat): Option<State<S>>
    requires from <= end <= |migrations|
    decreases end
  {
    if from == end then Some(s)
    else
      var below := Climb(migrations, s, from, end - 1);
      if below.None? then None else UpStep(migrations, below.value, end)
  }

  predicate AllDown<S>(migrations: seq<Migration<S>>, from: nat, end: nat) {
    forall v :: end < v <= from ==> HasDown(migrations, v)
  }

  /** Steps `from` down to `to + 1`. */
  function Descend<S>(migrations: seq<Migration<S>>, s: State<S>, from: nat, end: nat): Option<State<S>>
    requires end <= from && AllDown(migrations, from, end)
    decreases from - end
  {
    if from == end then Some(s)
    else
      var above := Descend(migrations, s, from, end + 1);
      if above.None? then None else DownStep(migrations, above.value, end + 1)
  }

  lemma ClimbNext<S>(migrations: seq<Migration<S>>, s: State<S>, t: State<S>, from: nat, v: nat)
    requires from <= v < |migrations| && Climb(migrations, s, from, v) == Some(t)
    ensures Climb(migrations, s, from, v + 1) == UpStep(migrations, t, v + 1)
  {
  }

  lemma DescendNext<S>(migrations: seq<Migration<S>>, s: State<S>, t: State<S>, from: nat, v: nat)
    requires 0 < v <= from && AllDown(migrations, from, v - 1)
    requires Descend(migrations, s, from, v) == Some(t)
    ensures HasDown(migrations, v) && Descend(migrations, s, from, v - 1) == DownStep(migrations, t, v)
  {
  }

  // --- the walk over versions ---

  /** The entries lead from one version to another, each starting where the one before it ended. */
  predicate Walk(history: seq<Entry>, from: nat, end: nat)
    decreases |history|
  {
    if history == [] then from == end
    else
      match history[|history| - 1]
      case Up(v) => v == end && v > 0 && Walk(history[..|history| - 1], from, v - 1)
      case Down(v) => v == end + 1 && Walk(history[..|history| - 1], from, v)
  }

  lemma WalkExtends(history: seq<Entry>, from: nat, end: nat, e: Entry)
    requires Walk(history, from, end)
    ensures e.Up? && e.version == end + 1 ==> Walk(history + [e], from, end + 1)
    ensures e.Down? && e.version == end && end > 0 ==> Walk(history + [e], from, end - 1)
  {
    assert (history + [e])[..|history|] == history;
  }

  lemma {:induction false} ClimbWalks<S>(migrations: seq<Migration<S>>, s: State<S>, from: nat, end: nat)
    requires from <= end <= |migrations| && s.version == from && Walk(s.history, 0, from)
    requires Climb(migrations, s, from, end).Some?
    ensures var t := Climb(migrations, s, from, end).value; t.version == end && Walk(t.history, 0, end)
    decreases end
  {
    if from != end {
      ClimbWalks(migrations, s, from, end - 1);
      WalkExtends(Climb(migrations, s, from, end - 1).value.history, 0, end - 1, Up(end));
    }
  }

  lemma {:induction false} DescendWalks<S>(migrations: seq<Migration<S>>, s: State<S>, from: nat, end: nat)
    requires end <= from && AllDown(migrations, from, end) && s.version == from && Walk(s.history, 0, from)
    requires Descend(migrations, s, from, end).Some?
    ensures var t := Descend(migrations, s, from, end).value; t.version == end && Walk(t.history, 0, end)
    decreases from - end
  {
    if from != end {
      DescendWalks(migrations, s, from, end + 1);
      WalkExtends(Descend(migrations, s, from, end + 1).value.history, 0, end + 1, Down(end + 1));
    }
  }

  /** A walk ends in one place only. */
  lemma {:induction false} WalkEndsOnce(history: seq<Entry>, from: nat, end: nat, other: nat)
    requires Walk(history, from, end) && Walk(history, from, other)
    ensures end == other
    decreases |history|
  {
  }

  // --- up and back ---

  /** The schemas alone: what the ups make of one. */
  function Ups<S>(migrations: seq<Migration<S>>, schema: S, from: nat, end: nat): Option<S>
    requires from <= end <= |migrations|
    decreases end
  {
    if from == end then Some(schema)
    else
      var below := Ups(migrations, schema, from, end - 1);
      if below.None? then None
      else
        var outcome := migrations[end - 1].up(below.value);
        if outcome.Applied? then Some(outcome.schema) else None
  }

  /** A whole migration is the composition of its steps, whatever the history was. */
  lemma {:induction false} ClimbIsComposition<S>(migrations: seq<Migration<S>>, s: State<S>, from: nat, end: nat)
    requires from <= end <= |migrations|
    ensures Climb(migrations, s, from, end).Some? <==> Ups(migrations, s.schema, from, end).Some?
    ensures Climb(migrations, s, from, end).Some? ==>
      Climb(migrations, s, from, end).value.schema == Ups(migrations, s.schema, from, end).value
    decreases end
  {
    if from != end {
      ClimbIsComposition(migrations, s, from, end - 1);
    }
  }

  lemma {:induction false} UpsThrough<S>(migrations: seq<Migration<S>>, schema: S, from: nat, mid: nat, end: nat)
    requires from <= mid <= end <= |migrations|
    ensures Ups(migrations, schema, from, end) ==
            if Ups(migrations, schema, from, mid).None? then None
            else Ups(migrations, Ups(migrations, schema, from, mid).value, mid, end)
    decreases end
  {
    if mid != end {
      UpsThrough(migrations, schema, from, mid, end - 1);
    }
  }

  /** `down` takes back exactly what `up` did. */
  ghost predicate Undoes<S(!new)>(m: Migration<S>) {
    m.down.Some? && forall s :: m.up(s).Applied? ==> m.down.value(m.up(s).schema) == Applied(s)
  }

  ghost predicate UndoesAt<S(!new)>(migrations: seq<Migration<S>>, v: nat) {
    1 <= v <= |migrations| && Undoes(migrations[v - 1])
  }

  ghost predicate AllUndo<S(!new)>(migrations: seq<Migration<S>>, from: nat, end: nat)
    requires from <= |migrations|
  {
    forall v :: end < v <= from ==> UndoesAt(migrations, v)
  }

  /** Going down from a schema that the ups made gives back the schema they started from. */
  lemma {:induction false} DescendUndoesUps<S(!new)>(migrations: seq<Migration<S>>, s: State<S>, base: S,
                                                     from: nat, end: nat)
    requires end <= from <= |migrations| && AllUndo(migrations, from, end)
    requires Ups(migrations, base, end, from) == Some(s.schema)
    ensures AllDown(migrations, from, end)
    ensures Descend(migrations, s, from, end).Some? && Descend(migrations, s, from, end).value.schema == base
    decreases from - end
  {
    if from != end {
      UpsThrough(migrations, base, end, end + 1, from);
      var next := Ups(migrations, base, end, end + 1).value;
      assert migrations[end].up(base) == Applied(next) by {
        assert Ups(migrations, base, end, end) == Some(base);
      }
      DescendUndoesUps(migrations, s, next, from, end + 1);
      assert UndoesAt(migrations, end + 1);
    }
  }

  /** If each `down` undoes its `up`, a downgrade followed by a migration to the latest version gives
      exactly the schema a migration alone would have given: at the latest version, the one there was. */
  lemma DowngradeThenMigrateRestores<S(!new)>(migrations: seq<Migration<S>>, s: State<S>, base: S, target: nat)
    requires 1 <= target < s.version <= |migrations| && AllUndo(migrations, s.version, target)
    requires Ups(migrations, base, target, s.version) == Some(s.schema)
    ensures AllDown(migrations, s.version, target) && Descend(migrations, s, s.version, target).Some?
    ensures var down := Descend(migrations, s, s.version, target).value;
            var again := Climb(migrations, down, target, |migrations|);
            && (again.Some? <==> Ups(migrations, s.schema, s.version, |migrations|).Some?)
            && (again.Some? ==> again.value.schema == Ups(migrations, s.schema, s.version, |migrations|).value)
            && (s.version == |migrations| ==> again.Some? && again.value.schema == s.schema)
  {
    DescendUndoesUps(migrations, s, base, s.version, target);
    var down := Descend(migrations, s, s.version, target).value;
    ClimbIsComposition(migrations, down, target, |migrations|);
    UpsThrough(migrations, base, target, s.version, |migrations|);
  }

  // --- what the two commands do ---

  function Count(from: nat, end: nat): seq<nat>
    requires from <= end
  {
    seq(end - from, i requires 0 <= i < end - from => from + 1 + i)
  }

  function CountDown(from: nat, end: nat): seq<nat>
    requires end <= from
  {
    seq(from - end, i requires 0 <= i < from - end => from - i)
  }

  /** What a migration replies and leaves: refused, all steps done, or everything up to the step before
      the one that raised. */
  ghost predicate Migrated<S>(migrations: seq<Migration<S>>, s: State<S>, reply: Reply, t: State<S>) {
    if s.version > |migrations| then reply == TooNew && t == s
    else
      match reply
      case Stepped(versions) =>
        versions == Count(s.version, |migrations|) && Climb(migrations, s, s.version, |migrations|) == Some(t)
      case RolledBack(v) =>
        && s.version < v <= |migrations|
        && Climb(migrations, s, s.version, v - 1) == Some(t) && UpStep(migrations, t, v).None?
      case _ => false
  }

  /** The first version a downgrade undoes: the database's own, or the last this program knows. */
  function Top<S>(migrations: seq<Migration<S>>, s: State<S>): nat {
    Min(s.version, |migrations|)
  }

  ghost predicate Downgraded<S>(migrations: seq<Migration<S>>, s: State<S>, target: int, reply: Reply, t: State<S>) {
    if s.version <= 1 then reply == NothingToUndo && t == s
    else if !(1 <= target < s.version) then reply == OutOfRange && t == s
    else if !AllDown(migrations, Top(migrations, s), target) then reply == CannotUndo && t == s
    else
      match reply
      case Stepped(versions) =>
        if target < Top(migrations, s)
        then
          && versions == CountDown(Top(migrations, s), target)
          && Descend(migrations, s, Top(migrations, s), target) == Some(t)
        else versions == [] && t == s
      case RolledBack(v) =>
        && target < v <= Top(migrations, s)
        && Descend(migrations, s, Top(migrations, s), v) == Some(t) && DownStep(migrations, t, v).None?
      case _ => false
  }

  /** The version always equals the end of the walk the history records, and a migration that fails
      stops one short of the step it names. */
  lemma MigrateKeepsTheWalk<S>(migrations: seq<Migration<S>>, s: State<S>, reply: Reply, t: State<S>)
    requires Walk(s.history, 0, s.version) && Migrated(migrations, s, reply, t)
    ensures Walk(t.history, 0, t.version)
    ensures reply.Stepped? ==> t.version == |migrations|
    ensures reply.RolledBack? ==> t.version == reply.version - 1
  {
    if s.version <= |migrations| {
      ClimbWalks(migrations, s, s.version, if reply.RolledBack? then reply.version - 1 else |migrations|);
    }
  }

  /** Steps down recorded on top of a history make a walk only if the history ended where they start. */
  lemma {:induction false} DescentStartsAtTheEnd<S>(migrations: seq<Migration<S>>, s: State<S>, from: nat, end: nat)
    requires end < from && AllDown(migrations, from, end) && Descend(migrations, s, from, end).Some?
    ensures var t := Descend(migrations, s, from, end).value;
            t.version == end && (Walk(t.history, 0, end) ==> Walk(s.history, 0, from))
    decreases from - end
  {
    if end + 1 != from {
      DescentStartsAtTheEnd(migrations, s, from, end + 1);
    }
    var above := Descend(migrations, s, from, end + 1).value;
    assert (above.history + [Down(end + 1)])[..|above.history|] == above.history;
  }

  /** A downgrade ends at the version asked for, and keeps the history a walk, exactly when this program
      knew the database's version, or else had a step to make below it (or none, for the walk): unlike a
      migration, it does not refuse a database that is too new. */
  lemma DowngradeOutcome<S>(migrations: seq<Migration<S>>, s: State<S>, target: int, reply: Reply, t: State<S>)
    requires Walk(s.history, 0, s.version) && Downgraded(migrations, s, target, reply, t)
    ensures reply.Stepped? ==> (t.version == target <==> s.version <= |migrations| || target < |migrations|)
    ensures reply.Stepped? ==> (Walk(t.history, 0, t.version) <==> s.version <= |migrations| || target >= |migrations|)
    ensures reply.RolledBack? ==>
      (Walk(t.history, 0, t.version) <==> s.version <= |migrations| || reply.version == |migrations|)
    ensures !reply.Stepped? && !reply.RolledBack? ==> t == s
  {
    if t != s {
      var top := Top(migrations, s);
      var end := if reply.RolledBack? then reply.version else target;
      if s.version <= |migrations| {
        DescendWalks(migrations, s, top, end);
      } else if end < top {
        DescentStartsAtTheEnd(migrations, s, top, end);
        if Walk(s.history, 0, top) {
          WalkEndsOnce(s.history, 0, top, s.version);
        }
      }
    }
  }

  // --- every run ---

  /** A command, given to a program that knows these migrations; programs of several releases may take turns. */
  datatype Command<!S> = Migrating(known: seq<Migration<S>>) | Downgrading(known: seq<Migration<S>>, target: int)

  ghost predicate Does<S>(c: Command<S>, s: State<S>, reply: Reply, t: State<S>) {
    match c
    case Migrating(known) => Migrated(known, s, reply, t)
    case Downgrading(known, target) => Downgraded(known, s, target, reply, t)
  }

  /** Not a downgrade by a program that is older than the database and has steps to undo. */
  predicate InOrder<S>(c: Command<S>, s: State<S>) {
    c.Downgrading? ==> s.version <= |c.known| || c.target >= |c.known|
  }

  /** `states[i]` is the database before command `i`, the last one that after all of them. */
  ghost predicate Runs<S>(commands: seq<Command<S>>, replies: seq<Reply>, states: seq<State<S>>) {
    && |commands| == |replies| == |states| - 1
    && forall i :: 0 <= i < |commands| ==> Does(commands[i], states[i], replies[i], states[i + 1])
  }

  lemma CommandKeepsTheWalk<S>(c: Command<S>, s: State<S>, reply: Reply, t: State<S>)
    requires Walk(s.history, 0, s.version) && Does(c, s, reply, t) && InOrder(c, s)
    ensures Walk(t.history, 0, t.version)
  {
    match c
    case Migrating(known) => MigrateKeepsTheWalk(known, s, reply, t);
    case Downgrading(known, target) => DowngradeOutcome(known, s, target, reply, t);
  }

  /** What is refused, and why: a migration of a database that is too new; a downgrade at the first version, to a
      version that is not an earlier one, or through a known step that cannot be undone. */
  lemma RefusesExactly<S>(c: Command<S>, s: State<S>, reply: Reply, t: State<S>)
    requires Does(c, s, reply, t)
    ensures reply.TooNew? <==> c.Migrating? && s.version > |c.known|
    ensures reply.NothingToUndo? <==> c.Downgrading? && s.version <= 1
    ensures reply.OutOfRange? <==> c.Downgrading? && s.version > 1 && !(1 <= c.target < s.version)
    ensures reply.CannotUndo? <==>
      && c.Downgrading? && 1 <= c.target < s.version
      && exists i :: c.target <= i < s.version && i < |c.known| && c.known[i].down.None?
  {
    if c.Downgrading? && 1 <= c.target < s.version {
      var top := Top(c.known, s);
      if AllDown(c.known, top, c.target) {
        forall i | c.target <= i < s.version && i < |c.known|
          ensures c.known[i].down.Some?
        {
          assert HasDown(c.known, i + 1);
        }
      } else {
        var v :| c.target < v <= top && !HasDown(c.known, v);
        assert c.known[v - 1].down.None?;
      }
    }
  }

  function Recorded(versions: seq<nat>, up: bool): seq<Entry> {
    seq(|versions|, i requires 0 <= i < |versions| => if up then Up(versions[i]) else Down(versions[i]))
  }

  lemma {:induction false} ClimbRecords<S>(migrations: seq<Migration<S>>, s: State<S>, from: nat, end: nat)
    requires from <= end <= |migrations| && Climb(migrations, s, from, end).Some?
    ensures Climb(migrations, s, from, end).value.history == s.history + Recorded(Count(from, end), true)
    decreases end
  {
    if from == end {
      assert Recorded(Count(from, end), true) == [];
    } else {
      ClimbRecords(migrations, s, from, end - 1);
      assert Recorded(Count(from, end), true) == Recorded(Count(from, end - 1), true) + [Up(end)];
    }
  }

  lemma {:induction false} DescendRecords<S>(migrations: seq<Migration<S>>, s: State<S>, from: nat, end: nat)
    requires end <= from && AllDown(migrations, from, end) && Descend(migrations, s, from, end).Some?
    ensures Descend(migrations, s, from, end).value.history == s.history + Recorded(CountDown(from, end), false)
    decreases from - end
  {
    if from == end {
      assert Recorded(CountDown(from, end), false) == [];
    } else {
      DescendRecords(migrations, s, from, end + 1);
      assert Recorded(CountDown(from, end), false) == Recorded(CountDown(from, end + 1), false) + [Down(end + 1)];
    }
  }

  /** The versions a command reports are exactly those it adds to the history, in order; a refusal adds none. */
  lemma ReportsWhatItRecords<S>(c: Command<S>, s: State<S>, reply: Reply, t: State<S>)
    requires Does(c, s, reply, t)
    ensures reply.Stepped? ==> t.history == s.history + Recorded(reply.versions, c.Migrating?)
    ensures !reply.Stepped? && !reply.RolledBack? ==> t == s
  {
    match c
    case Migrating(known) =>
      if reply.Stepped? {
        ClimbRecords(known, s, s.version, |known|);
      }
    case Downgrading(known, target) =>
      if reply.Stepped? {
        if target < Top(known, s) {
          DescendRecords(known, s, Top(known, s), target);
        } else {
          assert Recorded([], false) == [];
        }
      }
  }

  /** Through any run of migrations and downgrades, successful, refused or failed, by programs of any release,
      the version is the end of the walk the history records, as long as no program undoes steps of a
      database that is too new for it. */
  lemma {:induction false} EveryRunWalks<S>(commands: seq<Command<S>>, replies: seq<Reply>, states: seq<State<S>>,
                                            i: nat)
    requires Runs(commands, replies, states) && Walk(states[0].history, 0, states[0].version)
    requires forall k :: 0 <= k < |commands| ==> InOrder(commands[k], states[k])
    requires i < |states|
    ensures Walk(states[i].history, 0, states[i].version)
    decreases i
  {
    if i > 0 {
      EveryRunWalks(commands, replies, states, i - 1);
      CommandKeepsTheWalk(commands[i - 1], states[i - 1], replies[i - 1], states[i]);
    }
  }

  /** A database one version ahead is left where it is by a downgrade that reports success. */
  lemma TooNewIsNotLowered<S>(up: S -> Outcome<S>, schema: S)
    ensures var s := State(schema, 2, [Up(1), Up(2)]);
            Walk(s.history, 0, 2) && Downgraded([Migration(up, None)], s, 1, Stepped([]), s)
  {
    assert [Up(1), Up(2)][..1] == [Up(1)];
    WalkExtends([Up(1)], 0, 1, Up(2)) by {
      assert [Up(1)][..0] == [];
    }
  }

  class Database<S(!new)> {
    var schema: S
    var version: nat
    var history: seq<Entry>
    var backups: seq<State<S>>   // oldest first

    function Value(): State<S>
      reads this
    {
      State(schema, version, history)
    }

    constructor (schema: S)
      ensures Value() == State(schema, 0, []) && backups == []
      ensures Walk(history, 0, version)
    {
      this.schema, version, history, backups := schema, 0, [], [];
    }

    method Backup()
      modifies this`backups
      ensures backups == Trimmed(old(backups) + [Value()])
    {
      backups := backups + [State(schema, version, history)];
      if |backups| > KEEP_BACKUPS {
        backups := backups[|backups| - KEEP_BACKUPS..];
      }
    }

    /** One transaction: the migration, its history row and the new version, or nothing. */
    method Apply(outcome: Outcome<S>, entry: Entry, next: nat) returns (ok: bool)
      modifies this`schema, this`version, this`history
      ensures ok <==> outcome.Applied?
      ensures Value() == if ok then State(outcome.schema, next, old(history) + [entry]) else old(Value())
    {
      var begin := State(schema, version, history);
      match outcome {
        case Raised(partial) =>
          schema := partial;
          schema, version, history := begin.schema, begin.version, begin.history;
          ok := false;
        case Applied(changed) =>
          schema := changed;
          history := history + [entry];
          version := next;
          ok := true;
      }
    }

    /** The pending migrations, one transaction each. */
    method ApplyPending(migrations: seq<Migration<S>>) returns (reply: Reply)
      requires version <= |migrations|
      modifies this`schema, this`version, this`history
      ensures Migrated(migrations, old(Value()), reply, Value())
    {
      ghost var start := Value();
      var first := version;
      var v := version;
      while v < |migrations|
        invariant first == start.version <= v <= |migrations|
        invariant Climb(migrations, start, start.version, v) == Some(Value())
      {
        ClimbNext(migrations, start, Value(), start.version, v);
        var ok := Apply(migrations[v].up(schema), Up(v + 1), v + 1);
        if !ok {
          return RolledBack(v + 1);
        }
        v := v + 1;
      }
      reply := Stepped(Count(first, |migrations|));
    }

    /** Bring the database up to the latest version. */
    method Migrate(migrations: seq<Migration<S>>, makeBackup: bool, hasTables: bool) returns (reply: Reply)
      modifies this
      ensures Migrated(migrations, old(Value()), reply, Value())
      ensures backups == if old(version) < |migrations| && makeBackup && hasTables
                         then Trimmed(old(backups) + [old(Value())]) else old(backups)
    {
      if version > |migrations| {
        return TooNew;
      }
      if version == |migrations| {
        return Stepped([]);
      }
      if makeBackup && hasTables {
        Backup();
      }
      reply := ApplyPending(migrations);
    }

    /** Undo steps `top` down to `bottom + 1`, stopping at the first that raises. */
    method UndoSteps(migrations: seq<Migration<S>>, top: nat, bottom: nat) returns (reply: Reply)
      requires bottom <= top <= |migrations| && AllDown(migrations, top, bottom)
      modifies this`schema, this`version, this`history
      ensures match reply
              case Stepped(versions) =>
                && versions == CountDown(top, bottom)
                && Descend(migrations, old(Value()), top, bottom) == Some(Value())
              case RolledBack(v) =>
                && bottom < v <= top
                && Descend(migrations, old(Value()), top, v) == Some(Value()) && DownStep(migrations, Value(), v).None?
              case _ => false
    {
      ghost var start := Value();
      var v := top;
      var undone: seq<nat> := [];
      while v > bottom
        invariant bottom <= v <= top && undone == CountDown(top, v)
        invariant Descend(migrations, start, top, v) == Some(Value())
      {
        assert HasDown(migrations, v);
        DescendNext(migrations, start, Value(), top, v);
        var ok := Apply(migrations[v - 1].down.value(schema), Down(v), v - 1);
        if !ok {
          return RolledBack(v);
        }
        undone := undone + [v];
        v := v - 1;
      }
      reply := Stepped(undone);
    }

    /** Undo migrations down to `target`, backing up first. */
    method Downgrade(migrations: seq<Migration<S>>, target: int) returns (reply: Reply)
      modifies this
      ensures Downgraded(migrations, old(Value()), target, reply, Value())
      ensures backups == if reply.Stepped? || reply.RolledBack?
                         then Trimmed(old(backups) + [old(Value())]) else old(backups)
    {
      if version <= 1 {
        return NothingToUndo;
      }
      if !(1 <= target < version) {
        return OutOfRange;
      }
      var top := Min(version, |migrations|);
      if !AllDown(migrations, top, target) {
        return CannotUndo;
      }
      Backup();
      reply := UndoSteps(migrations, top, Min(target, top));
    }
  }
}
