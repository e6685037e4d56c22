/** Live progress of deployments: one job record each, with counters that must agree with the
    containers' statuses, and a registry of the jobs that drops old finished ones. */
module Progress {
  import opened Prelude

  const MAX_TRACKED := 20

  /** A deployment's id, or a container's name (never empty). */
  datatype Name = Name(text: string)

  /** What the program shows people: texts from elsewhere, and the ones it writes itself. */
  datatype Text = Blank | Said(text: string) | QueuedText | DeployedText | FailedText(why: Text) | CancelledText
    | InterruptedText | UnknownError | StoppingText

  datatype Level = Info | Good | Bad

  datatype ContainerStatus = Pending | Running | Success | Failed

  datatype Container = Container(status: ContainerStatus, step: Text, error: Option<Text>)

  datatype Line = Line(level: Level, container: Option<Name>, message: Text)

  /** `running` until the deployment has finished with some outcome. */
  datatype Job = Job(running: bool, outcome: Text, total: nat, completed: nat, successful: nat, failed: nat,
                     containers: map<Name, Container>, events: seq<Line>)

  function NewJob(total: nat): Job {
    Job(true, Blank, total, 0, 0, 0, map[], [])
  }

  predicate Final(s: ContainerStatus) {
    s == Success || s == Failed
  }

  /** One activity line. Without a container the line is about the whole job. */
  function Noted(job: Job, message: Text, level: Level, container: Option<Name>, status: Option<ContainerStatus>,
                 error: Text): Job {
    var logged := job.(events := job.events + [Line(level, container, message)]);
    if container.None? then logged
    else
      var c := if container.value in job.containers then job.containers[container.value]
               else Container(Pending, QueuedText, None);
      var updated := Container(if status.Some? then status.value else c.status, message,
                               if error != Blank then Some(error) else c.error);
      var counted := logged.(containers := job.containers[container.value := updated]);
      if status == Some(Success) then counted.(completed := job.completed + 1, successful := job.successful + 1)
      else if status == Some(Failed) then counted.(completed := job.completed + 1, failed := job.failed + 1)
      else counted
  }

  function Concluded(job: Job, outcome: Text, message: Text, level: Level): Job {
    Noted(job, message, level, None, None, Blank).(running := false, outcome := outcome)
  }

  // --- the ledger ---

  function WithStatus(job: Job, s: ContainerStatus): set<Name> {
    set n | n in job.containers && job.containers[n].status == s
  }

  function Settled(job: Job): set<Name> {
    WithStatus(job, Success) + WithStatus(job, Failed)
  }

  /** The counters say what the containers say. */
  predicate Balanced(job: Job) {
    && job.completed == job.successful + job.failed
    && job.successful == |WithStatus(job, Success)|
    && job.failed == |WithStatus(job, Failed)|
  }

  lemma BalancedCompleted(job: Job)
    requires Balanced(job)
    ensures job.completed == |Settled(job)|
  {
    assert WithStatus(job, Success) !! WithStatus(job, Failed);
  }

  lemma SettledAfter(job: Job, message: Text, level: Level, c: Name, status: Option<ContainerStatus>, error: Text)
    requires status.Some?
    ensures var after := Noted(job, message, level, Some(c), status, error);
            forall s ::
              WithStatus(after, s) == if s == status.value then WithStatus(job, s) + {c} else WithStatus(job, s) - {c}
  {
  }

  lemma Sizes(s: set<Name>, c: Name)
    ensures |s + {c}| == |s| + (if c in s then 0 else 1)
    ensures |s - {c}| == |s| - (if c in s then 1 else 0)
  {
    if c in s {
      assert s + {c} == s;
    } else {
      assert s - {c} == s;
    }
  }

  lemma UpdateSettles(job: Job, message: Text, level: Level, c: Name, status: Option<ContainerStatus>, error: Text)
    requires status.Some? && c !in Settled(job)
    ensures Settled(Noted(job, message, level, Some(c), status, error)) ==
            Settled(job) + (if Final(status.value) then {c} else {})
  {
    SettledAfter(job, message, level, c, status, error);
  }

  /** How many containers have status `s` after an update. */
  lemma UpdateCounts(job: Job, message: Text, level: Level, c: Name, status: Option<ContainerStatus>, error: Text,
                     s: ContainerStatus)
    requires status.Some?
    ensures |WithStatus(Noted(job, message, level, Some(c), status, error), s)| ==
            |WithStatus(job, s)| + (if s == status.value then 1 else 0) - (if c in WithStatus(job, s) then 1 else 0)
  {
    SettledAfter(job, message, level, c, status, error);
    Sizes(WithStatus(job, s), c);
  }

  /** A status update keeps the ledger balanced if and only if the container was not settled before. */
  lemma UpdateBalance(job: Job, message: Text, level: Level, c: Name, status: Option<ContainerStatus>, error: Text)
    requires Balanced(job) && status.Some?
    ensures Balanced(Noted(job, message, level, Some(c), status, error)) <==> c !in Settled(job)
  {
    UpdateCounts(job, message, level, c, status, error, Success);
    UpdateCounts(job, message, level, c, status, error, Failed);
  }

  /** A line without a status leaves every status and counter alone. */
  lemma LineKeepsLedger(job: Job, message: Text, level: Level, c: Option<Name>, error: Text)
    ensures var after := Noted(job, message, level, c, None, error);
            && (forall s :: Final(s) ==> WithStatus(after, s) == WithStatus(job, s))
            && (Balanced(job) <==> Balanced(after)) && after.total == job.total
  {
    var after := Noted(job, message, level, c, None, error);
    forall s | Final(s)
      ensures WithStatus(after, s) == WithStatus(job, s)
    {
      forall n
        ensures n in WithStatus(after, s) <==> n in WithStatus(job, s)
      {
      }
    }
  }

  // --- what a job shows ---

  datatype Entry = Entry(message: Text, level: Level, container: Option<Name>, status: Option<ContainerStatus>,
                         error: Text)

  function JobAfter(total: nat, entries: seq<Entry>): Job {
    if entries == [] then NewJob(total)
    else
      var e := entries[|entries| - 1];
      Noted(JobAfter(total, entries[..|entries| - 1]), e.message, e.level, e.container, e.status, e.error)
  }

  /** Entry `k` is the last one about this container. */
  ghost predicate LastAbout(entries: seq<Entry>, n: Name, k: nat) {
    && k < |entries| && entries[k].container == Some(n)
    && forall j :: k < j < |entries| ==> entries[j].container != Some(n)
  }

  /** The last one that gives its status. */
  ghost predicate LastStatus(entries: seq<Entry>, n: Name, k: nat) {
    && k < |entries| && entries[k].container == Some(n) && entries[k].status.Some?
    && forall j :: k < j < |entries| && entries[j].container == Some(n) ==> entries[j].status.None?
  }

  /** The last one that gives an error. */
  ghost predicate LastError(entries: seq<Entry>, n: Name, k: nat) {
    && k < |entries| && entries[k].container == Some(n) && entries[k].error != Blank
    && forall j :: k < j < |entries| && entries[j].container == Some(n) ==> entries[j].error == Blank
  }

  function Given(entries: seq<Entry>, s: ContainerStatus): nat {
    if entries == [] then 0
    else
      var e := entries[|entries| - 1];
      Given(entries[..|entries| - 1], s) + (if e.container.Some? && e.status == Some(s) then 1 else 0)
  }

  lemma {:induction false} JobCountsItsStatuses(total: nat, entries: seq<Entry>)
    ensures var job := JobAfter(total, entries);
            && job.total == total && job.running && job.outcome == Blank
            && job.successful == Given(entries, Success) && job.failed == Given(entries, Failed)
            && job.completed == job.successful + job.failed
  {
    if entries != [] {
      JobCountsItsStatuses(total, entries[..|entries| - 1]);
    }
  }

  /** The job's lines are its entries, and its counters the final statuses given. */
  lemma {:induction false} JobListsItsEntries(total: nat, entries: seq<Entry>)
    ensures var job := JobAfter(total, entries);
            && job.total == total && job.running && job.outcome == Blank
            && |job.events| == |entries|
            && (forall i :: 0 <= i < |entries| ==>
                  job.events[i] == Line(entries[i].level, entries[i].container, entries[i].message))
            && job.successful == Given(entries, Success) && job.failed == Given(entries, Failed)
            && job.completed == job.successful + job.failed
  {
    JobCountsItsStatuses(total, entries);
    if entries != [] {
      var n := |entries| - 1;
      var before := JobAfter(total, entries[..n]);
      JobListsItsEntries(total, entries[..n]);
      assert JobAfter(total, entries).events ==
             before.events + [Line(entries[n].level, entries[n].container, entries[n].message)];
    }
  }

  /** An entry that is not about a container leaves it alone. */
  lemma LaterElsewhere(total: nat, entries: seq<Entry>, n: Name)
    requires entries != [] && entries[|entries| - 1].container != Some(n)
    ensures var before, after := JobAfter(total, entries[..|entries| - 1]), JobAfter(total, entries);
            && (n in after.containers <==> n in before.containers)
            && (n in after.containers ==> after.containers[n] == before.containers[n])
  {
  }

  lemma {:induction false} ShowsTheLastStep(total: nat, entries: seq<Entry>, n: Name, k: nat)
    requires LastAbout(entries, n, k)
    ensures n in JobAfter(total, entries).containers
    ensures JobAfter(total, entries).containers[n].step == entries[k].message
    decreases |entries|
  {
    if k < |entries| - 1 {
      LaterElsewhere(total, entries, n);
      ShowsTheLastStep(total, entries[..|entries| - 1], n, k);
    }
  }

  lemma {:induction false} ShowsTheLastStatus(total: nat, entries: seq<Entry>, n: Name, k: nat)
    requires LastStatus(entries, n, k)
    ensures n in JobAfter(total, entries).containers
    ensures JobAfter(total, entries).containers[n].status == entries[k].status.value
    decreases |entries|
  {
    if k < |entries| - 1 {
      ShowsTheLastStatus(total, entries[..|entries| - 1], n, k);
      if entries[|entries| - 1].container != Some(n) {
        LaterElsewhere(total, entries, n);
      }
    }
  }

  lemma {:induction false} ShowsTheLastError(total: nat, entries: seq<Entry>, n: Name, k: nat)
    requires LastError(entries, n, k)
    ensures n in JobAfter(total, entries).containers
    ensures JobAfter(total, entries).containers[n].error == Some(entries[k].error)
    decreases |entries|
  {
    if k < |entries| - 1 {
      ShowsTheLastError(total, entries[..|entries| - 1], n, k);
      if entries[|entries| - 1].container != Some(n) {
        LaterElsewhere(total, entries, n);
      }
    }
  }

  ghost predicate NoStatus(entries: seq<Entry>, n: Name) {
    forall j :: 0 <= j < |entries| && entries[j].container == Some(n) ==> entries[j].status.None?
  }

  ghost predicate NoError(entries: seq<Entry>, n: Name) {
    forall j :: 0 <= j < |entries| && entries[j].container == Some(n) ==> entries[j].error == Blank
  }

  /** Without any such entry a container is pending, shows no error, and is not there at all. */
  lemma {:induction false} ShowsNothingElse(total: nat, entries: seq<Entry>, n: Name)
    ensures var containers := JobAfter(total, entries).containers;
            && (n in containers ==> exists k :: 0 <= k < |entries| && entries[k].container == Some(n))
            && (n in containers && NoStatus(entries, n) ==> containers[n].status == Pending)
            && (n in containers && NoError(entries, n) ==> containers[n].error == None)
    decreases |entries|
  {
    if entries != [] {
      var before := entries[..|entries| - 1];
      assert forall i :: 0 <= i < |before| ==> before[i] == entries[i];
      ShowsNothingElse(total, before, n);
      if entries[|entries| - 1].container != Some(n) {
        LaterElsewhere(total, entries, n);
      }
    }
  }

  // --- the registry ---

  predicate Distinct(ids: seq<Name>) {
    forall i, j :: 0 <= i < j < |ids| ==> ids[i] != ids[j]
  }

  function FinishedIds(ids: seq<Name>, jobs: map<Name, Job>): seq<Name>
    requires forall k :: k in ids ==> k in jobs
  {
    if ids == [] then []
    else if jobs[ids[0]].running then FinishedIds(ids[1..], jobs)
    else [ids[0]] + FinishedIds(ids[1..], jobs)
  }

  function Without(ids: seq<Name>, gone: set<Name>): seq<Name> {
    if ids == [] then []
    else (if ids[0] in gone then [] else [ids[0]]) + Without(ids[1..], gone)
  }

  lemma {:induction false} FinishedMembers(ids: seq<Name>, jobs: map<Name, Job>)
    requires forall k :: k in ids ==> k in jobs
    ensures forall k :: k in FinishedIds(ids, jobs) <==> k in ids && !jobs[k].running
    ensures Distinct(ids) ==> Distinct(FinishedIds(ids, jobs))
  {
    if ids != [] {
      FinishedMembers(ids[1..], jobs);
      assert forall k :: k in ids <==> k == ids[0] || k in ids[1..];
      assert Distinct(ids) ==> Distinct(ids[1..]) && ids[0] !in ids[1..];
    }
  }

  lemma {:induction false} WithoutMembers(ids: seq<Name>, gone: set<Name>)
    ensures forall k :: k in Without(ids, gone) <==> k in ids && k !in gone
    ensures Distinct(ids) ==> Distinct(Without(ids, gone))
  {
    if ids != [] {
      WithoutMembers(ids[1..], gone);
      assert forall k :: k in ids <==> k == ids[0] || k in ids[1..];
      assert Distinct(ids) ==> Distinct(ids[1..]) && ids[0] !in ids[1..];
    }
  }

  lemma {:induction false} WithoutNone(ids: seq<Name>)
    ensures Without(ids, {}) == ids
  {
    if ids != [] {
      WithoutNone(ids[1..]);
    }
  }

  lemma {:induction false} WithoutTwice(ids: seq<Name>, a: set<Name>, b: set<Name>)
    ensures Without(Without(ids, a), b) == Without(ids, a + b)
  {
    if ids != [] {
      WithoutTwice(ids[1..], a, b);
      var rest := Without(ids[1..], a);
      if ids[0] !in a {
        assert ([ids[0]] + rest)[1..] == rest;
      } else {
        assert [] + rest == rest;
      }
    }
  }

  /** The first `n` ids. */
  function Oldest(finished: seq<Name>, n: nat): set<Name>
    requires n <= |finished|
  {
    if n == 0 then {} else Oldest(finished, n - 1) + {finished[n - 1]}
  }

  lemma {:induction false} OldestMember(finished: seq<Name>, n: nat, i: nat)
    requires n <= |finished| && i < |finished| && Distinct(finished)
    ensures finished[i] in Oldest(finished, n) <==> i < n
  {
    if n > 0 {
      OldestMember(finished, n - 1, i);
      if i < n - 1 {
        assert finished[i] != finished[n - 1];
      } else if i > n - 1 {
        assert finished[n - 1] != finished[i];
      }
    }
  }

  lemma {:induction false} OldestCount(finished: seq<Name>, n: nat)
    requires n <= |finished| && Distinct(finished)
    ensures |Oldest(finished, n)| == n
  {
    if n > 0 {
      OldestCount(finished, n - 1);
      OldestMember(finished, n - 1, n - 1);
    }
  }

  lemma {:induction false} OldestAmong(finished: seq<Name>, n: nat)
    requires n <= |finished|
    ensures forall k :: k in Oldest(finished, n) ==> k in finished
  {
    if n > 0 {
      OldestAmong(finished, n - 1);
    }
  }

  lemma OldestAll(finished: seq<Name>)
    requires Distinct(finished)
    ensures forall k :: k in finished ==> k in Oldest(finished, |finished|)
  {
    forall k | k in finished
      ensures k in Oldest(finished, |finished|)
    {
      var i :| 0 <= i < |finished| && finished[i] == k;
      OldestMember(finished, |finished|, i);
    }
  }

  /** How many finished jobs go when a job starts. */
  function Surplus(order: seq<Name>, all: map<Name, Job>): nat
    requires forall k :: k in order ==> k in all
  {
    Min(|FinishedIds(order, all)|, Max(0, |all| - MAX_TRACKED))
  }

  lemma DropCount(all: map<Name, Job>, gone: set<Name>)
    requires gone <= all.Keys
    ensures |all - gone| == |all| - |gone|
  {
    assert (all - gone).Keys == all.Keys - gone;
    assert |all.Keys - gone| == |all.Keys| - |gone|;
  }

  /** Dropping that many leaves the limit kept, or nothing but running jobs. */
  lemma SurplusSuffices(order: seq<Name>, all: map<Name, Job>)
    requires forall k :: k in order <==> k in all
    requires Distinct(order)
    ensures var gone := Oldest(FinishedIds(order, all), Surplus(order, all));
            && |gone| == Surplus(order, all)
            && (forall k :: k in gone ==> k in all && !all[k].running)
            && |all - gone| == |all| - |gone|
            && (|all - gone| <= MAX_TRACKED || forall k :: k in all - gone ==> all[k].running)
  {
    var finished := FinishedIds(order, all);
    var n := Surplus(order, all);
    var gone := Oldest(finished, n);
    FinishedMembers(order, all);
    OldestCount(finished, n);
    OldestAmong(finished, n);
    DropCount(all, gone);
    if n == |finished| {
      OldestAll(finished);
    }
  }

  /** The tracked jobs and the order they were first started in. */
  datatype Tracked = Tracked(ids: seq<Name>, jobs: map<Name, Job>)

  ghost predicate Consistent(t: Tracked) {
    (forall k :: k in t.ids <==> k in t.jobs) && Distinct(t.ids)
  }

  function Dropped(t: Tracked, id: Name): Tracked {
    Tracked(Without(t.ids, {id}), t.jobs - {id})
  }

  function Popped(t: Tracked, finished: seq<Name>, n: nat): Tracked
    requires n <= |finished|
  {
    if n == 0 then t else Dropped(Popped(t, finished, n - 1), finished[n - 1])
  }

  function Added(t: Tracked, id: Name, count: nat): Tracked {
    Tracked(if id in t.ids then t.ids else t.ids + [id], t.jobs[id := NewJob(count)])
  }

  lemma AddedConsistent(t: Tracked, id: Name, count: nat)
    requires Consistent(t)
    ensures Consistent(Added(t, id, count))
  {
  }

  function Started(t: Tracked, id: Name, count: nat): Tracked
    requires Consistent(t)
  {
    var added := Added(t, id, count);
    Popped(added, FinishedIds(added.ids, added.jobs), Surplus(added.ids, added.jobs))
  }

  lemma {:induction false} PoppedIs(t: Tracked, finished: seq<Name>, n: nat)
    requires n <= |finished|
    ensures Popped(t, finished, n) == Tracked(Without(t.ids, Oldest(finished, n)), t.jobs - Oldest(finished, n))
  {
    if n == 0 {
      WithoutNone(t.ids);
      assert t.jobs - {} == t.jobs;
    } else {
      PoppedIs(t, finished, n - 1);
      WithoutTwice(t.ids, Oldest(finished, n - 1), {finished[n - 1]});
      assert t.jobs - Oldest(finished, n - 1) - {finished[n - 1]} == t.jobs - Oldest(finished, n);
    }
  }

  lemma DropKeeps(t: Tracked, gone: set<Name>)
    requires Consistent(t) && forall k :: k in gone ==> k in t.jobs && !t.jobs[k].running
    ensures Consistent(Tracked(Without(t.ids, gone), t.jobs - gone))
    ensures forall k :: k in t.jobs && t.jobs[k].running ==> k in t.jobs - gone
  {
    WithoutMembers(t.ids, gone);
  }

  lemma DropSurplus(t: Tracked, id: Name)
    requires Consistent(t) && id in t.jobs && t.jobs[id].running
    ensures var gone := Oldest(FinishedIds(t.ids, t.jobs), Surplus(t.ids, t.jobs));
            var left := t.jobs - gone;
            && (|left| <= MAX_TRACKED || forall k :: k in left ==> left[k].running)
            && |left| >= Min(|t.jobs|, MAX_TRACKED) && id in left && left[id] == t.jobs[id]
  {
    SurplusSuffices(t.ids, t.jobs);
  }

  /** What is forgotten is the oldest: the jobs left are the finished ones from some point on, and the
      running ones, in the order they were in. */
  lemma StartForgetsTheOldest(t: Tracked, id: Name, count: nat)
    requires Consistent(t)
    ensures var added := Added(t, id, count);
            && Consistent(added)
            && var gone := Oldest(FinishedIds(added.ids, added.jobs), Surplus(added.ids, added.jobs));
               Started(t, id, count) == Tracked(Without(added.ids, gone), added.jobs - gone)
  {
    AddedConsistent(t, id, count);
    var added := Added(t, id, count);
    PoppedIs(added, FinishedIds(added.ids, added.jobs), Surplus(added.ids, added.jobs));
  }

  /** Starting a job forgets finished ones over the limit: never a running one, never more than
      needed; afterwards only running jobs can exceed the limit, and the new one is there. */
  lemma StartKeepsRunningJobs(t: Tracked, id: Name, count: nat)
    requires Consistent(t)
    ensures var added, after := Added(t, id, count), Started(t, id, count);
            && Consistent(after)
            && (id in after.jobs && after.jobs[id] == NewJob(count))
            && (|after.jobs| <= 20 || forall k :: k in after.jobs ==> after.jobs[k].running)
            && |after.jobs| >= Min(|added.jobs|, 20)
            && (forall k :: k in added.jobs && added.jobs[k].running ==>
                  k in after.jobs && after.jobs[k] == added.jobs[k])
  {
    StartForgetsTheOldest(t, id, count);
    var added := Added(t, id, count);
    SurplusSuffices(added.ids, added.jobs);
    DropKeeps(added, Oldest(FinishedIds(added.ids, added.jobs), Surplus(added.ids, added.jobs)));
    DropSurplus(added, id);
  }

  // --- every run of the registry ---

  datatype Op =
    | Starting(id: Name, count: nat)
    | Telling(id: Name, e: Entry)
    | Finishing(id: Name, outcome: Text, e: Entry)

  function AfterOp(t: Tracked, op: Op): Tracked
    requires Consistent(t)
  {
    match op
    case Starting(id, count) => Started(t, id, count)
    case Telling(id, e) =>
      if id in t.jobs
      then t.(jobs := t.jobs[id := Noted(t.jobs[id], e.message, e.level, e.container, e.status, e.error)]) else t
    case Finishing(id, outcome, e) =>
      if id in t.jobs then t.(jobs := t.jobs[id := Concluded(t.jobs[id], outcome, e.message, e.level)]) else t
  }

  lemma AfterOpConsistent(t: Tracked, op: Op)
    requires Consistent(t)
    ensures Consistent(AfterOp(t, op))
  {
    if op.Starting? {
      StartKeepsRunningJobs(t, op.id, op.count);
    }
  }

  /** What an operation does to a job that is tracked after it. */
  lemma AfterOpAt(t: Tracked, op: Op, id: Name)
    requires Consistent(t) && id in AfterOp(t, op).jobs
    ensures var job := AfterOp(t, op).jobs[id];
            if op.Starting? && op.id == id then job == NewJob(op.count)
            else
              && id in t.jobs && job.total == t.jobs[id].total
              && (op.Finishing? && op.id == id ==> !job.running && job.outcome == op.outcome)
              && (!(op.Finishing? && op.id == id) ==>
                    job.running == t.jobs[id].running && job.outcome == t.jobs[id].outcome)
  {
    if op.Starting? {
      StartForgetsTheOldest(t, op.id, op.count);
      StartKeepsRunningJobs(t, op.id, op.count);
    }
  }

  /** The registry before each operation, the last one after all of them. */
  ghost predicate Ran(states: seq<Tracked>, ops: seq<Op>) {
    && |states| == |ops| + 1 && states[0] == Tracked([], map[])
    && forall i :: 0 <= i < |ops| ==> RanAt(states, ops, i)
  }

  ghost predicate RanAt(states: seq<Tracked>, ops: seq<Op>, i: nat)
    requires i < |ops| && |states| == |ops| + 1
  {
    Consistent(states[i]) && states[i + 1] == AfterOp(states[i], ops[i])
  }

  /** Of the first `n` operations, `k` is the last start of this job. */
  ghost predicate LastStart(ops: seq<Op>, id: Name, k: nat, n: nat) {
    && k < n <= |ops| && ops[k].Starting? && ops[k].id == id
    && forall j :: k < j < n && ops[j].id == id ==> !ops[j].Starting?
  }

  ghost predicate NoFinish(ops: seq<Op>, id: Name, k: nat, n: nat) {
    n <= |ops| && forall j :: k < j < n && ops[j].id == id ==> !ops[j].Finishing?
  }

  /** And `k` its last finish. */
  ghost predicate LastFinish(ops: seq<Op>, id: Name, k: nat, n: nat) {
    k < n <= |ops| && ops[k].Finishing? && ops[k].id == id && NoFinish(ops, id, k, n)
  }

  /** A tracked job has the size it was started with last and runs exactly until it is finished. */
  lemma {:induction false} RunsUntilFinished(states: seq<Tracked>, ops: seq<Op>, id: Name, k: nat, n: nat)
    requires Ran(states, ops) && LastStart(ops, id, k, n) && id in states[n].jobs
    ensures states[n].jobs[id].total == ops[k].count
    ensures states[n].jobs[id].running <==> NoFinish(ops, id, k, n)
    decreases n
  {
    assert RanAt(states, ops, n - 1);
    AfterOpAt(states[n - 1], ops[n - 1], id);
    if k < n - 1 {
      RunsUntilFinished(states, ops, id, k, n - 1);
    }
  }

  /** Then it has the outcome it was finished with last. */
  lemma {:induction false} KeepsItsOutcome(states: seq<Tracked>, ops: seq<Op>, id: Name, k: nat, j: nat, n: nat)
    requires Ran(states, ops) && LastStart(ops, id, k, n) && k < j && LastFinish(ops, id, j, n)
    requires id in states[n].jobs
    ensures states[n].jobs[id].outcome == ops[j].outcome
    decreases n
  {
    assert RanAt(states, ops, n - 1);
    AfterOpAt(states[n - 1], ops[n - 1], id);
    if j < n - 1 {
      KeepsItsOutcome(states, ops, id, k, j, n - 1);
    }
  }

  /** The entries addressed to a job by operations `from` to `n`. */
  function EntriesFor(ops: seq<Op>, id: Name, from: nat, n: nat): seq<Entry>
    requires n <= |ops|
    decreases n
  {
    if n <= from then []
    else
      EntriesFor(ops, id, from, n - 1) +
      match ops[n - 1]
      case Starting(_, _) => []
      case Telling(other, e) => if other == id then [e] else []
      case Finishing(other, _, e) => if other == id then [Entry(e.message, e.level, None, None, Blank)] else []
  }

  lemma JobAfterMore(total: nat, entries: seq<Entry>, e: Entry)
    ensures JobAfter(total, entries + [e]) ==
            Noted(JobAfter(total, entries), e.message, e.level, e.container, e.status, e.error)
  {
    assert (entries + [e])[..|entries|] == entries;
  }

  /** What an operation that does not start a job writes into it. */
  lemma AfterOpWrites(t: Tracked, op: Op, id: Name)
    requires Consistent(t) && id in AfterOp(t, op).jobs && !(op.Starting? && op.id == id)
    ensures id in t.jobs
    ensures var before, after := t.jobs[id].(running := true, outcome := Blank),
                                 AfterOp(t, op).jobs[id].(running := true, outcome := Blank);
            match op
            case Starting(_, _) => after == before
            case Telling(other, e) =>
              after == if other == id then Noted(before, e.message, e.level, e.container, e.status, e.error) else before
            case Finishing(other, _, e) =>
              after == if other == id then Noted(before, e.message, e.level, None, None, Blank) else before
  {
    if op.Starting? {
      StartForgetsTheOldest(t, op.id, op.count);
    }
  }

  /** But for its end, a tracked job is what the entries addressed to it since its last start make of a new one. */
  lemma {:induction false} JobIsItsEntries(states: seq<Tracked>, ops: seq<Op>, id: Name, k: nat, n: nat)
    requires Ran(states, ops) && LastStart(ops, id, k, n) && id in states[n].jobs
    ensures states[n].jobs[id].(running := true, outcome := Blank) ==
            JobAfter(ops[k].count, EntriesFor(ops, id, k + 1, n))
    decreases n
  {
    assert RanAt(states, ops, n - 1);
    AfterOpAt(states[n - 1], ops[n - 1], id);
    if k < n - 1 {
      AfterOpWrites(states[n - 1], ops[n - 1], id);
      JobIsItsEntries(states, ops, id, k, n - 1);
      var entries := EntriesFor(ops, id, k + 1, n - 1);
      assert entries + [] == entries;
      match ops[n - 1]
      case Telling(_, e) => JobAfterMore(ops[k].count, entries, e);
      case Finishing(_, _, e) => JobAfterMore(ops[k].count, entries, Entry(e.message, e.level, None, None, Blank));
      case Starting(_, _) =>
    }
  }

  /** Every tracked job was started. */
  lemma {:induction false} TrackedWereStarted(states: seq<Tracked>, ops: seq<Op>, id: Name, n: nat) returns (k: nat)
    requires Ran(states, ops) && n <= |ops| && id in states[n].jobs
    ensures LastStart(ops, id, k, n)
    decreases n
  {
    assert n > 0;
    assert RanAt(states, ops, n - 1);
    AfterOpAt(states[n - 1], ops[n - 1], id);
    if ops[n - 1].Starting? && ops[n - 1].id == id {
      k := n - 1;
    } else {
      k := TrackedWereStarted(states, ops, id, n - 1);
    }
  }

  class Registry {
    var ids: seq<Name>
    var jobs: map<Name, Job>

    function Value(): Tracked
      reads this
    {
      Tracked(ids, jobs)
    }

    constructor ()
      ensures Value() == Tracked([], map[])
    {
      ids, jobs := [], map[];
    }

    method Drop(id: Name)
      modifies this
      ensures Value() == Dropped(old(Value()), id)
    {
      jobs := jobs - {id};
      ids := Without(ids, {id});
    }

    method DropFirst(finished: seq<Name>, n: nat)
      requires n <= |finished|
      modifies this
      ensures Value() == Popped(old(Value()), finished, n)
    {
      ghost var start := Value();
      var i := 0;
      while i < n
        invariant 0 <= i <= n && Value() == Popped(start, finished, i)
      {
        Drop(finished[i]);
        i := i + 1;
      }
    }

    /** Drops the oldest finished jobs over the limit. */
    method ForgetOldest()
      requires Consistent(Value())
      modifies this
      ensures var t := old(Value()); Value() == Popped(t, FinishedIds(t.ids, t.jobs), Surplus(t.ids, t.jobs))
    {
      DropFirst(FinishedIds(ids, jobs), Surplus(ids, jobs));
    }

    method Start(id: Name, count: nat)
      requires Consistent(Value())
      modifies this
      ensures Value() == Started(old(Value()), id, count) == AfterOp(old(Value()), Starting(id, count))
    {
      jobs := jobs[id := NewJob(count)];
      if id !in ids {
        ids := ids + [id];
      }
      assert Value() == Added(old(Value()), id, count);
      AddedConsistent(old(Value()), id, count);
      ForgetOldest();
    }

    method Event(id: Name, message: Text, level: Level, container: Option<Name>, status: Option<ContainerStatus>,
                 error: Text)
      modifies this`jobs
      ensures jobs == if id in old(jobs)
                      then old(jobs)[id := Noted(old(jobs)[id], message, level, container, status, error)]
                      else old(jobs)
      ensures Consistent(old(Value())) ==>
        Value() == AfterOp(old(Value()), Telling(id, Entry(message, level, container, status, error)))
    {
      if id in jobs {
        jobs := jobs[id := Noted(jobs[id], message, level, container, status, error)];
      }
    }

    method Finish(id: Name, outcome: Text, message: Text, level: Level)
      modifies this`jobs
      ensures jobs == if id in old(jobs) then old(jobs)[id := Concluded(old(jobs)[id], outcome, message, level)]
                      else old(jobs)
      ensures Consistent(old(Value())) ==>
        Value() == AfterOp(old(Value()), Finishing(id, outcome, Entry(message, level, None, None, Blank)))
    {
      Event(id, message, level, None, None, Blank);
      if id in jobs {
        jobs := jobs[id := jobs[id].(running := false, outcome := outcome)];
      }
    }
  }
}
