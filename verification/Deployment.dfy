/** The deployment scheduler: a bounded set of workers fed one container at a time, a graceful stop
    that cancels what is queued, and a deadline after which what still runs is abandoned. The
    executor, the message queue and the clock are the environment of each pass of the loop. */
module Deployment {
  import opened Prelude
  import opened Progress

  /** A submitted call. Containers are handed out in the order of their names, so the call numbered `f`
      deploys the container at position `f`. */
  type Future = nat

  /** How one worker's call ended. */
  datatype Outcome = Returned(success: bool, error: Text, installMessage: Text) | Raised(text: Text)

  datatype Work = Busy | Done(outcome: Outcome)

  datatype Result = Result(name: Name, success: bool, error: Text, installMessage: Text)

  datatype WorkerEvent = Posted(future: Future, message: Text) | Ended(future: Future, outcome: Outcome)

  /** What one pass of the loop sees: the stop flag and its deadline; after how many submissions the pool
      refuses the next one, as a process pool does once a worker was killed; what workers do before and
      after the message queue is drained, and which finished futures `wait` reports; after how many
      messages the relay is gone. None: never. */
  datatype Observation = Observation(stopping: bool, expired: bool, pool: Option<nat>, early: seq<WorkerEvent>,
                                     ready: set<Future>, relay: Option<nat>, late: seq<WorkerEvent>)

  function WorkerCount(sequential: bool, containers: nat, deployWorkers: nat): (n: nat)
    requires deployWorkers >= 1
    ensures 1 <= n <= deployWorkers && n <= Max(1, containers)
    ensures if sequential then n == 1 else n == deployWorkers || n == Max(1, containers)
  {
    if sequential then 1 else Min(deployWorkers, Max(1, containers))
  }

  function InterruptedResult(name: Name, started: bool): Result {
    Result(name, false, if started then InterruptedText else CancelledText, Blank)
  }

  function FromOutcome(name: Name, outcome: Outcome): Result {
    match outcome
    case Returned(success, error, message) => Result(name, success, error, message)
    case Raised(text) => Result(name, false, text, Blank)
  }

  function FailureText(r: Result): Text {
    if r.error != Blank then r.error else if r.installMessage != Blank then r.installMessage else UnknownError
  }

  /** The ledger after a result is recorded. */
  function WithResult(job: Job, r: Result): Job {
    if r.success then Noted(job, DeployedText, Good, Some(r.name), Some(Success), Blank)
    else Noted(job, FailedText(FailureText(r)), Bad, Some(r.name), Some(Failed), FailureText(r))
  }

  function ResultNames(results: seq<Result>): seq<Name> {
    seq(|results|, i requires 0 <= i < |results| => results[i].name)
  }

  function Warnings(results: seq<Result>): seq<(Name, Text)> {
    if results == [] then []
    else
      var r := results[|results| - 1];
      Warnings(results[..|results| - 1]) + (if r.success then [] else [(r.name, FailureText(r))])
  }

  function Successes(results: seq<Result>): nat {
    if results == [] then 0
    else Successes(results[..|results| - 1]) + (if results[|results| - 1].success then 1 else 0)
  }

  lemma Recorded(results: seq<Result>, r: Result)
    ensures ResultNames(results + [r]) == ResultNames(results) + [r.name]
    ensures Warnings(results + [r]) == Warnings(results) + (if r.success then [] else [(r.name, FailureText(r))])
    ensures Successes(results + [r]) == Successes(results) + (if r.success then 1 else 0)
  {
    assert (results + [r])[..|results|] == results;
  }

  // --- the scheduler's state and the steps it takes ---

  /** `origins[i]` is the position, in `agentNames`, of the container that `results[i]` is about. */
  datatype State = State(agentNames: seq<Name>, workers: nat, queued: seq<Name>, pending: set<Future>,
                         names: seq<Name>, executor: seq<Work>, channel: seq<(Future, Text)>,
                         results: seq<Result>, origins: seq<nat>, warnings: seq<(Name, Text)>, job: Job,
                         abandoned: bool)

  function WithRecord(s: State, r: Result, origin: nat): State {
    s.(results := s.results + [r], origins := s.origins + [origin], job := WithResult(s.job, r),
       warnings := s.warnings + (if r.success then [] else [(r.name, FailureText(r))]))
  }

  function Submitted(s: State): State
    requires s.queued != []
  {
    s.(queued := s.queued[1..], pending := s.pending + {|s.executor|}, names := s.names + [s.queued[0]],
       executor := s.executor + [Busy])
  }

  /** One container per free worker. */
  function HandedOut(s: State): State
    decreases |s.queued|
  {
    if s.queued != [] && |s.pending| < s.workers then HandedOut(Submitted(s)) else s
  }

  function SubmittedMany(s: State, k: nat): (t: State)
    requires k <= |s.queued|
    ensures |t.queued| == |s.queued| - k
    decreases k
  {
    if k == 0 then s else SubmittedMany(Submitted(s), k - 1)
  }

  /** What the exception leaves behind: the container it was about is neither queued nor pending. */
  function Broken(s: State, k: nat): State
    requires k < |s.queued|
  {
    var t := SubmittedMany(s, k);
    t.(queued := t.queued[1..])
  }

  function CancelledHead(s: State): State
    requires s.queued != [] && |s.queued| <= |s.agentNames|
  {
    WithRecord(s.(queued := s.queued[1..]), InterruptedResult(s.queued[0], false), |s.agentNames| - |s.queued|)
  }

  function CancelledAll(s: State): State
    requires |s.queued| <= |s.agentNames|
    decreases |s.queued|
  {
    if s.queued == [] then s else CancelledAll(CancelledHead(s))
  }

  /** A worker acts only while it is busy: it posts its messages before it ends. */
  function Acted(s: State, e: WorkerEvent): State {
    if e.future >= |s.executor| || s.executor[e.future].Done? then s
    else
      match e
      case Posted(f, message) => s.(channel := s.channel + [(f, message)])
      case Ended(f, outcome) => s.(executor := s.executor[f := Done(outcome)])
  }

  function ActedAll(s: State, es: seq<WorkerEvent>): State
    decreases |es|
  {
    if es == [] then s else ActedAll(Acted(s, es[0]), es[1..])
  }

  function Collected(s: State, taken: set<Future>, abandon: bool): State {
    s.(pending := s.pending - taken, abandoned := s.abandoned || abandon)
  }

  function DrainedOne(s: State): State
    requires s.channel != [] && s.channel[0].0 < |s.names|
  {
    var (f, message) := s.channel[0];
    s.(channel := s.channel[1..], job := Noted(s.job, message, Info, Some(s.names[f]), Some(Running), Blank))
  }

  /** The messages in the queue relayed in order, up to the point where the relay is gone and takes the
      rest with it. */
  function Relayed(s: State, relay: Option<nat>): State
    requires forall m :: m in s.channel ==> m.0 < |s.names|
    decreases |s.channel|
  {
    if s.channel == [] then s
    else if relay == Some(0) then s.(channel := [])
    else
      assert s.channel[0] in s.channel;
      Relayed(DrainedOne(s), if relay.Some? then Some(relay.value - 1) else None)
  }

  /** The result of a future taken off `pending`: its outcome, or that it was interrupted. */
  function ResultOf(s: State, f: Future): Result
    requires f < |s.names| && f < |s.executor|
  {
    match s.executor[f]
    case Busy => InterruptedResult(s.names[f], true)
    case Done(outcome) => FromOutcome(s.names[f], outcome)
  }

  // --- what every step keeps ---

  function NextPosition(s: State): int {
    |s.agentNames| - |s.queued|
  }

  /** What is queued, and what was handed out, in the order of the names. */
  ghost predicate Lined(s: State) {
    && |s.queued| <= |s.agentNames| && s.queued == s.agentNames[NextPosition(s)..]
    && |s.names| == |s.executor| <= NextPosition(s)
    && forall f :: 0 <= f < |s.names| ==> s.names[f] == s.agentNames[f]
  }

  ghost predicate Shape(s: State, done: set<Future>) {
    && Lined(s)
    && s.pending !! done && (forall f :: f in s.pending + done ==> f < |s.executor|)
    && |s.origins| == |s.results|
  }

  /** Every container is in exactly one place: queued, pending, done but not recorded, or recorded,
      and recorded only once. */
  ghost predicate Conserved(s: State, done: set<Future>) {
    && (forall p :: p in s.origins <==> 0 <= p < NextPosition(s) && p !in s.pending + done)
    && (forall i, j :: 0 <= i < j < |s.origins| ==> s.origins[i] != s.origins[j])
  }

  /** What a result must say when the executor shows this of its container: nothing, when it was never handed
      out; a worker still at it; or how its call ended. */
  ghost predicate Truthful(r: Result, shown: Option<Work>, abandoned: bool) {
    match shown
    case None => !r.success && r.error == CancelledText && r.installMessage == Blank
    case Some(Busy) => abandoned && !r.success && r.error == InterruptedText && r.installMessage == Blank
    case Some(Done(Returned(ok, error, message))) => r.success == ok && r.error == error && r.installMessage == message
    case Some(Done(Raised(text))) => !r.success && r.error == text && r.installMessage == Blank
  }

  function Shown(executor: seq<Work>, p: nat): Option<Work> {
    if p < |executor| then Some(executor[p]) else None
  }

  /** Result `i` is about its container and says what the executor shows of it. */
  ghost predicate FaithfulAt(s: State, i: nat)
    requires i < |s.results| == |s.origins| && s.origins[i] < |s.agentNames|
  {
    && s.results[i].name == s.agentNames[s.origins[i]]
    && Truthful(s.results[i], Shown(s.executor, s.origins[i]), s.abandoned)
  }

  ghost predicate Faithful(s: State)
    requires |s.origins| == |s.results|
  {
    forall i :: 0 <= i < |s.results| ==> s.origins[i] < |s.agentNames| && FaithfulAt(s, i)
  }

  /** The error of a failed result; without one, what the installation said; without that, that it is unknown. */
  ghost predicate Explains(r: Result, text: Text) {
    && (r.error != Blank ==> text == r.error)
    && (r.error == Blank && r.installMessage != Blank ==> text == r.installMessage)
    && (r.error == Blank && r.installMessage == Blank ==> text == UnknownError)
  }

  /** The job shows this result: its container's status, step and error, and a line about it. */
  ghost predicate ShownIn(job: Job, r: Result)
    requires r.name in job.containers
  {
    var c := job.containers[r.name];
    && c.status == (if r.success then Success else Failed)
    && (if r.success then c.step == DeployedText
        else c.error.Some? && Explains(r, c.error.value) && c.step == FailedText(c.error.value))
    && Line(if r.success then Good else Bad, Some(r.name), c.step) in job.events
  }

  ghost predicate AllShown(job: Job, results: seq<Result>) {
    forall i :: 0 <= i < |results| ==> results[i].name in job.containers && ShownIn(job, results[i])
  }

  /** The job's ledger is that of these results. */
  ghost predicate Tallies(job: Job, results: seq<Result>) {
    && Balanced(job) && (forall n :: n in Settled(job) <==> n in ResultNames(results))
    && job.successful == Successes(results) && AllShown(job, results)
  }

  ghost predicate LedgerMatches(s: State) {
    Distinct(s.agentNames) ==> Tallies(s.job, s.results)
  }

  /** Workers still running, and messages still queued, belong to results still to come. */
  ghost predicate Live(s: State, done: set<Future>) {
    && (forall f :: 0 <= f < |s.executor| && s.executor[f].Busy? ==> f in s.pending + done)
    && (forall m :: m in s.channel ==> m.0 in s.pending + done)
  }

  ghost predicate Inv(s: State, done: set<Future>) {
    && Shape(s, done) && Conserved(s, done) && Faithful(s) && LedgerMatches(s) && s.warnings == Warnings(s.results)
  }

  lemma ResultName(s: State, i: nat)
    requires |s.origins| == |s.results| && Faithful(s) && i < |s.results|
    ensures s.results[i].name == s.agentNames[s.origins[i]]
  {
    assert FaithfulAt(s, i);
  }

  /** With distinct names, a container that is still out there has no result yet. */
  lemma NotYetRecorded(s: State, p: nat)
    requires |s.origins| == |s.results| && Faithful(s) && Distinct(s.agentNames)
    requires p < |s.agentNames| && p !in s.origins
    ensures s.agentNames[p] !in ResultNames(s.results)
  {
    forall i | 0 <= i < |s.results|
      ensures s.results[i].name != s.agentNames[p]
    {
      ResultName(s, i);
      assert s.origins[i] in s.origins;
    }
  }

  /** Recording a result shows it, and leaves what is shown of other containers. */
  lemma ShownStep(job: Job, results: seq<Result>, r: Result)
    requires AllShown(job, results) && r.name !in ResultNames(results)
    ensures AllShown(WithResult(job, r), results + [r])
  {
    var after := WithResult(job, r);
    forall i | 0 <= i < |results|
      ensures results[i].name in after.containers && ShownIn(after, results[i])
    {
      assert ShownIn(job, results[i]) && ResultNames(results)[i] == results[i].name;
    }
  }

  lemma TallyStep(job: Job, results: seq<Result>, r: Result)
    requires Tallies(job, results) && r.name !in ResultNames(results)
    ensures Tallies(WithResult(job, r), results + [r])
  {
    Recorded(results, r);
    var status := Some(if r.success then Success else Failed);
    var message := if r.success then DeployedText else FailedText(FailureText(r));
    var level, error := if r.success then Good else Bad, if r.success then Blank else FailureText(r);
    assert WithResult(job, r) == Noted(job, message, level, Some(r.name), status, error);
    UpdateBalance(job, message, level, r.name, status, error);
    UpdateSettles(job, message, level, r.name, status, error);
    ShownStep(job, results, r);
  }

  lemma LedgerStep(s: State, r: Result, origin: nat)
    requires LedgerMatches(s)
    requires Distinct(s.agentNames) ==> r.name !in ResultNames(s.results)
    ensures LedgerMatches(WithRecord(s, r, origin))
  {
    if Distinct(s.agentNames) {
      TallyStep(s.job, s.results, r);
    }
  }

  /** A line without an error and a final status, about the whole job or a container without a result, leaves
      what is shown of the others. */
  lemma ShownStays(job: Job, results: seq<Result>, message: Text, level: Level, c: Option<Name>,
                   status: Option<ContainerStatus>)
    requires AllShown(job, results) && (c.Some? ==> c.value !in ResultNames(results))
    ensures AllShown(Noted(job, message, level, c, status, Blank), results)
  {
    var after := Noted(job, message, level, c, status, Blank);
    forall i | 0 <= i < |results|
      ensures results[i].name in after.containers && ShownIn(after, results[i])
    {
      assert ShownIn(job, results[i]) && ResultNames(results)[i] == results[i].name;
    }
  }

  lemma RunningBalance(job: Job, name: Name, message: Text)
    requires Balanced(job) && name !in Settled(job)
    ensures var after := Noted(job, message, Info, Some(name), Some(Running), Blank);
            Balanced(after) && Settled(after) == Settled(job) && after.successful == job.successful
  {
    UpdateBalance(job, message, Info, name, Some(Running), Blank);
    UpdateSettles(job, message, Info, name, Some(Running), Blank);
  }

  /** A running message about a container without a result keeps the ledger. */
  lemma RunningLine(job: Job, results: seq<Result>, name: Name, message: Text)
    requires Tallies(job, results) && name !in ResultNames(results)
    ensures Tallies(Noted(job, message, Info, Some(name), Some(Running), Blank), results)
  {
    RunningBalance(job, name, message);
    ShownStays(job, results, message, Info, Some(name), Some(Running));
  }

  lemma StopLine(job: Job, results: seq<Result>)
    requires Tallies(job, results)
    ensures Tallies(Noted(job, StoppingText, Bad, None, None, Blank), results)
  {
    LineKeepsLedger(job, StoppingText, Bad, None, Blank);
    ShownStays(job, results, StoppingText, Bad, None, None);
  }

  lemma FaithfulStep(s: State, r: Result, p: nat)
    requires |s.origins| == |s.results| && Faithful(s) && p < |s.agentNames|
    requires FaithfulAt(WithRecord(s, r, p), |s.results|)
    ensures Faithful(WithRecord(s, r, p))
  {
    var t := WithRecord(s, r, p);
    forall i | 0 <= i < |t.results|
      ensures t.origins[i] < |t.agentNames| && FaithfulAt(t, i)
    {
      if i < |s.results| {
        assert FaithfulAt(s, i);
      }
    }
  }

  /** Results stay faithful while no recorded future is touched. */
  lemma FaithfulFrame(s: State, t: State)
    requires |s.origins| == |s.results| && Faithful(s)
    requires t.results == s.results && t.origins == s.origins && t.agentNames == s.agentNames
    requires s.abandoned ==> t.abandoned
    requires forall p :: p in s.origins ==> (p < |t.executor| <==> p < |s.executor|)
    requires forall p :: p in s.origins && p < |s.executor| ==> t.executor[p] == s.executor[p]
    ensures Faithful(t)
  {
    forall i | 0 <= i < |t.results|
      ensures t.origins[i] < |t.agentNames| && FaithfulAt(t, i)
    {
      assert FaithfulAt(s, i) && s.origins[i] in s.origins;
    }
  }

  lemma CancelPlaces(s: State)
    requires Shape(s, {}) && Conserved(s, {}) && s.queued != []
    ensures Shape(CancelledHead(s), {}) && Conserved(CancelledHead(s), {})
  {
    var p, t := NextPosition(s), CancelledHead(s);
    assert t.origins == s.origins + [p] && p !in s.origins;
  }

  lemma CancelFaithful(s: State)
    requires |s.origins| == |s.results| && Faithful(s) && Lined(s) && s.queued != []
    ensures Faithful(CancelledHead(s))
  {
    var p, t := NextPosition(s), s.(queued := s.queued[1..]);
    assert s.queued[0] == s.agentNames[p];
    FaithfulFrame(s, t);
    FaithfulStep(t, InterruptedResult(s.queued[0], false), p);
  }

  lemma CancelLedger(s: State)
    requires Inv(s, {}) && s.queued != []
    ensures LedgerMatches(CancelledHead(s))
  {
    var p, r := NextPosition(s), InterruptedResult(s.queued[0], false);
    assert s.queued[0] == s.agentNames[p] && p !in s.origins;
    if Distinct(s.agentNames) {
      NotYetRecorded(s, p);
      TallyStep(s.job, s.results, r);
    }
  }

  lemma CancelRecords(s: State)
    requires Inv(s, {}) && s.queued != []
    ensures |CancelledHead(s).origins| == |CancelledHead(s).results|
    ensures Faithful(CancelledHead(s)) && LedgerMatches(CancelledHead(s))
  {
    CancelFaithful(s);
    CancelLedger(s);
  }

  lemma CancelKeeps(s: State)
    requires Inv(s, {}) && s.queued != []
    ensures Inv(CancelledHead(s), {})
  {
    CancelPlaces(s);
    CancelRecords(s);
    Recorded(s.results, InterruptedResult(s.queued[0], false));
  }

  function CancelledResults(queued: seq<Name>): seq<Result> {
    if queued == [] then [] else [InterruptedResult(queued[0], false)] + CancelledResults(queued[1..])
  }

  /** A stop cancels everything still queued, in order, and touches nothing else. */
  lemma {:induction false} CancelAllResults(s: State)
    requires |s.queued| <= |s.agentNames|
    ensures var t := CancelledAll(s);
            && t == s.(queued := [], results := t.results, origins := t.origins, warnings := t.warnings, job := t.job)
            && t.results == s.results + CancelledResults(s.queued)
    decreases |s.queued|
  {
    if s.queued != [] {
      CancelAllResults(CancelledHead(s));
    }
  }

  lemma {:induction false} CancelAllKeeps(s: State)
    requires Inv(s, {})
    ensures Inv(CancelledAll(s), {})
    decreases |s.queued|
  {
    if s.queued != [] {
      CancelKeeps(s);
      CancelAllKeeps(CancelledHead(s));
    }
  }

  lemma SubmitLines(s: State)
    requires Lined(s) && s.queued != [] && |s.executor| == NextPosition(s)
    ensures Lined(Submitted(s)) && |Submitted(s).executor| == NextPosition(Submitted(s))
  {
    assert s.queued[0] == s.agentNames[NextPosition(s)];
    assert Submitted(s).queued == s.agentNames[NextPosition(s) + 1..];
  }

  lemma SubmitConserves(s: State)
    requires Conserved(s, {}) && s.queued != [] && |s.executor| == NextPosition(s)
    ensures Conserved(Submitted(s), {})
  {
    var n, t := NextPosition(s), Submitted(s);
    assert NextPosition(t) == n + 1 && t.pending + {} == s.pending + {n} && t.origins == s.origins;
    assert n !in s.origins;
  }

  lemma SubmitLive(s: State)
    requires Live(s, {}) && s.queued != []
    ensures Live(Submitted(s), {})
  {
  }

  /** Handing out happens only while nothing was cancelled: the next call gets the next position. */
  lemma SubmitKeeps(s: State)
    requires Inv(s, {}) && s.queued != [] && |s.executor| == NextPosition(s)
    ensures Inv(Submitted(s), {}) && |Submitted(s).executor| == NextPosition(Submitted(s))
  {
    SubmitLines(s);
    SubmitConserves(s);
    FaithfulFrame(s, Submitted(s));
    forall f | f in Submitted(s).pending + {}
      ensures f < |Submitted(s).executor|
    {
      assert f in s.pending + {} || f == |s.executor|;
    }
  }

  lemma {:induction false} HandOutKeeps(s: State)
    requires Inv(s, {}) && Live(s, {}) && (s.queued != [] ==> |s.executor| == NextPosition(s))
    ensures Inv(HandedOut(s), {}) && Live(HandedOut(s), {})
    ensures HandedOut(s).queued != [] ==> |HandedOut(s).executor| == NextPosition(HandedOut(s))
    decreases |s.queued|
  {
    if s.queued != [] && |s.pending| < s.workers {
      SubmitKeeps(s);
      SubmitLive(s);
      HandOutKeeps(Submitted(s));
    }
  }

  /** Handing out keeps the worker bound and stops only when nothing is queued or no worker is free. */
  lemma {:induction false} HandOutFrame(s: State)
    requires |s.pending| <= s.workers && forall f :: f in s.pending ==> f < |s.executor|
    ensures var t := HandedOut(s);
            && t == s.(queued := t.queued, pending := t.pending, names := t.names, executor := t.executor)
            && |t.pending| <= t.workers && (t.queued == [] || |t.pending| == t.workers)
            && |t.queued| <= |s.queued| && |t.queued| + |t.pending| == |s.queued| + |s.pending|
            && (|t.queued| == |s.queued| ==> t == s)
    decreases |s.queued|
  {
    if s.queued != [] && |s.pending| < s.workers {
      assert |Submitted(s).pending| == |s.pending| + 1;
      HandOutFrame(Submitted(s));
    }
  }

  lemma {:induction false} SubmittedNext(s: State, k: nat)
    requires k < |s.queued|
    ensures SubmittedMany(s, k + 1) == Submitted(SubmittedMany(s, k))
    decreases k
  {
    if k > 0 {
      SubmittedNext(Submitted(s), k - 1);
    }
  }

  lemma {:induction false} SubmittedAll(s: State, k: nat)
    requires k <= |s.queued| && (k > 0 ==> |s.pending| + k <= s.workers)
    requires forall f :: f in s.pending ==> f < |s.executor|
    ensures HandedOut(s) == HandedOut(SubmittedMany(s, k))
    decreases k
  {
    if k > 0 {
      assert |Submitted(s).pending| == |s.pending| + 1;
      SubmittedAll(Submitted(s), k - 1);
    }
  }

  /** Each submission moves one container from the queue to a worker. */
  lemma {:induction false} SubmittedManyFrame(s: State, k: nat)
    requires k <= |s.queued| && forall f :: f in s.pending ==> f < |s.executor|
    ensures var t := SubmittedMany(s, k);
            && t == s.(queued := t.queued, pending := t.pending, names := t.names, executor := t.executor)
            && |t.pending| == |s.pending| + k && forall f :: f in t.pending ==> f < |t.executor|
    decreases k
  {
    if k > 0 {
      assert |Submitted(s).pending| == |s.pending| + 1;
      SubmittedManyFrame(Submitted(s), k - 1);
    }
  }

  /** Handing out takes nothing back from the workers. */
  lemma {:induction false} HandOutAdds(s: State)
    ensures s.executor <= HandedOut(s).executor && s.pending <= HandedOut(s).pending
    decreases |s.queued|
  {
    if s.queued != [] && |s.pending| < s.workers {
      HandOutAdds(Submitted(s));
    }
  }

  lemma ActPlaces(s: State, e: WorkerEvent, done: set<Future>)
    requires Shape(s, done) && Conserved(s, done)
    ensures Shape(Acted(s, e), done) && Conserved(Acted(s, e), done)
  {
  }

  lemma ActLive(s: State, e: WorkerEvent, done: set<Future>)
    requires Live(s, done)
    ensures Live(Acted(s, e), done)
  {
  }

  lemma ActKeeps(s: State, e: WorkerEvent, done: set<Future>)
    requires Inv(s, done) && Live(s, done)
    ensures Inv(Acted(s, e), done)
  {
    ActPlaces(s, e, done);
    FaithfulFrame(s, Acted(s, e));
  }

  lemma {:induction false} ActAllKeeps(s: State, es: seq<WorkerEvent>, done: set<Future>)
    requires Inv(s, done) && Live(s, done)
    ensures Inv(ActedAll(s, es), done) && Live(ActedAll(s, es), done)
    decreases |es|
  {
    if es != [] {
      ActKeeps(s, es[0], done);
      ActLive(s, es[0], done);
      ActAllKeeps(Acted(s, es[0]), es[1..], done);
    }
  }

  /** Workers touch only the executor and the message queue, and an outcome is final. */
  lemma {:induction false} ActAllFrame(s: State, es: seq<WorkerEvent>)
    ensures var t := ActedAll(s, es);
            && t == s.(channel := t.channel, executor := t.executor) && |t.executor| == |s.executor|
            && (forall f :: 0 <= f < |s.executor| && s.executor[f].Done? ==> t.executor[f] == s.executor[f])
    decreases |es|
  {
    if es != [] {
      ActAllFrame(Acted(s, es[0]), es[1..]);
    }
  }

  lemma CollectPlaces(s: State, done: set<Future>, taken: set<Future>, abandon: bool)
    requires Shape(s, done) && Conserved(s, done) && taken <= s.pending
    ensures Shape(Collected(s, taken, abandon), done + taken)
    ensures Conserved(Collected(s, taken, abandon), done + taken)
  {
    assert Collected(s, taken, abandon).pending + (done + taken) == s.pending + done;
  }

  lemma CollectLive(s: State, done: set<Future>, taken: set<Future>, abandon: bool)
    requires Live(s, done) && taken <= s.pending
    ensures Live(Collected(s, taken, abandon), done + taken)
  {
    assert Collected(s, taken, abandon).pending + (done + taken) == s.pending + done;
  }

  /** Finished futures leave `pending`; so do all of them when they are abandoned. */
  lemma CollectKeeps(s: State, done: set<Future>, taken: set<Future>, abandon: bool)
    requires Inv(s, done) && taken <= s.pending
    ensures Inv(Collected(s, taken, abandon), done + taken)
  {
    CollectPlaces(s, done, taken, abandon);
    FaithfulFrame(s, Collected(s, taken, abandon));
  }

  /** A step message never touches a container that has its result. */
  lemma DrainLedger(s: State, done: set<Future>)
    requires Shape(s, done) && Conserved(s, done) && Faithful(s) && LedgerMatches(s)
    requires s.channel != [] && s.channel[0].0 in s.pending + done
    ensures s.channel[0].0 < |s.names| && LedgerMatches(DrainedOne(s))
  {
    var (f, message) := s.channel[0];
    if Distinct(s.agentNames) {
      NotYetRecorded(s, f);
      RunningLine(s.job, s.results, s.names[f], message);
    }
  }

  /** A message in the queue names a container that was handed out. */
  lemma Addressed(s: State, done: set<Future>)
    requires Inv(s, done) && Live(s, done)
    ensures forall m :: m in s.channel ==> m.0 < |s.names|
  {
    forall m | m in s.channel
      ensures m.0 < |s.names|
    {
      assert m.0 in s.pending + done;
    }
  }

  lemma DrainKeeps(s: State, done: set<Future>)
    requires Inv(s, done) && Live(s, done) && s.channel != []
    ensures s.channel[0].0 < |s.names|
    ensures Inv(DrainedOne(s), done) && Live(DrainedOne(s), done)
  {
    assert s.channel[0] in s.channel;
    DrainLedger(s, done);
    FaithfulFrame(s, DrainedOne(s));
  }

  lemma {:induction false} RelayedKeeps(s: State, relay: Option<nat>, done: set<Future>)
    requires Inv(s, done) && Live(s, done)
    ensures (forall m :: m in s.channel ==> m.0 < |s.names|)
    ensures var t := Relayed(s, relay); Inv(t, done) && Live(t, done) && t.channel == []
    decreases |s.channel|
  {
    Addressed(s, done);
    if s.channel != [] {
      if relay == Some(0) {
        FaithfulFrame(s, s.(channel := []));
      } else {
        DrainKeeps(s, done);
        RelayedKeeps(DrainedOne(s), if relay.Some? then Some(relay.value - 1) else None, done);
      }
    }
  }

  predicate ShowsRunning(job: Job, x: Name) {
    x in job.containers && job.containers[x].status == Running
  }

  /** Relayed are the first messages in the queue, as many as the relay lets through, each as a line of the job, in
      order; nothing stays in the queue. */
  lemma {:induction false} RelaysInOrder(s: State, relay: Option<nat>)
    requires forall m :: m in s.channel ==> m.0 < |s.names|
    ensures var t := Relayed(s, relay);
            var n := if relay.Some? && relay.value < |s.channel| then relay.value else |s.channel|;
            && t.channel == [] && |t.job.events| == |s.job.events| + n && s.job.events <= t.job.events
            && forall i :: 0 <= i < n ==>
                 t.job.events[|s.job.events| + i] == Line(Info, Some(s.names[s.channel[i].0]), s.channel[i].1)
    decreases |s.channel|
  {
    if s.channel != [] && relay != Some(0) {
      assert s.channel[0] in s.channel;
      var u := DrainedOne(s);
      var t := Relayed(u, if relay.Some? then Some(relay.value - 1) else None);
      RelaysInOrder(u, if relay.Some? then Some(relay.value - 1) else None);
      assert t == Relayed(s, relay);
      assert u.job.events == s.job.events + [Line(Info, Some(s.names[s.channel[0].0]), s.channel[0].1)];
      assert forall i :: 0 < i < |s.channel| ==> s.channel[i] == u.channel[i - 1];
      assert t.job.events[|s.job.events|] == u.job.events[|s.job.events|];
    }
  }

  lemma DrainedShows(s: State, x: Name)
    requires s.channel != [] && s.channel[0].0 < |s.names|
    ensures ShowsRunning(DrainedOne(s).job, x) <==> ShowsRunning(s.job, x) || x == s.names[s.channel[0].0]
  {
  }

  /** One of the messages that the relay lets through is about this container. */
  predicate RelayedTo(channel: seq<(Future, Text)>, names: seq<Name>, relay: Option<nat>, x: Name)
    requires forall m :: m in channel ==> m.0 < |names|
  {
    exists i :: 0 <= i < |channel| && (relay.Some? ==> i < relay.value) && names[channel[i].0] == x
  }

  lemma RelayedToRest(channel: seq<(Future, Text)>, names: seq<Name>, relay: Option<nat>, x: Name)
    requires channel != [] && relay != Some(0) && forall m :: m in channel ==> m.0 < |names|
    ensures channel[0].0 < |names|
    ensures RelayedTo(channel, names, relay, x) <==>
            || names[channel[0].0] == x
            || RelayedTo(channel[1..], names, if relay.Some? then Some(relay.value - 1) else None, x)
  {
    assert channel[0] in channel;
    var rest := channel[1..];
    assert forall i :: 0 <= i < |rest| ==> rest[i] == channel[i + 1];
    if i :| 0 < i < |channel| && (relay.Some? ==> i < relay.value) && names[channel[i].0] == x {
      assert rest[i - 1] == channel[i];
    }
  }

  /** A container with a message relayed shows as running. */
  lemma {:induction false} RelayedShow(s: State, relay: Option<nat>, x: Name)
    requires forall m :: m in s.channel ==> m.0 < |s.names|
    ensures ShowsRunning(Relayed(s, relay).job, x) <==>
            ShowsRunning(s.job, x) || RelayedTo(s.channel, s.names, relay, x)
    decreases |s.channel|
  {
    if s.channel != [] && relay != Some(0) {
      RelayedToRest(s.channel, s.names, relay, x);
      DrainedShows(s, x);
      RelayedShow(DrainedOne(s), if relay.Some? then Some(relay.value - 1) else None, x);
    }
  }

  lemma RecordPlaces(s: State, done: set<Future>, r: Result, f: Future)
    requires Shape(s, done) && Conserved(s, done) && f in done
    ensures Shape(WithRecord(s, r, f), done - {f}) && Conserved(WithRecord(s, r, f), done - {f})
  {
    assert f !in s.origins;
    assert forall g :: g in s.pending + (done - {f}) ==> g in s.pending + done;
  }

  lemma RecordKeeps(s: State, done: set<Future>, f: Future)
    requires Inv(s, done) && f in done && f < |s.names| && (s.executor[f].Busy? ==> s.abandoned)
    ensures Inv(WithRecord(s, ResultOf(s, f), f), done - {f})
  {
    if Distinct(s.agentNames) {
      NotYetRecorded(s, f);
    }
    RecordPlaces(s, done, ResultOf(s, f), f);
    FaithfulStep(s, ResultOf(s, f), f);
    LedgerStep(s, ResultOf(s, f), f);
    Recorded(s.results, ResultOf(s, f));
  }

  // --- the loop ---

  function Omit<T>(s: seq<T>, k: nat): seq<T>
    requires k < |s|
  {
    s[..k] + s[k + 1..]
  }

  ghost predicate Picks(positions: seq<nat>, names: seq<Name>, taken: seq<Name>) {
    && |taken| == |positions|
    && forall i :: 0 <= i < |taken| ==> positions[i] < |names| && taken[i] == names[positions[i]]
  }

  ghost predicate Distinctly(positions: seq<nat>) {
    forall i, j :: 0 <= i < j < |positions| ==> positions[i] != positions[j]
  }

  lemma OmitLast(positions: seq<nat>, names: seq<Name>, taken: seq<Name>, k: nat)
    requires names != [] && Picks(positions, names, taken) && Distinctly(positions)
    requires k < |positions| && positions[k] == |names| - 1
    ensures Picks(Omit(positions, k), names[..|names| - 1], Omit(taken, k)) && Distinctly(Omit(positions, k))
  {
    var rest := Omit(positions, k);
    forall i | 0 <= i < |rest|
      ensures rest[i] < |names| - 1
    {
      assert rest[i] == positions[if i < k then i else i + 1];
    }
  }

  lemma OmitKeeps(positions: seq<nat>, k: nat, p: nat)
    requires k < |positions| && p in positions && positions[k] != p
    ensures p in Omit(positions, k)
  {
    var i :| 0 <= i < |positions| && positions[i] == p;
    assert Omit(positions, k)[if i < k then i else i - 1] == p;
  }

  lemma OmitCount(s: seq<Name>, k: nat)
    requires k < |s|
    ensures multiset(s) == multiset(Omit(s, k)) + multiset{s[k]}
  {
    assert s == s[..k] + [s[k]] + s[k + 1..];
  }

  /** Names taken at distinct positions that cover all of them are those names, in some order. */
  lemma {:induction false} Permuted(positions: seq<nat>, names: seq<Name>, taken: seq<Name>)
    requires Picks(positions, names, taken) && Distinctly(positions)
    requires forall p :: 0 <= p < |names| ==> p in positions
    ensures multiset(taken) == multiset(names)
  {
    if names == [] {
      assert |taken| == 0;
    } else {
      var n := |names| - 1;
      assert n in positions;
      var k :| 0 <= k < |positions| && positions[k] == n;
      OmitLast(positions, names, taken, k);
      forall p | 0 <= p < n
        ensures p in Omit(positions, k)
      {
        OmitKeeps(positions, k, p);
      }
      Permuted(Omit(positions, k), names[..n], Omit(taken, k));
      OmitCount(taken, k);
      OmitCount(names, n);
      assert Omit(names, n) == names[..n];
    }
  }

  /** When nothing is queued, pending or done, every container has exactly one result; with distinct
      names the ledger is complete. */
  lemma AllRecorded(s: State)
    requires Inv(s, {}) && s.queued == [] && s.pending == {}
    ensures multiset(ResultNames(s.results)) == multiset(s.agentNames) && |s.results| == |s.agentNames|
    ensures Distinct(s.agentNames) ==> s.job.completed == s.job.successful + s.job.failed == |s.agentNames|
  {
    var taken := ResultNames(s.results);
    forall i | 0 <= i < |taken|
      ensures s.origins[i] < |s.agentNames| && taken[i] == s.agentNames[s.origins[i]]
    {
      ResultName(s, i);
    }
    Permuted(s.origins, s.agentNames, taken);
    assert |multiset(taken)| == |taken| && |multiset(s.agentNames)| == |s.agentNames|;
    if Distinct(s.agentNames) {
      BalancedCompleted(s.job);
      assert forall n :: n in s.agentNames <==> n in multiset(s.agentNames);
      assert forall n :: n in taken <==> n in multiset(taken);
      SetOfDistinct(s.agentNames, Settled(s.job));
    }
  }

  lemma {:induction false} SetOfDistinct(names: seq<Name>, members: set<Name>)
    requires Distinct(names) && forall n :: n in members <==> n in names
    ensures |members| == |names|
  {
    if names == [] {
      assert members == {};
    } else {
      assert names == [names[0]] + names[1..] && names[0] !in names[1..];
      SetOfDistinct(names[1..], members - {names[0]});
    }
  }

  // --- what one pass makes of the queue and the workers ---

  /** What decides how the loop goes on: the queue, the calls not yet collected, what was handed out, and
      what the executor's workers are doing. */
  datatype Core = Core(queued: seq<Name>, pending: set<Future>, names: seq<Name>, executor: seq<Work>)

  function CoreOf(s: State): Core {
    Core(s.queued, s.pending, s.names, s.executor)
  }

  /** How many containers are handed out: one for each free worker, while there are any. */
  function Free(c: Core, workers: nat): nat {
    Min(|c.queued|, Max(0, workers - |c.pending|))
  }

  function Range(from: nat, k: nat): set<nat> {
    if k == 0 then {} else Range(from, k - 1) + {from + k - 1}
  }

  function Busies(k: nat): seq<Work> {
    seq(k, _ => Busy)
  }

  /** The first `k` queued containers go to workers, each with the next future. */
  function Supplied(c: Core, k: nat): Core
    requires k <= |c.queued|
  {
    Core(c.queued[k..], c.pending + Range(|c.executor|, k), c.names + c.queued[..k], c.executor + Busies(k))
  }

  /** A pass ends by an exception when the pool refuses one of the containers it would hand out. A pass that
      sees the stop has nothing left to hand out. */
  predicate Breaks(obs: Observation, c: Core, workers: nat) {
    !obs.stopping && obs.pool.Some? && obs.pool.value < Free(c, workers)
  }

  /** After the first half of a pass: the queue cancelled and, past the deadline, the workers abandoned; or
      the free workers supplied. */
  function Begun(c: Core, workers: nat, obs: Observation): Core {
    if obs.stopping then Core([], if obs.expired then {} else c.pending, c.names, c.executor)
    else Supplied(c, Free(c, workers))
  }

  function ActedOn(executor: seq<Work>, es: seq<WorkerEvent>): seq<Work>
    decreases |es|
  {
    if es == [] then executor
    else
      var e := es[0];
      var next := if e.Ended? && e.future < |executor| && executor[e.future].Busy?
                  then executor[e.future := Done(e.outcome)] else executor;
      ActedOn(next, es[1..])
  }

  /** The futures `wait` reports as finished, when workers act first. */
  function Finished(c: Core, obs: Observation): set<Future> {
    var executor := ActedOn(c.executor, obs.early);
    set f | f in c.pending && f in obs.ready && f < |executor| && executor[f].Done?
  }

  /** After the second half. */
  function Gathered(c: Core, obs: Observation): Core {
    c.(pending := c.pending - Finished(c, obs), executor := ActedOn(ActedOn(c.executor, obs.early), obs.late))
  }

  function AfterPass(c: Core, workers: nat, obs: Observation): Core {
    Gathered(Begun(c, workers, obs), obs)
  }

  predicate Over(c: Core) {
    c.queued == [] && c.pending == {}
  }

  /** Pass `i` begins where the one before it left off. */
  predicate Follows(before: seq<Core>, workers: nat, trace: seq<Observation>, i: nat)
    requires 0 < i < |before| <= |trace| + 1
  {
    before[i] == AfterPass(before[i - 1], workers, trace[i - 1])
  }

  /** Where each pass begins: the next one where `AfterPass` leaves the one before. A trace and a first
      position allow only one such sequence. */
  predicate Chained(before: seq<Core>, workers: nat, trace: seq<Observation>) {
    && 0 < |before| <= |trace| + 1
    && forall i :: 0 < i < |before| ==> Follows(before, workers, trace, i)
  }

  /** None of the first `n` passes finds the pool refusing a container for which a worker is free. */
  predicate NoBreaks(before: seq<Core>, workers: nat, trace: seq<Observation>, n: nat)
    requires n <= |before| && n <= |trace|
  {
    forall i :: 0 <= i < n ==> !Breaks(trace[i], before[i], workers)
  }

  /** The loop did not stop before pass `n`. */
  predicate GoesOn(before: seq<Core>, n: nat)
    requires n <= |before|
  {
    forall i :: 0 <= i < n ==> !Over(before[i])
  }

  /** Futures are numbered as they are submitted. */
  predicate Numbered(c: Core) {
    forall f :: f in c.pending ==> f < |c.executor|
  }

  lemma {:induction false} RangeIs(from: nat, k: nat)
    ensures |Range(from, k)| == k && forall f :: f in Range(from, k) <==> from <= f < from + k
    decreases k
  {
    if k > 0 {
      RangeIs(from, k - 1);
    }
  }

  lemma SuppliedSizes(c: Core, k: nat)
    requires k <= |c.queued| && Numbered(c)
    ensures Numbered(Supplied(c, k)) && |Supplied(c, k).pending| == |c.pending| + k
    ensures Supplied(c, 0) == c
  {
    RangeIs(|c.executor|, k);
    assert c.pending !! Range(|c.executor|, k);
    assert Range(|c.executor|, 0) == {};
  }

  lemma NothingToSupply(c: Core, workers: nat)
    requires c.queued == []
    ensures Free(c, workers) == 0 && Supplied(c, 0) == c
  {
    assert Range(|c.executor|, 0) == {};
  }

  /** What the first half of a pass does to the numbers. */
  lemma BegunSizes(c: Core, workers: nat, obs: Observation)
    requires Numbered(c) && workers >= 1 && |c.pending| <= workers
    ensures var b := Begun(c, workers, obs);
            && Numbered(b) && |b.queued| <= |c.queued| && |b.pending| <= workers
            && (b.queued != [] ==> |b.pending| == workers)
            && (!obs.stopping ==> |b.queued| + |b.pending| == |c.queued| + |c.pending|)
            && (!obs.stopping && |b.queued| == |c.queued| ==> b == c)
  {
    SuppliedSizes(c, Free(c, workers));
  }

  /** What the loop has left to do. */
  function Weight(c: Core): nat {
    2 * |c.queued| + |c.pending|
  }

  /** A pass that did nothing but wait. */
  predicate Idle(c: Core, d: Core) {
    d.queued == c.queued && d.pending == c.pending
  }

  lemma Smaller(a: set<Future>, b: set<Future>)
    requires a <= b
    ensures |a| <= |b| && (a != b ==> |a| < |b|)
  {
    assert a + (b - a) == b;
  }

  /** Every pass lowers the weight, unless it only waits; and then there is a worker to wait for. */
  lemma PassMeasure(c: Core, workers: nat, obs: Observation)
    requires Numbered(c) && workers >= 1 && |c.pending| <= workers && !Over(c)
    ensures var d := AfterPass(c, workers, obs);
            && Weight(d) <= Weight(c) && (!Idle(c, d) ==> Weight(d) < Weight(c))
            && (Idle(c, d) ==> d.pending != {})
  {
    BegunSizes(c, workers, obs);
    var b := Begun(c, workers, obs);
    Smaller(b.pending - Finished(b, obs), b.pending);
    if obs.stopping {
      Smaller(b.pending, c.pending);
    }
  }

  lemma Numbers(s: State)
    requires Inv(s, {})
    ensures Numbered(CoreOf(s))
  {
    assert forall f :: f in s.pending ==> f in s.pending + {};
  }

  lemma {:induction false} ActedOnSize(executor: seq<Work>, es: seq<WorkerEvent>)
    ensures |ActedOn(executor, es)| == |executor|
    ensures forall f :: 0 <= f < |executor| && executor[f].Done? ==> ActedOn(executor, es)[f] == executor[f]
    decreases |es|
  {
    if es != [] {
      var e := es[0];
      ActedOnSize(if e.Ended? && e.future < |executor| && executor[e.future].Busy?
                  then executor[e.future := Done(e.outcome)] else executor, es[1..]);
    }
  }

  /** The first of these events that ends a call. */
  ghost predicate FirstEnd(es: seq<WorkerEvent>, f: Future, i: nat) {
    i < |es| && es[i].Ended? && es[i].future == f && forall j :: 0 <= j < i ==> !(es[j].Ended? && es[j].future == f)
  }

  /** A call that was still going ends with the first outcome there is for it; a call that had ended stays so. */
  lemma {:induction false} EndsWithTheFirst(executor: seq<Work>, es: seq<WorkerEvent>, f: Future)
    requires f < |executor|
    ensures |ActedOn(executor, es)| == |executor|
    ensures executor[f].Done? ==> ActedOn(executor, es)[f] == executor[f]
    ensures executor[f].Busy? ==>
      forall i: nat :: FirstEnd(es, f, i) ==> ActedOn(executor, es)[f] == Done(es[i].outcome)
    ensures executor[f].Busy? && ActedOn(executor, es)[f].Done? ==> exists i: nat :: FirstEnd(es, f, i)
    decreases |es|
  {
    ActedOnSize(executor, es);
    if es != [] {
      var e, rest := es[0], es[1..];
      var ends := e.Ended? && e.future < |executor| && executor[e.future].Busy?;
      EndsWithTheFirst(if ends then executor[e.future := Done(e.outcome)] else executor, rest, f);
      if e.Ended? && e.future == f {
        assert FirstEnd(es, f, 0);
      } else {
        forall i: nat
          ensures FirstEnd(es, f, i + 1) <==> FirstEnd(rest, f, i)
        {
          assert forall j :: 0 <= j < |rest| ==> rest[j] == es[j + 1];
        }
      }
    }
  }

  /** `wait` takes a call off `pending` exactly when it is reported and had ended, or ends meanwhile. */
  lemma FinishedExactly(c: Core, obs: Observation, f: Future)
    requires Numbered(c)
    ensures f in Finished(c, obs) <==>
      && f in c.pending && f in obs.ready
      && (c.executor[f].Done? || exists i: nat :: FirstEnd(obs.early, f, i))
  {
    ActedOnSize(c.executor, obs.early);
    if f in c.pending {
      EndsWithTheFirst(c.executor, obs.early, f);
    }
  }

  /** The messages that workers still at it post, in order. */
  function Posts(executor: seq<Work>, es: seq<WorkerEvent>): seq<(Future, Text)>
    decreases |es|
  {
    if es == [] then []
    else
      var e := es[0];
      var going := e.future < |executor| && executor[e.future].Busy?;
      (if going && e.Posted? then [(e.future, e.message)] else [])
      + Posts(if going && e.Ended? then executor[e.future := Done(e.outcome)] else executor, es[1..])
  }

  lemma {:induction false} QueuesPosts(s: State, es: seq<WorkerEvent>)
    ensures ActedAll(s, es).channel == s.channel + Posts(s.executor, es)
    decreases |es|
  {
    if es != [] {
      QueuesPosts(Acted(s, es[0]), es[1..]);
    }
  }

  lemma {:induction false} ActedAllOn(s: State, es: seq<WorkerEvent>)
    ensures ActedAll(s, es).executor == ActedOn(s.executor, es)
    decreases |es|
  {
    if es != [] {
      ActedAllOn(Acted(s, es[0]), es[1..]);
    }
  }

  lemma {:induction false} SubmittedIs(s: State, k: nat)
    requires k <= |s.queued|
    ensures CoreOf(SubmittedMany(s, k)) == Supplied(CoreOf(s), k)
    decreases k
  {
    if k == 0 {
      assert Range(|s.executor|, 0) == {};
    } else {
      SubmittedIs(Submitted(s), k - 1);
      SuppliedFirst(CoreOf(s), CoreOf(Submitted(s)), k);
    }
  }

  lemma {:induction false} RangeFirst(from: nat, k: nat)
    requires k > 0
    ensures Range(from, k) == {from} + Range(from + 1, k - 1)
    decreases k
  {
    if k > 1 {
      RangeFirst(from, k - 1);
    }
  }

  lemma TakeFirst(names: seq<Name>, k: nat)
    requires 0 < k <= |names|
    ensures names[..k] == [names[0]] + names[1..][..k - 1] && names[k..] == names[1..][k - 1..]
  {
  }

  lemma BusyFirst(k: nat)
    requires k > 0
    ensures Busies(k) == [Busy] + Busies(k - 1)
  {
  }

  lemma SuppliedFirst(c: Core, d: Core, k: nat)
    requires 0 < k <= |c.queued|
    requires d == Core(c.queued[1..], c.pending + {|c.executor|}, c.names + [c.queued[0]], c.executor + [Busy])
    ensures Supplied(d, k - 1) == Supplied(c, k)
  {
    RangeFirst(|c.executor|, k);
    TakeFirst(c.queued, k);
    BusyFirst(k);
    var head, rest := [c.queued[0]], c.queued[1..][..k - 1];
    assert c.names + (head + rest) == c.names + head + rest;
    assert c.executor + ([Busy] + Busies(k - 1)) == c.executor + [Busy] + Busies(k - 1);
    var later := Range(|c.executor| + 1, k - 1);
    assert c.pending + ({|c.executor|} + later) == c.pending + {|c.executor|} + later;
  }

  /** Handing out one by one comes to supplying the free workers. */
  lemma HandedOutIs(s: State)
    requires Numbered(CoreOf(s))
    ensures CoreOf(HandedOut(s)) == Supplied(CoreOf(s), Free(CoreOf(s), s.workers))
  {
    var k := Free(CoreOf(s), s.workers);
    SubmittedManyFrame(s, k);
    SubmittedAll(s, k);
    SubmittedIs(s, k);
  }

  /** `k` containers were handed out, no more than there are free workers and than the pool takes. */
  ghost predicate Handing(s: State, pool: Option<nat>, k: nat) {
    && k <= |s.queued| && (k > 0 ==> |s.pending| + k <= s.workers) && (pool.Some? ==> k <= pool.value)
    && forall f :: f in s.pending ==> f < |s.executor|
  }

  /** There is one more to hand out, and the pool refuses it or takes it. */
  lemma HandOutMore(s: State, pool: Option<nat>, k: nat)
    requires Handing(s, pool, k)
    requires var t := SubmittedMany(s, k); t.queued != [] && |t.pending| < s.workers
    ensures k < |s.queued| && k < Free(CoreOf(s), s.workers)
    ensures SubmittedMany(s, k + 1) == Submitted(SubmittedMany(s, k))
    ensures pool == Some(k) || Handing(s, pool, k + 1)
  {
    SubmittedManyFrame(s, k);
    SubmittedNext(s, k);
  }

  /** There is no more to hand out. */
  lemma HandOutEnds(s: State, pool: Option<nat>, k: nat)
    requires Handing(s, pool, k)
    requires var t := SubmittedMany(s, k); t.queued == [] || |t.pending| >= s.workers
    ensures SubmittedMany(s, k) == HandedOut(s) && Free(CoreOf(s), s.workers) == k
  {
    SubmittedManyFrame(s, k);
    SubmittedAll(s, k);
  }

  lemma ChainedNext(before: seq<Core>, workers: nat, trace: seq<Observation>)
    requires Chained(before, workers, trace) && |before| <= |trace|
    ensures Chained(before + [AfterPass(before[|before| - 1], workers, trace[|before| - 1])], workers, trace)
  {
    var next := AfterPass(before[|before| - 1], workers, trace[|before| - 1]);
    var more := before + [next];
    forall i | 0 < i < |more|
      ensures Follows(more, workers, trace, i)
    {
      assert i < |before| ==> Follows(before, workers, trace, i);
    }
  }

  lemma {:induction false} ChainIsUnique(one: seq<Core>, other: seq<Core>, workers: nat, trace: seq<Observation>,
                                         i: nat)
    requires Chained(one, workers, trace) && Chained(other, workers, trace) && one[0] == other[0]
    requires i < |one| && i < |other|
    ensures one[i] == other[i]
    decreases i
  {
    if i > 0 {
      ChainIsUnique(one, other, workers, trace, i - 1);
      assert Follows(one, workers, trace, i) && Follows(other, workers, trace, i);
    }
  }

  lemma StoppedPass(c: Core, workers: nat, obs: Observation)
    requires obs.stopping || c.queued == []
    ensures AfterPass(c, workers, obs).queued == [] && AfterPass(c, workers, obs).names == c.names
    ensures (obs.stopping && obs.expired) || c.pending == {} ==> AfterPass(c, workers, obs).pending == {}
  {
    assert Range(|c.executor|, 0) == {};
  }

  /** Once a pass sees the stop nothing is handed out any more, in it or later, and one past the deadline
      is the last. */
  lemma {:induction false} StopIsFinal(before: seq<Core>, workers: nat, trace: seq<Observation>, i: nat, j: nat)
    requires Chained(before, workers, trace) && i < j < |before| && trace[i].stopping
    ensures before[j].queued == [] && before[j].names == before[i].names
    ensures trace[i].expired ==> Over(before[j])
    decreases j
  {
    if j > i + 1 {
      StopIsFinal(before, workers, trace, i, j - 1);
    }
    assert Follows(before, workers, trace, j);
    StoppedPass(before[j - 1], workers, trace[j - 1]);
  }

  lemma {:induction false} BrokenFrame(s: State, k: nat)
    requires k < |s.queued|
    ensures var t := Broken(s, k);
            && t == s.(queued := t.queued, pending := t.pending, names := t.names, executor := t.executor)
            && s.executor <= t.executor
    decreases k
  {
    if k > 0 {
      BrokenFrame(Submitted(s), k - 1);
    }
  }

  /** The exception costs one container that was taken off the queue; those before it went to workers. */
  lemma {:induction false} BrokenTakesOne(s: State, k: nat)
    requires k < |s.queued|
    ensures Broken(s, k).queued == s.queued[k + 1..] && Broken(s, k).names == s.names + s.queued[..k]
    decreases k
  {
    if k > 0 {
      BrokenTakesOne(Submitted(s), k - 1);
      TakeFirst(s.queued, k);
      assert s.queued[1..][k..] == s.queued[k + 1..];
    }
  }

  lemma Partition(all: set<Future>, part: set<Future>)
    requires part <= all
    ensures |all - part| == |all| - |part|
  {
  }

  lemma {:induction false} PositionsCount(positions: seq<nat>, members: set<nat>)
    requires Distinctly(positions) && forall p :: p in members <==> p in positions
    ensures |positions| == |members|
    decreases |positions|
  {
    if positions == [] {
      assert members == {};
    } else {
      var last := positions[|positions| - 1];
      var rest := positions[..|positions| - 1];
      assert positions == rest + [last] && last !in rest;
      PositionsCount(rest, members - {last});
    }
  }

  /** Between passes, queued, pending and recorded add up to the containers asked for. */
  lemma Accounted(s: State)
    requires Inv(s, {})
    ensures |s.results| + |s.pending| + |s.queued| == |s.agentNames|
  {
    var all := Range(0, NextPosition(s));
    RangeIs(0, NextPosition(s));
    assert forall f :: f in s.pending ==> f in s.pending + {};
    PositionsCount(s.origins, all - s.pending);
    assert s.pending <= all;
    assert |all - s.pending| == |all| - |s.pending|;
  }

  /** What was recorded was recorded properly. */
  ghost predicate Reported(s: State) {
    && |s.origins| == |s.results| && Distinctly(s.origins) && Faithful(s) && LedgerMatches(s)
    && s.warnings == Warnings(s.results)
  }

  lemma ResultsDistinct(s: State)
    requires Reported(s) && Distinct(s.agentNames)
    ensures Distinct(ResultNames(s.results))
  {
    var taken := ResultNames(s.results);
    forall i, j | 0 <= i < j < |taken|
      ensures taken[i] != taken[j]
    {
      ResultName(s, i);
      ResultName(s, j);
    }
  }

  /** The ledger counts the results there are. */
  lemma LedgerCounts(s: State)
    requires Reported(s) && Distinct(s.agentNames)
    ensures s.job.completed == s.job.successful + s.job.failed == |s.results|
  {
    ResultsDistinct(s);
    BalancedCompleted(s.job);
    SetOfDistinct(ResultNames(s.results), Settled(s.job));
  }

  /** While something is queued not every container has a result, so neither has it after an exception. */
  lemma NotAllRecorded(s: State)
    requires Inv(s, {}) && s.queued != []
    ensures multiset(ResultNames(s.results)) != multiset(s.agentNames)
    ensures Distinct(s.agentNames) ==>
      s.job.completed == s.job.successful + s.job.failed == |s.results| < |s.agentNames|
  {
    Accounted(s);
    assert |multiset(ResultNames(s.results))| == |s.results| && |multiset(s.agentNames)| == |s.agentNames|;
    if Distinct(s.agentNames) {
      LedgerCounts(s);
    }
  }

  lemma HandOutStep(s: State, done: set<Future>)
    requires Inv(s, done) && Live(s, done) && (s.queued != [] ==> done == {} && |s.executor| == NextPosition(s))
    ensures Inv(HandedOut(s), done) && Live(HandedOut(s), done)
    ensures HandedOut(s).queued != [] ==> |HandedOut(s).executor| == NextPosition(HandedOut(s))
  {
    if s.queued != [] {
      HandOutKeeps(s);
    }
  }

  lemma {:induction false} ActAllLive(s: State, es: seq<WorkerEvent>, done: set<Future>)
    requires Live(s, done)
    ensures Live(ActedAll(s, es), done)
    decreases |es|
  {
    if es != [] {
      ActLive(s, es[0], done);
      ActAllLive(Acted(s, es[0]), es[1..], done);
    }
  }

  /** The pool broke in a pass that began here, and what was recorded by then is all there is. */
  ghost predicate CutShort(c: Core, s: State) {
    && c.queued != [] && |s.results| + |c.pending| + |c.queued| == |s.agentNames|
    && multiset(ResultNames(s.results)) != multiset(s.agentNames)
    && (Distinct(s.agentNames) ==> s.job.completed == s.job.successful + s.job.failed == |s.results|)
    && Reported(s)
  }

  lemma CutShortHere(s: State, t: State)
    requires Inv(s, {}) && s.queued != [] && Reported(t)
    requires t.results == s.results && t.job == s.job && t.agentNames == s.agentNames
    ensures CutShort(CoreOf(s), t)
  {
    Accounted(s);
    NotAllRecorded(s);
  }

  lemma NoBreaksNext(before: seq<Core>, c: Core, workers: nat, trace: seq<Observation>)
    requires 0 < |before| <= |trace|
    ensures NoBreaks(before, workers, trace, |before|) <==>
            && NoBreaks(before, workers, trace, |before| - 1)
            && !Breaks(trace[|before| - 1], before[|before| - 1], workers)
    ensures NoBreaks(before + [c], workers, trace, |before|) <==> NoBreaks(before, workers, trace, |before|)
    ensures GoesOn(before + [c], |before|) <==> GoesOn(before, |before| - 1) && !Over(before[|before| - 1])
  {
    var more := before + [c];
    assert forall i :: 0 <= i < |before| ==> more[i] == before[i];
  }

  /** One more pass on the record of where passes begin. */
  lemma Extends(before: seq<Core>, next: Core, workers: nat, trace: seq<Observation>)
    requires Chained(before, workers, trace) && |before| <= |trace| && workers >= 1
    requires NoBreaks(before, workers, trace, |before| - 1) && GoesOn(before, |before| - 1)
    requires var c := before[|before| - 1];
             Numbered(c) && |c.pending| <= workers && !Over(c) && next == AfterPass(c, workers, trace[|before| - 1])
    ensures var c, more := before[|before| - 1], before + [next];
            && Chained(more, workers, trace) && more[0] == before[0]
            && GoesOn(before, |before|) && GoesOn(more, |before|)
            && (NoBreaks(before, workers, trace, |before|) <==> !Breaks(trace[|before| - 1], c, workers))
            && (NoBreaks(more, workers, trace, |before|) <==> !Breaks(trace[|before| - 1], c, workers))
            && Weight(next) + (if Idle(c, next) then 0 else 1) <= Weight(c)
  {
    PassMeasure(before[|before| - 1], workers, trace[|before| - 1]);
    NoBreaksNext(before, next, workers, trace);
    ChainedNext(before, workers, trace);
  }

  /** No exception can follow a pass that saw the stop. */
  lemma StopEnds(before: seq<Core>, workers: nat, trace: seq<Observation>, i: nat)
    requires Chained(before, workers, trace) && |before| <= |trace| && i < |before| && trace[i].stopping
    ensures !Breaks(trace[|before| - 1], before[|before| - 1], workers)
  {
    if i < |before| - 1 {
      StopIsFinal(before, workers, trace, i, |before| - 1);
    }
  }

  lemma FreshStart(s: State)
    requires s.queued == s.agentNames && s.pending == {} && s.names == [] && s.executor == [] && s.channel == []
    requires s.results == [] && s.origins == [] && s.warnings == [] && Balanced(s.job) && Settled(s.job) == {}
    ensures Inv(s, {}) && Live(s, {}) && NextPosition(s) == 0
  {
    assert ResultNames(s.results) == [];
  }

  /** `before` records a loop that made `passes` passes and raised in the last of them, or in none. */
  ghost predicate Reached(before: seq<Core>, workers: nat, trace: seq<Observation>, passes: nat, raised: bool) {
    && Chained(before, workers, trace) && |before| == (if raised then passes else passes + 1)
    && passes <= |trace| && GoesOn(before, passes) && (raised <==> !NoBreaks(before, workers, trace, passes))
    && (raised ==> Breaks(trace[passes - 1], before[passes - 1], workers))
  }

  // --- what the results say ---

  /** The call ended by returning a success. */
  predicate Well(shown: Option<Work>) {
    shown.Some? && shown.value.Done? && shown.value.outcome.Returned? && shown.value.outcome.success
  }

  /** The containers with a result whose call ended well. */
  function Deployed(origins: seq<nat>, executor: seq<Work>): set<nat> {
    set p | p in origins && Well(Shown(executor, p))
  }

  /** The warning about failed result `i` comes after those about the failed ones before it. */
  ghost predicate WarnedOf(s: State, i: nat)
    requires i < |s.results|
  {
    var k := i - Successes(s.results[..i]);
    0 <= k < |s.warnings| && s.warnings[k].0 == s.results[i].name && Explains(s.results[i], s.warnings[k].1)
  }

  /** What results, warnings and job say, told by the executor alone: a result is a success if and only if its
      container's call returned one, the others each have a warning, in order, that says why, and the job
      counts and shows the same. */
  ghost predicate Told(s: State) {
    var well := Deployed(s.origins, s.executor);
    && |s.origins| == |s.results| && Distinctly(s.origins) && Faithful(s)
    && (forall i :: 0 <= i < |s.results| ==> (s.results[i].success <==> Well(Shown(s.executor, s.origins[i]))))
    && |s.warnings| == |s.results| - |well|
    && (forall i :: 0 <= i < |s.results| && !s.results[i].success ==> WarnedOf(s, i))
    && (Distinct(s.agentNames) ==>
          s.job.successful == |well| && s.job.failed == |s.warnings| && AllShown(s.job, s.results))
  }

  lemma {:induction false} SuccessesCount(origins: seq<nat>, results: seq<Result>, members: set<nat>)
    requires |origins| == |results| && Distinctly(origins)
    requires forall p :: p in members ==> p in origins
    requires forall i :: 0 <= i < |results| ==> (results[i].success <==> origins[i] in members)
    ensures Successes(results) == |members|
    decreases |results|
  {
    if results == [] {
      assert members == {};
    } else {
      var n := |results| - 1;
      assert origins == origins[..n] + [origins[n]] && origins[n] !in origins[..n];
      SuccessesCount(origins[..n], results[..n], members - {origins[n]});
    }
  }

  lemma {:induction false} WarningsSay(results: seq<Result>, i: nat)
    requires i < |results|
    ensures |Warnings(results)| == |results| - Successes(results)
    ensures var k := i - Successes(results[..i]);
            !results[i].success ==>
              && 0 <= k < |Warnings(results)| && Warnings(results)[k].0 == results[i].name
              && Explains(results[i], Warnings(results)[k].1)
    decreases |results|
  {
    var n := |results| - 1;
    assert results == results[..n] + [results[n]];
    if n > 0 {
      WarningsSay(results[..n], if i < n then i else 0);
    }
    assert i < n ==> results[..n][..i] == results[..i];
  }

  lemma TellsSuccesses(s: State)
    requires Reported(s)
    ensures forall i :: 0 <= i < |s.results| ==> (s.results[i].success <==> Well(Shown(s.executor, s.origins[i])))
    ensures Successes(s.results) == |Deployed(s.origins, s.executor)|
  {
    forall i | 0 <= i < |s.results|
      ensures s.results[i].success <==> Well(Shown(s.executor, s.origins[i]))
      ensures s.origins[i] in s.origins
    {
      assert FaithfulAt(s, i);
    }
    SuccessesCount(s.origins, s.results, Deployed(s.origins, s.executor));
  }

  lemma TellsWarnings(s: State)
    requires s.warnings == Warnings(s.results)
    ensures |s.warnings| == |s.results| - Successes(s.results)
    ensures forall i :: 0 <= i < |s.results| && !s.results[i].success ==> WarnedOf(s, i)
  {
    forall i | 0 <= i < |s.results|
      ensures !s.results[i].success ==> WarnedOf(s, i)
    {
      WarningsSay(s.results, i);
    }
    if s.results != [] {
      WarningsSay(s.results, 0);
    }
  }

  lemma Tells(s: State)
    requires Reported(s)
    ensures Told(s)
  {
    TellsSuccesses(s);
    TellsWarnings(s);
    if Distinct(s.agentNames) {
      LedgerCounts(s);
    }
  }

  lemma InvReports(s: State)
    requires Inv(s, {})
    ensures Reported(s)
  {
  }

  /** An exception touches nothing that was recorded. */
  lemma BrokenReports(s: State, k: nat)
    requires Inv(s, {}) && k < |s.queued| && |s.executor| == NextPosition(s)
    ensures Reported(Broken(s, k))
  {
    BrokenFrame(s, k);
    FaithfulFrame(s, Broken(s, k));
  }

  /** Some pass sees a stop past its deadline. */
  predicate SeesTheDeadline(trace: seq<Observation>) {
    exists i :: 0 <= i < |trace| && trace[i].stopping && trace[i].expired
  }

  class Scheduler {
    const agentNames: seq<Name>
    const workers: nat
    var queued: seq<Name>
    var pending: set<Future>
    var names: seq<Name>       // future_to_name
    var executor: seq<Work>    // what the executor's workers are doing
    var channel: seq<(Future, Text)>
    var results: seq<Result>
    var warnings: seq<(Name, Text)>
    var job: Job
    var stopNoted: bool
    var abandoned: bool
    var raised: bool           // a submission raised: the loop is left without results
    ghost var origins: seq<nat>

    ghost function Value(): State
      reads this
    {
      State(agentNames, workers, queued, pending, names, executor, channel, results, origins, warnings, job, abandoned)
    }

    function Position(): Core
      reads this
    {
      Core(queued, pending, names, executor)
    }

    ghost predicate Valid()
      reads this
    {
      && !raised && workers >= 1 && |pending| <= workers && Inv(Value(), {})
      && (if abandoned then queued == [] && pending == {} else Live(Value(), {}))
      && (queued != [] ==> |executor| == NextPosition(Value()))
    }

    /** Between the two halves of a pass. */
    ghost predicate Midway(done: set<Future>)
      reads this
    {
      && !raised && workers >= 1 && |pending| <= workers && Inv(Value(), done) && Live(Value(), done)
      && (if abandoned then queued == [] && pending == {} else done == {})
      && (queued != [] ==> |executor| == NextPosition(Value()))
    }

    constructor (agentNames: seq<Name>, workers: nat, job: Job)
      requires workers >= 1 && Balanced(job) && Settled(job) == {}
      ensures Valid() && this.agentNames == agentNames && this.workers == workers && this.job == job
      ensures queued == agentNames && pending == {} && results == [] && names == [] && executor == [] && !abandoned
    {
      this.agentNames, this.workers, this.job := agentNames, workers, job;
      queued, pending, results, warnings, channel := agentNames, {}, [], [], [];
      names, executor, origins := [], [], [];
      stopNoted, abandoned, raised := false, false, false;
      new;
      FreshStart(Value());
    }

    method Record(r: Result, ghost origin: nat)
      modifies this`results, this`warnings, this`job, this`origins
      ensures Value() == WithRecord(old(Value()), r, origin)
    {
      results, origins := results + [r], origins + [origin];
      if r.success {
        job := Noted(job, DeployedText, Good, Some(r.name), Some(Success), Blank);
      } else {
        var error := FailureText(r);
        warnings := warnings + [(r.name, error)];
        job := Noted(job, FailedText(error), Bad, Some(r.name), Some(Failed), error);
      }
    }

    method CancelQueued()
      requires |queued| <= |agentNames|
      modifies this`queued, this`results, this`warnings, this`job, this`origins
      ensures Value() == CancelledAll(old(Value()))
    {
      while queued != []
        invariant |queued| <= |agentNames| && CancelledAll(Value()) == CancelledAll(old(Value()))
        decreases |queued|
      {
        ghost var s := Value();
        var agentName := queued[0];
        ghost var position := |agentNames| - |queued|;
        queued := queued[1..];
        Record(InterruptedResult(agentName, false), position);
        assert Value() == CancelledHead(s);
      }
    }

    method Submit()
      requires queued != []
      modifies this`queued, this`pending, this`names, this`executor
      ensures Value() == Submitted(old(Value()))
    {
      var name := queued[0];
      queued := queued[1..];
      pending := pending + {|executor|};
      executor, names := executor + [Busy], names + [name];
    }

    /** One container for each free worker, unless the pool refuses one that was taken off the queue. */
    method SubmitFree(pool: Option<nat>)
      requires !raised && forall f :: f in pending ==> f < |executor|
      modifies this`queued, this`pending, this`names, this`executor, this`raised
      ensures raised <==> pool.Some? && pool.value < Free(old(Position()), workers)
      ensures Value() == if raised then Broken(old(Value()), pool.value) else HandedOut(old(Value()))
    {
      ghost var start := Value();
      var k := 0;
      while queued != [] && |pending| < workers
        invariant !raised
        invariant raised || (Handing(start, pool, k) && Value() == SubmittedMany(start, k))
        decreases |queued|
      {
        HandOutMore(start, pool, k);
        if pool == Some(k) {
          queued, raised := queued[1..], true;
          return;
        }
        Submit();
        k := k + 1;
      }
      HandOutEnds(start, pool, k);
    }

    /** What the worker processes do meanwhile. */
    method WorkersAct(es: seq<WorkerEvent>)
      modifies this`channel, this`executor
      ensures Value() == ActedAll(old(Value()), es)
    {
      var i := 0;
      assert es[0..] == es;
      while i < |es|
        invariant 0 <= i <= |es|
        invariant ActedAll(Value(), es[i..]) == ActedAll(old(Value()), es)
      {
        ghost var s := Value();
        var e := es[i];
        if e.future < |executor| && executor[e.future].Busy? {
          match e {
            case Posted(f, message) => channel := channel + [(f, message)];
            case Ended(f, outcome) => executor := executor[f := Done(outcome)];
          }
        }
        assert Value() == Acted(s, e) && es[i..][1..] == es[i + 1..];
        i := i + 1;
      }
    }

    method Drain(relay: Option<nat>)
      requires forall m :: m in channel ==> m.0 < |names|
      modifies this`channel, this`job
      ensures Value() == Relayed(old(Value()), relay)
    {
      var left := relay;
      while channel != [] && left != Some(0)
        invariant forall m :: m in channel ==> m.0 < |names|
        invariant Relayed(Value(), left) == Relayed(old(Value()), relay)
        decreases |channel|
      {
        ghost var s := Value();
        assert channel[0] in channel;
        var (f, message) := channel[0];
        channel := channel[1..];
        job := Noted(job, message, Info, Some(names[f]), Some(Running), Blank);
        left := if left.None? then None else Some(left.value - 1);
        assert Value() == DrainedOne(s);
      }
      channel := [];
    }

    /** Records the finished futures, in any order. */
    method RecordDone(done: set<Future>)
      requires Inv(Value(), done) && forall f :: f in done ==> f < |names| && (executor[f].Busy? ==> abandoned)
      modifies this`results, this`warnings, this`job, this`origins
      ensures Inv(Value(), {})
      ensures old(results) <= results && |results| == |old(results)| + |done|
    {
      var left := done;
      while left != {}
        invariant left <= done && Inv(Value(), left)
        invariant old(results) <= results && |results| + |left| == |old(results)| + |done|
        decreases |left|
      {
        var f :| f in left;
        var agentName := names[f];
        var result := if executor[f].Busy? then InterruptedResult(agentName, true)
                      else FromOutcome(agentName, executor[f].outcome);
        RecordKeeps(Value(), left, f);
        ghost var s := Value();
        Record(result, f);
        assert Value() == WithRecord(s, ResultOf(s, f), f);
        left := left - {f};
      }
    }

    method NoteStop()
      requires Inv(Value(), {}) && Live(Value(), {})
      modifies this`stopNoted, this`job
      ensures Inv(Value(), {}) && Live(Value(), {})
      ensures stopNoted
      ensures job == if old(stopNoted) then old(job) else Noted(old(job), StoppingText, Bad, None, None, Blank)
    {
      if !stopNoted {
        stopNoted := true;
        if Distinct(agentNames) {
          StopLine(job, results);
        }
        job := Noted(job, StoppingText, Bad, None, None, Blank);
        FaithfulFrame(old(Value()), Value());
      }
    }

    method CancelRest()
      requires Inv(Value(), {}) && Live(Value(), {})
      modifies this`queued, this`results, this`warnings, this`job, this`origins
      ensures queued == [] && Inv(Value(), {}) && Live(Value(), {})
      ensures results == old(results) + CancelledResults(old(queued))
    {
      CancelAllKeeps(Value());
      CancelAllResults(Value());
      CancelQueued();
    }

    method Abandon() returns (done: set<Future>)
      requires Inv(Value(), {}) && Live(Value(), {})
      modifies this`pending, this`abandoned
      ensures done == old(pending) && pending == {} && abandoned && Inv(Value(), done) && Live(Value(), done)
    {
      CollectKeeps(Value(), {}, pending, true);
      CollectLive(Value(), {}, pending, true);
      ghost var t := Collected(Value(), pending, true);
      abandoned := true;
      done, pending := pending, {};
      assert Value() == t && {} + done == done;
    }

    /** What a stop does at the head of the loop: cancel what is queued, and past the deadline take
        everything still running as done. */
    method StopStep(expired: bool) returns (done: set<Future>)
      requires Inv(Value(), {}) && Live(Value(), {}) && !abandoned
      modifies this`stopNoted, this`queued, this`pending, this`results, this`warnings, this`job, this`origins
      modifies this`abandoned
      ensures queued == [] && Inv(Value(), done) && Live(Value(), done)
      ensures names == old(names) && executor == old(executor)
      ensures results == old(results) + CancelledResults(old(queued))
      ensures if expired && old(pending) != {} then done == old(pending) && pending == {} && abandoned
              else done == {} && pending == old(pending) && !abandoned
    {
      done := {};
      NoteStop();
      CancelRest();
      if pending != {} && expired {
        done := Abandon();
      }
    }

    /** `wait`, and what workers do before the queue is drained. */
    method Wait(obs: Observation, done: set<Future>) returns (finished: set<Future>)
      requires Inv(Value(), done) && Live(Value(), done)
      modifies this`channel, this`executor, this`pending
      ensures Inv(Value(), done + finished) && Live(Value(), done + finished)
      ensures finished <= old(pending) && pending == old(pending) - finished
      ensures |executor| == |old(executor)| == |names|
      ensures finished == Finished(old(Position()), obs) && executor == ActedOn(old(executor), obs.early)
      ensures forall f :: f in finished ==> f < |executor| && executor[f].Done?
    {
      ghost var start := Position();
      ActAllKeeps(Value(), obs.early, done);
      ActAllFrame(Value(), obs.early);
      ActedAllOn(Value(), obs.early);
      WorkersAct(obs.early);
      assert forall f :: f in pending ==> f in pending + done;
      finished := set f | f in pending && f in obs.ready && executor[f].Done?;
      assert finished == Finished(start, obs);
      CollectKeeps(Value(), done, finished, false);
      CollectLive(Value(), done, finished, false);
      ghost var t := Collected(Value(), finished, false);
      pending := pending - finished;
      assert Value() == t;
    }

    /** Drain the messages, then record what is done while the workers go on. */
    method Settle(obs: Observation, done: set<Future>)
      requires Inv(Value(), done) && Live(Value(), done)
      requires abandoned || forall f :: f in done ==> f < |executor| && executor[f].Done?
      modifies this`channel, this`executor, this`results, this`warnings, this`job, this`origins
      ensures Inv(Value(), {}) && (!abandoned ==> Live(Value(), {}))
      ensures executor == ActedOn(old(executor), obs.late) && |executor| == |old(executor)|
      ensures old(results) <= results && |results| == |old(results)| + |done|
    {
      RelayedKeeps(Value(), obs.relay, done);
      Drain(obs.relay);
      ghost var s := Value();
      if !abandoned {
        assert Live(s, {});
        ActAllLive(s, obs.late, {});
      }
      ActAllKeeps(s, obs.late, done);
      ActAllFrame(s, obs.late);
      ActedAllOn(s, obs.late);
      WorkersAct(obs.late);
      ghost var t := Value();
      forall f | f in done
        ensures f < |names| && (executor[f].Busy? ==> abandoned)
      {
        assert f in pending + done;
      }
      RecordDone(done);
      assert !abandoned ==> Live(t, {});
    }

    /** The second half of a pass: wait for workers, relay their messages, record what is done. */
    method Conclude(obs: Observation, done: set<Future>) returns (finished: set<Future>)
      requires Inv(Value(), done) && Live(Value(), done) && (abandoned || done == {})
      modifies this`channel, this`executor, this`pending, this`results, this`warnings, this`job, this`origins
      ensures Inv(Value(), {}) && (!abandoned ==> Live(Value(), {}))
      ensures Position() == Gathered(old(Position()), obs) && |executor| == |old(executor)|
      ensures finished == Finished(old(Position()), obs) && |pending| == |old(pending)| - |finished|
      ensures old(results) <= results && (done == {} && finished == {} ==> results == old(results))
    {
      finished := Wait(obs, done);
      Partition(old(pending), finished);
      Settle(obs, done + finished);
    }

    /** The same, for a pass that leaves the scheduler ready for the next one. */
    method FinishPass(obs: Observation, done: set<Future>) returns (finished: set<Future>)
      requires Midway(done)
      modifies this`channel, this`executor, this`pending, this`results, this`warnings, this`job, this`origins
      ensures Valid()
      ensures Position() == Gathered(old(Position()), obs)
      ensures finished == Finished(old(Position()), obs) && |pending| == |old(pending)| - |finished|
      ensures old(results) <= results && (done == {} && finished == {} ==> results == old(results))
    {
      finished := Conclude(obs, done);
    }

    /** What a pass does when it finds the stop, if it does. */
    method LookForStop(obs: Observation) returns (done: set<Future>)
      requires Valid() && (queued != [] || pending != {})
      modifies this`stopNoted, this`queued, this`pending, this`results, this`warnings, this`job, this`origins
      modifies this`abandoned
      ensures Midway(done)
      ensures Position() == if obs.stopping then Begun(old(Position()), workers, obs) else old(Position())
      ensures abandoned <==> obs.stopping && obs.expired && old(pending) != {}
      ensures done == if abandoned then old(pending) else {}
      ensures !obs.stopping ==> results == old(results) && job == old(job)
      ensures obs.stopping ==> queued == [] && results == old(results) + CancelledResults(old(queued))
    {
      done := {};
      if obs.stopping {
        done := StopStep(obs.expired);
      }
    }

    /** Hand out what can be handed out; nothing recorded is touched. */
    method HandOut(pool: Option<nat>, ghost done: set<Future>)
      requires !raised && (raised || Midway(done))   // a disjunction is proved as a whole
      modifies this`queued, this`pending, this`names, this`executor, this`raised
      ensures raised <==> pool.Some? && pool.value < Free(old(Position()), workers)
      ensures raised || Position() == Supplied(old(Position()), Free(old(Position()), workers))
      ensures raised || Midway(done)
      ensures !raised || Reported(Value())
    {
      ghost var s := Value();
      if pool.Some? && pool.value < Free(Position(), workers) {
        BrokenReports(s, pool.value);
      }
      assert forall f :: f in pending ==> f in pending + done;
      HandOutStep(s, done);
      HandOutFrame(s);
      HandedOutIs(s);
      SubmitFree(pool);
    }

    /** The first half of a pass: look at the stop flag, then hand out what can be handed out. */
    method Begin(obs: Observation) returns (done: set<Future>)
      requires Valid() && (queued != [] || pending != {})
      modifies this
      ensures raised <==> Breaks(obs, old(Position()), workers)
      ensures raised || Position() == Begun(old(Position()), workers, obs)
      ensures raised || Midway(done)
      ensures !raised || Reported(Value())
      ensures abandoned <==> obs.stopping && obs.expired && old(pending) != {}
      ensures done == if abandoned then old(pending) else {}
      ensures !obs.stopping ==> results == old(results) && job == old(job)
      ensures obs.stopping ==> !raised && results == old(results) + CancelledResults(old(queued))
    {
      hide Inv, Live, Reported;
      done := LookForStop(obs);
      if obs.stopping {
        NothingToSupply(Position(), workers);
      }
      HandOut(obs.pool, done);
    }

    /** One pass of the loop. It raises exactly when the pool refuses a container it would hand out;
        otherwise it leaves queue and workers as `AfterPass` says. */
    method Iterate(obs: Observation)
      requires Valid() && (queued != [] || pending != {})
      modifies this
      ensures raised <==> Breaks(obs, old(Position()), workers)
      ensures raised ==> results == old(results) && job == old(job)
      ensures !raised || Reported(Value())
      ensures raised || Valid()
      ensures raised || Position() == AfterPass(old(Position()), workers, obs)
      ensures old(results) <= results
      ensures obs.stopping ==> old(results) + CancelledResults(old(queued)) <= results
      ensures abandoned ==> obs.stopping && obs.expired
    {
      hide Inv, Live, Reported;
      var done := Begin(obs);
      if !raised {
        var _ := FinishPass(obs, done);
      }
    }

    /** Pass number `passes`, and what it adds to the record of where passes begin. */
    method Pass(trace: seq<Observation>, passes: nat, ghost before: seq<Core>, ghost recorded: seq<Result>)
      returns (busy: bool, ghost after: seq<Core>)
      requires recorded <= results
      requires Valid() && !Over(Position()) && passes < |trace|
      requires Reached(before, workers, trace, passes, false) && before[passes] == Position()
      modifies this
      ensures Reached(after, workers, trace, passes + 1, raised)
      ensures after[0] == before[0] && recorded <= results
      ensures abandoned ==> SeesTheDeadline(trace)
      ensures raised || (Valid() && Position() == after[passes + 1])
      ensures !raised || CutShort(after[passes], Value())
      ensures raised || Weight(Position()) + (if busy then 1 else 0) <= Weight(old(Position()))
    {
      ghost var s := Value();
      var start := Position();
      ghost var next := AfterPass(start, workers, trace[passes]);
      Numbers(s);
      Extends(before, next, workers, trace);
      after := before;
      Iterate(trace[passes]);
      busy := !raised && !Idle(start, Position());
      if raised {
        CutShortHere(s, Value());
      } else {
        after := before + [next];
      }
    }

    /** The loop. `before` is where each pass begins, and where the loop ends unless it raises. */
    method Passes(trace: seq<Observation>) returns (passes: nat, busyPasses: nat, ghost before: seq<Core>)
      requires Valid()
      modifies this
      ensures Reached(before, workers, trace, passes, raised) && before[0] == old(Position())
      ensures passes == |trace| || raised || Over(Position())
      ensures raised || (Valid() && Position() == before[passes])
      ensures !raised || CutShort(before[passes - 1], Value())
      ensures abandoned ==> old(abandoned) || SeesTheDeadline(trace)
      ensures old(results) <= results && busyPasses <= Weight(old(Position()))
    {
      hide Inv, CutShort;
      ghost var first, recorded, may := Position(), results, abandoned || SeesTheDeadline(trace);
      passes, busyPasses, before := 0, 0, [Position()];
      while !raised && !Over(Position()) && passes < |trace|
        invariant Reached(before, workers, trace, passes, raised) && before[0] == first
        invariant raised || (Valid() && Position() == before[passes])
        invariant !raised || CutShort(before[passes - 1], Value())
        invariant abandoned ==> may
        invariant raised || busyPasses + Weight(Position()) <= Weight(first)
        invariant recorded <= results && busyPasses <= Weight(first)
        decreases |trace| - passes
      {
        var busy;
        busy, before := Pass(trace, passes, before, recorded);
        passes := passes + 1;
        busyPasses := busyPasses + if busy then 1 else 0;
      }
    }

    /** The loop over any sequence of passes. What the workers and the environment do in them decides where
        each pass begins; it ends with one result for each container if and only if no pass finds the pool
        refusing a submission. */
    method Run(trace: seq<Observation>) returns (passes: nat, busyPasses: nat, ghost before: seq<Core>)
      requires Valid()
      modifies this
      ensures Chained(before, workers, trace) && before[0] == old(Position())
      ensures |before| == (if raised then passes else passes + 1) && passes <= |trace| && GoesOn(before, passes)
      ensures passes == |trace| || raised || Over(Position())
      ensures raised <==> !NoBreaks(before, workers, trace, passes)
      ensures raised ==> passes > 0 && Breaks(trace[passes - 1], before[passes - 1], workers)
      ensures raised || (Valid() && Position() == before[passes])
      ensures Told(Value())
      ensures abandoned && !old(abandoned) ==> SeesTheDeadline(trace)
      ensures raised || Over(Position()) ==>
        (multiset(ResultNames(results)) == multiset(agentNames) <==> NoBreaks(before, workers, trace, passes))
      ensures (raised || Over(Position())) && Distinct(agentNames) ==>
        && job.completed == job.successful + job.failed == |results|
        && (job.completed == |agentNames| <==> NoBreaks(before, workers, trace, passes))
      ensures raised ==> |results| + |before[passes - 1].pending| + |before[passes - 1].queued| == |agentNames|
      ensures old(results) <= results && busyPasses <= Weight(old(Position()))
      ensures forall i :: 0 <= i < passes && trace[i].stopping ==> !raised && queued == [] && names == before[i].names
      ensures forall i :: 0 <= i < |trace| && trace[i].stopping && trace[i].expired ==> raised || Over(Position())
    {
      passes, busyPasses, before := Passes(trace);
      forall i | 0 <= i < passes && trace[i].stopping
        ensures !raised && queued == [] && names == before[i].names
        ensures trace[i].expired ==> Over(Position())
      {
        if raised {
          StopEnds(before, workers, trace, i);
        } else {
          StopIsFinal(before, workers, trace, i, passes);
        }
      }
      if !raised {
        InvReports(Value());
      }
      Tells(Value());
      if !raised && Over(Position()) {
        AllRecorded(Value());
      }
    }
  }

  lemma SecondWaits(c: Core, first: Observation, ended: Outcome)
    requires |c.queued| == 2 && c.pending == {} && c.names == [] && c.executor == []
    requires first == Observation(false, false, None, [Ended(0, ended)], {0}, None, [])
    ensures AfterPass(c, 1, first).queued == c.queued[1..] && AfterPass(c, 1, first).pending == {}
  {
    var begun := Begun(c, 1, first);
    RangeIs(0, 1);
    assert begun.pending == {0} && begun.executor == [Busy];
    assert first.early[1..] == [];
    assert ActedOn([Busy], first.early) == ActedOn([Done(ended)], []) == [Done(ended)];
    assert Finished(begun, first) == {0};
  }

  lemma BreaksInTheSecond(before: seq<Core>, trace: seq<Observation>, passes: nat, raised: bool)
    requires |trace| == 2 && Chained(before, 1, trace) && |before| == (if raised then passes else passes + 1)
    requires passes <= 2 && GoesOn(before, passes) && (raised <==> !NoBreaks(before, 1, trace, passes))
    requires passes == 2 || raised || Over(before[passes])
    requires trace[0].pool.None? && trace[1].pool == Some(0) && !trace[1].stopping && |before[0].queued| == 2
    requires var c := AfterPass(before[0], 1, trace[0]); |c.queued| == 1 && c.pending == {}
    ensures raised && passes == 2 && before[1].pending == {} && |before[1].queued| == 1
  {
    assert !Breaks(trace[0], before[0], 1) && !Over(before[0]);
    if |before| >= 2 {
      assert Follows(before, 1, trace, 1);
      assert Breaks(trace[1], before[1], 1);
    }
  }

  /** One worker, two containers. The worker process is killed, so its call ends with the pool's
      exception; the second container never gets a result. */
  method KilledWorkerLosesTheRest(a: Name, b: Name, job: Job, killed: Text) returns (results: seq<Result>, raised: bool)
    requires Balanced(job) && Settled(job) == {}
    ensures raised && |results| == 1 && multiset(ResultNames(results)) != multiset([a, b])
  {
    var first := Observation(false, false, None, [Ended(0, Outcome.Raised(killed))], {0}, None, []);
    var trace := [first, Observation(false, false, Some(0), [], {}, None, [])];
    var scheduler := new Scheduler([a, b], 1, job);
    ghost var start := scheduler.Position();
    SecondWaits(start, first, Outcome.Raised(killed));
    var passes, _, before := scheduler.Run(trace);
    BreaksInTheSecond(before, trace, passes, scheduler.raised);
    return scheduler.results, scheduler.raised;
  }
}
