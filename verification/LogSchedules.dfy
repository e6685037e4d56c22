/** Recurring log uploads: one asyncio task per schedule, its record in a persistent store, and what
    restarts, graceful or not, make of it. */
module LogSchedules {
  import opened Prelude
  import opened Records

  /** The store log schedules live in. */
  const STORE := Config({Running, Starting, Queued}, {Task}, true)

  /** What was asked for; nothing changes it later. `request` stands for the upload itself. */
  datatype Terms = Terms(createdAt: int, duration: Option<int>, indefinite: bool, request: bool)

  /** A schedule's record, without its task handle. */
  datatype Schedule = Schedule(
    terms: Terms, status: Word, before: Option<Word>, interruptedAt: Option<int>,
    lastRun: Option<int>, runs: nat, lastError: Option<string>, problem: Option<Word>,
    resumedAt: Option<int>, resumes: nat, ranOut: bool)

  /** The coroutine of a schedule: created but not begun, in its loop, finished. `launched` is when it
      was created, `began` when its first step ran and its clock started. */
  datatype Task =
    | NoTask
    | Pending(launched: int, limit: Option<int>)
    | Looping(launched: int, began: int, limit: Option<int>)
    | Done

  /** One schedule in its process: the record in memory, the row, the task, whether a cancellation is
      on its way to the event loop, whether a stop has begun, whether the process is still starting up. */
  datatype System = System(mem: Schedule, disk: Schedule, task: Task, cancelling: bool, stopping: bool, booting: bool)

  datatype Event =
    | Begin                                                // the task's first step
    | Check(present: bool, failure: Option<string>)        // one turn of its loop
    | Cancelled                                            // the queued cancellation arrives
    | Fail(why: string)                                    // any other exception in the loop
    | UserStop
    | Stop                                                 // a graceful stop of the process begins
    | Flush
    | Load                                                 // a new process, after a stop or a crash
    | Resume                                               // its startup reaches the schedules

  predicate Live(task: Task) {
    task.Pending? || task.Looping?
  }

  /** created_at + duration, for a timed schedule. */
  function Deadline(m: Schedule): int {
    m.terms.createdAt + if m.terms.duration.Some? then m.terms.duration.value else 0
  }

  predicate Going(status: Word) {
    status == Running || status == Starting
  }

  /** What a user asked to create: a duration unless indefinite. */
  predicate Valid(m: Schedule) {
    m.terms.indefinite || (m.terms.duration.Some? && m.terms.duration.value != 0)
  }

  function Created(createdAt: int, duration: Option<int>, indefinite: bool): System {
    var terms := Terms(createdAt, duration, indefinite, true);
    var m := Schedule(terms, Starting, None, None, None, 0, None, None, None, 0, false);
    System(m, m, Pending(createdAt, duration), false, false, false)
  }

  predicate TimeIsUp(m: Schedule, task: Task, now: int) {
    task.Looping? && !m.terms.indefinite && task.limit.Some? && now - task.began >= task.limit.value
  }

  function CheckStep(s: System, present: bool, failure: Option<string>, now: int): System {
    if !s.task.Looping? then s
    else if !present then s.(mem := s.mem.(status := Stopped, problem := Some(ContainerNotFound)), task := Done)
    else
      var m := s.mem.(lastRun := Some(now), runs := s.mem.runs + 1,
                      lastError := if failure.Some? then failure else s.mem.lastError);
      if TimeIsUp(m, s.task, now) then s.(mem := m.(status := Completed), task := Done) else s.(mem := m)
  }

  /** A task cancelled before its first step ends without running any of its code. */
  function CancelledStep(s: System): System {
    if !s.cancelling || !Live(s.task) then s
    else
      s.(task := Done, cancelling := false,
         mem := if s.task.Looping? && s.mem.status != Interrupted then s.mem.(status := Stopped) else s.mem)
  }

  function StopStep(s: System): System {
    if s.stopping then s
    else if Going(s.mem.status) then
      s.(stopping := true, cancelling := Live(s.task),
         mem := s.mem.(before := Some(s.mem.status), status := Interrupted))
    else s.(stopping := true)
  }

  /** What the store's `load` makes of a schedule's row. */
  function Reloaded(m: Schedule, now: int): Schedule {
    if Going(m.status) || m.status == Queued
    then m.(before := Some(m.status), status := Interrupted, interruptedAt := Some(now)) else m
  }

  predicate Resumable(m: Schedule) {
    m.status == Interrupted && m.terms.request && m.before.Some? && Going(m.before.value)
  }

  function Remaining(m: Schedule, now: int): int {
    Deadline(m) - now
  }

  function Relaunched(m: Schedule, now: int): Schedule {
    m.(status := Starting, resumedAt := Some(now), resumes := m.resumes + 1)
  }

  function ResumeStep(s: System, now: int): System {
    if !s.booting then s
    else if !Resumable(s.mem) then s.(booting := false)
    else if !s.mem.terms.indefinite && Remaining(s.mem, now) <= 0 then
      var m := s.mem.(status := Completed, ranOut := true);
      s.(mem := m, disk := m, booting := false)
    else
      var m := Relaunched(s.mem, now);
      var limit := if m.terms.indefinite then None else Some(Remaining(s.mem, now));
      s.(mem := m, disk := m, booting := false, task := Pending(now, limit))
  }

  function Next(s: System, e: Event, now: int): System {
    match e
    case Begin =>
      if s.task.Pending?
      then s.(mem := s.mem.(status := Running), task := Looping(s.task.launched, now, s.task.limit)) else s
    case Check(present, failure) => CheckStep(s, present, failure, now)
    case Cancelled => CancelledStep(s)
    case Fail(why) =>
      if s.task.Looping? then s.(mem := s.mem.(status := Failed, problem := Some(Text(why))), task := Done) else s
    case UserStop =>
      s.(mem := s.mem.(status := Stopped), task := if Live(s.task) then Done else s.task, cancelling := false)
    case Stop => StopStep(s)
    case Flush => s.(disk := s.mem)
    case Load =>
      var m := Reloaded(s.disk, now);
      System(m, m, NoTask, false, false, true)
    case Resume => ResumeStep(s, now)
  }

  // --- the record as the store keeps it ---

  function Put(m: map<Key, Json>, k: Key, v: Option<Json>): map<Key, Json> {
    if v.Some? then m[k := v.value] else m
  }

  function AsNum(n: Option<int>): Option<Json> {
    if n.Some? then Some(Num(n.value)) else None
  }

  function AsWord(w: Option<Word>): Option<Json> {
    if w.Some? then Some(Str(w.value)) else None
  }

  function TermEntries(m: Schedule): map<Key, Json> {
    var terms := map[CreatedAt := Num(m.terms.createdAt), Indefinite := Bool(m.terms.indefinite),
                     Runs := Num(m.runs), Resumes := Num(m.resumes)];
    var timed := Put(Put(terms, Duration, AsNum(m.terms.duration)), LastRun, AsNum(m.lastRun));
    Put(timed, ResumedAt, AsNum(m.resumedAt))
  }

  /** The entries no restart touches. */
  function Entries(m: Schedule): map<Key, Json> {
    var notes := Put(Put(TermEntries(m), Problem, AsWord(m.problem)),
                     Request, if m.terms.request then Some(Bool(true)) else None);
    Put(Put(notes, LastError, if m.lastError.Some? then Some(Str(Text(m.lastError.value))) else None),
        CompletedNote, if m.ranOut then Some(Str(RanOut)) else None)
  }

  function Dressed(entries: map<Key, Json>, status: Word, before: Option<Word>, interruptedAt: Option<int>):
    map<Key, Json>
  {
    Put(Put(entries, StatusBeforeRestart, AsWord(before)), InterruptedAt, AsNum(interruptedAt))[Status := Str(status)]
  }

  function Encode(m: Schedule): Json {
    Object(Dressed(Entries(m), m.status, m.before, m.interruptedAt))
  }

  lemma EntriesKeys(m: Schedule)
    ensures Entries(m).Keys !! {Status, StatusBeforeRestart, InterruptedAt, Detection, Records.Task}
  {
  }

  lemma EntriesUntouched(m: Schedule, now: int)
    ensures Entries(Reloaded(m, now)) == Entries(m)
  {
  }

  lemma DressedRecovers(entries: map<Key, Json>, status: Word, before: Option<Word>, at: Option<int>, now: int)
    requires entries.Keys !! {Status, StatusBeforeRestart, InterruptedAt, Detection}
    ensures Recovered(STORE, Object(Dressed(entries, status, before, at)), now) ==
            Object(if status in STORE.active then Dressed(entries, Interrupted, Some(status), Some(now))
                   else Dressed(entries, status, before, at))
  {
    var v := Object(Dressed(entries, status, before, at));
    if status in STORE.active {
      assert Interrupt(STORE, v, now).fields == Dressed(entries, Interrupted, Some(status), Some(now));
    }
  }

  /** Reloading here is the store's own recovery of the encoded record, whatever task handle the
      record held when it was saved. */
  lemma ReloadedIsRecovered(m: Schedule, now: int, handle: Json)
    ensures Serialize(STORE, Object(Encode(m).fields[Records.Task := handle])) == Data(Encode(m))
    ensures Recovered(STORE, Encode(m), now) == Encode(Reloaded(m, now))
  {
    EntriesKeys(m);
    EntriesUntouched(m, now);
    DressedRecovers(Entries(m), m.status, m.before, m.interruptedAt, now);
    var fields := Encode(m).fields;
    assert fields[Records.Task := handle] - STORE.transient == fields;
  }

  lemma PutAt(m: map<Key, Json>, k: Key, v: Option<Json>, j: Key)
    ensures j in Put(m, k, v) <==> j in m || (j == k && v.Some?)
    ensures j in m && (j != k || v.None?) ==> Put(m, k, v)[j] == m[j]
    ensures j == k && v.Some? ==> Put(m, k, v)[j] == v.value
  {
  }

  /** What the record should hold under a name, if anything. */
  function FieldOf(m: Schedule, k: Key): Option<Json> {
    match k
    case Status => Some(Str(m.status))
    case StatusBeforeRestart => AsWord(m.before)
    case InterruptedAt => AsNum(m.interruptedAt)
    case CreatedAt => Some(Num(m.terms.createdAt))
    case Duration => AsNum(m.terms.duration)
    case Indefinite => Some(Bool(m.terms.indefinite))
    case Request => if m.terms.request then Some(Bool(true)) else None
    case Runs => Some(Num(m.runs))
    case LastRun => AsNum(m.lastRun)
    case LastError => if m.lastError.Some? then Some(Str(Text(m.lastError.value))) else None
    case Problem => AsWord(m.problem)
    case Resumes => Some(Num(m.resumes))
    case ResumedAt => AsNum(m.resumedAt)
    case CompletedNote => if m.ranOut then Some(Str(RanOut)) else None
    case _ => None
  }

  lemma TermEntriesHold(m: Schedule, k: Key)
    requires k !in {Problem, Request, LastError, CompletedNote, Status, StatusBeforeRestart, InterruptedAt}
    ensures k in TermEntries(m) <==> FieldOf(m, k).Some?
    ensures k in TermEntries(m) ==> TermEntries(m)[k] == FieldOf(m, k).value
  {
  }

  lemma EntriesHold(m: Schedule, k: Key)
    requires k !in {Status, StatusBeforeRestart, InterruptedAt}
    ensures k in Entries(m) <==> FieldOf(m, k).Some?
    ensures k in Entries(m) ==> Entries(m)[k] == FieldOf(m, k).value
  {
    assert TermEntries(m).Keys !! {Problem, Request, LastError, CompletedNote};
    if k !in {Problem, Request, LastError, CompletedNote} {
      TermEntriesHold(m, k);
    }
  }

  /** The record holds every field under its own name, one that is not set not at all, and nothing else. */
  lemma EncodesEachField(m: Schedule, k: Key)
    ensures k in Encode(m).fields <==> FieldOf(m, k).Some?
    ensures k in Encode(m).fields ==> Encode(m).fields[k] == FieldOf(m, k).value
  {
    var withBefore := Put(Entries(m), StatusBeforeRestart, AsWord(m.before));
    PutAt(Entries(m), StatusBeforeRestart, AsWord(m.before), k);
    PutAt(withBefore, InterruptedAt, AsNum(m.interruptedAt), k);
    EntriesKeys(m);
    if k !in {Status, StatusBeforeRestart, InterruptedAt} {
      EntriesHold(m, k);
    }
  }

  // --- what the record tells ---

  /** A turn of the loop that uploads. */
  predicate Uploads(s: System, e: Event) {
    s.task.Looping? && e.Check? && e.present
  }

  /** A startup that takes the schedule up again. */
  predicate Relaunches(s: System, e: Event, now: int) {
    && s.booting && e.Resume? && s.mem.status == Interrupted && s.mem.terms.request
    && s.mem.before in {Some(Running), Some(Starting)} && (s.mem.terms.indefinite || now < Deadline(s.mem))
  }

  /** A startup that finds its time over. */
  predicate FindsItOver(s: System, e: Event, now: int) {
    && s.booting && e.Resume? && s.mem.status == Interrupted && s.mem.terms.request
    && s.mem.before in {Some(Running), Some(Starting)} && !s.mem.terms.indefinite && now >= Deadline(s.mem)
  }

  /** Which events change which notes of the record, where a new process has what the row had. */
  lemma NotesChangeOnlyBy(s: System, e: Event, now: int)
    ensures var m, n := if e.Load? then s.disk else s.mem, Next(s, e, now).mem;
            && n.terms == m.terms
            && n.runs == m.runs + (if Uploads(s, e) then 1 else 0)
            && n.lastRun == (if Uploads(s, e) then Some(now) else m.lastRun)
            && n.lastError == (if Uploads(s, e) && e.failure.Some? then e.failure else m.lastError)
            && n.problem == (if s.task.Looping? && e.Check? && !e.present then Some(ContainerNotFound)
                             else if s.task.Looping? && e.Fail? then Some(Text(e.why)) else m.problem)
            && n.resumes == m.resumes + (if Relaunches(s, e, now) then 1 else 0)
            && n.resumedAt == (if Relaunches(s, e, now) then Some(now) else m.resumedAt)
            && n.ranOut == (m.ranOut || FindsItOver(s, e, now))
  {
  }

  /** Which events change the row, the flags and the task. */
  lemma RestChangesOnlyBy(s: System, e: Event, now: int)
    ensures var t := Next(s, e, now);
            && t.disk == (if e.Flush? then s.mem
                          else if e.Load? || Relaunches(s, e, now) || FindsItOver(s, e, now) then t.mem else s.disk)
            && (t.stopping <==> !e.Load? && (e.Stop? || s.stopping))
            && (t.booting <==> e.Load? || (s.booting && !e.Resume?))
            && (t.cancelling <==>
                  if e.Stop? && !s.stopping && Going(s.mem.status) then Live(s.task)
                  else s.cancelling && !e.Load? && !e.UserStop? && !(e.Cancelled? && Live(s.task)))
            && (e.Stop? && s.stopping ==> t == s)
            && (Relaunches(s, e, now) ==>
                  t.task == Pending(now, if s.mem.terms.indefinite then None else Some(Deadline(s.mem) - now)))
            && (e.Begin? && s.task.Pending? ==> t.task == Looping(s.task.launched, now, s.task.limit))
  {
  }

  /** A new schedule has done nothing yet, and its row is as its record. */
  lemma CreatedHasDoneNothing(createdAt: int, duration: Option<int>, indefinite: bool)
    ensures var s := Created(createdAt, duration, indefinite);
            && s.mem.terms == Terms(createdAt, duration, indefinite, true) && s.mem.status == Starting
            && s.mem.runs == s.mem.resumes == 0 && !s.mem.ranOut && s.disk == s.mem
            && s.mem.lastRun == s.mem.resumedAt == s.mem.interruptedAt == None
            && s.mem.lastError == None && s.mem.problem == s.mem.before == None
            && s.task == Pending(createdAt, duration) && !s.cancelling && !s.stopping && !s.booting
  {
  }

  // --- what every run keeps ---

  predicate SameTerms(m: Schedule, n: Schedule) {
    m.terms == n.terms
  }

  predicate Ended(m: Schedule) {
    m.status == Stopped || m.status == Completed || m.status == Failed
  }

  /** Whether a restart may take the schedule up again. */
  predicate Alive(m: Schedule) {
    Going(m.status) || (m.status == Interrupted && m.before.Some? && Going(m.before.value))
  }

  /** A timed schedule's task was launched for exactly the time then left. */
  predicate OnTime(m: Schedule, task: Task, now: int) {
    && (Live(task) && !m.terms.indefinite ==> task.limit.Some? && task.launched + task.limit.value == Deadline(m))
    && (Live(task) ==> task.launched <= now)
    && (task.Looping? ==> task.launched <= task.began <= now)
  }

  /** Who has a task, and what its status may be. */
  predicate Coherent(s: System) {
    && (Alive(s.mem) || Ended(s.mem)) && (Alive(s.disk) || Ended(s.disk))
    && (Live(s.task) ==> Alive(s.mem) && !s.booting)
    && (Going(s.mem.status) ==> Live(s.task))
    && (Ended(s.disk) ==> Ended(s.mem))
    && (s.cancelling ==> s.stopping && !s.booting) && (s.cancelling && s.task.Pending? ==> s.mem.status == Interrupted)
    && (s.mem.status == Starting ==> s.task.Pending?)
    && (s.task.Pending? && s.mem.status == Interrupted ==> s.stopping)
  }

  predicate NotEarly(m: Schedule, now: int) {
    m.status == Completed ==> !m.terms.indefinite && Deadline(m) <= now
  }

  predicate Sound(s: System, now: int)
  {
    && Valid(s.mem) && SameTerms(s.mem, s.disk) && OnTime(s.mem, s.task, now) && Coherent(s)
    && NotEarly(s.mem, now) && NotEarly(s.disk, now)
  }

  lemma StepSameTerms(s: System, e: Event, now: int)
    requires SameTerms(s.mem, s.disk)
    ensures SameTerms(Next(s, e, now).mem, s.mem) && SameTerms(Next(s, e, now).disk, s.mem)
  {
  }

  lemma StepOnTime(s: System, e: Event, before: int, now: int)
    requires Valid(s.mem) && OnTime(s.mem, s.task, before) && before <= now
    ensures var t := Next(s, e, now); OnTime(t.mem, t.task, now)
  {
  }

  lemma StepCoherent(s: System, e: Event, now: int)
    requires Coherent(s)
    ensures Coherent(Next(s, e, now))
  {
  }

  lemma StepNotEarly(s: System, e: Event, before: int, now: int)
    requires Sound(s, before) && before <= now
    ensures NotEarly(Next(s, e, now).mem, now) && NotEarly(Next(s, e, now).disk, now)
  {
    StepSameTerms(s, e, now);
    StepOnTime(s, e, before, now);
  }

  lemma StepSound(s: System, e: Event, before: int, now: int)
    requires Sound(s, before) && before <= now
    ensures Sound(Next(s, e, now), now) && SameTerms(Next(s, e, now).mem, s.mem)
  {
    StepSameTerms(s, e, now);
    StepOnTime(s, e, before, now);
    StepCoherent(s, e, now);
    StepNotEarly(s, e, before, now);
  }

  /** A run: events at times that never go back. */
  predicate Reaches(s: System, from: int, events: seq<(Event, int)>, t: System, now: int)
    decreases |events|
  {
    if events == [] then t == s && from <= now
    else from <= events[0].1 && Reaches(Next(s, events[0].0, events[0].1), events[0].1, events[1..], t, now)
  }

  lemma {:induction false} RunSound(s: System, from: int, events: seq<(Event, int)>, t: System, now: int)
    requires Sound(s, from) && Reaches(s, from, events, t, now)
    ensures Sound(t, now) && SameTerms(t.mem, s.mem) && from <= now
    decreases |events|
  {
    if events != [] {
      StepSound(s, events[0].0, from, events[0].1);
      RunSound(Next(s, events[0].0, events[0].1), events[0].1, events[1..], t, now);
    }
  }

  lemma CreatedSound(createdAt: int, duration: Option<int>, indefinite: bool)
    requires indefinite || (duration.Some? && duration.value != 0)
    ensures Sound(Created(createdAt, duration, indefinite), createdAt)
  {
  }

  // --- deadlines ---

  /** However often the process restarted, a check completes the schedule exactly when its container is
      there and the time is created_at + duration plus how long the latest launch waited for its first step:
      earlier lives of the process add nothing. */
  lemma CompletesAtItsDeadline(createdAt: int, duration: Option<int>, indefinite: bool, events: seq<(Event, int)>,
                               s: System, present: bool, failure: Option<string>, now: int)
    requires indefinite || (duration.Some? && duration.value != 0)
    requires Reaches(Created(createdAt, duration, indefinite), createdAt, events, s, now) && s.task.Looping?
    ensures var t := Next(s, Check(present, failure), now);
            t.mem.status == Completed <==>
              present && !indefinite && now >= createdAt + duration.value + (s.task.began - s.task.launched)
  {
    CreatedSound(createdAt, duration, indefinite);
    RunSound(Created(createdAt, duration, indefinite), createdAt, events, s, now);
  }

  /** No run completes a schedule before its time, and none completes an indefinite one. */
  lemma NeverEarly(createdAt: int, duration: Option<int>, indefinite: bool, events: seq<(Event, int)>, s: System,
                   now: int)
    requires indefinite || (duration.Some? && duration.value != 0)
    requires Reaches(Created(createdAt, duration, indefinite), createdAt, events, s, now)
    ensures s.mem.status == Completed ==> !indefinite && now >= createdAt + duration.value
  {
    CreatedSound(createdAt, duration, indefinite);
    RunSound(Created(createdAt, duration, indefinite), createdAt, events, s, now);
  }

  /** A restart at `now`, with the startup reaching the schedules at `then`, takes it up again exactly when
      its row was alive and, unless indefinite, its time was not over; a timed one whose time is over is
      completed. */
  lemma RestartOutcome(s: System, now: int, later: int)
    requires Sound(s, now) && now <= later && s.mem.terms.request
    ensures var t := Next(Next(s, Load, now), Resume, later);
            && (Live(t.task) <==> Alive(s.disk) && (s.disk.terms.indefinite || later < Deadline(s.disk)))
            && (t.mem.status == Completed && s.disk.status != Completed <==>
                  Alive(s.disk) && !s.disk.terms.indefinite && later >= Deadline(s.disk))
            && t.disk == t.mem
  {
  }

  // --- endings are final ---

  /** Once an ended status is in the table, no run and no restart ever launches the schedule again. */
  lemma {:induction false} FlushedEndIsFinal(s: System, from: int, events: seq<(Event, int)>, t: System, now: int)
    requires Sound(s, from) && Ended(s.disk) && Reaches(s, from, events, t, now)
    ensures Ended(t.disk) && Ended(t.mem) && !Live(t.task)
    decreases |events|
  {
    if events != [] {
      var u := Next(s, events[0].0, events[0].1);
      StepSound(s, events[0].0, from, events[0].1);
      FlushedEndIsFinal(u, events[0].1, events[1..], t, now);
    }
  }

  /** An ending kept only in memory does not survive a crash. */
  lemma UnflushedEndIsForgotten(s: System, from: int, now: int)
    requires Sound(s, from) && from <= now && Ended(s.mem) && Alive(s.disk)
    requires s.mem.terms.request && s.disk.terms.indefinite
    ensures Live(Next(Next(s, Load, now), Resume, now).task)
    ensures !Live(Next(Next(Next(s, Event.Flush, now), Load, now), Resume, now).task)
  {
  }

  // --- what ends a schedule ---

  /** The events that end a schedule that was going: its container is gone, its time is up, an error, the
      user, or a cancellation that finds it running again after the stop had marked it interrupted. */
  predicate Ends(s: System, e: Event, now: int) {
    match e
    case Check(present, _) => s.task.Looping? && (!present || TimeIsUp(s.mem, s.task, now))
    case Fail(_) => s.task.Looping?
    case UserStop => true
    case Cancelled => s.cancelling && s.task.Looping? && s.mem.status == Running
    case Resume => s.booting && Resumable(s.mem) && !s.mem.terms.indefinite && Remaining(s.mem, now) <= 0
    case _ => false
  }

  predicate NothingEnds(s: System, events: seq<(Event, int)>)
    decreases |events|
  {
    events == [] || (!Ends(s, events[0].0, events[0].1) && NothingEnds(Next(s, events[0].0, events[0].1), events[1..]))
  }

  /** Exactly these events end a schedule that is alive in memory and in the table. */
  lemma EndsExactly(s: System, e: Event, from: int, now: int)
    requires Sound(s, from) && from <= now && Alive(s.mem) && Alive(s.disk)
    ensures Ended(Next(s, e, now).mem) <==> Ends(s, e, now)
    ensures !Ends(s, e, now) ==> Alive(Next(s, e, now).mem) && Alive(Next(s, e, now).disk)
  {
  }

  /** Through any number of crashes and stops a schedule that nothing ends is taken up again at every
      restart; for an indefinite one, time is not among the endings. */
  lemma {:induction false} SurvivesEveryRestart(s: System, from: int, events: seq<(Event, int)>, t: System, now: int)
    requires Sound(s, from) && Alive(s.mem) && Alive(s.disk) && s.mem.terms.request
    requires Reaches(s, from, events, t, now) && NothingEnds(s, events)
    ensures Alive(t.mem) && Alive(t.disk)
    ensures var u := Next(Next(t, Load, now), Resume, now);
            Live(u.task) <==> t.disk.terms.indefinite || now < Deadline(t.disk)
    decreases |events|
  {
    RunSound(s, from, events, t, now);
    if events == [] {
      RestartOutcome(t, now, now);
    } else {
      EndsExactly(s, events[0].0, from, events[0].1);
      StepSound(s, events[0].0, from, events[0].1);
      SurvivesEveryRestart(Next(s, events[0].0, events[0].1), events[0].1, events[1..], t, now);
    }
  }

  // --- graceful stop against crash ---

  /** What may still happen between a stop and the end of the process, with changes from outside refused. */
  predicate Draining(e: Event) {
    e.Begin? || e.Check? || e.Cancelled? || e.Fail? || e.Flush?
  }

  predicate Drain(events: seq<(Event, int)>) {
    forall i :: 0 <= i < |events| ==> Draining(events[i].0)
  }

  /** While it winds down, an ended schedule stays as it is. */
  lemma {:induction false} EndedStays(s: System, from: int, events: seq<(Event, int)>, t: System, now: int)
    requires Ended(s.mem) && !Live(s.task) && Drain(events) && Reaches(s, from, events, t, now)
    ensures t.mem == s.mem
    decreases |events|
  {
    if events != [] {
      EndedStays(Next(s, events[0].0, events[0].1), events[0].1, events[1..], t, now);
    }
  }

  /** A schedule alive when the process begins to wind down is alive at the end exactly when nothing ended it. */
  lemma {:induction false} WindingDown(s: System, from: int, events: seq<(Event, int)>, t: System, now: int)
    requires Sound(s, from) && Alive(s.mem) && Alive(s.disk)
    requires Drain(events) && Reaches(s, from, events, t, now)
    ensures Alive(t.mem) <==> NothingEnds(s, events)
    decreases |events|
  {
    if events != [] {
      var (e, at) := events[0];
      var u := Next(s, e, at);
      StepSound(s, e, from, at);
      EndsExactly(s, e, from, at);
      assert Drain(events[1..]) by {
        assert forall i :: 0 <= i < |events| - 1 ==> events[1..][i] == events[i + 1];
      }
      if Ends(s, e, at) {
        EndedStays(u, at, events[1..], t, now);
      } else {
        WindingDown(u, at, events[1..], t, now);
      }
    }
  }

  /** A crash brings back what is alive in the table, and so does a restart after a last flush. */
  lemma ReloadResumes(s: System, from: int, now: int)
    requires Sound(s, from) && s.mem.terms.request
    ensures Resumable(Next(s, Load, now).mem) <==> Alive(s.disk)
    ensures Resumable(Next(Next(s, Event.Flush, now), Load, now).mem) <==> Alive(s.mem)
  {
  }

  /** Whatever happens before the last flush: a crash brings back what is alive in the table, a graceful stop
      what is alive in memory and not ended while the process winds down. So the two agree exactly when no
      ending waits to be flushed and, if the schedule is alive, nothing ends it before the last flush. */
  lemma GracefulStopAgainstCrash(s: System, from: int, stopped: int, events: seq<(Event, int)>, t: System, now: int)
    requires Sound(s, from) && from <= stopped && !s.stopping && s.mem.terms.request
    requires Drain(events) && Reaches(Next(s, Stop, stopped), stopped, events, t, now)
    ensures var crashed, restarted := Next(s, Load, stopped).mem, Next(Next(t, Event.Flush, now), Load, now).mem;
            var quiet := NothingEnds(Next(s, Stop, stopped), events);
            && (Resumable(crashed) <==> Alive(s.disk))
            && (Resumable(restarted) <==> Alive(s.mem) && quiet)
            && ((Resumable(crashed) <==> Resumable(restarted)) <==>
                  !(Ended(s.mem) && Alive(s.disk)) && (Alive(s.mem) ==> quiet))
  {
    var u := Next(s, Stop, stopped);
    StepSound(s, Stop, from, stopped);
    RunSound(u, stopped, events, t, now);
    ReloadResumes(s, from, stopped);
    ReloadResumes(t, now, now);
    if Ended(s.mem) {
      EndedStays(u, stopped, events, t, now);
    } else {
      WindingDown(u, stopped, events, t, now);
    }
  }

  // --- what a stop itself can end ---

  /** No check and no error ends the schedule while the process winds down. */
  predicate NoCheckEnds(s: System, events: seq<(Event, int)>)
    decreases |events|
  {
    events == [] || (!(!events[0].0.Cancelled? && Ends(s, events[0].0, events[0].1))
                     && NoCheckEnds(Next(s, events[0].0, events[0].1), events[1..]))
  }

  predicate HasCancelled(events: seq<(Event, int)>)
    decreases |events|
  {
    events != [] && (events[0].0.Cancelled? || HasCancelled(events[1..]))
  }

  /** The task's first step comes before the cancellation that the stop queued, and that does come. */
  predicate BeginsThenCancelled(events: seq<(Event, int)>)
    decreases |events|
  {
    events != [] &&
    match events[0].0
    case Begin => HasCancelled(events[1..])
    case Cancelled => false
    case _ => BeginsThenCancelled(events[1..])
  }

  lemma {:induction false} QuietUnlessCancelled(s: System, events: seq<(Event, int)>)
    requires Drain(events) && NoCheckEnds(s, events) && !s.cancelling
    ensures NothingEnds(s, events)
    decreases |events|
  {
    if events != [] {
      assert forall i :: 0 <= i < |events| - 1 ==> events[1..][i] == events[i + 1];
      QuietUnlessCancelled(Next(s, events[0].0, events[0].1), events[1..]);
    }
  }

  lemma {:induction false} QuietIfInterrupted(s: System, events: seq<(Event, int)>)
    requires s.mem.status == Interrupted && !s.task.Pending?
    requires Drain(events) && NoCheckEnds(s, events)
    ensures NothingEnds(s, events)
    decreases |events|
  {
    if events != [] {
      assert forall i :: 0 <= i < |events| - 1 ==> events[1..][i] == events[i + 1];
      QuietIfInterrupted(Next(s, events[0].0, events[0].1), events[1..]);
    }
  }

  lemma {:induction false} QuietWhileRunning(s: System, events: seq<(Event, int)>)
    requires s.mem.status == Running && s.task.Looping? && s.cancelling
    requires Drain(events) && NoCheckEnds(s, events)
    ensures NothingEnds(s, events) <==> !HasCancelled(events)
    decreases |events|
  {
    if events != [] {
      assert forall i :: 0 <= i < |events| - 1 ==> events[1..][i] == events[i + 1];
      if !events[0].0.Cancelled? {
        QuietWhileRunning(Next(s, events[0].0, events[0].1), events[1..]);
      }
    }
  }

  lemma {:induction false} QuietWhilePending(s: System, events: seq<(Event, int)>)
    requires s.mem.status == Interrupted && s.task.Pending? && s.cancelling
    requires Drain(events) && NoCheckEnds(s, events)
    ensures NothingEnds(s, events) <==> !BeginsThenCancelled(events)
    decreases |events|
  {
    if events != [] {
      var u := Next(s, events[0].0, events[0].1);
      assert forall i :: 0 <= i < |events| - 1 ==> events[1..][i] == events[i + 1];
      if events[0].0.Begin? {
        QuietWhileRunning(u, events[1..]);
      } else if events[0].0.Cancelled? {
        QuietIfInterrupted(u, events[1..]);
      } else {
        QuietWhilePending(u, events[1..]);
      }
    }
  }

  /** Where no check and no error ends it, the stop itself ends a schedule in one case only: its task had not
      made its first step when the stop began, makes it before the queued cancellation arrives, and is
      then cancelled as "running". */
  lemma OnlyFreshSchedulesAreLost(s: System, from: int, stopped: int, events: seq<(Event, int)>, t: System, now: int)
    requires Sound(s, from) && from <= stopped && !s.stopping && s.mem.terms.request && Alive(s.mem)
    requires Drain(events) && Reaches(Next(s, Stop, stopped), stopped, events, t, now)
    requires NoCheckEnds(Next(s, Stop, stopped), events)
    ensures Resumable(Next(Next(t, Event.Flush, now), Load, now).mem) <==>
            !(s.task.Pending? && BeginsThenCancelled(events))
  {
    var u := Next(s, Stop, stopped);
    GracefulStopAgainstCrash(s, from, stopped, events, t, now);
    if s.task.Pending? {
      QuietWhilePending(u, events);
    } else {
      QuietIfInterrupted(u, events);
    }
  }

  /** The first exception: stopped by the user, then a crash before the next flush. */
  lemma UserStopIsUndone()
    ensures var s := Next(Next(Created(0, None, true), Begin, 1), UserStop, 2);
            && Live(Next(Next(s, Load, 3), Resume, 3).task)
            && !Live(Next(Next(Next(Next(s, Stop, 3), Event.Flush, 3), Load, 3), Resume, 3).task)
  {
  }

  /** The second: its time is up at the check made while the process winds down. */
  lemma LastCheckCompletes()
    ensures var s := Next(Created(0, Some(10), false), Begin, 0);
            var t := Next(Next(Next(s, Stop, 9), Check(true, None), 10), Event.Flush, 10);
            && Resumable(Next(s, Load, 9).mem)
            && t.disk.status == Completed && !Resumable(Next(t, Load, 10).mem)
  {
  }

  /** The third: created, stopped at once, begun, cancelled. */
  lemma FreshScheduleIsLost()
    ensures var s := Created(0, None, true);
            var t := Next(Next(Next(Next(s, Stop, 1), Begin, 1), Cancelled, 1), Event.Flush, 1);
            && Live(Next(Next(s, Load, 1), Resume, 1).task)
            && t.disk.status == Stopped && !Live(Next(Next(t, Load, 2), Resume, 2).task)
  {
  }

  // --- the loop of one task ---

  /** What one turn of the loop finds: the time, whether the container is there, how the upload failed. */
  datatype Turn = Turn(now: int, present: bool, failure: Option<string>)

  function Turned(s: System, turns: seq<Turn>): System
    decreases |turns|
  {
    if turns == [] then s else Turned(CheckStep(s, turns[0].present, turns[0].failure, turns[0].now), turns[1..])
  }

  predicate Last(s: System, turn: Turn) {
    !turn.present || TimeIsUp(s.mem, s.task, turn.now)
  }

  /** Undisturbed, the loop goes round until the first turn that finds the container gone or the time
      up, uploads once in every turn but one that finds it gone, and stops or completes accordingly. */
  lemma {:induction false} LoopsUntilTheFirstEnd(s: System, turns: seq<Turn>, j: nat)
    requires s.task.Looping? && j <= |turns|
    requires (forall i :: 0 <= i < j ==> !Last(s, turns[i])) && (j < |turns| ==> Last(s, turns[j]))
    ensures var t := Turned(s, turns);
            && (j == |turns| ==> t.task == s.task && t.mem.status == s.mem.status)
            && (j < |turns| ==> t.task.Done? && t.mem.status == (if turns[j].present then Completed else Stopped))
            && t.mem.runs == s.mem.runs + j + (if j < |turns| && turns[j].present then 1 else 0)
    decreases |turns|
  {
    if turns != [] {
      var u := CheckStep(s, turns[0].present, turns[0].failure, turns[0].now);
      if j == 0 {
        DoneTurnsNoMore(u, turns[1..]);
      } else {
        assert forall i :: 0 <= i < j - 1 ==> turns[1..][i] == turns[i + 1];
        LoopsUntilTheFirstEnd(u, turns[1..], j - 1);
      }
    }
  }

  lemma {:induction false} DoneTurnsNoMore(s: System, turns: seq<Turn>)
    requires !s.task.Looping?
    ensures Turned(s, turns) == s
    decreases |turns|
  {
    if turns != [] {
      DoneTurnsNoMore(s, turns[1..]);
    }
  }

  // --- all schedules of a process ---

  function CountLive(items: seq<System>): nat {
    if items == [] then 0 else (if Live(items[0].task) then 1 else 0) + CountLive(items[1..])
  }

  lemma {:induction false} CountLiveAppend(a: seq<System>, x: System)
    ensures CountLive(a + [x]) == CountLive(a) + (if Live(x.task) then 1 else 0)
  {
    if a == [] {
      assert a + [x] == [x];
    } else {
      assert (a + [x])[1..] == a[1..] + [x];
      CountLiveAppend(a[1..], x);
    }
  }

  /** It counts the schedules that have a task. */
  lemma {:induction false} CountsTheLive(items: seq<System>)
    ensures CountLive(items) == |set i | 0 <= i < |items| && Live(items[i].task)|
    decreases |items|
  {
    var live := set i | 0 <= i < |items| && Live(items[i].task);
    if items == [] {
      assert live == {};
    } else {
      var n := |items| - 1;
      var front := set i | 0 <= i < n && Live(items[..n][i].task);
      CountsTheLive(items[..n]);
      CountLiveAppend(items[..n], items[n]);
      assert items == items[..n] + [items[n]];
      assert live == if Live(items[n].task) then front + {n} else front;
    }
  }

  const MIN_INTERVAL := 5

  datatype Reply = Accepted | PaymentRequired | NotFound | TooOften | DurationRequired

  class Schedules {
    var items: seq<System>

    constructor ()
      ensures items == []
    {
      items := [];
    }

    /** The request to create a schedule: refused without a license, for a container that is not there, for
        an interval under five seconds, and without a duration unless indefinite. */
    method Create(licensed: bool, present: bool, interval: int, duration: Option<int>, indefinite: bool, now: int)
      returns (reply: Reply)
      modifies this
      ensures reply ==
        if !licensed then PaymentRequired else if !present then NotFound else if interval < 5 then TooOften
        else if indefinite || (duration.Some? && duration.value != 0) then Accepted else DurationRequired
      ensures items == if reply.Accepted? then old(items) + [Created(now, duration, indefinite)] else old(items)
      ensures reply.Accepted? ==> Sound(items[|items| - 1], now)
    {
      if !licensed {
        return PaymentRequired;
      }
      if !present {
        return NotFound;
      }
      if interval < MIN_INTERVAL {
        return TooOften;
      }
      if !indefinite && (duration.None? || duration.value == 0) {
        return DurationRequired;
      }
      CreatedSound(now, duration, indefinite);
      items := items + [Created(now, duration, indefinite)];
      reply := Accepted;
    }

    /** The coroutine of schedule `k`, from its first step through the turns that nothing interrupts. */
    method RunLogSchedule(k: nat, now: int, turns: seq<Turn>)
      requires k < |items| && items[k].task.Pending?
      modifies this
      ensures items == old(items)[k := Turned(Next(old(items)[k], Begin, now), turns)]
    {
      ghost var start := Next(items[k], Begin, now);
      var s := items[k];
      var startTime := now;
      s := s.(mem := s.mem.(status := Running), task := Looping(s.task.launched, startTime, s.task.limit));
      var i := 0;
      assert turns[0..] == turns;
      while i < |turns|
        invariant 0 <= i <= |turns| && s.task.Looping?
        invariant Turned(s, turns[i..]) == Turned(start, turns)
      {
        ghost var was := s;
        assert turns[i..][0] == turns[i] && turns[i..][1..] == turns[i + 1..];
        if !turns[i].present {
          s := s.(mem := s.mem.(status := Stopped, problem := Some(ContainerNotFound)), task := Done);
          DoneTurnsNoMore(s, turns[i + 1..]);
          break;
        }
        s := s.(mem := s.mem.(lastRun := Some(turns[i].now), runs := s.mem.runs + 1));
        if turns[i].failure.Some? {
          s := s.(mem := s.mem.(lastError := turns[i].failure));
        }
        if !s.mem.terms.indefinite && s.task.limit.Some? && turns[i].now - s.task.began >= s.task.limit.value {
          s := s.(mem := s.mem.(status := Completed), task := Done);
          DoneTurnsNoMore(s, turns[i + 1..]);
          break;
        }
        assert s == CheckStep(was, true, turns[i].failure, turns[i].now);
        i := i + 1;
      }
      items := items[k := s];
    }

    /** The cancellation queued for schedule `k` arrives: the handler around the loop. */
    method CancelTask(k: nat)
      requires k < |items|
      modifies this
      ensures items == old(items)[k := Next(old(items)[k], Cancelled, 0)]
    {
      var s := items[k];
      if !s.cancelling || !Live(s.task) {
        return;
      }
      if s.task.Looping? && s.mem.status != Interrupted {
        s := s.(mem := s.mem.(status := Stopped));
      }
      items := items[k := s.(task := Done, cancelling := false)];
    }

    /** The user stops schedule `k`. */
    method StopLogSchedule(k: nat)
      requires k < |items|
      modifies this
      ensures items == old(items)[k := Next(old(items)[k], UserStop, 0)]
    {
      var s := items[k];
      if Live(s.task) {
        s := s.(task := Done);
      }
      items := items[k := s.(cancelling := false, mem := s.mem.(status := Stopped))];
    }

    /** A stop began: interrupt every schedule that is going, and cancel its task. */
    method InterruptForShutdown(now: int)
      modifies this
      ensures |items| == |old(items)|
      ensures forall k :: 0 <= k < |items| ==> items[k] == Next(old(items)[k], Stop, now)
    {
      var i := 0;
      while i < |items|
        invariant 0 <= i <= |items| == |old(items)|
        invariant forall k :: 0 <= k < i ==> items[k] == Next(old(items)[k], Stop, now)
        invariant forall k :: i <= k < |items| ==> items[k] == old(items)[k]
      {
        var s := items[i];
        if !s.stopping && Going(s.mem.status) {
          s := s.(mem := s.mem.(before := Some(s.mem.status), status := Interrupted));
          if Live(s.task) {
            s := s.(cancelling := true);
          } else {
            s := s.(cancelling := false);
          }
        }
        items := items[i := s.(stopping := true)];
        i := i + 1;
      }
    }

    /** At startup, with every record just loaded: take up again what was interrupted, each at the time
        the clock then shows; how many were. */
    method ResumeLogSchedules(clock: seq<int>) returns (resumed: nat)
      requires |clock| == |items| && forall k :: 0 <= k < |items| ==> items[k].booting && items[k].task.NoTask?
      modifies this
      ensures |items| == |old(items)| && resumed == CountLive(items)
      ensures forall k :: 0 <= k < |items| ==> items[k] == Next(old(items)[k], Resume, clock[k])
    {
      resumed := 0;
      var i := 0;
      while i < |items|
        invariant 0 <= i <= |items| == |old(items)|
        invariant forall k :: 0 <= k < i ==> items[k] == Next(old(items)[k], Resume, clock[k])
        invariant forall k :: i <= k < |items| ==> items[k] == old(items)[k]
        invariant resumed == CountLive(items[..i])
      {
        var s := items[i].(booting := false);
        if Resumable(s.mem) {
          var remaining: Option<int> := None;
          if !s.mem.terms.indefinite {
            remaining := Some(Remaining(s.mem, clock[i]));
          }
          if remaining.Some? && remaining.value <= 0 {
            s := s.(mem := s.mem.(status := Completed, ranOut := true));
            s := s.(disk := s.mem);
          } else {
            s := s.(mem := Relaunched(s.mem, clock[i]));
            s := s.(disk := s.mem);
            s := s.(task := Pending(clock[i], remaining));
            resumed := resumed + 1;
          }
        }
        CountLiveAppend(items[..i], s);
        items := items[i := s];
        assert items[..i + 1] == items[..i] + [s];
        i := i + 1;
      }
      assert items[..i] == items;
    }
  }
}
