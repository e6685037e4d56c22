/** Graceful shutdown: the stop flag and the deadline it sets, as the scheduler sees them. */
module Lifecycle {
  import opened Prelude
  import opened Progress
  import opened Deployment

  class Shutdown {
    const timeout: nat
    var stopping: bool
    var deadline: Option<int>
    var hooksRun: nat

    ghost predicate Valid()
      reads this
    {
      (stopping <==> deadline.Some?) && hooksRun == if stopping then 1 else 0
    }

    constructor (timeout: nat)
      ensures Valid() && !stopping && this.timeout == timeout
    {
      this.timeout, stopping, deadline, hooksRun := timeout, false, None, 0;
    }

    /** Only the first call counts: it sets the deadline and runs the hooks, once. */
    method BeginShutdown(now: int)
      requires Valid()
      modifies this
      ensures Valid() && stopping
      ensures deadline == if old(stopping) then old(deadline) else Some(now + timeout)
    {
      if stopping {
        return;
      }
      deadline := Some(now + timeout);
      stopping := true;
      hooksRun := hooksRun + 1;
    }

    /** None: no limit. */
    function TimeLeft(now: int): Option<nat>
      reads this
    {
      match deadline
      case None => None
      case Some(d) => Some(Max(0, d - now))
    }
  }

  /** The stop flag and the deadline as a pass of the loop sees them at some time. */
  method Look(shutdown: Shutdown, o: Observation, now: int) returns (seen: Observation)
    requires shutdown.Valid()
    ensures seen == o.(stopping := shutdown.stopping, expired := seen.expired)
    ensures seen.expired <==> shutdown.deadline.Some? && shutdown.deadline.value <= now
  {
    seen := o.(stopping := shutdown.stopping, expired := shutdown.TimeLeft(now) == Some(0));
  }

  /** Any number of stop requests; the first one decides. */
  method Ask(shutdown: Shutdown, requests: seq<int>)
    requires shutdown.Valid() && !shutdown.stopping
    modifies shutdown
    ensures shutdown.Valid()
    ensures shutdown.deadline == if requests == [] then None else Some(requests[0] + shutdown.timeout)
  {
    var i := 0;
    while i < |requests|
      invariant 0 <= i <= |requests| && shutdown.Valid()
      invariant if i == 0 then !shutdown.stopping else shutdown.deadline == Some(requests[0] + shutdown.timeout)
    {
      shutdown.BeginShutdown(requests[i]);
      i := i + 1;
    }
  }

  /** However often a stop is asked for, and whatever workers and relay do, a deployment is over after its
      first pass at or past the first request's deadline, with every container accounted for unless the pool
      broke in a pass before the stop. */
  method StopsInTime(shutdown: Shutdown, scheduler: Scheduler, requests: seq<int>, before: seq<Observation>,
                     last: Observation, now: int)
    requires shutdown.Valid() && !shutdown.stopping && scheduler.Valid()
    requires requests != [] && requests[0] + shutdown.timeout <= now
    modifies shutdown, scheduler
    ensures scheduler.raised || (scheduler.queued == [] && scheduler.pending == {})
    ensures (forall o :: o in before ==> o.pool.None? || o.stopping) ==> !scheduler.raised
    ensures !scheduler.raised ==> multiset(ResultNames(scheduler.results)) == multiset(scheduler.agentNames)
  {
    Ask(shutdown, requests);
    var seen := Look(shutdown, last, now);
    var trace := before + [seen];
    assert trace[|before|].stopping && trace[|before|].expired;
    var passes, _, _ := scheduler.Run(trace);
    assert 0 < passes <= |before| ==> trace[passes - 1] in before;
  }

  /** Before the deadline no worker is given up, whatever passes there are: what was handed out goes on. */
  method NoneIsAbandonedInTime(shutdown: Shutdown, scheduler: Scheduler, requests: seq<int>, passes: seq<Observation>,
                               times: seq<int>)
    requires shutdown.Valid() && !shutdown.stopping && scheduler.Valid() && !scheduler.abandoned
    requires |times| == |passes|
    requires requests == [] || forall i :: 0 <= i < |times| ==> times[i] < requests[0] + shutdown.timeout
    modifies shutdown, scheduler
    ensures !scheduler.abandoned
  {
    Ask(shutdown, requests);
    var trace: seq<Observation> := [];
    while |trace| < |passes|
      modifies {}
      invariant |trace| <= |passes| && forall i :: 0 <= i < |trace| ==> !trace[i].expired
    {
      var seen := Look(shutdown, passes[|trace|], times[|trace|]);
      trace := trace + [seen];
    }
    var _, _, _ := scheduler.Run(trace);
  }
}
