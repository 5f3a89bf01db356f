/** The window chain of episode planning (server/tool_runtime.py): windows are queued tasks in two
    slots, each running window may queue the next one, and planning can be stopped at any time. */
module PlanningChain {

  datatype Option<+T> = None | Some(value: T)

  datatype Slot = Planning | PlanningNext

  datatype Status = Queued | Running | Succeeded | Failed | Cancelled

  /** `facts` are the request facts of the payload; `chained` windows queue their successor. */
  datatype Task = Task(slot: Slot, status: Status, dependency: Option<nat>, facts: string, chained: bool) {
    predicate Active() {
      status.Queued? || status.Running?
    }
  }

  type Tasks = map<nat, Task>

  datatype Submission = Conflict(task: nat) | Joined(task: nat) | Enqueued(task: nat)

  /** What a user's cancellation of one window comes to. */
  datatype Cancellation = Unknown | NotCancellable | SkippedTerminal | Accepted

  predicate IsActive(tasks: Tasks, id: nat) {
    id in tasks && tasks[id].Active()
  }

  predicate IsRunning(tasks: Tasks, id: nat) {
    id in tasks && tasks[id].status.Running?
  }

  predicate IsQueued(tasks: Tasks, id: nat) {
    id in tasks && tasks[id].status.Queued?
  }

  /** A worker may claim the task. */
  predicate Claimable(tasks: Tasks, id: nat) {
    IsQueued(tasks, id) &&
    match tasks[id].dependency
    case None => true
    case Some(d) => d in tasks && tasks[d].status.Succeeded?
  }

  /** Two active windows are a running one and a queued one in the other slot that waits for it. */
  ghost predicate Chain(tasks: Tasks) {
    && (forall a, b | IsActive(tasks, a) && IsActive(tasks, b) && a != b ::
          (IsRunning(tasks, a) && IsQueued(tasks, b)) || (IsRunning(tasks, b) && IsQueued(tasks, a)))
    && (forall r, q | IsRunning(tasks, r) && IsQueued(tasks, q) ::
          tasks[q].slot != tasks[r].slot && tasks[q].dependency == Some(r))
    && (forall q | IsQueued(tasks, q) && !Claimable(tasks, q) ::
          exists r: nat :: IsRunning(tasks, r) && tasks[q].dependency == Some(r))
  }

  /** After a stop that reported `running`: nothing else is active, and what runs will not queue more. */
  ghost predicate Stopped(tasks: Tasks, stopped: set<nat>, running: set<nat>) {
    forall id | IsActive(tasks, id) ::
      IsRunning(tasks, id) && id in running && (tasks[id].chained ==> id in stopped)
  }

  /** A failing or cancelled task takes the queued tasks that depend on it along. */
  function Cascade(tasks: Tasks, id: nat, status: Status): (r: Tasks)
    ensures r.Keys == tasks.Keys
  {
    map t | t in tasks ::
      if tasks[t].status.Queued? && tasks[t].dependency == Some(id) then tasks[t].(status := status) else tasks[t]
  }

  class PlanningQueue {
    var tasks: Tasks
    var nextId: nat
    var stopped: set<nat>                     // running windows that were asked to stop
    ghost var stopReport: Option<set<nat>>    // what the last stop reported as running, until the next start

    ghost predicate Valid()
      reads this
    {
      && (forall id <- tasks :: id < nextId)
      && (forall id <- stopped :: id < nextId)
      && Chain(tasks)
      && (stopReport.Some? ==> Stopped(tasks, stopped, stopReport.value))
    }

    constructor ()
      ensures Valid() && tasks == map[] && stopReport.None?
    {
      tasks, nextId, stopped, stopReport := map[], 0, {}, None;
    }

    /** Queues a task unless its slot already holds an active one, which is returned instead. */
    method Enqueue(task: Task) returns (id: nat, deduped: bool)
      requires task.status.Queued?
      modifies this`tasks, this`nextId
      ensures deduped ==> IsActive(tasks, id) && tasks[id].slot == task.slot
      ensures deduped ==> tasks == old(tasks) && nextId == old(nextId)
      ensures !deduped ==> id == old(nextId) && nextId == id + 1 && tasks == old(tasks)[id := task]
      ensures deduped <==> exists t <- old(tasks) :: IsActive(old(tasks), t) && old(tasks)[t].slot == task.slot
    {
      if t :| t in tasks && IsActive(tasks, t) && tasks[t].slot == task.slot {
        return t, true;
      }
      id, deduped := nextId, false;
      tasks := tasks[id := task];
      nextId := nextId + 1;
    }

    /** Submission of a first window: any active window with another slot or other facts is a conflict. */
    method Start(facts: string, chained: bool) returns (outcome: Submission)
      requires Valid()
      modifies this
      ensures Valid() && stopped == old(stopped)
      ensures match outcome
        case Conflict(t) =>
          && IsActive(old(tasks), t) && (old(tasks)[t].slot != Planning || old(tasks)[t].facts != facts)
          && tasks == old(tasks)
        case Joined(t) =>
          && IsActive(old(tasks), t) && old(tasks)[t].slot == Planning && old(tasks)[t].facts == facts
          && tasks == old(tasks)
        case Enqueued(t) =>
          && (forall id :: !IsActive(old(tasks), id)) && t !in old(tasks)
          && tasks == old(tasks)[t := Task(Planning, Queued, None, facts, chained)]
    {
      if t :| t in tasks && IsActive(tasks, t) && (tasks[t].slot != Planning || tasks[t].facts != facts) {
        return Conflict(t);
      }
      var id, deduped := Enqueue(Task(Planning, Queued, None, facts, chained));
      if !deduped { stopReport := None; }
      outcome := if deduped then Joined(id) else Enqueued(id);
    }

    /** A worker takes a claimable window. */
    method Claim(id: nat) returns (claimed: bool)
      requires Valid()
      modifies this`tasks
      ensures Valid()
      ensures claimed <==> Claimable(old(tasks), id)
      ensures tasks == if claimed then old(tasks)[id := old(tasks)[id].(status := Running)] else old(tasks)
      ensures claimed ==> forall r | IsRunning(tasks, r) :: r == id
    {
      claimed := Claimable(tasks, id);
      if claimed {
        ClaimKeepsChain(tasks, id);
        tasks := tasks[id := tasks[id].(status := Running)];
      }
    }

    /** The running window `id` queues its successor unless it was asked to stop. */
    method QueueNextWindow(id: nat)
      requires Valid() && IsRunning(tasks, id) && tasks[id].chained
      modifies this`tasks, this`nextId
      ensures Valid()
      ensures id in stopped ==> tasks == old(tasks)
      ensures id !in stopped && (exists q :: IsQueued(old(tasks), q)) ==> tasks == old(tasks)
      ensures id !in stopped && !(exists q :: IsQueued(old(tasks), q)) ==>
        && var t := old(tasks)[id];
           var slot := if t.slot.Planning? then PlanningNext else Planning;
           tasks == old(tasks)[old(nextId) := Task(slot, Queued, Some(id), t.facts, t.chained)]
    {
      if id in stopped { return; }
      var t := tasks[id];
      var slot := if t.slot == Planning then PlanningNext else Planning;
      QueueNextKeepsChain(tasks, id, nextId);
      var _, _ := Enqueue(Task(slot, Queued, Some(id), t.facts, t.chained));
    }

    /** The running window ends. `ranPlanner` tells whether it got as far as the planner, whose `finally`
        forgets the stop request. */
    method Finish(id: nat, success: bool, ranPlanner: bool)
      requires Valid() && IsRunning(tasks, id)
      modifies this`tasks, this`stopped
      ensures Valid()
      ensures stopped == old(stopped) - (if ranPlanner && old(tasks)[id].chained then {id} else {})
      ensures tasks == Ended(old(tasks), id, success)
    {
      EndKeepsChain(tasks, id, success);
      if ranPlanner && tasks[id].chained { stopped := stopped - {id}; }
      if success {
        tasks := tasks[id := tasks[id].(status := Succeeded)];
      } else {
        tasks := Cascade(tasks[id := tasks[id].(status := Failed)], id, Failed);
      }
    }

    /** A user cancels one window. An unknown one and a running one are errors, one that has ended is left
        alone. */
    method Cancel(id: nat) returns (answer: Cancellation)
      requires Valid()
      modifies this`tasks
      ensures Valid()
      ensures answer == CancellationOf(old(tasks), id)
      ensures tasks == if answer == Accepted then Withdrawn(old(tasks), id) else old(tasks)
    {
      if id !in tasks {
        return Unknown;
      }
      if tasks[id].status.Running? {
        return NotCancellable;
      }
      if !tasks[id].status.Queued? {
        return SkippedTerminal;
      }
      CancelKeepsChain(tasks, id);
      CancelTask(id);
      return Accepted;
    }

    method CancelTask(id: nat)
      requires IsQueued(tasks, id)
      modifies this`tasks
      ensures tasks == Withdrawn(old(tasks), id)
    {
      tasks := Cascade(tasks[id := tasks[id].(status := Cancelled)], id, Cancelled);
    }

    /** Cancels the queued window and marks the running one; both lists are reported. */
    method Stop() returns (cancelled: set<nat>, running: set<nat>)
      requires Valid()
      modifies this`tasks, this`stopped, this`stopReport
      ensures Valid() && stopReport == Some(running)
      ensures forall id :: id in cancelled <==> IsQueued(old(tasks), id)
      ensures forall id :: id in running <==> IsRunning(old(tasks), id)
      ensures forall id | IsActive(tasks, id) :: id in running
      ensures stopped == old(stopped) + running
      ensures tasks == CancelAll(old(tasks), cancelled)
    {
      var active := set id | id in tasks && IsActive(tasks, id);
      ghost var before, marked := tasks, stopped;
      cancelled, running := {}, {};
      for id := 0 to nextId
        invariant Sorted(before, id, cancelled, running)
        invariant tasks == CancelAll(before, cancelled) && stopped == marked + running
      {
        ghost var c, r := cancelled, running;
        if id in active {
          if tasks[id].status.Queued? {
            CancelOnlyOne(before, cancelled, id);
            CancelTask(id);
            cancelled := cancelled + {id};
          } else {
            running := running + {id};
            stopped := stopped + {id};
          }
        }
        SortedNext(before, id, c, r, cancelled, running);
      }
      StopLeavesOnlyRunning(before, cancelled);
      stopReport := Some(running);
    }
  }

  /** The active tasks below `id`, by status. */
  ghost predicate Sorted(tasks: Tasks, id: nat, queued: set<nat>, running: set<nat>) {
    && (forall t: nat :: t in queued <==> t < id && IsQueued(tasks, t))
    && (forall t: nat :: t in running <==> t < id && IsRunning(tasks, t))
  }

  lemma SortedNext(tasks: Tasks, id: nat, c: set<nat>, r: set<nat>, queued: set<nat>, running: set<nat>)
    requires Sorted(tasks, id, c, r)
    requires queued == if IsQueued(tasks, id) then c + {id} else c
    requires running == if IsRunning(tasks, id) then r + {id} else r
    ensures Sorted(tasks, id + 1, queued, running)
  {
  }

  function CancellationOf(tasks: Tasks, id: nat): (r: Cancellation)
    ensures r == Unknown <==> id !in tasks
    ensures r == NotCancellable <==> IsRunning(tasks, id)
    ensures r == Accepted <==> IsQueued(tasks, id)
  {
    if id !in tasks then Unknown
    else if tasks[id].status.Running? then NotCancellable
    else if tasks[id].status.Queued? then Accepted
    else SkippedTerminal
  }

  /** The queue without a queued task and what depends on it. */
  function Withdrawn(tasks: Tasks, id: nat): Tasks
    requires IsQueued(tasks, id)
  {
    Cascade(tasks[id := tasks[id].(status := Cancelled)], id, Cancelled)
  }

  /** Withdrawing a queued window leaves at most the running one active. */
  lemma CancelKeepsChain(tasks: Tasks, id: nat)
    requires Chain(tasks) && IsQueued(tasks, id)
    ensures var after := Withdrawn(tasks, id);
      && Chain(after) && after.Keys == tasks.Keys
      && forall t | IsActive(after, t) :: t != id && IsRunning(tasks, t) && after[t] == tasks[t]
  {
    var after := Withdrawn(tasks, id);
    QueuedHasNoDependents(tasks, id);
    forall t | IsActive(after, t) ensures t != id && IsRunning(tasks, t) && after[t] == tasks[t] {
      assert IsActive(tasks, t);
    }
    forall a, b | IsActive(after, a) && IsActive(after, b) ensures a == b {
      assert IsActive(tasks, a) && IsActive(tasks, b);
    }
  }

  /** The task a running window queues. */
  function Successor(tasks: Tasks, id: nat): Task
    requires id in tasks
  {
    var t := tasks[id];
    Task(if t.slot == Planning then PlanningNext else Planning, Queued, Some(id), t.facts, t.chained)
  }

  lemma QueueNextKeepsChain(tasks: Tasks, id: nat, next: nat)
    requires Chain(tasks) && IsRunning(tasks, id) && next !in tasks
    ensures forall q | IsQueued(tasks, q) :: tasks[q].slot == Successor(tasks, id).slot
    ensures forall t | IsActive(tasks, t) && tasks[t].slot == Successor(tasks, id).slot :: IsQueued(tasks, t)
    ensures (forall q :: !IsQueued(tasks, q)) ==> Chain(tasks[next := Successor(tasks, id)])
  {
    forall t | IsActive(tasks, t) && !IsQueued(tasks, t) ensures t == id {
      assert IsActive(tasks, id);
    }
    if forall q :: !IsQueued(tasks, q) {
      var after := tasks[next := Successor(tasks, id)];
      assert IsRunning(after, id);
      forall t | IsActive(after, t) ensures t == id || t == next {
        assert t == next || IsActive(tasks, t);
      }
    }
  }

  function CancelAll(tasks: Tasks, ids: set<nat>): (r: Tasks)
    ensures r.Keys == tasks.Keys
  {
    map t | t in tasks :: if t in ids then tasks[t].(status := Cancelled) else tasks[t]
  }

  /** There is at most one queued window, and nothing waits for it. */
  lemma CancelOnlyOne(tasks: Tasks, done: set<nat>, id: nat)
    requires Chain(tasks) && IsQueued(tasks, id) && id !in done && forall t <- done :: IsQueued(tasks, t)
    ensures var now := CancelAll(tasks, done);
      IsQueued(now, id) && Withdrawn(now, id) == CancelAll(tasks, done + {id})
  {
    QueuedHasNoDependents(tasks, id);
    assert done == {};
  }

  lemma StopLeavesOnlyRunning(tasks: Tasks, cancelled: set<nat>)
    requires Chain(tasks) && forall t: nat :: t in cancelled <==> IsQueued(tasks, t)
    ensures var after := CancelAll(tasks, cancelled);
      Chain(after) && forall t | IsActive(after, t) :: IsRunning(after, t) && IsRunning(tasks, t)
  {
    var after := CancelAll(tasks, cancelled);
    forall a, b | IsActive(after, a) && IsActive(after, b) ensures a == b {
      assert IsActive(tasks, a) && IsActive(tasks, b);
    }
  }

  /** The tasks after the running window `id` has ended. */
  function Ended(tasks: Tasks, id: nat, success: bool): Tasks
    requires IsRunning(tasks, id)
  {
    if success then tasks[id := tasks[id].(status := Succeeded)]
    else Cascade(tasks[id := tasks[id].(status := Failed)], id, Failed)
  }

  lemma EndKeepsChain(tasks: Tasks, id: nat, success: bool)
    requires Chain(tasks) && IsRunning(tasks, id)
    ensures Chain(Ended(tasks, id, success))
    ensures forall t | IsActive(Ended(tasks, id, success), t) :: t != id && IsQueued(tasks, t) && success
    ensures var after := Ended(tasks, id, success);
      && id in after && after[id] == tasks[id].(status := if success then Succeeded else Failed)
      && (success ==> forall q | IsQueued(tasks, q) :: Claimable(after, q) && after[q] == tasks[q])
      && (!success ==> forall q | IsQueued(tasks, q) :: after[q] == tasks[q].(status := Failed))
  {
    var after := Ended(tasks, id, success);
    forall q | IsQueued(tasks, q) ensures q != id && tasks[q].dependency == Some(id) {
      assert IsActive(tasks, q) && IsActive(tasks, id);
    }
    forall t | IsActive(after, t) ensures t != id && IsQueued(tasks, t) && success && Claimable(after, t) {
      assert IsActive(tasks, t) && IsActive(tasks, id);
      assert tasks[t].dependency == Some(id);
    }
    forall a, b | IsActive(after, a) && IsActive(after, b) ensures a == b {
      assert IsQueued(tasks, a) && IsQueued(tasks, b);
      assert IsActive(tasks, a) && IsActive(tasks, b);
    }
  }

  lemma ClaimKeepsChain(tasks: Tasks, id: nat)
    requires Chain(tasks) && Claimable(tasks, id)
    ensures Chain(tasks[id := tasks[id].(status := Running)])
    ensures forall r :: !IsRunning(tasks, r)
    ensures forall q | IsQueued(tasks, q) :: q == id
  {
    assert forall r: nat | IsRunning(tasks, r) :: tasks[id].dependency == Some(r);
  }

  lemma QueuedHasNoDependents(tasks: Tasks, id: nat)
    requires Chain(tasks) && IsQueued(tasks, id)
    ensures forall t | IsQueued(tasks, t) :: t == id && tasks[t].dependency != Some(id)
  {
    forall t | IsQueued(tasks, t) ensures t == id {
      if t != id { assert IsActive(tasks, t) && IsActive(tasks, id); }
    }
    assert tasks[id].dependency == Some(id) ==> !Claimable(tasks, id);
  }

  /** A window waiting alone can always be claimed: planning never gets stuck on a dead predecessor. */
  lemma LoneWindowIsClaimable(tasks: Tasks, id: nat)
    requires Chain(tasks) && IsQueued(tasks, id) && forall r :: !IsRunning(tasks, r)
    ensures Claimable(tasks, id)
  {
  }
}
