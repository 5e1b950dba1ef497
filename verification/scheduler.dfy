/**
 * The cooperative scheduler of app.py as a sequential state machine.
 *
 * The state is a FIFO ready queue plus two wait maps, one per direction,
 * from a handle to the single task suspended on it. Tasks are abstract
 * values of type `T`; driving one step (`send(None)`) is a function `step`
 * supplied by the caller, whose result lists the tasks the step spawned
 * with `add_task` and how the step ended. The readiness primitive
 * (`select.select`) is an oracle: a sequence of answers consumed one per
 * poll.
 */
module Scheduler {
  import opened Base

  /** The two members of the source's `Action` enum, plus any other value
      a task might yield in place of one of them. */
  datatype Action = Read | Send | Other(name: string)

  /** How driving a task one step ended. */
  datatype Status<T, H> =
    | Finished                                          // StopIteration
    | Suspended(action: Action, target: H, resumed: T)  // yielded (action, target)
    | Raised(error: string)                             // any other exception

  /** One step of a task: the tasks it spawned while running, then how it ended. */
  datatype StepResult<T, H> = StepResult(spawned: seq<T>, status: Status<T, H>)

  /** One answer of `select.select`: the handles ready to read and to send,
      in the order reported, or the exception `select` raised instead (a
      closed or invalid descriptor, an interrupted call). */
  datatype Readiness<H> =
    | Readiness(canRead: seq<H>, canSend: seq<H>)
    | SelectRaised(error: string)

  /** `TASKS`, `WAIT_READ` and `WAIT_SEND`. */
  datatype Sched<T, H> = Sched(ready: seq<T>, waitRead: map<H, T>, waitSend: map<H, T>)

  /** The exceptions that escape `run`. */
  datatype Fault<H> =
    | UnknownHandle(handle: H)       // KeyError from `pop`: select reported a handle that is not waiting
    | UnexpectedAction(action: Action) // the ValueError raised for an action that is neither Read nor Send
    | TaskRaised(error: string)      // an exception raised by the task itself
    | SelectFailed(error: string)    // an exception raised by `select` itself

  function Empty<T, H>(): Sched<T, H> {
    Sched([], map[], map[])
  }

  /** Nothing runnable and nothing waiting: the loop condition of `run` is false. */
  predicate Idle<T, H>(s: Sched<T, H>) {
    s.ready == [] && s.waitRead == map[] && s.waitSend == map[]
  }

  /** Nothing runnable but something waiting: the state in which `run` polls. */
  predicate Starved<T, H>(s: Sched<T, H>) {
    s.ready == [] && (s.waitRead != map[] || s.waitSend != map[])
  }

  /** `add_task`: the task joins the tail of the ready queue; the tasks
      already queued keep their positions and the wait maps are untouched. */
  function AddTask<T, H>(s: Sched<T, H>, t: T): (r: Sched<T, H>)
    ensures |r.ready| == |s.ready| + 1 && r.ready[|s.ready|] == t
    ensures r.ready[..|s.ready|] == s.ready
    ensures r.waitRead == s.waitRead && r.waitSend == s.waitSend
  {
    s.(ready := s.ready + [t])
  }

  /** `add_task` called on each of `ts` in turn: they join the tail of the
      queue in their own order, behind everything already queued. */
  function AddTasks<T, H>(s: Sched<T, H>, ts: seq<T>): (r: Sched<T, H>)
    ensures r.ready == s.ready + ts
    ensures r.waitRead == s.waitRead && r.waitSend == s.waitSend
    decreases |ts|
  {
    if ts == [] then
      s
    else
      var r := AddTasks(AddTask(s, ts[0]), ts[1..]);
      assert s.ready + [ts[0]] + ts[1..] == s.ready + ts;
      r
  }

  /** The handles in `hs` are pairwise distinct and all waiting in `m`:
      popping them one by one cannot raise KeyError. */
  predicate Fits<H, T>(m: map<H, T>, hs: seq<H>) {
    && (forall i :: 0 <= i < |hs| ==> hs[i] in m)
    && (forall i, j :: 0 <= i < j < |hs| ==> hs[i] != hs[j])
  }

  /** Popping the first handle leaves a map in which the remaining handles
      fit exactly when all of them fitted the original map. */
  lemma FitsAfterPop<H, T>(wait: map<H, T>, hs: seq<H>)
    requires hs != [] && hs[0] in wait
    ensures Fits(wait, hs) <==> Fits(wait - {hs[0]}, hs[1..])
  {
    var tail := hs[1..];
    assert forall i :: 0 < i < |hs| ==> hs[i] == tail[i - 1];
    if Fits(wait - {hs[0]}, tail) {
      forall i, j | 0 <= i < j < |hs| ensures hs[i] != hs[j] {
        if i > 0 { assert hs[i] == tail[i - 1] && hs[j] == tail[j - 1]; }
        else { assert hs[j] == tail[j - 1]; }
      }
    }
  }

  /** The set of handles listed in `hs`. */
  function Elements<H>(hs: seq<H>): set<H> {
    if hs == [] then {} else {hs[0]} + Elements(hs[1..])
  }

  /** Popping the first handle and then draining some of the rest pops
      that many more handles, in order. */
  lemma DrainCons<H, T>(wait: map<H, T>, hs: seq<H>, tasks: seq<T>, left: map<H, T>)
    requires hs != [] && hs[0] in wait && |tasks| < |hs|
    requires forall i :: 0 <= i < |tasks| ==> hs[1..][i] in wait - {hs[0]} && tasks[i] == (wait - {hs[0]})[hs[1..][i]]
    requires left == (wait - {hs[0]}) - Elements(hs[1..][..|tasks|])
    ensures forall i :: 0 <= i <= |tasks| ==> hs[i] in wait && ([wait[hs[0]]] + tasks)[i] == wait[hs[i]]
    ensures left == wait - Elements(hs[..|tasks| + 1])
  {
    forall i | 0 < i <= |tasks| ensures hs[i] in wait && ([wait[hs[0]]] + tasks)[i] == wait[hs[i]] {
      assert hs[i] == hs[1..][i - 1];
    }
    assert hs[..|tasks| + 1][1..] == hs[1..][..|tasks|];
  }

  /** What a drain loop leaves behind: the tasks it popped, in order, the
      map left over and, when a `pop` raised KeyError, the handle it raised
      for. The loop stops at that handle, so every task popped before it has
      already been queued. */
  datatype Drained<H, T> = Drained(tasks: seq<T>, left: map<H, T>, missing: Option<H>)

  /** `for sock in hs: add_task(wait.pop(sock))`, minus the queue: pops each
      handle in turn and lists the popped tasks in that order, until the
      first handle that is not (or no longer) in the map. */
  function Drain<H, T>(wait: map<H, T>, hs: seq<H>): (r: Drained<H, T>)
    ensures r.missing.None? <==> Fits(wait, hs)
    ensures |r.tasks| <= |hs| && (r.missing.None? ==> |r.tasks| == |hs|)
    ensures forall i :: 0 <= i < |r.tasks| ==> hs[i] in wait && r.tasks[i] == wait[hs[i]]
    ensures r.left == wait - Elements(hs[..|r.tasks|])
    ensures r.missing.Some? ==> |r.tasks| < |hs| && r.missing.value == hs[|r.tasks|] && r.missing.value !in r.left
    decreases |hs|
  {
    if hs == [] then
      Drained([], wait, None)
    else if hs[0] !in wait then
      assert Elements(hs[..0]) == {};
      Drained([], wait, Some(hs[0]))
    else
      FitsAfterPop(wait, hs);
      var rest := Drain(wait - {hs[0]}, hs[1..]);
      DrainCons(wait, hs, rest.tasks, rest.left);
      Drained([wait[hs[0]]] + rest.tasks, rest.left, rest.missing)
  }

  /** The state after one poll, the tasks it woke (already appended to the
      queue) and the exception that stopped it, if any. */
  datatype Polled<T, H> = Polled(next: Sched<T, H>, woken: seq<T>, fault: Option<Fault<H>>)

  /** One poll of the inner loop of `run` (app.py:40-44) given the answer of
      `select`: every read-ready handle is popped from the read map and its
      task appended to the queue, then every send-ready handle likewise from
      the send map. A KeyError stops the poll where it is raised, with the
      handles before it already drained; an exception from `select` stops it
      before anything changes. `PollFault` describes the stopped cases. */
  function Poll<T, H>(s: Sched<T, H>, answer: Readiness<H>): (r: Polled<T, H>)
    ensures r.next.ready == s.ready + r.woken
    ensures r.fault.None? <==> answer.Readiness? && Fits(s.waitRead, answer.canRead) && Fits(s.waitSend, answer.canSend)
    ensures r.fault.None? ==>
      var nr := |answer.canRead|;
      && |r.woken| == nr + |answer.canSend|
      && (forall i :: 0 <= i < nr ==> r.woken[i] == s.waitRead[answer.canRead[i]])
      && (forall i :: 0 <= i < |answer.canSend| ==> r.woken[nr + i] == s.waitSend[answer.canSend[i]])
      && r.next.waitRead == s.waitRead - Elements(answer.canRead)
      && r.next.waitSend == s.waitSend - Elements(answer.canSend)
  {
    match answer
    case SelectRaised(e) => Polled(s, [], Some(SelectFailed(e)))
    case Readiness(canRead, canSend) =>
      var rd := Drain(s.waitRead, canRead);
      if rd.missing.Some? then
        Polled(Sched(s.ready + rd.tasks, rd.left, s.waitSend), rd.tasks, Some(UnknownHandle(rd.missing.value)))
      else
        assert canRead[..|canRead|] == canRead;
        var sd := Drain(s.waitSend, canSend);
        assert sd.missing.None? ==> canSend[..|sd.tasks|] == canSend;
        var fault := if sd.missing.Some? then Some(UnknownHandle(sd.missing.value)) else None;
        Polled(Sched(s.ready + (rd.tasks + sd.tasks), rd.left, sd.left), rd.tasks + sd.tasks, fault)
  }

  /** Where a poll stops. An exception from `select` changes nothing. A
      KeyError in the read loop leaves the read-ready handles before the
      failing one drained, in order, and the send map untouched; a KeyError
      in the send loop leaves every read-ready handle and the send-ready
      handles before the failing one drained. The failing handle is one
      that is not in the map at that moment. */
  lemma PollFault<T, H>(s: Sched<T, H>, answer: Readiness<H>)
    requires Poll(s, answer).fault.Some?
    ensures answer.SelectRaised? ==> Poll(s, answer) == Polled(s, [], Some(SelectFailed(answer.error)))
    ensures answer.Readiness? && !Fits(s.waitRead, answer.canRead) ==>
      var r, k := Poll(s, answer), |Poll(s, answer).woken|;
      && k < |answer.canRead|
      && r.fault == Some(UnknownHandle(answer.canRead[k]))
      && (forall i :: 0 <= i < k ==> r.woken[i] == s.waitRead[answer.canRead[i]])
      && r.next.waitRead == s.waitRead - Elements(answer.canRead[..k])
      && answer.canRead[k] !in r.next.waitRead
      && r.next.waitSend == s.waitSend
    ensures answer.Readiness? && Fits(s.waitRead, answer.canRead) ==>
      var r, nr := Poll(s, answer), |answer.canRead|;
      var k := |r.woken| - nr;
      && nr <= |r.woken| && k < |answer.canSend|
      && r.fault == Some(UnknownHandle(answer.canSend[k]))
      && (forall i :: 0 <= i < nr ==> r.woken[i] == s.waitRead[answer.canRead[i]])
      && (forall i :: 0 <= i < k ==> r.woken[nr + i] == s.waitSend[answer.canSend[i]])
      && r.next.waitRead == s.waitRead - Elements(answer.canRead)
      && r.next.waitSend == s.waitSend - Elements(answer.canSend[..k])
      && answer.canSend[k] !in r.next.waitSend
  {
    if answer.Readiness? {
      assert answer.canRead[..|answer.canRead|] == answer.canRead;
    }
  }

  /** The queue after `popleft` and after the step's own `add_task` calls,
      with the wait maps as they were. */
  function Popped<T, H>(s: Sched<T, H>, spawned: seq<T>): (r: Sched<T, H>)
    requires s.ready != []
    ensures [s.ready[0]] + r.ready == s.ready + spawned
    ensures r.waitRead == s.waitRead && r.waitSend == s.waitSend
  {
    Sched(s.ready[1..] + spawned, s.waitRead, s.waitSend)
  }

  /** The queue update of a drive is `popleft` followed by one `add_task`
      per spawned task, in order. */
  lemma PoppedAddsTasks<T, H>(s: Sched<T, H>, spawned: seq<T>)
    requires s.ready != []
    ensures Popped(s, spawned) == AddTasks(s.(ready := s.ready[1..]), spawned)
  {
  }

  /** The queue update of a poll, stopped or not, is one `add_task` per
      woken task, in the order the handles were popped, on top of the maps
      the poll left. */
  lemma PollAddsTasks<T, H>(s: Sched<T, H>, answer: Readiness<H>)
    ensures var p := Poll(s, answer);
      p.next == AddTasks(p.next.(ready := s.ready), p.woken)
  {
  }

  /** The dispatch half of the loop body (app.py:45-55): the head of the
      queue has been driven one step with result `res`. A finished task is
      dropped; a suspension on (Read, h) or (Send, h) files the resumed task
      under h in exactly one map, replacing any earlier occupant; any other
      action, or an exception from the task, escapes `run`. The contract
      covers the queue and the faults; `DispatchFiles` covers the maps. */
  function Dispatch<T, H>(s: Sched<T, H>, res: StepResult<T, H>): (r: Result<Sched<T, H>, Fault<H>>)
    requires s.ready != []
    ensures r.Success? ==> [s.ready[0]] + r.value.ready == s.ready + res.spawned
    ensures r.Success? <==> res.status.Finished? || (res.status.Suspended? && !res.status.action.Other?)
    ensures res.status.Suspended? && res.status.action.Other? ==> r == Failure(UnexpectedAction(res.status.action))
    ensures res.status.Raised? ==> r == Failure(TaskRaised(res.status.error))
  {
    var next := Popped(s, res.spawned);
    match res.status
    case Finished => Success(next)
    case Raised(e) => Failure(TaskRaised(e))
    case Suspended(action, target, resumed) =>
      match action
      case Read => Success(next.(waitRead := next.waitRead[target := resumed]))
      case Send => Success(next.(waitSend := next.waitSend[target := resumed]))
      case Other(_) => Failure(UnexpectedAction(action))
  }

  /** Where a successful dispatch files the driven task: a finished task is
      dropped and leaves both maps as they were; a task suspended on
      (Read, h) or (Send, h) is filed under h in that direction's map, every
      other entry of that map is kept, and the other map is untouched. */
  lemma DispatchFiles<T, H>(s: Sched<T, H>, res: StepResult<T, H>)
    requires s.ready != []
    ensures res.status.Finished? ==>
      var r := Dispatch(s, res);
      r.Success? && r.value.waitRead == s.waitRead && r.value.waitSend == s.waitSend
    ensures res.status.Suspended? && res.status.action == Read ==>
      var r, h := Dispatch(s, res), res.status.target;
      && r.Success?
      && r.value.waitRead.Keys == s.waitRead.Keys + {h}
      && r.value.waitRead[h] == res.status.resumed
      && (forall k :: k in s.waitRead && k != h ==> r.value.waitRead[k] == s.waitRead[k])
      && r.value.waitSend == s.waitSend
    ensures res.status.Suspended? && res.status.action == Send ==>
      var r, h := Dispatch(s, res), res.status.target;
      && r.Success?
      && r.value.waitSend.Keys == s.waitSend.Keys + {h}
      && r.value.waitSend[h] == res.status.resumed
      && (forall k :: k in s.waitSend && k != h ==> r.value.waitSend[k] == s.waitSend[k])
      && r.value.waitRead == s.waitRead
  {
  }

  /** Filing a task on a handle that already had a waiter in that direction
      orphans the earlier waiter: the map does not grow, and the handle now
      leads only to the new task. */
  lemma OverwriteOrphans<T, H>(s: Sched<T, H>, res: StepResult<T, H>)
    requires s.ready != [] && res.status.Suspended?
    requires res.status.action == Read && res.status.target in s.waitRead
    ensures Dispatch(s, res).Success?
    ensures |Dispatch(s, res).value.waitRead| == |s.waitRead|
    ensures Dispatch(s, res).value.waitRead[res.status.target] == res.status.resumed
  {
    DispatchFiles(s, res);
    var m := Dispatch(s, res).value.waitRead;
    assert m.Keys == s.waitRead.Keys;
  }

  /** Why `run` stopped. */
  datatype Halt<H> =
    | Exited           // the loop condition became false
    | Crashed(fault: Fault<H>)
    | Blocked          // waiting in `select` with no further answer given
    | OutOfFuel        // the step budget of the model ran out

  /** The observable history of a run: how it stopped, the state it stopped
      in, the tasks driven (in order), the tasks that joined the queue
      (spawned or woken, in order) and the state at each call of `select`. */
  datatype Outcome<T, H> = Outcome(
    halt: Halt<H>,
    final: Sched<T, H>,
    driven: seq<T>,
    enqueued: seq<T>,
    polled: seq<Sched<T, H>>)

  /** A history `o` preceded by some earlier events. */
  function After<T, H>(driven: seq<T>, enqueued: seq<T>, polled: seq<Sched<T, H>>, o: Outcome<T, H>): Outcome<T, H> {
    o.(driven := driven + o.driven, enqueued := enqueued + o.enqueued, polled := polled + o.polled)
  }

  /** A successful dispatch keeps the queue accounting of the rest of the
      run: the driven head, then the rest, covers the queue and the spawned
      tasks. */
  lemma DriveConserves<T, H>(s: Sched<T, H>, res: StepResult<T, H>, next: Sched<T, H>, o: Outcome<T, H>)
    requires s.ready != [] && Dispatch(s, res) == Success(next)
    requires o.driven + o.final.ready == next.ready + o.enqueued
    ensures var o' := After([s.ready[0]], res.spawned, [], o);
      o'.driven + o'.final.ready == s.ready + o'.enqueued
  {
    assert [s.ready[0]] + o.driven + o.final.ready == [s.ready[0]] + (o.driven + o.final.ready);
    assert [s.ready[0]] + next.ready + o.enqueued == s.ready + res.spawned + o.enqueued;
  }

  /** A poll from an empty queue keeps the queue accounting: the woken tasks
      are both the new queue and the newly enqueued. */
  lemma PollConserves<T, H>(s: Sched<T, H>, woken: seq<T>, next: Sched<T, H>, o: Outcome<T, H>)
    requires s.ready == [] && next.ready == woken
    requires o.driven + o.final.ready == next.ready + o.enqueued
    ensures var o' := After([], woken, [s], o);
      o'.driven + o'.final.ready == s.ready + o'.enqueued
  {
    assert [] + o.driven == o.driven;
  }

  /** Reference semantics of `run`, one transition at a time: drive the head
      if the queue is non-empty; else exit if nothing waits; else poll.
      Every drive and every poll uses one unit of `fuel`.

      The contract is the FIFO discipline of the ready queue over a whole
      run: the tasks driven, followed by the queue left over, are the
      initial queue followed by everything enqueued (spawned or woken). */
  function Run<T, H>(s: Sched<T, H>, step: T -> StepResult<T, H>, answers: seq<Readiness<H>>, fuel: nat): (o: Outcome<T, H>)
    ensures o.driven + o.final.ready == s.ready + o.enqueued
    decreases fuel
  {
    if Idle(s) then
      Outcome(Exited, s, [], [], [])
    else if fuel == 0 then
      Outcome(OutOfFuel, s, [], [], [])
    else if s.ready != [] then
      var res := step(s.ready[0]);
      match Dispatch(s, res)
      case Failure(f) => Outcome(Crashed(f), Popped(s, res.spawned), [s.ready[0]], res.spawned, [])
      case Success(next) =>
        var o := Run(next, step, answers, fuel - 1);
        DriveConserves(s, res, next, o);
        After([s.ready[0]], res.spawned, [], o)
    else if answers == [] then
      Outcome(Blocked, s, [], [], [])
    else
      var p := Poll(s, answers[0]);
      if p.fault.Some? then
        Outcome(Crashed(p.fault.value), p.next, [], p.woken, [s])
      else
        var o := Run(p.next, step, answers[1..], fuel - 1);
        PollConserves(s, p.woken, p.next, o);
        After([], p.woken, [s], o)
  }

  /** `select` is only ever called with an empty ready queue and at least
      one non-empty wait map. */
  lemma {:induction false} PollsOnlyWhenStarved<T, H>(s: Sched<T, H>, step: T -> StepResult<T, H>, answers: seq<Readiness<H>>, fuel: nat)
    ensures forall i :: 0 <= i < |Run(s, step, answers, fuel).polled| ==> Starved(Run(s, step, answers, fuel).polled[i])
    decreases fuel
  {
    if !Idle(s) && fuel > 0 {
      if s.ready != [] {
        var res := step(s.ready[0]);
        if Dispatch(s, res).Success? {
          PollsOnlyWhenStarved(Dispatch(s, res).value, step, answers, fuel - 1);
        }
      } else if answers != [] && Poll(s, answers[0]).fault.None? {
        var next := Poll(s, answers[0]).next;
        PollsOnlyWhenStarved(next, step, answers[1..], fuel - 1);
        var o := Run(next, step, answers[1..], fuel - 1);
        assert Run(s, step, answers, fuel).polled == [s] + o.polled;
      }
    }
  }

  /** The loop exits exactly when, without a crash, the ready queue and both
      wait maps have become empty; when it is left waiting in `select`, the
      queue is empty and something is waiting. */
  lemma {:induction false} ExitsOnlyWhenIdle<T, H>(s: Sched<T, H>, step: T -> StepResult<T, H>, answers: seq<Readiness<H>>, fuel: nat)
    ensures var o := Run(s, step, answers, fuel);
      && (o.halt == Exited <==> Idle(o.final) && !o.halt.Crashed?)
      && (o.halt == Blocked ==> Starved(o.final))
    decreases fuel
  {
    if !Idle(s) && fuel > 0 {
      if s.ready != [] {
        var res := step(s.ready[0]);
        if Dispatch(s, res).Success? {
          ExitsOnlyWhenIdle(Dispatch(s, res).value, step, answers, fuel - 1);
        }
      } else if answers != [] && Poll(s, answers[0]).fault.None? {
        ExitsOnlyWhenIdle(Poll(s, answers[0]).next, step, answers[1..], fuel - 1);
      }
    }
  }

  /** An outcome has used at most `fuel` units, one per task driven and one
      per poll, and all of them if it stopped for lack of fuel. */
  predicate Spent<T, H>(o: Outcome<T, H>, fuel: nat) {
    && |o.driven| + |o.polled| <= fuel
    && (o.halt == OutOfFuel ==> |o.driven| + |o.polled| == fuel)
  }

  /** One more drive or poll in front of a history costs one more unit. */
  lemma SpentAfter<T, H>(d: seq<T>, e: seq<T>, p: seq<Sched<T, H>>, o: Outcome<T, H>, fuel: nat)
    requires |d| + |p| == 1 && fuel > 0 && Spent(o, fuel - 1)
    ensures Spent(After(d, e, p, o), fuel)
  {
  }

  /** Each poll and each drive costs one unit of fuel; a run that stops for
      lack of fuel has spent all of it. */
  lemma {:induction false} FuelAccounting<T, H>(s: Sched<T, H>, step: T -> StepResult<T, H>, answers: seq<Readiness<H>>, fuel: nat)
    ensures Spent(Run(s, step, answers, fuel), fuel)
    decreases fuel
  {
    RunStops(s, step, answers, fuel);
    if !Idle(s) && fuel > 0 {
      if s.ready != [] {
        var res := step(s.ready[0]);
        if Dispatch(s, res).Success? {
          var next := Dispatch(s, res).value;
          FuelAccounting(next, step, answers, fuel - 1);
          RunDrives(s, step, answers, fuel);
          SpentAfter([s.ready[0]], res.spawned, [], Run(next, step, answers, fuel - 1), fuel);
        }
      } else if answers != [] {
        RunPollStep(s, step, answers, fuel);
        var p := Poll(s, answers[0]);
        if p.fault.None? {
          var next, woken := p.next, p.woken;
          FuelAccounting(next, step, answers[1..], fuel - 1);
          SpentAfter([], woken, [s], Run(next, step, answers[1..], fuel - 1), fuel);
        }
      }
    }
  }

  /** FIFO dispatch: of the tasks queued at the start, the first k to be
      driven are the first k of the queue, in order. */
  lemma FifoDispatch<T, H>(s: Sched<T, H>, step: T -> StepResult<T, H>, answers: seq<Readiness<H>>, fuel: nat, k: nat)
    requires k <= |s.ready| && k <= |Run(s, step, answers, fuel).driven|
    ensures Run(s, step, answers, fuel).driven[..k] == s.ready[..k]
  {
    var o := Run(s, step, answers, fuel);
    assert o.driven[..k] == (o.driven + o.final.ready)[..k];
    assert s.ready[..k] == (s.ready + o.enqueued)[..k];
  }

  /** With no task at all, `run` returns at once without polling. */
  lemma NoTasksExitAtOnce<T, H>(step: T -> StepResult<T, H>, answers: seq<Readiness<H>>, fuel: nat)
    ensures Run(Empty<T, H>(), step, answers, fuel) == Outcome(Exited, Empty(), [], [], [])
  {
  }

  /** A KeyError part-way through draining: with task 7 waiting to read on
      handle 1, `select` reports handles 1 and 2 as readable. Handle 1 is
      popped and its task queued before `pop(2)` raises, so the run stops in
      that state, with task 7 enqueued. */
  lemma ExamplePartialDrain(step: int -> StepResult<int, int>)
    ensures var s := Sched([], map[1 := 7], map[]);
      Run(s, step, [Readiness([1, 2], [])], 1)
        == Outcome(Crashed(UnknownHandle(2)), Sched([7], map[], map[]), [], [7], [s])
  {
    var s: Sched<int, int> := Sched([], map[1 := 7], map[]);
    var answer: Readiness<int> := Readiness([1, 2], []);
    var rest := Drain(s.waitRead - {1}, [2]);
    assert rest == Drained([], s.waitRead - {1}, Some(2));
    assert Drain(s.waitRead, [1, 2]) == Drained([7], map[], Some(2));
    RunPollStep(s, step, [answer], 1);
  }

  lemma AfterAfter<T, H>(d1: seq<T>, e1: seq<T>, p1: seq<Sched<T, H>>, d2: seq<T>, e2: seq<T>, p2: seq<Sched<T, H>>, o: Outcome<T, H>)
    ensures After(d1, e1, p1, After(d2, e2, p2, o)) == After(d1 + d2, e1 + e2, p1 + p2, o)
  {
    assert d1 + (d2 + o.driven) == (d1 + d2) + o.driven;
    assert e1 + (e2 + o.enqueued) == (e1 + e2) + o.enqueued;
    assert p1 + (p2 + o.polled) == (p1 + p2) + o.polled;
  }

  /** One unfolding of `Run` when the head of a non-empty queue is driven
      without a fault. */
  lemma RunDrives<T, H>(s: Sched<T, H>, step: T -> StepResult<T, H>, answers: seq<Readiness<H>>, fuel: nat)
    requires s.ready != [] && fuel > 0 && Dispatch(s, step(s.ready[0])).Success?
    ensures Run(s, step, answers, fuel)
      == After([s.ready[0]], step(s.ready[0]).spawned, [], Run(Dispatch(s, step(s.ready[0])).value, step, answers, fuel - 1))
  {
  }

  /** One unfolding of `Run` when a starved state polls without a fault. */
  lemma RunPolls<T, H>(s: Sched<T, H>, step: T -> StepResult<T, H>, answers: seq<Readiness<H>>, fuel: nat)
    requires Starved(s) && fuel > 0 && answers != [] && Poll(s, answers[0]).fault.None?
    ensures Run(s, step, answers, fuel)
      == After([], Poll(s, answers[0]).woken, [s], Run(Poll(s, answers[0]).next, step, answers[1..], fuel - 1))
  {
  }

  /** The ways `Run` stops at once, one unfolding each. */
  lemma RunStops<T, H>(s: Sched<T, H>, step: T -> StepResult<T, H>, answers: seq<Readiness<H>>, fuel: nat)
    ensures Idle(s) ==> Run(s, step, answers, fuel) == Outcome(Exited, s, [], [], [])
    ensures !Idle(s) && fuel == 0 ==> Run(s, step, answers, fuel) == Outcome(OutOfFuel, s, [], [], [])
    ensures Starved(s) && fuel > 0 && answers == [] ==> Run(s, step, answers, fuel) == Outcome(Blocked, s, [], [], [])
    ensures s.ready != [] && fuel > 0 && Dispatch(s, step(s.ready[0])).Failure? ==>
      Run(s, step, answers, fuel)
        == Outcome(Crashed(Dispatch(s, step(s.ready[0])).error), Popped(s, step(s.ready[0]).spawned),
                   [s.ready[0]], step(s.ready[0]).spawned, [])
  {
  }

  /** A poll that wakes nothing leaves the wait maps as they were, so the
      loop still has waiters to poll for. */
  lemma PollKeepsWaiters<T, H>(s: Sched<T, H>, answer: Readiness<H>)
    requires Starved(s) && Poll(s, answer).fault.None?
    ensures !Idle(Poll(s, answer).next)
  {
    var next := Poll(s, answer).next;
    if next.ready == [] {
      assert answer.canRead == [] && answer.canSend == [];
      assert Elements(answer.canRead) == {} && Elements(answer.canSend) == {};
      assert next.waitRead == s.waitRead && next.waitSend == s.waitSend;
    }
  }

  /** One poll of `Run` from a starved state: a stopped poll crashes the run
      in the state it left; otherwise the run carries on from a state that
      still has work, with the woken tasks enqueued. */
  lemma RunPollStep<T, H>(s: Sched<T, H>, step: T -> StepResult<T, H>, answers: seq<Readiness<H>>, fuel: nat)
    requires Starved(s) && fuel > 0 && answers != []
    ensures var p := Poll(s, answers[0]);
      && (p.fault.Some? ==> Run(s, step, answers, fuel) == Outcome(Crashed(p.fault.value), p.next, [], p.woken, [s]))
      && (p.fault.None? ==> !Idle(p.next) && Run(s, step, answers, fuel) == After([], p.woken, [s], Run(p.next, step, answers[1..], fuel - 1)))
  {
    if Poll(s, answers[0]).fault.None? {
      PollKeepsWaiters(s, answers[0]);
      RunPolls(s, step, answers, fuel);
    }
  }

  /** One call of `select` and the draining of the handles it reports
      (app.py:40-44), from a state whose ready queue is empty. Either the
      run goes on from `next` with `woken` enqueued, or it stops at this
      poll and `stopped` is its outcome. */
  method PollOnce<T, H>(s: Sched<T, H>, step: T -> StepResult<T, H>, answers: seq<Readiness<H>>, fuel: nat)
    returns (next: Sched<T, H>, woken: seq<T>, rest: seq<Readiness<H>>, left: nat, stopped: Option<Outcome<T, H>>)
    requires Starved(s)
    ensures stopped.Some? ==> stopped.value == Run(s, step, answers, fuel)
    ensures stopped.None? ==> left < fuel && !Idle(next)
    ensures stopped.None? ==> Run(s, step, answers, fuel) == After([], woken, [s], Run(next, step, rest, left))
  {
    next, woken, rest, left := s, [], answers, fuel;
    if fuel == 0 || answers == [] {
      RunStops(s, step, answers, fuel);
      var halt := if fuel == 0 then OutOfFuel else Blocked;
      return next, woken, rest, left, Some(Outcome(halt, s, [], [], []));
    }
    RunPollStep(s, step, answers, fuel);
    var r := Poll(s, answers[0]);
    if r.fault.Some? {
      return next, woken, rest, left, Some(Outcome(Crashed(r.fault.value), r.next, [], r.woken, [s]));
    }
    next, woken, rest, left, stopped := r.next, r.woken, answers[1..], fuel - 1, None;
  }

  /** The inner loop of `run` (app.py:39-44): while the ready queue is
      empty, call `select` and drain the ready handles. Either the queue
      becomes non-empty, with the polls made on the way recorded in
      `polled` and the woken tasks in `woken`, or the run stops inside the
      loop and `stopped` is its outcome. The loop invariant `!Idle(s)` is
      the fact that `select` is never called with both wait maps empty. */
  method AwaitWork<T, H>(s0: Sched<T, H>, step: T -> StepResult<T, H>, answers: seq<Readiness<H>>, fuel0: nat)
    returns (s: Sched<T, H>, pending: seq<Readiness<H>>, fuel: nat, woken: seq<T>, polled: seq<Sched<T, H>>, stopped: Option<Outcome<T, H>>)
    requires !Idle(s0)
    ensures stopped.Some? ==> stopped.value == Run(s0, step, answers, fuel0)
    ensures stopped.None? ==> s.ready != [] && fuel <= fuel0
    ensures stopped.None? ==> Run(s0, step, answers, fuel0) == After([], woken, polled, Run(s, step, pending, fuel))
  {
    s, pending, fuel, woken, polled := s0, answers, fuel0, [], [];
    ghost var goal := Run(s0, step, answers, fuel0);
    assert After([], woken, polled, Run(s, step, pending, fuel)) == goal;
    while s.ready == []
      invariant !Idle(s) && fuel <= fuel0
      invariant After([], woken, polled, Run(s, step, pending, fuel)) == goal
      decreases fuel
    {
      var next, newlyWoken, rest, left, halted := PollOnce(s, step, pending, fuel);
      if halted.Some? {
        return s, pending, fuel, woken, polled, Some(After([], woken, polled, halted.value));
      }
      AfterAfter([], woken, polled, [], newlyWoken, [s], Run(next, step, rest, left));
      polled, woken := polled + [s], woken + newlyWoken;
      s, pending, fuel := next, rest, left;
    }
    stopped := None;
  }

  /** The dispatch at the end of each outer iteration of `run`
      (app.py:45-55): drive the head of the queue once and file it by what
      it yielded. Either that succeeds, and the run goes on from `next`
      with `current` driven and `spawned` enqueued, or the run stops here
      and `stopped` is its outcome. */
  method DriveHead<T, H>(s: Sched<T, H>, step: T -> StepResult<T, H>, answers: seq<Readiness<H>>, fuel: nat)
    returns (next: Sched<T, H>, current: T, spawned: seq<T>, stopped: Option<Outcome<T, H>>)
    requires s.ready != []
    ensures stopped.Some? ==> stopped.value == Run(s, step, answers, fuel)
    ensures stopped.None? ==> fuel > 0 && current == s.ready[0]
    ensures stopped.None? ==> Run(s, step, answers, fuel) == After([current], spawned, [], Run(next, step, answers, fuel - 1))
  {
    RunStops(s, step, answers, fuel);
    current := s.ready[0];
    next := s;
    spawned := [];
    if fuel == 0 {
      return next, current, spawned, Some(Outcome(OutOfFuel, s, [], [], []));
    }
    var res := step(current);
    var r := Dispatch(s, res);
    if r.Failure? {
      return next, current, spawned, Some(Outcome(Crashed(r.error), Popped(s, res.spawned), [current], res.spawned, []));
    }
    RunDrives(s, step, answers, fuel);
    next, spawned, stopped := r.value, res.spawned, None;
  }

  /** One iteration of the outer loop of `run` (app.py:38-55) from a state
      with work left: wait for a ready task, then drive it. Either the run
      goes on from `next` with `pending` answers and `fuel` left, having
      driven `driven`, enqueued `enqueued` and polled in `polled` on the
      way, or it stops in this iteration and `stopped` is its outcome. */
  method Iterate<T, H>(s0: Sched<T, H>, step: T -> StepResult<T, H>, answers: seq<Readiness<H>>, fuel0: nat)
    returns (next: Sched<T, H>, pending: seq<Readiness<H>>, fuel: nat,
             driven: seq<T>, enqueued: seq<T>, polled: seq<Sched<T, H>>, stopped: Option<Outcome<T, H>>)
    requires !Idle(s0)
    ensures stopped.Some? ==> stopped.value == Run(s0, step, answers, fuel0)
    ensures stopped.None? ==> fuel < fuel0
    ensures stopped.None? ==> Run(s0, step, answers, fuel0) == After(driven, enqueued, polled, Run(next, step, pending, fuel))
  {
    var s, woken;
    s, pending, fuel, woken, polled, stopped := AwaitWork(s0, step, answers, fuel0);
    driven, enqueued, next := [], [], s;
    if stopped.Some? {
      return;
    }
    var current, spawned;
    next, current, spawned, stopped := DriveHead(s, step, pending, fuel);
    if stopped.Some? {
      return next, pending, fuel, driven, enqueued, polled, Some(After([], woken, polled, stopped.value));
    }
    AfterAfter([], woken, polled, [current], spawned, [], Run(next, step, pending, fuel - 1));
    assert [] + [current] == [current] && polled + [] == polled;
    driven, enqueued, fuel := [current], woken + spawned, fuel - 1;
  }

  /** `run` exactly as written (app.py:37-55): an outer loop while anything
      is queued or waiting, each iteration being the inner polling loop
      `AwaitWork` and then the dispatch of the head `DriveHead`. It
      computes the same history as the reference semantics `Run`. */
  method RunLoop<T, H>(s0: Sched<T, H>, step: T -> StepResult<T, H>, answers: seq<Readiness<H>>, fuel0: nat)
    returns (o: Outcome<T, H>)
    ensures o == Run(s0, step, answers, fuel0)
  {
    var s, pending, fuel := s0, answers, fuel0;
    var driven: seq<T>, enqueued: seq<T>, polled: seq<Sched<T, H>> := [], [], [];
    ghost var goal := Run(s0, step, answers, fuel0);
    assert After(driven, enqueued, polled, Run(s, step, pending, fuel)) == goal;
    while !Idle(s)
      invariant After(driven, enqueued, polled, Run(s, step, pending, fuel)) == goal
      decreases fuel
    {
      var next, pending', fuel', d, e, p, stopped := Iterate(s, step, pending, fuel);
      if stopped.Some? {
        return After(driven, enqueued, polled, stopped.value);
      }
      AfterAfter(driven, enqueued, polled, d, e, p, Run(next, step, pending', fuel'));
      driven, enqueued, polled := driven + d, enqueued + e, polled + p;
      s, pending, fuel := next, pending', fuel';
    }
    RunStops(s, step, pending, fuel);
    o := After(driven, enqueued, polled, Outcome(Exited, s, [], [], []));
  }
}
