/** The queue that runs the desktop app's startup tasks one by one in idle time. */
module StartupQueue {
  import opened Options

  datatype Item = Started(task: nat) | Settled(task: nat)

  /** `timer`, `idle` and `running` hold the index of the task that waits for the delay, waits for idle
      time, or runs. */
  datatype Queue = Queue(
    size: nat,
    cancelled: bool,
    timer: Option<nat>,
    idle: Option<nat>,
    running: Option<nat>,
    log: seq<Item>)

  function Schedule(q: Queue, index: nat): Queue {
    if q.cancelled || index >= q.size then q else q.(timer := Some(index))
  }

  function Start(size: nat): Queue {
    Schedule(Queue(size, false, None, None, None, []), 0)
  }

  function TimerFired(q: Queue): Queue {
    if q.timer.None? then q
    else if q.cancelled then q.(timer := None)
    else q.(timer := None, idle := q.timer)
  }

  /** The idle callback: the task starts in the same turn. */
  function IdleFired(q: Queue): Queue {
    if q.idle.None? then q
    else q.(idle := None, running := q.idle, log := q.log + [Started(q.idle.value)])
  }

  /** The promise of the running entry settles; whether it resolves or rejects makes no difference to the queue. */
  function TaskSettled(q: Queue): Queue {
    if q.running.None? then q
    else Schedule(q.(running := None, log := q.log + [Settled(q.running.value)]), q.running.value + 1)
  }

  function Cancelled(q: Queue): Queue {
    q.(cancelled := true, timer := None, idle := None)
  }

  /** The closure variables of the source, updated in place; the ghost log records what happened. */
  class IdleTaskQueue {
    const size: nat
    var cancelled: bool
    var timer: Option<nat>
    var idle: Option<nat>
    var running: Option<nat>
    ghost var log: seq<Item>

    ghost function View(): Queue
      reads this
    {
      Queue(size, cancelled, timer, idle, running, log)
    }

    constructor (size: nat)
      ensures View() == Start(size)
    {
      this.size := size;
      cancelled, idle, running, log := false, None, None, [];
      timer := if size == 0 then None else Some(0);
    }

    method ScheduleTask(index: nat)
      modifies this
      ensures View() == Schedule(old(View()), index)
    {
      if cancelled || index >= size {
        return;
      }
      timer := Some(index);
    }

    method OnTimer()
      modifies this
      ensures View() == TimerFired(old(View()))
    {
      var index := timer;
      timer := None;
      if index.None? || cancelled {
        return;
      }
      idle := index;
    }

    method OnIdle()
      modifies this
      ensures View() == IdleFired(old(View()))
    {
      if idle.None? {
        return;
      }
      running := idle;
      idle := None;
      log := log + [Started(running.value)];
    }

    method OnSettled()
      modifies this
      ensures View() == TaskSettled(old(View()))
    {
      if running.None? {
        return;
      }
      var index := running.value;
      running := None;
      log := log + [Settled(index)];
      if !cancelled {
        ScheduleTask(index + 1);
      }
    }

    method Cancel()
      modifies this
      ensures View() == Cancelled(old(View()))
    {
      cancelled := true;
      timer := None;
      idle := None;
    }
  }

  datatype Event = Timer | Idle | Settle(rejected: bool) | CancelAll

  function Step(q: Queue, e: Event): Queue {
    match e
    case Timer => TimerFired(q)
    case Idle => IdleFired(q)
    case Settle(_) => TaskSettled(q)
    case CancelAll => Cancelled(q)
  }

  function Run(q: Queue, events: seq<Event>): Queue {
    if events == [] then q else Step(Run(q, events[..|events| - 1]), events[|events| - 1])
  }

  /** What the log must hold at a position: task 0 starts, task 0 settles, task 1 starts, and so on. */
  function Expected(p: nat): Item {
    if p % 2 == 0 then Started(p / 2) else Settled(p / 2)
  }

  function Waiting(q: Queue): nat {
    (if q.timer.Some? then 1 else 0) + (if q.idle.Some? then 1 else 0) + (if q.running.Some? then 1 else 0)
  }

  ghost predicate InOrder(q: Queue) {
    && (forall p :: 0 <= p < |q.log| ==> q.log[p] == Expected(p))
    && |q.log| <= 2 * q.size
    && Waiting(q) <= 1
    && (q.timer.Some? ==> |q.log| == 2 * q.timer.value && q.timer.value < q.size && !q.cancelled)
    && (q.idle.Some? ==> |q.log| == 2 * q.idle.value && q.idle.value < q.size && !q.cancelled)
    && (q.running.Some? <==> |q.log| % 2 == 1)
    && (q.running.Some? ==> q.running.value == |q.log| / 2)
    && (!q.cancelled ==> Waiting(q) == 1 || |q.log| == 2 * q.size)
  }

  lemma CallbackKeepsOrder(q: Queue)
    requires InOrder(q)
    ensures InOrder(TimerFired(q)) && InOrder(IdleFired(q)) && InOrder(TaskSettled(q)) && InOrder(Cancelled(q))
  {
  }

  /** In every run the tasks start once each and in order, each after the one before has settled; at most
      one timer, idle callback or task is pending; and an uncancelled queue is never stuck. */
  lemma {:induction false} AlwaysInOrder(size: nat, events: seq<Event>)
    ensures InOrder(Run(Start(size), events)) && Run(Start(size), events).size == size
  {
    if events != [] {
      AlwaysInOrder(size, events[..|events| - 1]);
      CallbackKeepsOrder(Run(Start(size), events[..|events| - 1]));
      hide InOrder;
    }
  }

  /** Once cancelled, nothing starts any more. */
  lemma {:induction false} CancelIsFinal(q: Queue, more: seq<Event>)
    requires InOrder(q)
    ensures forall i :: Started(i) in Run(Step(q, CancelAll), more).log ==> Started(i) in q.log
    ensures var after := Run(Step(q, CancelAll), more); after.cancelled && after.timer.None? && after.idle.None?
  {
    if more != [] {
      CancelIsFinal(q, more[..|more| - 1]);
    }
  }

  /** An uncancelled queue whose delay, idle time and task take their turns, one round for each way a task settles. */
  function Driven(size: nat, rejected: seq<bool>): Queue {
    if rejected == [] then Start(size)
    else
      var n := |rejected| - 1;
      Step(Step(Step(Driven(size, rejected[..n]), Timer), Idle), Settle(rejected[n]))
  }

  lemma OneRound(q: Queue, task: nat, rejected: bool)
    requires InOrder(q) && !q.cancelled && q.timer == Some(task) && task < q.size && |q.log| == 2 * task
    ensures var q' := Step(Step(Step(q, Timer), Idle), Settle(rejected));
            && InOrder(q') && q'.size == q.size && !q'.cancelled
            && q'.log == q.log + [Started(task), Settled(task)]
            && q'.timer == if task + 1 < q.size then Some(task + 1) else None
  {
    CallbackKeepsOrder(q);
    CallbackKeepsOrder(TimerFired(q));
    CallbackKeepsOrder(IdleFired(TimerFired(q)));
    assert q.idle.None? && q.running.None?;
    hide InOrder;
  }

  /** One round runs one task, so after n rounds the first n tasks have run and the next one is scheduled,
      whichever of them were rejected. */
  lemma {:induction false} AllTasksRun(size: nat, rejected: seq<bool>)
    requires |rejected| <= size
    ensures var q, n := Driven(size, rejected), |rejected|;
            && InOrder(q) && q.size == size && !q.cancelled && |q.log| == 2 * n
            && q.timer == if n < size then Some(n) else None
  {
    if rejected != [] {
      hide InOrder, Step, Schedule;
      var n := |rejected| - 1;
      AllTasksRun(size, rejected[..n]);
      OneRound(Driven(size, rejected[..n]), n, rejected[n]);
    }
  }
}
