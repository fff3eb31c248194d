/** The linked run queue and tick handler of kernel/core/scheduler/sched.c, updated in place. */
module Scheduler {
  import opened RoundRobin

  datatype TaskState = READY | RUNNING | BLOCKED

  class Task {
    var id: int
    var state: TaskState
    var context: int       // address of the saved register frame
    var sliceLeft: int
    var next: Task?

    constructor (id: int, context: int)
      ensures this.id == id && this.context == context && next == null
    {
      this.id, this.context, this.next := id, context, null;
      this.state, this.sliceLeft := BLOCKED, 0;
    }
  }

  function Successor(q: seq<Task>, i: nat): Task?
    requires i < |q|
  {
    if i + 1 < |q| then q[i + 1] else null
  }

  function Permuted(tasks: seq<Task>, order: seq<nat>): (q: seq<Task>)
    requires forall i :: 0 <= i < |order| ==> order[i] < |tasks|
    ensures |q| == |order| && forall i :: 0 <= i < |q| ==> q[i] == tasks[order[i]]
  {
    seq(|order|, i requires 0 <= i < |order| => tasks[order[i]])
  }

  /** The head is dropped and t goes last; on an empty list the two cancel. */
  function Shifted(q: seq<Task>, t: Task): seq<Task> {
    if q == [] then [] else q[1..] + [t]
  }

  ghost predicate NoRepeats(q: seq<Task>) {
    forall i, j :: 0 <= i < j < |q| ==> q[i] != q[j]
  }

  function Rest(q: seq<Task>): seq<Task> {
    if q == [] then [] else q[1..]
  }

  /** The statics rq_head, rq_tail and current. `queue` is the list they stand for. */
  class RunQueue {
    var rqHead: Task?
    var rqTail: Task?
    var current: Task?
    ghost var queue: seq<Task>

    /** q is the null-terminated list from rqHead to rqTail, without repetition. */
    ghost predicate Links(q: seq<Task>)
      reads `rqHead, `rqTail, q`next
    {
      && NoRepeats(q)
      && rqHead == (if q == [] then null else q[0])
      && rqTail == (if q == [] then null else q[|q| - 1])
      && (forall i {:trigger q[i].next} :: 0 <= i < |q| ==> q[i].next == Successor(q, i))
    }

    /** The linked list is, in some order, exactly the given tasks. */
    ghost predicate Reassembles(tasks: seq<Task>)
      reads `rqHead, `rqTail, tasks`next
    {
      exists order: seq<nat> ::
        && |order| == |tasks|
        && (forall i :: 0 <= i < |order| ==> order[i] < |tasks|)
        && var q := Permuted(tasks, order); multiset(q) == multiset(tasks) && Links(q)
    }

    /** From position `from` on, q is linked in order, and its last task to the tail. */
    ghost predicate ChainsToTail(q: seq<Task>, from: nat)
      reads `rqTail, q`next
    {
      forall i {:trigger q[i].next} :: from <= i < |q| ==> q[i].next == if i == |q| - 1 then rqTail else Successor(q, i)
    }

    ghost predicate Valid()
      reads `rqHead, `rqTail, `queue, queue`next
    {
      Links(queue)
    }

    /** What kmain establishes before the first entry to user mode, and every tick keeps:
        the running task is the head of the queue. */
    ghost predicate Started()
      reads this, queue
    {
      && Valid()
      && queue != []
      && current == queue[0]
      && current.state == RUNNING
      && (forall i :: 1 <= i < |queue| ==> queue[i].state == READY)
    }

    ghost function View(): (v: seq<Slot>)
      reads `queue, queue
      ensures |v| == |queue|
    {
      SlotsOf(queue)
    }

    constructor ()
      ensures Valid() && queue == [] && current == null
    {
      rqHead, rqTail, current, queue := null, null, null, [];
    }

    method RqPush(t: Task)
      requires Valid()
      modifies this`rqHead, this`rqTail, (if rqTail == null then {} else {rqTail})`next
      ensures rqTail == t
      ensures old(rqTail) == null ==> rqHead == t
      ensures old(rqTail) != null ==>
                && rqHead == old(rqHead)
                && old(rqTail).next == t
      ensures ChainsToTail(queue, 0)
      ensures t !in queue && old(t.next) == null ==> Links(queue + [t])
      ensures SlotsOf(queue) == old(SlotsOf(queue)) && AllReady(queue) == old(AllReady(queue))
    {
      if rqTail == null {
        rqHead, rqTail := t, t;
      } else {
        rqTail.next := t;
        rqTail := t;
      }
    }

    /** Unlinks the head and returns the head that follows it. */
    method RqPop() returns (head: Task?)
      modifies this`rqHead, this`rqTail, (if rqHead == null then {} else {rqHead})`next
      ensures head == rqHead
      ensures old(rqHead) == null ==> head == null && rqTail == old(rqTail)
      ensures old(rqHead) != null ==>
                && head == old(rqHead.next)
                && rqTail == (if head == null then null else old(rqTail))
                && old(rqHead).next == null
      ensures SlotsOf(queue) == old(SlotsOf(queue)) && AllReady(queue) == old(AllReady(queue))
      ensures old(queue != [] && rqHead == queue[0] && NoRepeats(queue) && ChainsToTail(queue, 0)) && head != null ==>
                ChainsToTail(queue, 1)
      ensures old(Valid()) ==> Links(Rest(queue)) && (head != null ==> head in queue)
    {
      ghost var wasValid := Valid();
      var t := rqHead;
      if t == null { return null; }
      rqHead := t.next;
      if rqHead == null { rqTail := null; }
      t.next := null;
      head := rqHead;
      if wasValid {
        TailLinks(queue);
      }
    }

    method SchedReadyEnqueue(t: Task)
      requires Valid() && t !in queue && t.next == null
      modifies `rqHead, `rqTail, `queue, t`state, t`sliceLeft
      modifies (if rqTail == null then {} else {rqTail})`next
      ensures Valid() && queue == old(queue) + [t] && t.state == READY
      ensures View() == old(View()) + [Slot(t.id, RR_SLICE_TICKS, t.context)]
      ensures old(AllReady(queue)) ==> AllReady(queue)
    {
      t.state := READY;
      t.sliceLeft := RR_SLICE_TICKS;
      assert SlotsOf(queue) == old(SlotsOf(queue)) && AllReady(queue) == old(AllReady(queue));
      RqPush(t);
      queue := queue + [t];
    }

    method SchedSetCurrent(t: Task)
      modifies this`current, t`state
      ensures current == t && t.state == RUNNING
    {
      current := t;
      current.state := RUNNING;
    }

    /** What slice expiry does to the list: the task is linked behind the tail, which makes
        the list cyclic when the task is already on it, and then the head is unlinked. A
        queued task that is not the head stays on a list that leads from the new head through
        the old tail back to itself, and the old head is on no list. */
    method PushThenPop(t: Task) returns (next: Task?)
      requires Valid()
      requires t !in queue ==> t.next == null
      modifies `rqHead, `rqTail, t`next
      modifies (if rqHead == null then {} else {rqHead})`next, (if rqTail == null then {} else {rqTail})`next
      ensures next == rqHead && (next != null ==> next == t || next in queue)
      ensures t == old(rqHead) || t !in queue ==> Links(Shifted(queue, t))
      ensures t == old(rqHead) ==> next != null
      ensures t in queue && t != old(rqHead) ==>
                && next != null && old(rqHead).next == null && rqTail == t
                && |queue| > 1 && rqHead == queue[1] && ChainsToTail(queue, 1)
      ensures SlotsOf(queue) == old(SlotsOf(queue)) && AllReady(queue) == old(AllReady(queue))
    {
      RqPush(t);
      next := RqPop();
      if queue != [] && t == queue[0] {
        RotationLinks(queue);
      } else if t !in queue {
        AppendedTailLinks(queue, t);
      }
    }

    /** Records the new list. */
    ghost method Requeue(t: Task)
      modifies `queue
      ensures queue == Shifted(old(queue), t)
      ensures old(Links(Shifted(queue, t))) ==> Valid()
      ensures old(queue) != [] && t == old(queue)[0] ==>
                && View() == old(View())[1..] + [old(View())[0]]
                && (old(AllReady(queue)) ==> AllReady(queue))
    {
      if queue != [] && t == queue[0] {
        RotatedTasks(queue);
      }
      queue := Shifted(queue, t);
    }

    lemma RotationLinks(q0: seq<Task>)
      requires q0 != [] && NoRepeats(q0)
      requires rqHead == (if |q0| == 1 then null else q0[1]) || (|q0| == 1 && rqHead == q0[0])
      requires rqHead != null && rqTail == q0[0] && q0[0].next == null
      requires ChainsToTail(q0, 1)
      ensures Links(q0[1..] + [q0[0]])
    {
      var q := q0[1..] + [q0[0]];
      forall i | 0 <= i < |q| ensures q[i].next == Successor(q, i) {
        assert q[i] == if i == |q0| - 1 then q0[0] else q0[i + 1];
      }
    }

    lemma AppendedTailLinks(q0: seq<Task>, t: Task)
      requires t !in q0 && NoRepeats(q0)
      requires t.next == null && rqTail == (if q0 == [] then null else t)
      requires rqHead == (if |q0| > 1 then q0[1] else if |q0| == 1 then t else null)
      requires ChainsToTail(q0, 1)
      ensures Links(Shifted(q0, t))
    {
      var q := Shifted(q0, t);
      forall i | 0 <= i < |q| ensures q[i].next == Successor(q, i) {
        assert q[i] == if i == |q0| - 1 then t else q0[i + 1];
      }
    }

    /** The tick of a running task whose slice lasts. */
    method KeepRunning(tf: int) returns (context: int)
      requires Valid() && current != null && current.sliceLeft > 1
      modifies current`context, current`sliceLeft
      ensures Valid() && current.context == tf && context == tf
      ensures current.sliceLeft == old(current.sliceLeft) - 1
      ensures old(Started()) ==> Started() && View() == Tick(old(View()), tf)
    {
      ghost var v := View();
      current.context := tf;
      current.sliceLeft := current.sliceLeft - 1;
      context := current.context;
      assert queue != [] && current == queue[0] ==> View() == Tick(v, tf);
    }

    /** The running task is ready again, with a full slice and its frame recorded. */
    method Demote(tf: int)
      requires current != null
      modifies current`context, current`sliceLeft, current`state
      ensures current.context == tf && current.state == READY
      ensures old(Valid()) ==> Valid()
      ensures old(Started()) ==>
                && AllReady(queue)
                && SlotsOf(queue) == old(View())[0 := Slot(old(View())[0].id, RR_SLICE_TICKS, tf)]
    {
      current.context := tf;
      current.sliceLeft := RR_SLICE_TICKS;
      current.state := READY;
    }

    /** The tick that ends the slice of a running task. */
    method ExpireSlice(tf: int) returns (context: int)
      requires Valid() && current != null && current.sliceLeft <= 1
      requires current !in queue ==> current.next == null
      modifies this, queue, current
      ensures old(Started()) ==>
                && Started() && context == current.context
                && View() == old(View())[1..] + [Slot(old(View())[0].id, RR_SLICE_TICKS, tf)]
      ensures old(current !in queue || current == rqHead) ==> Valid() && queue == Shifted(old(queue), old(current))
      ensures old(current !in queue) ==>
                && (old(queue) != [] ==> current == queue[0] && current.state == RUNNING && context == current.context)
                && (old(queue) == [] ==> current == old(current) && current.state == READY && context == tf)
      ensures old(current in queue && current == rqHead) ==>
                current == queue[0] && current.state == RUNNING && context == current.context
      ensures old(current in queue && current != rqHead) ==>
                && old(rqHead).next == null && rqTail == old(current) && |old(queue)| > 1
                && current == old(queue)[1] && current.state == RUNNING && context == current.context
    {
      ghost var v0, started := View(), Started();
      var t: Task := current;
      Demote(tf);
      ghost var v1 := View();
      var next := PushThenPop(t);
      Requeue(t);
      assert started ==> v1[1..] == v0[1..] && next == queue[0] && AllReady(queue);
      context := SwitchTo(next, tf);
    }

    /** The list rotated by one has the rotated view. */
    lemma RotatedTasks(q0: seq<Task>)
      requires q0 != []
      ensures SlotsOf(q0[1..] + [q0[0]]) == SlotsOf(q0)[1..] + [SlotsOf(q0)[0]]
      ensures AllReady(q0) ==> AllReady(q0[1..] + [q0[0]])
    {
      var q, v := q0[1..] + [q0[0]], SlotsOf(q0);
      forall i | 0 <= i < |q| ensures q[i] in q0 && SlotsOf(q)[i] == (v[1..] + [v[0]])[i] {
        assert q[i] == if i == |q| - 1 then q0[0] else q0[i + 1];
      }
    }

    /** The tick while nothing runs. */
    method StartNext(tf: int) returns (context: int)
      requires Valid()
      modifies this, queue
      ensures Valid() && queue == Rest(old(queue))
      ensures queue != [] ==> current == queue[0] && current.state == RUNNING && context == current.context
      ensures queue == [] ==> current == old(current) && context == if current == null then tf else current.context
    {
      ghost var q0 := queue;
      var next := RqPop();
      queue := Rest(q0);
      assert Valid();
      context := SwitchTo(next, tf);
    }

    /** One tick. Each ensures group is one situation the source can be in; the first is
        the one every run of the booted kernel is in. */
    method ScheduleOnTick(tf: int) returns (context: int)
      requires Valid()
      // Every linked task is on the queue.
      requires current != null && current !in queue ==> current.next == null
      modifies this, queue, if current == null then {} else {current}
      // Started: the abstract tick, on a list that is again well formed.
      ensures old(Started()) ==>
                && Started()
                && View() == Tick(old(View()), tf)
                && context == current.context
                && queue == (if old(current.sliceLeft) > 1 then old(queue) else old(queue)[1..] + [old(queue)[0]])
      // Not expired: the same task goes on, wherever it is.
      ensures old(current != null && current.state == RUNNING && current.sliceLeft > 1) ==>
                && current == old(current) && current.context == tf && context == tf
                && current.sliceLeft == old(current.sliceLeft) - 1
                && queue == old(queue) && Valid()
      // Expired, current not queued: it is appended, and the head it was not is dropped.
      ensures old(current != null && current.state == RUNNING && current.sliceLeft <= 1 && current !in queue) ==>
                && Valid() && queue == Shifted(old(queue), old(current))
                && (old(queue) != [] ==> current == queue[0] && current.state == RUNNING && context == current.context)
                && (old(queue) == [] ==> current == old(current) && current.state == READY && context == tf)
      // Expired, current queued: the list is again a well-formed list of the same tasks
      // if and only if the running task was its head.
      ensures old(current != null && current.state == RUNNING && current.sliceLeft <= 1 && current in queue) ==>
                (Reassembles(old(queue)) <==> old(current == rqHead))
      // In both cases the task behind the old head runs, the same one if it was alone.
      ensures old(current != null && current.state == RUNNING && current.sliceLeft <= 1 && current in queue) ==>
                && current == (if |old(queue)| > 1 then old(queue)[1] else old(queue)[0])
                && current.state == RUNNING && context == current.context
      // Nothing running: the head is dropped and its successor, if any, starts.
      ensures old(current == null || current.state != RUNNING) ==>
                && Valid() && queue == Rest(old(queue))
                && (queue != [] ==> current == queue[0] && current.state == RUNNING && context == current.context)
                && (queue == [] ==> current == old(current))
                && (queue == [] ==> context == if current == null then tf else current.context)
    {
      if current != null && current.state == RUNNING {
        if current.sliceLeft - 1 > 0 {
          context := KeepRunning(tf);
        } else {
          ghost var q0, t, atHead := queue, current, current == rqHead;
          context := ExpireSlice(tf);
          if atHead && t in q0 {
            RotationReassembles(q0);
          } else if t in q0 {
            LostHead(q0[0], q0);
          }
        }
      } else {
        context := StartNext(tf);
      }
    }

    /** The end of the tick: the chosen task, if there is one, runs next. */
    method SwitchTo(next: Task?, tf: int) returns (context: int)
      modifies this`current, (if next == null then {} else {next})`state
      ensures old(Valid()) ==> Valid()
      ensures View() == old(View())
      ensures old(Valid() && queue != [] && next == queue[0] && AllReady(queue)) ==> Started()
      ensures next != null ==> current == next && next.state == RUNNING && context == next.context
      ensures next == null ==> current == old(current) && context == if current == null then tf else current.context
    {
      if next == null {
        if current != null {
          return current.context;
        }
        return tf;
      }
      next.state := RUNNING;
      current := next;
      return current.context;
    }

    lemma TailLinks(q0: seq<Task>)
      requires NoRepeats(q0)
      requires rqHead == (if |q0| > 1 then q0[1] else null)
      requires rqTail == (if |q0| > 1 then q0[|q0| - 1] else null)
      requires forall i {:trigger q0[i].next} :: 1 <= i < |q0| ==> q0[i].next == Successor(q0, i)
      ensures Links(Rest(q0))
    {
      if q0 != [] {
        var q := q0[1..];
        forall i | 0 <= i < |q| ensures q[i].next == Successor(q, i) {
          assert q[i] == q0[i + 1];
        }
      }
    }

    lemma RotationReassembles(q0: seq<Task>)
      requires q0 != [] && Links(q0[1..] + [q0[0]])
      ensures Reassembles(q0)
    {
      var n := |q0|;
      var order: seq<nat> := seq(n, i requires 0 <= i < n => if i == n - 1 then 0 else i + 1);
      assert Permuted(q0, order) == q0[1..] + [q0[0]];
      assert q0 == [q0[0]] + q0[1..];
    }

    /** A task that was unlinked from the front, and is not the tail, is on no list. */
    lemma LostHead(dropped: Task, tasks: seq<Task>)
      requires dropped in tasks && dropped.next == null && rqTail != dropped
      ensures !Reassembles(tasks)
    {
      assert dropped in multiset(tasks);
      forall q: seq<Task> | multiset(q) == multiset(tasks) ensures !Links(q) {
        assert dropped in q;
      }
    }
  }

  ghost predicate AllReady(q: seq<Task>)
    reads q`state
  {
    forall i :: 0 <= i < |q| ==> q[i].state == READY
  }

  ghost function SlotsOf(q: seq<Task>): (v: seq<Slot>)
    reads q
    ensures |v| == |q|
    ensures forall i :: 0 <= i < |q| ==> v[i] == Slot(q[i].id, q[i].sliceLeft, q[i].context)
  {
    seq(|q|, i requires 0 <= i < |q| reads q => Slot(q[i].id, q[i].sliceLeft, q[i].context))
  }

  /** The boot sequence of kmain: two tasks are enqueued and the first is made current. */
  method StartTwo(rq: RunQueue, task1: Task, task2: Task)
    requires rq.Valid() && rq.queue == []
    requires task1 != task2 && task1.next == null && task2.next == null
    modifies rq, task1, task2
    ensures rq.Started() && rq.queue == [task1, task2]
    ensures rq.View() == [Slot(old(task1.id), RR_SLICE_TICKS, old(task1.context)),
                          Slot(old(task2.id), RR_SLICE_TICKS, old(task2.context))]
    ensures Fresh(rq.View())
  {
    rq.SchedReadyEnqueue(task1);
    rq.SchedReadyEnqueue(task2);
    rq.SchedSetCurrent(task1);
  }
}
