/** The abstract round-robin schedule: what one timer tick does to the ready queue,
    and what any number of ticks do. kernel/core/scheduler/sched.c */
module RoundRobin {
  import opened Arithmetic

  const RR_SLICE_TICKS := 10

  /** What the scheduler keeps about one task. `context` is the address of its frame. */
  datatype Slot = Slot(id: int, slice: int, context: int)

  /** One tick while the task at the head of the queue runs: `frame` is its saved
      context. The head keeps the CPU until its slice is used up, then goes last. */
  function Tick(queue: seq<Slot>, frame: int): (queue': seq<Slot>)
    requires queue != []
    ensures queue' != []
  {
    var head := queue[0].(context := frame);
    if head.slice - 1 > 0 then [head.(slice := head.slice - 1)] + queue[1..]
    else queue[1..] + [head.(slice := RR_SLICE_TICKS)]
  }

  function Ticks(queue: seq<Slot>, frames: seq<int>): (queue': seq<Slot>)
    requires queue != []
    ensures queue' != []
    decreases |frames|
  {
    if frames == [] then queue
    else Tick(Ticks(queue, frames[..|frames| - 1]), frames[|frames| - 1])
  }

  /** Position, in the initial queue, of the task that runs after t ticks. */
  function Turn(t: nat, n: nat): (k: nat)
    requires n > 0
    ensures k < n
  {
    (t / RR_SLICE_TICKS) % n
  }

  ghost predicate Fresh(queue: seq<Slot>) {
    forall i :: 0 <= i < |queue| ==> queue[i].slice == RR_SLICE_TICKS
  }

  lemma DivStep(t: nat)
    ensures if t % 10 == 9 then (t + 1) / 10 == t / 10 + 1 && (t + 1) % 10 == 0
            else (t + 1) / 10 == t / 10 && (t + 1) % 10 == t % 10 + 1
  {
  }

  /** Where position j of the queue comes from after t ticks. */
  function Origin(t: nat, n: nat, j: nat): (k: nat)
    requires n > 0
    ensures k < n
  {
    (t / RR_SLICE_TICKS + j) % n
  }

  /** The initial queue rotated left once for every full slice, with only the running
      task's slice partly used. */
  ghost predicate Rotated(queue: seq<Slot>, t: nat, q: seq<Slot>)
    requires queue != []
  {
    && |q| == |queue|
    && (forall j :: 0 <= j < |q| ==> q[j].id == queue[Origin(t, |queue|, j)].id)
    && q[0].slice == RR_SLICE_TICKS - t % RR_SLICE_TICKS
    && (forall j :: 1 <= j < |q| ==> q[j].slice == RR_SLICE_TICKS)
  }

  lemma TickInsideSlice(queue: seq<Slot>, t: nat, q: seq<Slot>, frame: int)
    requires queue != [] && Rotated(queue, t, q) && t % 10 != 9
    ensures Rotated(queue, t + 1, Tick(q, frame))
  {
    DivStep(t);
    var q' := Tick(q, frame);
    forall j | 0 <= j < |q| ensures q'[j].id == queue[Origin(t + 1, |queue|, j)].id {
      assert q'[j].id == q[j].id;
      assert Origin(t + 1, |queue|, j) == Origin(t, |queue|, j);
    }
  }

  lemma TickEndsSlice(queue: seq<Slot>, t: nat, q: seq<Slot>, frame: int)
    requires queue != [] && Rotated(queue, t, q) && t % 10 == 9
    ensures Rotated(queue, t + 1, Tick(q, frame))
  {
    var n, q' := |queue|, Tick(q, frame);
    DivStep(t);
    assert q' == q[1..] + [q[0].(context := frame, slice := RR_SLICE_TICKS)];
    forall j | 0 <= j < n ensures q'[j].id == queue[Origin(t + 1, n, j)].id {
      if j < n - 1 {
        assert q'[j] == q[j + 1];
        assert Origin(t + 1, n, j) == Origin(t, n, j + 1);
      } else {
        RotationWraps(t / 10, n);
        assert Origin(t + 1, n, j) == Origin(t, n, 0);
      }
    }
  }

  /** The queue after any number of ticks, in closed form. */
  lemma {:induction false} TicksClosedForm(queue: seq<Slot>, frames: seq<int>)
    requires queue != [] && Fresh(queue)
    ensures Rotated(queue, |frames|, Ticks(queue, frames))
    decreases |frames|
  {
    var n := |queue|;
    if frames == [] {
      forall j | 0 <= j < n ensures Origin(0, n, j) == j {
        DivModUnique(j, n, 0, j);
      }
    } else {
      var t := |frames| - 1;
      TicksClosedForm(queue, frames[..t]);
      if t % 10 == 9 {
        TickEndsSlice(queue, t, Ticks(queue, frames[..t]), frames[t]);
      } else {
        TickInsideSlice(queue, t, Ticks(queue, frames[..t]), frames[t]);
      }
    }
  }

  /** The task that runs after t ticks, and how much of its slice is left. */
  lemma RunningAfter(queue: seq<Slot>, frames: seq<int>)
    requires queue != [] && Fresh(queue)
    ensures var (t, q) := (|frames|, Ticks(queue, frames));
      q[0].id == queue[(t / 10) % |queue|].id && q[0].slice == 10 - t % 10
  {
    TicksClosedForm(queue, frames);
  }

  lemma RotationWraps(a: nat, n: nat)
    requires n > 0
    ensures (a + 1 + (n - 1)) % n == a % n
  {
    DivModUnique(a + n, n, a / n + 1, a % n);
  }

  // ----- Fairness: how often a task runs -----

  /** Number of ticks t with from <= t < upto during which position k of the initial
      queue runs. */
  function TicksOf(k: nat, n: nat, from: nat, upto: nat): nat
    requires n > 0 && from <= upto
    decreases upto - from
  {
    if from == upto then 0
    else TicksOf(k, n, from, upto - 1) + (if Turn(upto - 1, n) == k then 1 else 0)
  }

  /** Number of slices b with from <= b < upto that belong to position k. */
  function SlicesOf(k: nat, n: nat, from: nat, upto: nat): nat
    requires n > 0 && from <= upto
    decreases upto - from
  {
    if from == upto then 0
    else SlicesOf(k, n, from, upto - 1) + (if (upto - 1) % n == k then 1 else 0)
  }

  lemma TurnInSlice(n: nat, b: nat, r: nat, t: nat)
    requires n > 0 && r < 10 && t == 10 * b + r
    ensures Turn(t, n) == b % n
  {
    DivModUnique(t, 10, b, r);
  }

  lemma OneMoreTick(k: nat, n: nat, from: nat, t: nat, t': nat)
    requires n > 0 && from <= t && t' == t + 1
    ensures TicksOf(k, n, from, t') == TicksOf(k, n, from, t) + (if Turn(t, n) == k then 1 else 0)
  {
  }

  /** r ticks that all belong to position k, or none of them. */
  lemma {:induction false} SameTurns(k: nat, n: nat, from: nat, start: nat, r: nat, mine: bool)
    requires n > 0 && from <= start
    requires forall t :: start <= t < start + r ==> (Turn(t, n) == k <==> mine)
    ensures TicksOf(k, n, from, start + r) == TicksOf(k, n, from, start) + (if mine then r else 0)
    decreases r
  {
    if r > 0 {
      SameTurns(k, n, from, start, r - 1, mine);
      OneMoreTick(k, n, from, start + (r - 1), start + r);
    }
  }

  lemma TicksInsideSlice(k: nat, n: nat, from: nat, b: nat, r: nat)
    requires n > 0 && from <= 10 * b && r <= 10
    ensures TicksOf(k, n, from, 10 * b + r) == TicksOf(k, n, from, 10 * b) + (if b % n == k then r else 0)
  {
    forall t: nat | 10 * b <= t < 10 * b + r ensures Turn(t, n) == b % n {
      TurnInSlice(n, b, t - 10 * b, t);
    }
    SameTurns(k, n, from, 10 * b, r, b % n == k);
  }

  lemma {:induction false} TicksAreSlices(k: nat, n: nat, a: nat, b: nat)
    requires n > 0 && a <= b
    ensures TicksOf(k, n, 10 * a, 10 * b) == 10 * SlicesOf(k, n, a, b)
    decreases b - a
  {
    if a < b {
      TicksAreSlices(k, n, a, b - 1);
      TicksInsideSlice(k, n, 10 * a, b - 1, 10);
    }
  }

  /** The m <= n slices from a on have the m consecutive residues from a % n on. */
  lemma {:induction false} SlicesCount(k: nat, n: nat, a: nat, m: nat)
    requires 0 < n && k < n && m <= n
    ensures SlicesOf(k, n, a, a + m) ==
            if a % n <= k < a % n + m || a % n <= k + n < a % n + m then 1 else 0
    decreases m
  {
    if m > 0 {
      SlicesCount(k, n, a, m - 1);
      ResidueAfter(a, n, m - 1);
    }
  }

  lemma ResidueAfter(a: nat, n: nat, m: nat)
    requires m < n
    ensures (a + m) % n == if a % n + m < n then a % n + m else a % n + m - n
  {
    var r := a % n + m;
    if r < n {
      DivModUnique(a + m, n, a / n, r);
    } else {
      DivModUnique(a + m, n, a / n + 1, r - n);
    }
  }

  lemma WindowOfTurns(k: nat, n: nat, slice: nat)
    requires k < n
    ensures TicksOf(k, n, 10 * slice, 10 * slice + 10 * n) == RR_SLICE_TICKS
  {
    SlicesCount(k, n, slice, n);
    TicksAreSlices(k, n, slice, slice + n);
    assert 10 * (slice + n) == 10 * slice + 10 * n;
  }

  /** How many of the ticks from `from` on, before `upto`, find the task with that id running. */
  function TicksGiven(queue: seq<Slot>, frames: seq<int>, id: int, from: nat, upto: nat): nat
    requires queue != [] && from <= upto <= |frames|
    decreases upto - from
  {
    if from == upto then 0
    else TicksGiven(queue, frames, id, from, upto - 1) + if Ticks(queue, frames[..upto - 1])[0].id == id then 1 else 0
  }

  ghost predicate DistinctIds(queue: seq<Slot>) {
    forall i, j :: 0 <= i < j < |queue| ==> queue[i].id != queue[j].id
  }

  lemma {:induction false} GivenAreTurns(queue: seq<Slot>, frames: seq<int>, k: nat, from: nat, upto: nat)
    requires Fresh(queue) && DistinctIds(queue) && k < |queue| && from <= upto <= |frames|
    ensures TicksGiven(queue, frames, queue[k].id, from, upto) == TicksOf(k, |queue|, from, upto)
    decreases upto - from
  {
    if from < upto {
      GivenAreTurns(queue, frames, k, from, upto - 1);
      RunningAfter(queue, frames[..upto - 1]);
    }
  }

  /** Exact fairness: of the n tasks of a queue, each runs in exactly 10 of the 10 * n ticks of
      every window that starts at a slice boundary. */
  lemma RoundIsFair(queue: seq<Slot>, frames: seq<int>, k: nat, slice: nat)
    requires Fresh(queue) && DistinctIds(queue) && k < |queue|
    requires 10 * slice + 10 * |queue| <= |frames|
    ensures TicksGiven(queue, frames, queue[k].id, 10 * slice, 10 * slice + 10 * |queue|) == 10
  {
    GivenAreTurns(queue, frames, k, 10 * slice, 10 * slice + 10 * |queue|);
    WindowOfTurns(k, |queue|, slice);
  }
}
