/** The generic thumbnailer's task list, its two sorted thread pools and the three workers,
    as a step system: every step is one critical section or one signal of one thread. */
module ThumbnailQueueSpec {
  import opened Common

  /** Tasks are known by their creation number, counted from 1 without end; the C structure's
      address plays that part. The handle a client sees is that number as a 32-bit counter. */
  type TaskId = nat

  function Handle(t: TaskId): nat { t % UINT_MODULUS }

  datatype Task = Task(urls: nat, unqueued: bool, dead: bool)

  datatype Phase = Idle | Popped(task: TaskId) | Announced(task: TaskId) | Processing(task: TaskId) | Leaving(task: TaskId)

  datatype Signal = Started(task: TaskId) | Outcome(task: TaskId) | Finished(task: TaskId)

  const NORMAL_WORKERS: nat := 2
  const LARGE_WORKERS: nat := 1
  const WORKERS: nat := NORMAL_WORKERS + LARGE_WORKERS
  const LARGE_REQUEST: nat := 50

  /** `heap` holds the allocated tasks, `listed` is the task list under the mutex, and each pool is
      its waiting queue with the task to be served first in front. Workers 0 and 1 serve the normal
      pool, worker 2 the large one. */
  datatype State = State(
    count: nat, heap: map<TaskId, Task>, listed: seq<TaskId>,
    normal: seq<TaskId>, large: seq<TaskId>, workers: seq<Phase>,
    crashed: bool, trace: seq<Signal>)

  const INIT := State(0, map[], [], [], [], [Idle, Idle, Idle], false, [])

  // ---------------------------------------------------------------- the pool order

  /** An unsigned 32-bit difference read as a signed int. */
  function ToGint(x: int): int {
    var u := x % UINT_MODULUS;
    if u < UINT_MODULUS / 2 then u else u - UINT_MODULUS
  }

  function PoolSortCompare(a: TaskId, b: TaskId): int {
    ToGint(Handle(b) - Handle(a))
  }

  /** Sorted insertion, searching from the end that is served last. */
  function Insert(pool: seq<TaskId>, t: TaskId): (r: seq<TaskId>)
    ensures |r| == |pool| + 1
    ensures forall x :: x in r <==> x in pool || x == t
  {
    if pool == [] then [t]
    else
      var n := |pool| - 1;
      if PoolSortCompare(pool[n], t) > 0 then
        assert pool == pool[..n] + [pool[n]];
        Insert(pool[..n], t) + [pool[n]]
      else pool + [t]
  }

  // ---------------------------------------------------------------- steps

  function Mark(heap: map<TaskId, Task>, listed: seq<TaskId>, handle: nat): map<TaskId, Task> {
    map t | t in heap :: if t in listed && Handle(t) == handle then heap[t].(unqueued := true) else heap[t]
  }

  function Kill(heap: map<TaskId, Task>, listed: seq<TaskId>): map<TaskId, Task> {
    map t | t in heap :: if t in listed then heap[t].(unqueued := true, dead := true) else heap[t]
  }

  function Finishes(listed: seq<TaskId>): (r: seq<Signal>)
    ensures |r| == |listed|
    ensures forall i :: 0 <= i < |r| ==> r[i] == Finished(listed[i])
  {
    seq(|listed|, i requires 0 <= i < |listed| => Finished(listed[i]))
  }

  function Without(listed: seq<TaskId>, t: TaskId): seq<TaskId> {
    if listed == [] then []
    else if listed[0] == t then listed[1..]
    else [listed[0]] + Without(listed[1..], t)
  }

  lemma {:induction false} WithoutFirst(listed: seq<TaskId>, t: TaskId, i: nat)
    requires i <= |listed| && (i < |listed| ==> listed[i] == t) && forall k :: 0 <= k < i ==> listed[k] != t
    ensures Without(listed, t) == if i < |listed| then listed[..i] + listed[i + 1..] else listed
  {
    if i > 0 {
      WithoutFirst(listed[1..], t, i - 1);
    }
  }

  lemma WithoutShrinks(listed: seq<TaskId>, t: TaskId)
    ensures forall x :: x in Without(listed, t) ==> x in listed
  {}

  function Queue(s: State, urls: nat, handleToUnqueue: nat): State {
    var t := s.count + 1;
    var heap := Mark(s.heap[t := Task(urls, false, false)], s.listed, handleToUnqueue);
    if urls > LARGE_REQUEST
    then s.(count := t, heap := heap, listed := [t] + s.listed, large := Insert(s.large, t))
    else s.(count := t, heap := heap, listed := [t] + s.listed, normal := Insert(s.normal, t))
  }

  function Unqueue(s: State, handle: nat): State {
    s.(heap := Mark(s.heap, s.listed, handle))
  }

  function CrashOut(s: State): State {
    s.(heap := Kill(s.heap, s.listed), trace := s.trace + Finishes(s.listed), crashed := true)
  }

  function PoolOf(s: State, w: nat): seq<TaskId> {
    if w < NORMAL_WORKERS then s.normal else s.large
  }

  function Pop(s: State, w: nat): State
    requires w < |s.workers| && PoolOf(s, w) != []
  {
    var t := PoolOf(s, w)[0];
    if w < NORMAL_WORKERS
    then s.(normal := s.normal[1..], workers := s.workers[w := Popped(t)])
    else s.(large := s.large[1..], workers := s.workers[w := Popped(t)])
  }

  function Announce(s: State, w: nat): State
    requires w < |s.workers| && s.workers[w].Popped?
  {
    var t := s.workers[w].task;
    s.(workers := s.workers[w := Announced(t)], trace := s.trace + [Started(t)])
  }

  /** The first critical section of the worker: leave the list, then look at the flag. */
  function Remove(s: State, w: nat): State
    requires w < |s.workers| && s.workers[w].Announced? && s.workers[w].task in s.heap
  {
    var t := s.workers[w].task;
    s.(listed := Without(s.listed, t),
       workers := s.workers[w := if s.heap[t].unqueued then Leaving(t) else Processing(t)])
  }

  function Emit(s: State, w: nat): State
    requires w < |s.workers| && s.workers[w].Processing?
  {
    s.(trace := s.trace + [Outcome(s.workers[w].task)])
  }

  function EndProcessing(s: State, w: nat): State
    requires w < |s.workers| && s.workers[w].Processing?
  {
    s.(workers := s.workers[w := Leaving(s.workers[w].task)])
  }

  /** Finished unless a crash already announced it, then the task is freed. */
  function Leave(s: State, w: nat): State
    requires w < |s.workers| && s.workers[w].Leaving? && s.workers[w].task in s.heap
  {
    var t := s.workers[w].task;
    s.(workers := s.workers[w := Idle], heap := s.heap - {t},
       trace := if s.heap[t].dead then s.trace else s.trace + [Finished(t)])
  }

  datatype Event =
    | EQueue(urls: nat, handleToUnqueue: nat)
    | EUnqueue(handle: nat)
    | ECrashOut
    | EPop(worker: nat)
    | EAnnounce(worker: nat)
    | ERemove(worker: nat)
    | EEmit(worker: nat)
    | EEnd(worker: nat)
    | ELeave(worker: nat)

  /** The crash path ends in exit, so it is taken at most once. */
  predicate Enabled(s: State, e: Event) {
    match e
    case EQueue(_, _) => true
    case EUnqueue(_) => true
    case ECrashOut => !s.crashed
    case EPop(w) => w < |s.workers| && s.workers[w].Idle? && PoolOf(s, w) != []
    case EAnnounce(w) => w < |s.workers| && s.workers[w].Popped?
    case ERemove(w) => w < |s.workers| && s.workers[w].Announced? && s.workers[w].task in s.heap
    case EEmit(w) => w < |s.workers| && s.workers[w].Processing?
    case EEnd(w) => w < |s.workers| && s.workers[w].Processing?
    case ELeave(w) => w < |s.workers| && s.workers[w].Leaving? && s.workers[w].task in s.heap
  }

  function Step(s: State, e: Event): State
    requires Enabled(s, e)
  {
    match e
    case EQueue(urls, h) => Queue(s, urls, h)
    case EUnqueue(h) => Unqueue(s, h)
    case ECrashOut => CrashOut(s)
    case EPop(w) => Pop(s, w)
    case EAnnounce(w) => Announce(s, w)
    case ERemove(w) => Remove(s, w)
    case EEmit(w) => Emit(s, w)
    case EEnd(w) => EndProcessing(s, w)
    case ELeave(w) => Leave(s, w)
  }

  // ---------------------------------------------------------------- where a task is

  predicate Holds(s: State, w: nat, t: TaskId) {
    w < |s.workers| && !s.workers[w].Idle? && s.workers[w].task == t
  }

  predicate Waiting(s: State, t: TaskId) {
    t in s.normal || t in s.large
  }

  predicate Held(s: State, t: TaskId) {
    Holds(s, 0, t) || Holds(s, 1, t) || Holds(s, 2, t)
  }

  function HeldPhase(s: State, t: TaskId): Phase
    requires |s.workers| == WORKERS
  {
    if Holds(s, 0, t) then s.workers[0] else if Holds(s, 1, t) then s.workers[1] else s.workers[2]
  }

  datatype Stage = Fresh | Queued | Running(phase: Phase) | Freed

  function StageOf(s: State, t: TaskId): Stage
    requires |s.workers| == WORKERS
  {
    if t == 0 || t > s.count then Fresh
    else if t !in s.heap then Freed
    else if Waiting(s, t) then Queued
    else Running(HeldPhase(s, t))
  }

  /** Still on the task list: waiting, or taken by a worker that has not entered its critical section. */
  predicate Pending(stage: Stage) {
    stage.Queued? || (stage.Running? && (stage.phase.Popped? || stage.phase.Announced?))
  }

  // ---------------------------------------------------------------- what a task has signalled

  /** The signals about one task, in order. */
  function Project(trace: seq<Signal>, t: TaskId): seq<Signal> {
    if trace == [] then []
    else
      var n := |trace| - 1;
      Project(trace[..n], t) + (if trace[n].task == t then [trace[n]] else [])
  }

  /** Started, then outcomes. */
  predicate Ran(p: seq<Signal>, t: TaskId) {
    |p| >= 1 && p[0] == Started(t) && forall i :: 1 <= i < |p| ==> p[i] == Outcome(t)
  }

  /** Started, outcomes, Finished. */
  predicate FullLife(p: seq<Signal>, t: TaskId) {
    |p| >= 2 && Ran(p[..|p| - 1], t) && p[|p| - 1] == Finished(t)
  }

  /** A crash finished the task before or after its worker announced it; nothing else was sent. */
  predicate CrashLife(p: seq<Signal>, t: TaskId) {
    p == [Started(t), Finished(t)] || p == [Finished(t), Started(t)]
  }

  predicate Shape(stage: Stage, dead: bool, crashed: bool, p: seq<Signal>, t: TaskId) {
    match stage
    case Fresh => p == []
    case Queued => p == if dead then [Finished(t)] else []
    case Running(Popped(_)) => p == if dead then [Finished(t)] else []
    case Running(Announced(_)) => if dead then CrashLife(p, t) else p == [Started(t)]
    case Running(Processing(_)) => Ran(p, t)
    case Running(Leaving(_)) => if dead then CrashLife(p, t) else Ran(p, t)
    case Running(Idle) => false
    case Freed => FullLife(p, t) || (crashed && CrashLife(p, t))
  }

  predicate Dead(s: State, t: TaskId) {
    t in s.heap && s.heap[t].dead
  }

  predicate OneHolder(s: State, t: TaskId) {
    && !(Holds(s, 0, t) && Holds(s, 1, t))
    && !(Holds(s, 0, t) && Holds(s, 2, t))
    && !(Holds(s, 1, t) && Holds(s, 2, t))
  }

  /** An allocated task is in exactly one place and a freed one in none; requests over fifty URLs
      stay out of the normal pool and its workers, smaller ones out of the large. */
  predicate Placed(s: State, t: TaskId)
    requires |s.workers| == WORKERS
  {
    && (t in s.heap ==> 1 <= t <= s.count && (Waiting(s, t) || Held(s, t)))
    && (t in s.normal ==> t in s.heap && s.heap[t].urls <= LARGE_REQUEST && !Held(s, t))
    && (t in s.large ==> t in s.heap && s.heap[t].urls > LARGE_REQUEST && !Held(s, t))
    && (Held(s, t) ==> t in s.heap && OneHolder(s, t) && (s.heap[t].urls > LARGE_REQUEST <==> Holds(s, 2, t)))
    && (t in s.listed <==> Pending(StageOf(s, t)))
  }

  predicate FlagsOk(s: State, t: TaskId)
    requires |s.workers| == WORKERS
  {
    t in s.heap ==>
      && (s.heap[t].dead ==> s.crashed && s.heap[t].unqueued)
      && (Held(s, t) && HeldPhase(s, t).Processing? ==> !s.heap[t].unqueued)
  }

  predicate TaskInv(s: State, t: TaskId)
    requires |s.workers| == WORKERS
  {
    && Placed(s, t)
    && FlagsOk(s, t)
    && Shape(StageOf(s, t), Dead(s, t), s.crashed, Project(s.trace, t), t)
  }

  ghost predicate Inv(s: State) {
    && |s.workers| == WORKERS
    && Distinct(s.normal) && Distinct(s.large) && Distinct(s.listed)
    && (forall t :: TaskInv(s, t))
  }

  lemma {:induction false} InsertDistinct(pool: seq<TaskId>, t: TaskId)
    requires Distinct(pool) && t !in pool
    ensures Distinct(Insert(pool, t))
  {
    if pool != [] {
      var n := |pool| - 1;
      InsertDistinct(pool[..n], t);
      var r := Insert(pool[..n], t);
      forall i | 0 <= i < |r| ensures r[i] != pool[n] {
        assert r[i] in r;
      }
    }
  }

  lemma {:induction false} WithoutIs(listed: seq<TaskId>, t: TaskId)
    requires Distinct(listed)
    ensures Distinct(Without(listed, t))
    ensures forall x :: x in Without(listed, t) <==> x in listed && x != t
  {
    if listed != [] {
      var rest := listed[1..];
      assert listed == [listed[0]] + rest;
      assert listed[0] !in rest;
      WithoutIs(rest, t);
      var r := Without(rest, t);
      forall i | 0 <= i < |r| ensures r[i] != listed[0] {
        assert r[i] in r;
      }
    }
  }

  lemma ProjectAppend(trace: seq<Signal>, x: Signal, t: TaskId)
    ensures Project(trace + [x], t) == if x.task == t then Project(trace, t) + [x] else Project(trace, t)
  {
    assert (trace + [x])[..|trace|] == trace;
  }

  lemma {:induction false} ProjectFinishes(trace: seq<Signal>, listed: seq<TaskId>, t: TaskId)
    requires Distinct(listed)
    ensures Project(trace + Finishes(listed), t) == if t in listed then Project(trace, t) + [Finished(t)] else Project(trace, t)
  {
    if listed == [] {
      assert trace + Finishes(listed) == trace;
    } else {
      var n := |listed| - 1;
      var before := trace + Finishes(listed[..n]);
      ProjectFinishes(trace, listed[..n], t);
      assert trace + Finishes(listed) == before + [Finished(listed[n])];
      ProjectAppend(before, Finished(listed[n]), t);
      assert listed == listed[..n] + [listed[n]];
      assert listed[n] !in listed[..n];
    }
  }

  lemma ShapeStart(dead: bool, crashed: bool, p: seq<Signal>, t: TaskId)
    requires Shape(Running(Popped(t)), dead, crashed, p, t)
    ensures Shape(Running(Announced(t)), dead, crashed, p + [Started(t)], t)
  {}

  lemma ShapeOutcome(p: seq<Signal>, t: TaskId)
    requires Ran(p, t)
    ensures Ran(p + [Outcome(t)], t)
  {}

  lemma ShapeLeave(dead: bool, crashed: bool, p: seq<Signal>, t: TaskId)
    requires Shape(Running(Leaving(t)), dead, crashed, p, t) && (dead ==> crashed)
    ensures Shape(Freed, false, crashed, if dead then p else p + [Finished(t)], t)
  {
    assert (p + [Finished(t)])[..|p|] == p;
  }

  lemma QueuePlaced(s: State, urls: nat, h: nat, t: TaskId)
    requires |s.workers| == WORKERS && Placed(s, t) && FlagsOk(s, t) && Placed(s, s.count + 1)
    ensures var s' := Queue(s, urls, h);
      && Placed(s', t) && FlagsOk(s', t) && Dead(s', t) == Dead(s, t)
      && StageOf(s', t) == if t == s.count + 1 then Queued else StageOf(s, t)
  {
    var n := s.count + 1;
    assert n !in s.heap && !Waiting(s, n) && !Held(s, n) && n !in s.listed;
  }

  lemma QueueTask(s: State, urls: nat, h: nat, t: TaskId)
    requires |s.workers| == WORKERS && TaskInv(s, t) && TaskInv(s, s.count + 1)
    ensures TaskInv(Queue(s, urls, h), t)
  {
    QueuePlaced(s, urls, h, t);
  }

  lemma QueueKeeps(s: State, urls: nat, h: nat)
    requires Inv(s)
    ensures Inv(Queue(s, urls, h))
  {
    var n := s.count + 1;
    assert TaskInv(s, n);
    forall t ensures TaskInv(Queue(s, urls, h), t) {
      assert TaskInv(s, t);
      QueueTask(s, urls, h, t);
    }
    InsertDistinct(if urls > LARGE_REQUEST then s.large else s.normal, n);
  }

  lemma UnqueueKeeps(s: State, h: nat)
    requires Inv(s)
    ensures Inv(Unqueue(s, h))
  {
    forall t ensures TaskInv(Unqueue(s, h), t) {
      assert TaskInv(s, t);
    }
  }

  lemma CrashPlaced(s: State, t: TaskId)
    requires |s.workers| == WORKERS && Placed(s, t) && FlagsOk(s, t) && !s.crashed
    ensures var s' := CrashOut(s);
      && Placed(s', t) && FlagsOk(s', t) && !Dead(s, t) && StageOf(s', t) == StageOf(s, t)
      && (Dead(s', t) <==> t in s.listed) && (t in s.listed <==> Pending(StageOf(s, t)))
  {}

  lemma ShapeKilled(stage: Stage, p: seq<Signal>, t: TaskId)
    requires Shape(stage, false, false, p, t)
    ensures if Pending(stage) then Shape(stage, true, true, p + [Finished(t)], t) else Shape(stage, false, true, p, t)
  {}

  lemma {:induction false} CrashTask(s: State, t: TaskId)
    requires |s.workers| == WORKERS && TaskInv(s, t) && !s.crashed && Distinct(s.listed)
    ensures TaskInv(CrashOut(s), t)
  {
    CrashPlaced(s, t);
    ProjectFinishes(s.trace, s.listed, t);
    ShapeKilled(StageOf(s, t), Project(s.trace, t), t);
  }

  lemma CrashKeeps(s: State)
    requires Inv(s) && !s.crashed
    ensures Inv(CrashOut(s))
  {
    forall t ensures TaskInv(CrashOut(s), t) {
      assert TaskInv(s, t);
      CrashTask(s, t);
    }
  }

  lemma TailIs(pool: seq<TaskId>)
    requires Distinct(pool) && pool != []
    ensures forall x :: x in pool[1..] <==> x in pool && x != pool[0]
  {
    assert pool == [pool[0]] + pool[1..];
  }

  lemma PopPlaced(s: State, w: nat, t: TaskId)
    requires |s.workers| == WORKERS && Enabled(s, EPop(w)) && Placed(s, t) && FlagsOk(s, t)
    requires var pool := PoolOf(s, w); forall x :: x in pool[1..] <==> x in pool && x != pool[0]
    ensures var s' := Pop(s, w);
      && Placed(s', t) && FlagsOk(s', t) && Dead(s', t) == Dead(s, t)
      && (t == PoolOf(s, w)[0] ==> StageOf(s, t) == Queued && StageOf(s', t) == Running(Popped(t)))
      && (t != PoolOf(s, w)[0] ==> StageOf(s', t) == StageOf(s, t))
  {
    assert PoolOf(s, w)[0] in PoolOf(s, w);
    if t == PoolOf(s, w)[0] {
      assert Holds(Pop(s, w), w, t);
    }
  }

  lemma PopKeeps(s: State, w: nat)
    requires Inv(s) && Enabled(s, EPop(w))
    ensures Inv(Pop(s, w))
  {
    TailIs(PoolOf(s, w));
    forall t ensures TaskInv(Pop(s, w), t) {
      assert TaskInv(s, t);
      PopPlaced(s, w, t);
    }
  }

  /** A worker moving on without crossing its critical section disturbs no task's place. */
  lemma Rephase(s: State, w: nat, phase: Phase, trace: seq<Signal>, t: TaskId)
    requires |s.workers| == WORKERS && w < WORKERS && !s.workers[w].Idle? && !phase.Idle?
    requires phase.task == s.workers[w].task && Pending(Running(phase)) == Pending(Running(s.workers[w]))
    requires phase.Processing? ==> s.workers[w].Processing?
    requires Placed(s, t) && FlagsOk(s, t)
    ensures var s' := s.(workers := s.workers[w := phase], trace := trace);
      && Placed(s', t) && FlagsOk(s', t) && Dead(s', t) == Dead(s, t)
      && StageOf(s', t) == if t == phase.task then Running(phase) else StageOf(s, t)
  {
    assert Holds(s, w, phase.task);
  }

  lemma StageHeld(s: State, w: nat)
    requires |s.workers| == WORKERS && w < WORKERS && !s.workers[w].Idle? && Placed(s, s.workers[w].task)
    ensures StageOf(s, s.workers[w].task) == Running(s.workers[w])
  {
    assert Holds(s, w, s.workers[w].task);
  }

  lemma AnnounceTask(s: State, w: nat, t: TaskId)
    requires |s.workers| == WORKERS && Enabled(s, EAnnounce(w)) && TaskInv(s, t)
    ensures TaskInv(Announce(s, w), t)
  {
    var t0 := s.workers[w].task;
    Rephase(s, w, Announced(t0), s.trace + [Started(t0)], t);
    ProjectAppend(s.trace, Started(t0), t);
    if t == t0 {
      StageHeld(s, w);
      ShapeStart(Dead(s, t), s.crashed, Project(s.trace, t), t);
    }
  }

  lemma AnnounceKeeps(s: State, w: nat)
    requires Inv(s) && Enabled(s, EAnnounce(w))
    ensures Inv(Announce(s, w))
  {
    assert TaskInv(s, s.workers[w].task);
    forall t ensures TaskInv(Announce(s, w), t) {
      assert TaskInv(s, t);
      AnnounceTask(s, w, t);
    }
  }

  lemma RemoveTask(s: State, w: nat, t: TaskId)
    requires |s.workers| == WORKERS && Enabled(s, ERemove(w)) && TaskInv(s, t) && TaskInv(s, s.workers[w].task)
    requires forall x :: x in Without(s.listed, s.workers[w].task) <==> x in s.listed && x != s.workers[w].task
    ensures TaskInv(Remove(s, w), t)
  {
    assert Holds(s, w, s.workers[w].task);
  }

  lemma RemoveKeeps(s: State, w: nat)
    requires Inv(s) && Enabled(s, ERemove(w))
    ensures Inv(Remove(s, w))
  {
    var t0 := s.workers[w].task;
    assert TaskInv(s, t0);
    WithoutIs(s.listed, t0);
    forall t ensures TaskInv(Remove(s, w), t) {
      assert TaskInv(s, t);
      RemoveTask(s, w, t);
    }
  }

  lemma EmitTask(s: State, w: nat, t: TaskId)
    requires |s.workers| == WORKERS && Enabled(s, EEmit(w)) && TaskInv(s, t)
    ensures TaskInv(Emit(s, w), t)
  {
    var t0 := s.workers[w].task;
    assert s.workers[w := s.workers[w]] == s.workers;
    Rephase(s, w, s.workers[w], s.trace + [Outcome(t0)], t);
    ProjectAppend(s.trace, Outcome(t0), t);
    if t == t0 {
      ShapeOutcome(Project(s.trace, t), t);
    }
  }

  lemma EmitKeeps(s: State, w: nat)
    requires Inv(s) && Enabled(s, EEmit(w))
    ensures Inv(Emit(s, w))
  {
    assert TaskInv(s, s.workers[w].task);
    forall t ensures TaskInv(Emit(s, w), t) {
      assert TaskInv(s, t);
      EmitTask(s, w, t);
    }
  }

  lemma EndTask(s: State, w: nat, t: TaskId)
    requires |s.workers| == WORKERS && Enabled(s, EEnd(w)) && TaskInv(s, t)
    ensures TaskInv(EndProcessing(s, w), t)
  {
    var t0 := s.workers[w].task;
    Rephase(s, w, Leaving(t0), s.trace, t);
    if t == t0 {
      assert Holds(s, w, t0);
    }
  }

  lemma EndKeeps(s: State, w: nat)
    requires Inv(s) && Enabled(s, EEnd(w))
    ensures Inv(EndProcessing(s, w))
  {
    assert TaskInv(s, s.workers[w].task);
    forall t ensures TaskInv(EndProcessing(s, w), t) {
      assert TaskInv(s, t);
      EndTask(s, w, t);
    }
  }

  lemma LeavePlaced(s: State, w: nat, t: TaskId)
    requires |s.workers| == WORKERS && Enabled(s, ELeave(w)) && Placed(s, t) && FlagsOk(s, t)
    ensures var s' := Leave(s, w);
      && Placed(s', t) && FlagsOk(s', t)
      && (t == s.workers[w].task ==> StageOf(s, t) == Running(Leaving(t)) && StageOf(s', t) == Freed && !Dead(s', t))
      && (t != s.workers[w].task ==> StageOf(s', t) == StageOf(s, t) && Dead(s', t) == Dead(s, t))
  {
    assert Holds(s, w, s.workers[w].task);
  }

  lemma LeaveTask(s: State, w: nat, t: TaskId)
    requires |s.workers| == WORKERS && Enabled(s, ELeave(w)) && TaskInv(s, t)
    ensures TaskInv(Leave(s, w), t)
  {
    var t0 := s.workers[w].task;
    LeavePlaced(s, w, t);
    ProjectAppend(s.trace, Finished(t0), t);
    if t == t0 {
      ShapeLeave(Dead(s, t), s.crashed, Project(s.trace, t), t);
    }
  }

  lemma LeaveKeeps(s: State, w: nat)
    requires Inv(s) && Enabled(s, ELeave(w))
    ensures Inv(Leave(s, w))
  {
    assert TaskInv(s, s.workers[w].task);
    forall t ensures TaskInv(Leave(s, w), t) {
      assert TaskInv(s, t);
      LeaveTask(s, w, t);
    }
  }

  lemma StepKeeps(s: State, e: Event)
    requires Inv(s) && Enabled(s, e)
    ensures Inv(Step(s, e))
  {
    match e
    case EQueue(urls, h) => QueueKeeps(s, urls, h);
    case EUnqueue(h) => UnqueueKeeps(s, h);
    case ECrashOut => CrashKeeps(s);
    case EPop(w) => PopKeeps(s, w);
    case EAnnounce(w) => AnnounceKeeps(s, w);
    case ERemove(w) => RemoveKeeps(s, w);
    case EEmit(w) => EmitKeeps(s, w);
    case EEnd(w) => EndKeeps(s, w);
    case ELeave(w) => LeaveKeeps(s, w);
  }

  // ---------------------------------------------------------------- runs

  /** Any interleaving of requests, unqueues, the crash and worker steps; an event that is not
      possible where it stands is skipped. */
  function Run(es: seq<Event>): State {
    if es == [] then INIT
    else
      var s := Run(es[..|es| - 1]);
      var e := es[|es| - 1];
      Next(s, e)
  }

  function Next(s: State, e: Event): State {
    if Enabled(s, e) then Step(s, e) else s
  }

  lemma RunAppend(es: seq<Event>, e: Event)
    ensures Run(es + [e]) == Next(Run(es), e)
  {
    assert (es + [e])[..|es|] == es;
  }

  lemma {:induction false} RunKeepsInv(es: seq<Event>)
    ensures Inv(Run(es))
  {
    if es == [] {
      forall t ensures TaskInv(INIT, t) {}
    } else {
      RunKeepsInv(es[..|es| - 1]);
      var s := Run(es[..|es| - 1]);
      if Enabled(s, es[|es| - 1]) {
        StepKeeps(s, es[|es| - 1]);
      }
    }
  }

  /** The list never holds a freed task, and every task is on it exactly until the critical section
      of its worker. Large requests never occupy a normal worker, nor small ones the large worker. */
  lemma TasksStayPut(es: seq<Event>, t: TaskId)
    ensures var s := Run(es);
      && |s.workers| == WORKERS
      && (t in s.listed ==> t in s.heap)
      && (t in s.listed <==> Pending(StageOf(s, t)))
      && (Holds(s, 0, t) || Holds(s, 1, t) ==> t in s.heap && s.heap[t].urls <= LARGE_REQUEST)
      && (Holds(s, 2, t) ==> t in s.heap && s.heap[t].urls > LARGE_REQUEST)
  {
    RunKeepsInv(es);
    assert TaskInv(Run(es), t);
  }

  lemma {:induction false} CountProject(trace: seq<Signal>, x: Signal)
    ensures multiset(trace)[x] == multiset(Project(trace, x.task))[x]
  {
    if trace != [] {
      var n := |trace| - 1;
      CountProject(trace[..n], x);
      assert trace == trace[..n] + [trace[n]];
    }
  }

  lemma {:induction false} RanCounts(p: seq<Signal>, t: TaskId)
    requires Ran(p, t)
    ensures multiset(p)[Started(t)] == 1 && multiset(p)[Finished(t)] == 0
  {
    if |p| == 1 {
      assert p == [Started(t)];
    } else {
      var n := |p| - 1;
      RanCounts(p[..n], t);
      assert p == p[..n] + [p[n]];
    }
  }

  lemma FullLifeCounts(p: seq<Signal>, t: TaskId)
    requires FullLife(p, t)
    ensures multiset(p)[Started(t)] == 1 && multiset(p)[Finished(t)] == 1
  {
    var n := |p| - 1;
    RanCounts(p[..n], t);
    assert p == p[..n] + [p[n]];
  }

  /** Whatever interleaves, a task is started at most once and finished at most once, so a task that a
      crash has finished is not finished again by its worker. */
  lemma {:induction false} AtMostOnce(es: seq<Event>, t: TaskId)
    ensures multiset(Run(es).trace)[Started(t)] <= 1
    ensures multiset(Run(es).trace)[Finished(t)] <= 1
  {
    RunKeepsInv(es);
    var s := Run(es);
    assert TaskInv(s, t);
    var p := Project(s.trace, t);
    CountProject(s.trace, Started(t));
    CountProject(s.trace, Finished(t));
    if Ran(p, t) { RanCounts(p, t); }
    if FullLife(p, t) { FullLifeCounts(p, t); }
  }

  /** How many Ready and Error signals of the task there are. */
  function Outcomes(trace: seq<Signal>, t: TaskId): nat {
    if trace == [] then 0
    else Outcomes(trace[..|trace| - 1], t) + (if trace[|trace| - 1] == Outcome(t) then 1 else 0)
  }

  lemma OutcomesAppend(trace: seq<Signal>, x: Signal, t: TaskId)
    ensures Outcomes(trace + [x], t) == Outcomes(trace, t) + (if x == Outcome(t) then 1 else 0)
  {
    assert (trace + [x])[..|trace|] == trace;
  }

  lemma {:induction false} FinishesNoOutcome(trace: seq<Signal>, listed: seq<TaskId>, t: TaskId)
    ensures Outcomes(trace + Finishes(listed), t) == Outcomes(trace, t)
  {
    if listed == [] {
      assert trace + Finishes(listed) == trace;
    } else {
      var n := |listed| - 1;
      FinishesNoOutcome(trace, listed[..n], t);
      assert trace + Finishes(listed) == trace + Finishes(listed[..n]) + [Finished(listed[n])];
      OutcomesAppend(trace + Finishes(listed[..n]), Finished(listed[n]), t);
    }
  }

  /** A worker sends an outcome of the task. */
  predicate EmitsOf(s: State, e: Event, t: TaskId) {
    e.EEmit? && e.worker < |s.workers| && s.workers[e.worker] == Processing(t)
  }

  lemma StepOutcomes(s: State, e: Event, t: TaskId)
    ensures Outcomes(Next(s, e).trace, t) == Outcomes(s.trace, t) + (if EmitsOf(s, e, t) then 1 else 0)
  {
    match e
    case ECrashOut => FinishesNoOutcome(s.trace, s.listed, t);
    case EAnnounce(w) => if Enabled(s, e) { OutcomesAppend(s.trace, Started(s.workers[w].task), t); }
    case EEmit(w) => if Enabled(s, e) { OutcomesAppend(s.trace, Outcome(s.workers[w].task), t); }
    case ELeave(w) => if Enabled(s, e) { OutcomesAppend(s.trace, Finished(s.workers[w].task), t); }
    case _ =>
  }

  function Emitted(es: seq<Event>, t: TaskId): nat {
    if es == [] then 0
    else
      var before := es[..|es| - 1];
      Emitted(before, t) + (if EmitsOf(Run(before), es[|es| - 1], t) then 1 else 0)
  }

  /** Every outcome a processing worker sends is signalled, and no other. */
  lemma {:induction false} OutcomesAreEmitted(es: seq<Event>, t: TaskId)
    ensures Outcomes(Run(es).trace, t) == Emitted(es, t)
  {
    if es != [] {
      var before := es[..|es| - 1];
      OutcomesAreEmitted(before, t);
      StepOutcomes(Run(before), es[|es| - 1], t);
    }
  }

  lemma ListedStep(s: State, e: Event)
    requires Inv(s) && Enabled(s, e) && NewestFirst(s.listed)
    ensures NewestFirst(Step(s, e).listed)
  {
    match e
    case EQueue(_, _) =>
      forall i | 0 <= i < |s.listed| ensures s.listed[i] <= s.count {
        assert TaskInv(s, s.listed[i]) && s.listed[i] in s.listed;
      }
    case ERemove(w) => WithoutOrdered(s.listed, s.workers[w].task);
    case _ =>
  }

  lemma {:induction false} WithoutOrdered(listed: seq<TaskId>, t: TaskId)
    requires NewestFirst(listed)
    ensures NewestFirst(Without(listed, t))
  {
    if listed != [] && listed[0] != t {
      WithoutOrdered(listed[1..], t);
      WithoutShrinks(listed[1..], t);
      var rest := Without(listed[1..], t);
      forall i | 0 <= i < |rest| ensures listed[0] > rest[i] {
        assert rest[i] in listed[1..];
      }
    }
  }

  lemma {:induction false} ListIsNewestFirst(es: seq<Event>)
    ensures NewestFirst(Run(es).listed)
  {
    if es != [] {
      var before, e := es[..|es| - 1], es[|es| - 1];
      ListIsNewestFirst(before);
      RunKeepsInv(before);
      if Enabled(Run(before), e) {
        ListedStep(Run(before), e);
      }
    }
  }

  /** The crash finishes every listed task at once, the newest first, and says nothing else. */
  lemma CrashFinishesAll(es: seq<Event>)
    requires !Run(es).crashed
    ensures var (s, t) := (Run(es), Run(es + [ECrashOut]));
      && |t.trace| == |s.trace| + |s.listed| && t.trace[..|s.trace|] == s.trace
      && (forall i :: 0 <= i < |s.listed| ==> t.trace[|s.trace| + i] == Finished(s.listed[i]))
      && NewestFirst(s.listed)
  {
    RunAppend(es, ECrashOut);
    ListIsNewestFirst(es);
  }

  predicate Quiescent(s: State) {
    s.normal == [] && s.large == [] && |s.workers| == WORKERS && forall w :: 0 <= w < WORKERS ==> s.workers[w].Idle?
  }

  /** Once nothing is waiting or running, every task ever queued was announced once, then had its
      outcomes, then was finished once, unless the crash finished it early; and all are freed. */
  lemma ExactlyOnceWhenQuiescent(es: seq<Event>, t: TaskId)
    requires Quiescent(Run(es)) && 1 <= t <= Run(es).count
    ensures var s := Run(es); var p := Project(s.trace, t);
      && (!s.crashed ==> FullLife(p, t))
      && (FullLife(p, t) || CrashLife(p, t))
      && multiset(s.trace)[Started(t)] == 1 && multiset(s.trace)[Finished(t)] == 1
      && t !in s.heap && t !in s.listed
  {
    RunKeepsInv(es);
    var s := Run(es);
    assert TaskInv(s, t);
    CountProject(s.trace, Started(t));
    CountProject(s.trace, Finished(t));
    if FullLife(Project(s.trace, t), t) {
      FullLifeCounts(Project(s.trace, t), t);
    }
  }

  predicate CanMove(s: State, w: nat) {
    Enabled(s, EPop(w)) || Enabled(s, EAnnounce(w)) || Enabled(s, ERemove(w)) || Enabled(s, EEnd(w)) || Enabled(s, ELeave(w))
  }

  /** Unless everything is done, some worker can move. */
  lemma NeverStuck(es: seq<Event>)
    requires !Quiescent(Run(es))
    ensures exists w: nat :: w < WORKERS && CanMove(Run(es), w)
  {
    RunKeepsInv(es);
    BusyCanMove(Run(es));
  }

  lemma BusyCanMove(s: State)
    requires Inv(s) && !Quiescent(s)
    ensures exists w: nat :: w < WORKERS && CanMove(s, w)
  {
    if w: nat :| w < WORKERS && !s.workers[w].Idle? {
      assert TaskInv(s, s.workers[w].task);
      HolderCanMove(s, w);
    } else if s.normal != [] {
      assert CanMove(s, 0);
    } else {
      assert CanMove(s, 2);
    }
  }

  lemma HolderCanMove(s: State, w: nat)
    requires |s.workers| == WORKERS && w < WORKERS && !s.workers[w].Idle? && Placed(s, s.workers[w].task)
    ensures CanMove(s, w)
  {
    assert Holds(s, w, s.workers[w].task);
  }

  /** A worker's step other than sending one more outcome. */
  predicate WorkerMove(e: Event) {
    e.EPop? || e.EAnnounce? || e.ERemove? || e.EEnd? || e.ELeave?
  }

  function PhaseWork(p: Phase): nat {
    match p
    case Idle => 0
    case Popped(_) => 4
    case Announced(_) => 3
    case Processing(_) => 2
    case Leaving(_) => 1
  }

  /** The most moves the workers can still make if nothing more is queued. */
  function WorkLeft(s: State): nat
    requires |s.workers| == WORKERS
  {
    5 * (|s.normal| + |s.large|) + PhaseWork(s.workers[0]) + PhaseWork(s.workers[1]) + PhaseWork(s.workers[2])
  }

  lemma MoveLowers(s: State, e: Event)
    requires |s.workers| == WORKERS && WorkerMove(e) && Enabled(s, e)
    ensures |Step(s, e).workers| == WORKERS && WorkLeft(Step(s, e)) < WorkLeft(s) && Step(s, e).count == s.count
  {}

  /** After es the workers make these moves, each possible where it stands. */
  predicate Moves(es: seq<Event>, moves: seq<Event>) {
    forall k :: 0 <= k < |moves| ==> MovesAt(es, moves, k)
  }

  predicate MovesAt(es: seq<Event>, moves: seq<Event>, k: nat)
    requires k < |moves|
  {
    WorkerMove(moves[k]) && Enabled(Run(es + moves[..k]), moves[k])
  }

  lemma HasWorkers(es: seq<Event>)
    ensures |Run(es).workers| == WORKERS
  {
    RunKeepsInv(es);
  }

  function WorkOf(es: seq<Event>): nat {
    HasWorkers(es);
    WorkLeft(Run(es))
  }

  lemma {:induction false} MoveAfter(es: seq<Event>, e: Event)
    requires WorkerMove(e) && Enabled(Run(es), e)
    ensures WorkOf(es + [e]) < WorkOf(es) && Run(es + [e]).count == Run(es).count
  {
    HasWorkers(es);
    RunAppend(es, e);
    MoveLowers(Run(es), e);
  }

  /** However the workers are scheduled, they make at most `WorkLeft` moves. */
  lemma {:induction false} EverySchedulingEnds(es: seq<Event>, moves: seq<Event>)
    requires Moves(es, moves)
    ensures |moves| + WorkOf(es + moves) <= WorkOf(es)
    decreases |moves|
  {
    if moves == [] {
      assert es + moves == es;
    } else {
      var n := |moves| - 1;
      assert MovesAt(es, moves, n);
      forall k | 0 <= k < n ensures MovesAt(es, moves[..n], k) {
        assert MovesAt(es, moves, k) && moves[..n][..k] == moves[..k];
      }
      EverySchedulingEnds(es, moves[..n]);
      assert es + moves == es + moves[..n] + [moves[n]];
      MoveAfter(es + moves[..n], moves[n]);
    }
  }

  /** A move of worker w. */
  function MoveOf(s: State, w: nat): (e: Event)
    requires CanMove(s, w)
    ensures WorkerMove(e) && Enabled(s, e)
  {
    if Enabled(s, EPop(w)) then EPop(w)
    else if Enabled(s, EAnnounce(w)) then EAnnounce(w)
    else if Enabled(s, ERemove(w)) then ERemove(w)
    else if Enabled(s, EEnd(w)) then EEnd(w)
    else ELeave(w)
  }

  /** From every reachable state the workers can come to rest; with `EverySchedulingEnds` and `NeverStuck`
      they do, if nothing more is queued. */
  lemma {:induction false} ComesToRest(es: seq<Event>) returns (moves: seq<Event>)
    ensures Moves(es, moves) && Quiescent(Run(es + moves)) && Run(es + moves).count == Run(es).count
    decreases WorkOf(es)
  {
    HasWorkers(es);
    if Quiescent(Run(es)) {
      moves := [];
      assert es + moves == es;
    } else {
      NeverStuck(es);
      var w: nat :| w < WORKERS && CanMove(Run(es), w);
      var e := MoveOf(Run(es), w);
      MoveAfter(es, e);
      var rest := ComesToRest(es + [e]);
      moves := [e] + rest;
      MovesOn(es, e, rest);
    }
  }

  lemma MovesOn(es: seq<Event>, e: Event, rest: seq<Event>)
    requires WorkerMove(e) && Enabled(Run(es), e) && Moves(es + [e], rest)
    ensures Moves(es, [e] + rest) && es + ([e] + rest) == es + [e] + rest
  {
    var moves := [e] + rest;
    forall k | 0 <= k < |moves| ensures MovesAt(es, moves, k) {
      if k == 0 {
        assert es + moves[..k] == es;
      } else {
        assert MovesAt(es + [e], rest, k - 1);
        assert es + moves[..k] == es + [e] + rest[..k - 1];
      }
    }
  }

  /** Every task queued so far is finished exactly once by the time the workers rest. */
  lemma EveryTaskGetsFinished(es: seq<Event>, t: TaskId) returns (moves: seq<Event>)
    requires 1 <= t <= Run(es).count
    ensures Moves(es, moves) && Quiescent(Run(es + moves))
    ensures multiset(Run(es + moves).trace)[Finished(t)] == 1 && t !in Run(es + moves).heap
  {
    moves := ComesToRest(es);
    ExactlyOnceWhenQuiescent(es + moves, t);
  }

  /** The task list never holds a freed task, nor one whose worker has entered its critical section. */
  lemma ListedAreAlive(es: seq<Event>, t: TaskId)
    requires t in Run(es).listed
    ensures var s := Run(es); |s.workers| == WORKERS && t in s.heap && Pending(StageOf(s, t))
    ensures forall w :: 0 <= w < |Run(es).workers| && (Run(es).workers[w].Processing? || Run(es).workers[w].Leaving?) ==>
      Run(es).workers[w].task != t
  {
    RunKeepsInv(es);
    var s := Run(es);
    assert TaskInv(s, t);
    forall w | 0 <= w < |s.workers| && !s.workers[w].Idle? && s.workers[w].task == t ensures HeldPhase(s, t) == s.workers[w] {
      assert Holds(s, w, t);
    }
  }

  lemma ListIsAllocated(es: seq<Event>)
    ensures forall t :: t in Run(es).listed ==> t in Run(es).heap
  {
    forall t | t in Run(es).listed ensures t in Run(es).heap {
      ListedAreAlive(es, t);
    }
  }

  /** Requests of more than fifty URLs run on the large pool's one worker and nowhere else, and no two
      workers run the same task. */
  lemma WorkersServeTheirPool(es: seq<Event>, w: nat, v: nat)
    requires w < |Run(es).workers| && v < |Run(es).workers| && !Run(es).workers[w].Idle?
    ensures var s := Run(es); var t := s.workers[w].task;
      && |s.workers| == 3 && t in s.heap && (s.heap[t].urls > 50 <==> w == 2)
      && (w != v && !s.workers[v].Idle? ==> s.workers[v].task != t)
  {
    RunKeepsInv(es);
    assert TaskInv(Run(es), Run(es).workers[w].task);
    PlacedServes(Run(es), w, v);
  }

  /** A request of up to fifty URLs waits in the normal pool, a larger one in the large pool. */
  lemma SizeDecidesPool(es: seq<Event>, urls: nat, h: nat)
    ensures var s := Run(es + [EQueue(urls, h)]); var t := Run(es).count + 1;
      && s.count == t && t in s.heap && s.heap[t].urls == urls && t in s.listed
      && (t in s.normal <==> urls <= 50) && (t in s.large <==> urls > 50)
  {
    RunAppend(es, EQueue(urls, h));
    RunKeepsInv(es);
    assert TaskInv(Run(es), Run(es).count + 1);
  }

  lemma PlacedServes(s: State, w: nat, v: nat)
    requires |s.workers| == WORKERS && w < WORKERS && v < WORKERS && !s.workers[w].Idle? && Placed(s, s.workers[w].task)
    ensures var t := s.workers[w].task;
      && |s.workers| == 3 && t in s.heap && (s.heap[t].urls > 50 <==> w == 2)
      && (w != v && !s.workers[v].Idle? ==> s.workers[v].task != t)
  {
    assert Holds(s, w, s.workers[w].task);
  }

  lemma SmallHandles(a: nat, b: nat)
    requires a < UINT_MODULUS && b < UINT_MODULUS
    ensures Handle(a) == Handle(b) <==> a == b
    ensures 1 <= a ==> Handle(a) != 0
  {}

  /** Clients know handles only; while the 32-bit counter has not wrapped they name tasks uniquely. */
  lemma {:induction false} HandlesAreUnique(es: seq<Event>, t1: TaskId, t2: TaskId)
    requires Run(es).count < UINT_MODULUS && t1 <= Run(es).count && t2 <= Run(es).count
    ensures Handle(t1) == Handle(t2) <==> t1 == t2
    ensures 1 <= t1 ==> Handle(t1) != 0
  {
    SmallHandles(t1, t2);
  }

  /** A second crash, which the exit after the first rules out, would finish a waiting task twice. */
  lemma TwoCrashesFinishTwice()
    ensures var s := CrashOut(CrashOut(Queue(INIT, 1, 0)));
      multiset(s.trace)[Finished(1)] == 2
  {
    var s1 := Queue(INIT, 1, 0);
    assert s1.listed == [1];
    assert Finishes([1]) == [Finished(1)];
    assert CrashOut(CrashOut(s1)).trace == [Finished(1), Finished(1)];
  }

  // ---------------------------------------------------------------- unqueue

  /** The event unqueues task t: an unqueue of its handle, a request replacing it, or the crash,
      coming after the task was queued. */
  predicate Hits(s: State, e: Event, t: TaskId) {
    1 <= t <= s.count &&
    match e
    case EQueue(_, h) => h == Handle(t)
    case EUnqueue(h) => h == Handle(t)
    case ECrashOut => !s.crashed
    case _ => false
  }

  predicate HitAt(es: seq<Event>, j: nat, t: TaskId) {
    j < |es| && Hits(Run(es[..j]), es[j], t)
  }

  predicate Hit(es: seq<Event>, t: TaskId) {
    exists j: nat | j < |es| :: HitAt(es, j, t)
  }

  lemma HitAppend(es: seq<Event>, e: Event, t: TaskId)
    ensures Hit(es + [e], t) <==> Hit(es, t) || HitAt(es + [e], |es|, t)
  {
    var all := es + [e];
    forall j: nat | j < |es| ensures HitAt(all, j, t) <==> HitAt(es, j, t) {
      assert all[..j] == es[..j];
    }
    if Hit(es, t) {
      var j: nat :| j < |es| && HitAt(es, j, t);
      assert HitAt(all, j, t);
    }
  }

  lemma FreshNotHit(es: seq<Event>, t: TaskId)
    requires t == 0 || t > Run(es).count
    ensures !Hit(es, t)
  {
    forall j: nat | j < |es| ensures !HitAt(es, j, t) {
      CountGrows(es, j);
    }
  }

  lemma {:induction false} CountGrows(es: seq<Event>, j: nat)
    requires j <= |es|
    ensures Run(es[..j]).count <= Run(es).count
  {
    if j == |es| {
      assert es[..j] == es;
    } else {
      var before := es[..|es| - 1];
      CountGrows(before, j);
      assert before[..j] == es[..j];
    }
  }

  lemma StepFlags(s: State, e: Event, t: TaskId)
    requires Inv(s) && Enabled(s, e) && t in Step(s, e).listed
    ensures t in Step(s, e).heap
    ensures t in s.listed ==> t in s.heap && 1 <= t <= s.count
    ensures t in s.listed ==> (Step(s, e).heap[t].unqueued <==> s.heap[t].unqueued || Hits(s, e, t))
    ensures t !in s.listed ==> t == s.count + 1 && !Step(s, e).heap[t].unqueued
  {
    assert TaskInv(s, t);
    match e
    case ERemove(w) => WithoutIs(s.listed, s.workers[w].task);
    case ELeave(w) => assert TaskInv(s, s.workers[w].task) && Holds(s, w, s.workers[w].task);
    case _ =>
  }

  /** The flag of a listed task says exactly whether an unqueue has hit it since it was queued. */
  lemma {:induction false} FlagIsHistory(es: seq<Event>, t: TaskId)
    requires t in Run(es).listed
    ensures t in Run(es).heap && (Run(es).heap[t].unqueued <==> Hit(es, t))
  {
    TasksStayPut(es, t);
    var before := es[..|es| - 1];
    var s := Run(before);
    var e := es[|es| - 1];
    assert es == before + [e];
    RunKeepsInv(before);
    RunAppend(before, e);
    HitAppend(before, e, t);
    assert es[..|before|] == before;
    assert HitAt(es, |before|, t) <==> Hits(s, e, t);
    if Enabled(s, e) {
      StepFlags(s, e, t);
    }
    if t in s.listed {
      FlagIsHistory(before, t);
    } else {
      FreshNotHit(before, t);
    }
  }

  /** The worker's critical section is where an unqueue takes effect: the task is processed exactly if
      nothing has unqueued it before that moment. */
  lemma RemovalDecides(es: seq<Event>, w: nat)
    requires Enabled(Run(es), ERemove(w))
    ensures var t := Run(es).workers[w].task;
      Run(es + [ERemove(w)]).workers[w] == if Hit(es, t) then Leaving(t) else Processing(t)
  {
    var s := Run(es);
    var t := s.workers[w].task;
    RunAppend(es, ERemove(w));
    RunKeepsInv(es);
    assert TaskInv(s, t) && Holds(s, w, t);
    FlagIsHistory(es, t);
  }

  /** Event r is the critical section of task t and finds it not unqueued. */
  predicate AcceptedAt(es: seq<Event>, r: nat, t: TaskId) {
    && r < |es|
    && es[r].ERemove?
    && Enabled(Run(es[..r]), es[r])
    && Run(es[..r]).workers[es[r].worker].task == t
    && !Hit(es[..r], t)
  }

  lemma AcceptedLater(es: seq<Event>, e: Event, r: nat, t: TaskId)
    requires AcceptedAt(es, r, t)
    ensures AcceptedAt(es + [e], r, t)
  {
    assert (es + [e])[..r] == es[..r];
  }

  ghost predicate MaySpeak(s: State, t: TaskId) {
    Outcome(t) in s.trace || (Held(s, t) && |s.workers| == WORKERS && HeldPhase(s, t).Processing?)
  }

  lemma {:induction false} CrashSaysNoOutcome(s: State, t: TaskId)
    ensures Outcome(t) in CrashOut(s).trace <==> Outcome(t) in s.trace
  {}

  lemma BeginsToSpeak(s: State, e: Event, t: TaskId)
    requires |s.workers| == WORKERS && TaskInv(s, t) && !MaySpeak(s, t) && MaySpeak(if Enabled(s, e) then Step(s, e) else s, t)
    ensures e.ERemove? && Enabled(s, e) && s.workers[e.worker].task == t && HeldPhase(Step(s, e), t).Processing?
  {
    if e.ECrashOut? {
      CrashSaysNoOutcome(s, t);
    }
  }

  /** A Ready or Error of a task is sent only if the task reached its critical section with no unqueue,
      no replacing request and no crash having hit it before. */
  lemma {:induction false} OutcomeOnlyIfAccepted(es: seq<Event>, t: TaskId) returns (r: nat)
    requires MaySpeak(Run(es), t)
    ensures AcceptedAt(es, r, t)
  {
    var before := es[..|es| - 1];
    var s := Run(before);
    var e := es[|es| - 1];
    assert es == before + [e];
    RunAppend(before, e);
    RunKeepsInv(before);
    assert TaskInv(s, t);
    if MaySpeak(s, t) {
      r := OutcomeOnlyIfAccepted(before, t);
      AcceptedLater(before, e, r, t);
    } else {
      BeginsToSpeak(s, e, t);
      RemovalDecides(before, e.worker);
      r := |before|;
      assert es[..r] == before;
    }
  }

  lemma LateMarkIsIgnored(s: State, h: nat, urls: nat, t: TaskId)
    requires t in s.heap && t !in s.listed && t <= s.count
    ensures Unqueue(s, h).heap[t] == s.heap[t]
    ensures t in Queue(s, urls, h).heap && Queue(s, urls, h).heap[t] == s.heap[t]
    ensures (forall x :: x in s.listed ==> Handle(x) != h) ==> Unqueue(s, h) == s
  {
    if forall x :: x in s.listed ==> Handle(x) != h {
      assert Unqueue(s, h).heap == s.heap;
    }
  }

  lemma StaysOffList(s: State, e: Event, t: TaskId)
    requires Inv(s) && Enabled(s, e) && t <= s.count && t !in s.listed
    ensures var s' := Step(s, e);
      && t <= s'.count && t !in s'.listed && (t in s'.heap ==> t in s.heap && s'.heap[t] == s.heap[t])
  {
    assert TaskInv(s, t);
    match e
    case ERemove(w) => WithoutShrinks(s.listed, s.workers[w].task);
    case EUnqueue(h) => if t in s.heap { LateMarkIsIgnored(s, h, 0, t); }
    case EQueue(urls, h) => if t in s.heap { LateMarkIsIgnored(s, h, urls, t); }
    case _ =>
  }

  /** From the moment a task has left the list its flags stand as they are, whatever unqueues,
      replacements and crash come, until it is freed. */
  lemma {:induction false} LateUnqueueIsIgnored(es: seq<Event>, later: seq<Event>, t: TaskId)
    requires t <= Run(es).count && t !in Run(es).listed
    ensures var (s, s') := (Run(es), Run(es + later));
      && t <= s'.count && t !in s'.listed && (t in s'.heap ==> t in s.heap && s'.heap[t] == s.heap[t])
  {
    if later == [] {
      assert es + later == es;
    } else {
      var n := |later| - 1;
      LateUnqueueIsIgnored(es, later[..n], t);
      assert es + later == es + later[..n] + [later[n]];
      RunAppend(es + later[..n], later[n]);
      RunKeepsInv(es + later[..n]);
      if Enabled(Run(es + later[..n]), later[n]) {
        StaysOffList(Run(es + later[..n]), later[n], t);
      }
    }
  }

  lemma {:induction false} RunOn(es: seq<Event>, later: seq<Event>)
    requires later != []
    ensures Run(es + later) == Next(Run(es + later[..|later| - 1]), later[|later| - 1])
  {
    RunAppend(es + later[..|later| - 1], later[|later| - 1]);
    assert es + later == es + later[..|later| - 1] + [later[|later| - 1]];
  }

  lemma {:induction false} SameFromHere(a: seq<Event>, b: seq<Event>, later: seq<Event>)
    requires Run(a) == Run(b)
    ensures Run(a + later) == Run(b + later)
  {
    if later == [] {
      assert a + later == a && b + later == b;
    } else {
      SameFromHere(a, b, later[..|later| - 1]);
      RunOn(a, later);
      RunOn(b, later);
    }
  }

  /** An unqueue whose handle no listed task has can be struck from any run. */
  lemma {:induction false} LateUnqueueChangesNothing(es: seq<Event>, h: nat, later: seq<Event>)
    requires forall x :: x in Run(es).listed ==> Handle(x) != h
    ensures Run(es + [EUnqueue(h)] + later) == Run(es + later)
  {
    RunAppend(es, EUnqueue(h));
    assert Unqueue(Run(es), h).heap == Run(es).heap;
    SameFromHere(es + [EUnqueue(h)], es, later);
  }

  // ---------------------------------------------------------------- newest first

  /** For a newer task i and an older task j the comparison puts the newer first, and the reverse
      comparison puts the older last, exactly while they are less than 2^31 apart modulo 2^32. */
  lemma CompareIsNewestFirst(i: TaskId, j: TaskId)
    requires i > j
    ensures PoolSortCompare(i, j) < 0 && PoolSortCompare(j, i) > 0 <==> 1 <= (i - j) % UINT_MODULUS < UINT_MODULUS / 2
  {
    HandleDifference(i, j);
    HandleDifference(j, i);
    var d := (i - j) % UINT_MODULUS;
    assert (j - i) % UINT_MODULUS == if d == 0 then 0 else UINT_MODULUS - d;
  }

  lemma HandleDifference(i: TaskId, j: TaskId)
    ensures (Handle(i) - Handle(j)) % UINT_MODULUS == (i - j) % UINT_MODULUS
  {
    var qi, qj := i / UINT_MODULUS, j / UINT_MODULUS;
    assert i == qi * UINT_MODULUS + Handle(i) && j == qj * UINT_MODULUS + Handle(j);
    ModuloShift(Handle(i) - Handle(j), qi - qj);
  }

  lemma ModuloShift(x: int, k: int)
    ensures (x + k * UINT_MODULUS) % UINT_MODULUS == x % UINT_MODULUS
  {}

  lemma CloseCompares(i: TaskId, j: TaskId)
    requires 0 < i - j < UINT_MODULUS / 2
    ensures PoolSortCompare(j, i) > 0
  {
    CompareIsNewestFirst(i, j);
  }

  predicate Spans(pool: seq<TaskId>) {
    forall i, j :: 0 <= i < j < |pool| ==> -UINT_MODULUS / 2 < pool[i] - pool[j] < UINT_MODULUS / 2
  }

  predicate NewestFirst(pool: seq<TaskId>) {
    forall i, j :: 0 <= i < j < |pool| ==> pool[i] > pool[j]
  }

  lemma {:induction false} InsertNewest(pool: seq<TaskId>, t: TaskId)
    requires NewestFirst(pool)
    requires forall x :: x in pool ==> x < t && t - x < UINT_MODULUS / 2
    ensures Insert(pool, t) == [t] + pool
  {
    if pool != [] {
      var n := |pool| - 1;
      assert pool[n] in pool;
      assert pool == pool[..n] + [pool[n]];
      forall x | x in pool[..n] ensures x in pool {}
      InsertNewest(pool[..n], t);
      CloseCompares(t, pool[n]);
      assert Insert(pool, t) == Insert(pool[..n], t) + [pool[n]];
    }
  }

  lemma InsertKeepsNewest(s: State, pool: seq<TaskId>)
    requires Inv(s) && NewestFirst(pool) && Spans(Insert(pool, s.count + 1))
    requires forall x :: x in pool ==> x in s.heap
    ensures NewestFirst(Insert(pool, s.count + 1))
  {
    var t := s.count + 1;
    var r := Insert(pool, t);
    forall x | x in pool ensures x < t && t - x < UINT_MODULUS / 2 {
      assert TaskInv(s, x);
      assert x in r && t in r;
      var i :| 0 <= i < |r| && r[i] == x;
      var j :| 0 <= j < |r| && r[j] == t;
      assert i < j || j < i;
    }
    InsertNewest(pool, t);
    forall i, j | 0 <= i < j < |r| ensures r[i] > r[j] {
      assert pool[j - 1] in pool;
    }
  }

  lemma PoolStep(s: State, e: Event)
    requires Inv(s) && Enabled(s, e) && NewestFirst(s.normal) && NewestFirst(s.large)
    requires Spans(Step(s, e).normal) && Spans(Step(s, e).large)
    ensures NewestFirst(Step(s, e).normal) && NewestFirst(Step(s, e).large)
  {
    if e.EQueue? {
      forall x | x in s.normal || x in s.large ensures x in s.heap {
        assert TaskInv(s, x);
      }
      InsertKeepsNewest(s, if e.urls > LARGE_REQUEST then s.large else s.normal);
    }
  }

  /** While the tasks waiting together span less than 2^31 creations, both pools keep newest first,
      across wraparound of the handles; so whatever a worker takes is the newest waiting in its pool. */
  lemma {:induction false} PoolsStayNewestFirst(es: seq<Event>)
    requires forall k: nat :: k <= |es| ==> Spans(Run(es[..k]).normal) && Spans(Run(es[..k]).large)
    ensures NewestFirst(Run(es).normal) && NewestFirst(Run(es).large)
  {
    if es != [] {
      var before := es[..|es| - 1];
      forall k: nat | k <= |before| ensures before[..k] == es[..k] {}
      PoolsStayNewestFirst(before);
      RunKeepsInv(before);
      assert es[..|es|] == es;
      if Enabled(Run(before), es[|es| - 1]) {
        PoolStep(Run(before), es[|es| - 1]);
      }
    }
  }

  /** What a pop takes is newer than everything left in its pool. */
  lemma PopTakesNewest(es: seq<Event>, w: nat, x: TaskId)
    requires forall k: nat :: k <= |es| ==> Spans(Run(es[..k]).normal) && Spans(Run(es[..k]).large)
    requires Enabled(Run(es), EPop(w)) && x in PoolOf(Pop(Run(es), w), w)
    ensures Pop(Run(es), w).workers[w] == Popped(PoolOf(Run(es), w)[0])
    ensures PoolOf(Run(es), w)[0] > x
  {
    PoolsStayNewestFirst(es);
    RunKeepsInv(es);
  }
}

/** The thumbnailer object: every method is one critical section or one signal of one thread. */
module ThumbnailQueue {
  import opened Common
  import S = ThumbnailQueueSpec

  class Thumbnailer {
    /** `num` is the static 32-bit request counter; `created` counts requests without wrapping. */
    var num: nat
    ghost var created: nat
    /** The allocated tasks, by identity. */
    var heap: map<S.TaskId, S.Task>
    var tasks: seq<S.TaskId>
    var normalPool: seq<S.TaskId>
    var largePool: seq<S.TaskId>
    var workers: seq<S.Phase>
    ghost var crashed: bool
    ghost var trace: seq<S.Signal>
    /** Everything that has happened to this object. */
    ghost var events: seq<S.Event>

    ghost function Model(): S.State
      reads this
    {
      S.State(created, heap, tasks, normalPool, largePool, workers, crashed, trace)
    }

    ghost predicate Sound()
      reads this
    {
      num == S.Handle(created) && |workers| == S.WORKERS && forall t :: t in tasks ==> t in heap
    }

    /** The object is where its history leads, so what holds of all runs holds of it. */
    ghost predicate Valid()
      reads this
    {
      Sound() && Model() == S.Run(events)
    }


    constructor ()
      ensures Valid() && events == [] && Model() == S.INIT
    {
      events := [];
      num, created, heap, tasks := 0, 0, map[], [];
      normalPool, largePool, workers := [], [], [S.Idle, S.Idle, S.Idle];
      crashed, trace := false, [];
    }

    method MarkUnqueued(handle: nat)
      requires Sound()
      modifies this`heap
      ensures Sound() && heap == S.Mark(old(heap), tasks, handle)
    {
      var i := 0;
      while i < |tasks|
        invariant 0 <= i <= |tasks|
        invariant heap == S.Mark(old(heap), tasks[..i], handle)
      {
        var t := tasks[i];
        assert tasks[..i + 1] == tasks[..i] + [t];
        if S.Handle(t) == handle {
          heap := heap[t := heap[t].(unqueued := true)];
        }
        i := i + 1;
      }
      assert tasks[..i] == tasks;
    }

    /** Queues a request under a fresh identity and answers its handle. */
    method Queue(id: S.TaskId, urls: seq<string>, handleToUnqueue: nat) returns (handle: nat)
      requires Valid() && id == created + 1
      modifies this
      ensures Valid() && events == old(events) + [S.EQueue(|urls|, handleToUnqueue)]
      ensures Model() == S.Queue(old(Model()), |urls|, handleToUnqueue)
      ensures handle == S.Handle(created)
    {
      handle := QueueTask(id, urls, handleToUnqueue);
      S.RunAppend(events, S.EQueue(|urls|, handleToUnqueue));
      events := events + [S.EQueue(|urls|, handleToUnqueue)];
    }

    method QueueTask(id: S.TaskId, urls: seq<string>, handleToUnqueue: nat) returns (handle: nat)
      requires Sound() && id == created + 1
      modifies this
      ensures Sound() && Model() == S.Queue(old(Model()), |urls|, handleToUnqueue)
      ensures handle == S.Handle(created) && events == old(events)
    {
      NextModulo(created);
      num := (num + 1) % UINT_MODULUS;
      created := created + 1;
      heap := heap[id := S.Task(|urls|, false, false)];
      MarkUnqueued(handleToUnqueue);
      tasks := [id] + tasks;
      if |urls| > S.LARGE_REQUEST {
        largePool := S.Insert(largePool, id);
      } else {
        normalPool := S.Insert(normalPool, id);
      }
      handle := num;
    }

    method Unqueue(handle: nat)
      requires Valid()
      modifies this
      ensures Valid() && events == old(events) + [S.EUnqueue(handle)]
      ensures Model() == S.Unqueue(old(Model()), handle)
    {
      S.RunAppend(events, S.EUnqueue(handle));
      events := events + [S.EUnqueue(handle)];
      MarkUnqueued(handle);
    }

    method CrashOut()
      requires Sound()
      modifies this`heap, this`trace, this`crashed, this`events
      ensures Sound() && Model() == S.CrashOut(old(Model()))
      ensures old(Valid() && !crashed) ==> Valid() && events == old(events) + [S.ECrashOut]
    {
      S.RunAppend(events, S.ECrashOut);
      var i := 0;
      while i < |tasks|
        invariant 0 <= i <= |tasks| && events == old(events) && crashed == old(crashed)
        invariant heap == S.Kill(old(heap), tasks[..i])
        invariant trace == old(trace) + S.Finishes(tasks[..i])
      {
        var t := tasks[i];
        assert tasks[..i + 1] == tasks[..i] + [t];
        assert S.Finishes(tasks[..i + 1]) == S.Finishes(tasks[..i]) + [S.Finished(t)];
        heap := heap[t := heap[t].(unqueued := true, dead := true)];
        trace := trace + [S.Finished(t)];
        i := i + 1;
      }
      assert tasks[..i] == tasks;
      crashed := true;
      events := events + [S.ECrashOut];
    }

    /** A free worker thread takes the first task of its pool. */
    method Pop(w: nat)
      requires Valid() && S.Enabled(Model(), S.EPop(w))
      modifies this
      ensures Valid() && events == old(events) + [S.EPop(w)]
      ensures Model() == S.Pop(old(Model()), w)
    {
      S.RunAppend(events, S.EPop(w));
      events := events + [S.EPop(w)];
      if w < S.NORMAL_WORKERS {
        workers := workers[w := S.Popped(normalPool[0])];
        normalPool := normalPool[1..];
      } else {
        workers := workers[w := S.Popped(largePool[0])];
        largePool := largePool[1..];
      }
    }

    method EmitStarted(w: nat)
      requires Valid() && S.Enabled(Model(), S.EAnnounce(w))
      modifies this
      ensures Valid() && events == old(events) + [S.EAnnounce(w)]
      ensures Model() == S.Announce(old(Model()), w)
    {
      S.RunAppend(events, S.EAnnounce(w));
      events := events + [S.EAnnounce(w)];
      trace := trace + [S.Started(workers[w].task)];
      workers := workers[w := S.Announced(workers[w].task)];
    }

    /** `g_list_remove`: drops the first occurrence. */
    method RemoveFromList(t: S.TaskId)
      modifies this`tasks
      ensures tasks == S.Without(old(tasks), t)
    {
      var i := 0;
      while i < |tasks| && tasks[i] != t
        invariant 0 <= i <= |tasks| && tasks == old(tasks)
        invariant forall k :: 0 <= k < i ==> tasks[k] != t
      {
        i := i + 1;
      }
      S.WithoutFirst(tasks, t, i);
      if i < |tasks| {
        tasks := tasks[..i] + tasks[i + 1..];
      }
    }

    /** The critical section that opens the work; says whether the task is to be processed. */
    method Remove(w: nat) returns (process: bool)
      requires Valid() && S.Enabled(Model(), S.ERemove(w))
      modifies this
      ensures Valid() && events == old(events) + [S.ERemove(w)]
      ensures Model() == S.Remove(old(Model()), w)
      ensures process <==> workers[w].Processing?
    {
      S.RunAppend(events, S.ERemove(w));
      events := events + [S.ERemove(w)];
      var t := workers[w].task;
      RemoveFromList(t);
      S.WithoutShrinks(old(tasks), t);
      process := !heap[t].unqueued;
      workers := workers[w := if process then S.Processing(t) else S.Leaving(t)];
    }

    /** One Ready or Error signal of the task in hand. */
    method EmitOutcome(w: nat)
      requires Valid() && S.Enabled(Model(), S.EEmit(w))
      modifies this
      ensures Valid() && events == old(events) + [S.EEmit(w)]
      ensures Model() == S.Emit(old(Model()), w)
    {
      S.RunAppend(events, S.EEmit(w));
      events := events + [S.EEmit(w)];
      trace := trace + [S.Outcome(workers[w].task)];
    }

    method EndProcessing(w: nat)
      requires Valid() && S.Enabled(Model(), S.EEnd(w))
      modifies this
      ensures Valid() && events == old(events) + [S.EEnd(w)]
      ensures Model() == S.EndProcessing(old(Model()), w)
    {
      S.RunAppend(events, S.EEnd(w));
      events := events + [S.EEnd(w)];
      workers := workers[w := S.Leaving(workers[w].task)];
    }

    method Leave(w: nat)
      requires Valid() && S.Enabled(Model(), S.ELeave(w))
      modifies this
      ensures Valid() && events == old(events) + [S.ELeave(w)]
      ensures Model() == S.Leave(old(Model()), w)
    {
      S.RunAppend(events, S.ELeave(w));
      events := events + [S.ELeave(w)];
      var t := workers[w].task;
      if !heap[t].dead {
        trace := trace + [S.Finished(t)];
      }
      heap := heap - {t};
      workers := workers[w := S.Idle];
      S.ListIsAllocated(events);
    }
  }
}
