/** The asynchronous task queue and its workers (queue/queueManager.go).

    Every section that holds the queue's mutex is one step. Queueing a task takes two such
    sections and so does a worker that looks for its next task, so other steps come between. */
module WorkerPool {
  import opened Wrappers

  type Task = nat

  datatype Status = Queued | Start | Ended

  datatype Worker = Worker(lock: bool, task: Option<Task>)

  /** What the mutex guards. */
  datatype Pool = Pool(tasks: seq<Task>, workers: seq<Worker>, active: int, status: map<Task, Status>)

  // ---- What each locked section does ----

  function LockedCount(workers: seq<Worker>): nat {
    if workers == [] then 0
    else LockedCount(workers[..|workers| - 1]) + if workers[|workers| - 1].lock then 1 else 0
  }

  /** The first free worker is reserved for the caller, if the count says there is one. */
  ghost predicate Reserves(p: Pool, p': Pool, w: Option<nat>) {
    match w
    case Some(i) =>
      && i < |p.workers| && p.active < |p.workers| && !p.workers[i].lock
      && (forall j :: 0 <= j < i ==> p.workers[j].lock)
      && p' == p.(workers := p.workers[i := p.workers[i].(lock := true)], active := p.active + 1)
    case None =>
      && p' == p && (p.active < |p.workers| ==> forall j :: 0 <= j < |p.workers| ==> p.workers[j].lock)
  }

  function FirstFree(workers: seq<Worker>): (w: Option<nat>)
    ensures w.Some? ==> w.value < |workers| && !workers[w.value].lock && forall j :: 0 <= j < w.value ==> workers[j].lock
    ensures w.None? ==> forall j :: 0 <= j < |workers| ==> workers[j].lock
  {
    if workers == [] then None
    else
      var before := FirstFree(workers[..|workers| - 1]);
      if before.Some? then before
      else if workers[|workers| - 1].lock then None else Some(|workers| - 1)
  }

  function Reserve(p: Pool): (r: (Pool, Option<nat>))
    ensures Reserves(p, r.0, r.1)
  {
    var w := if p.active < |p.workers| then FirstFree(p.workers) else None;
    match w
    case Some(i) => (p.(workers := p.workers[i := p.workers[i].(lock := true)], active := p.active + 1), w)
    case None => (p, None)
  }

  function Assign(p: Pool, w: nat, t: Task): Pool
    requires w < |p.workers|
  {
    p.(workers := p.workers[w := p.workers[w].(task := Some(t))], status := p.status[t := Start])
  }

  /** The guard a started worker passes before it runs its task. */
  predicate MayWork(p: Pool, w: nat)
    requires w < |p.workers|
  {
    var worker := p.workers[w];
    worker.lock && worker.task.Some? && worker.task.value in p.status && p.status[worker.task.value] == Start
  }

  function Take(p: Pool): (Pool, Option<Task>) {
    if p.tasks == [] then (p, None) else (p.(tasks := p.tasks[1..]), Some(p.tasks[0]))
  }

  function Release(p: Pool, w: nat): Pool
    requires w < |p.workers|
  {
    p.(workers := p.workers[w := Worker(false, None)], active := p.active - 1)
  }

  function Enqueue(p: Pool, t: Task): Pool {
    p.(tasks := p.tasks + [t])
  }

  predicate OthersKept(was: seq<Worker>, workers: seq<Worker>, w: nat) {
    |workers| == |was| && forall v :: 0 <= v < |was| && v != w ==> workers[v] == was[v]
  }

  class QueueManager {
    var tasks: seq<Task>
    var workers: seq<Worker>
    var activeWorkers: int
    var status: map<Task, Status>

    ghost function Now(): Pool
      reads this
    {
      Pool(tasks, workers, activeWorkers, status)
    }

    constructor (count: nat)
      ensures Now() == Pool([], seq(count, _ => Worker(false, None)), 0, map[])
    {
      tasks, workers, activeWorkers, status := [], seq(count, _ => Worker(false, None)), 0, map[];
    }

    method GetFreeWorker() returns (w: Option<nat>)
      modifies this`workers, this`activeWorkers
      ensures Reserves(old(Now()), Now(), w)
    {
      if activeWorkers < |workers| {
        var i := 0;
        while i < |workers|
          invariant 0 <= i <= |workers| && workers == old(workers) && activeWorkers == old(activeWorkers)
          invariant forall j :: 0 <= j < i ==> workers[j].lock
        {
          if !workers[i].lock {
            workers := workers[i := workers[i].(lock := true)];
            activeWorkers := activeWorkers + 1;
            return Some(i);
          }
          i := i + 1;
        }
      }
      return None;
    }

    /** A reserved worker comes to pass the guard; no other worker or task is touched. */
    method AssignWorker(w: nat, t: Task)
      requires w < |workers|
      modifies this`workers, this`status
      ensures Now() == Assign(old(Now()), w, t)
      ensures OthersKept(old(workers), workers, w) && workers[w].lock == old(workers[w]).lock
      ensures workers[w].lock ==> MayWork(Now(), w) && workers[w].task == Some(t)
      ensures LockedCount(workers) == LockedCount(old(workers))
      ensures forall x :: x != t ==> (x in status <==> x in old(status)) && (x in status ==> status[x] == old(status)[x])
    {
      LockedMoves(workers, w, workers[w].(task := Some(t)));
      workers := workers[w := workers[w].(task := Some(t))];
      status := status[t := Start];
    }

    /** Splits the first task off the list; only an empty list gives none. */
    method LookForTask() returns (t: Option<Task>)
      modifies this`tasks
      ensures (Now(), t) == Take(old(Now()))
      ensures t.None? <==> old(tasks) == []
      ensures old(tasks) == (if t.Some? then [t.value] else []) + tasks
    {
      if |tasks| < 1 {
        return None;
      }
      t := Some(tasks[0]);
      tasks := tasks[1..];
    }

    /** Frees a locked worker: the count stays that of the locked workers, and the next caller
        finds this worker or one before it. */
    method FreeWorker(w: nat)
      requires w < |workers|
      modifies this`workers, this`activeWorkers
      ensures Now() == Release(old(Now()), w)
      ensures OthersKept(old(workers), workers, w) && !MayWork(Now(), w)
      ensures old(workers[w]).lock && old(activeWorkers) == LockedCount(old(workers)) ==>
                activeWorkers == LockedCount(workers) && Reserve(Now()).1.Some? && Reserve(Now()).1.value <= w
    {
      LockedMoves(workers, w, Worker(false, None));
      LockedAtMost(workers[w := Worker(false, None)]);
      activeWorkers := activeWorkers - 1;
      workers := workers[w := Worker(false, None)];
    }

    /** The task goes behind every listed one: it is taken next only if nothing was listed. */
    method AppendTask(t: Task)
      modifies this`tasks
      ensures Now() == Enqueue(old(Now()), t)
      ensures old(tasks) < tasks && multiset(tasks) == multiset(old(tasks)) + multiset{t}
      ensures Take(Now()).1 == if old(tasks) == [] then Some(t) else Take(old(Now())).1
    {
      tasks := tasks + [t];
    }
  }

  // ---- The whole pool, step by step ----

  /** Where the code that owns a worker is between two sections. */
  datatype Control =
    | Idle
    | Reserved(t: Task) // taken by queue, not yet given the task
    | Starting(t: Task) // given the task, not yet past the guard
    | Running(t: Task)
    | Looking // the task has ended
    | Handed(t: Task) // holds the next task taken from the list
    | Freeing // saw an empty list, not yet freed
    | Rejected(t: Task) // stopped at the guard: never freed

  /** The pool, each worker's control point, the tasks whose callers found no free worker and
      have not appended yet, and what has happened so far. */
  datatype State = State(pool: Pool, at: seq<Control>, pending: multiset<Task>,
                         accepted: set<Task>, appended: seq<Task>, taken: seq<Task>, ran: seq<Task>, finished: seq<Task>)

  datatype Event =
    | Call(t: Task)
    | Append(t: Task)
    | Hand(w: nat)
    | Begin(w: nat)
    | Finish(w: nat)
    | Look(w: nat)
    | Free(w: nat)

  function Init(count: nat): State {
    State(Pool([], seq(count, _ => Worker(false, None)), 0, map[]), seq(count, _ => Idle), multiset{}, {}, [], [], [], [])
  }

  predicate Fits(s: State) {
    |s.at| == |s.pool.workers|
  }

  /** One step. An event that does not fit the state changes nothing; a call brings a new task. */
  function Apply(s: State, e: Event): (s': State)
    requires Fits(s)
    ensures Fits(s') && |s'.at| == |s.at|
  {
    match e
    case Call(t) =>
      if t in s.accepted then s
      else
        var (pool, w) := Reserve(s.pool.(status := s.pool.status[t := Queued]));
        if w.Some? then s.(pool := pool, accepted := s.accepted + {t}, at := s.at[w.value := Reserved(t)])
        else s.(pool := pool, accepted := s.accepted + {t}, pending := s.pending + multiset{t})
    case Append(t) =>
      if t !in s.pending then s
      else s.(pool := Enqueue(s.pool, t), pending := s.pending - multiset{t}, appended := s.appended + [t])
    case Hand(w) =>
      if w >= |s.at| || !(s.at[w].Reserved? || s.at[w].Handed?) then s
      else s.(pool := Assign(s.pool, w, s.at[w].t), at := s.at[w := Starting(s.at[w].t)])
    case Begin(w) =>
      if w >= |s.at| || !s.at[w].Starting? then s
      else if MayWork(s.pool, w) then s.(at := s.at[w := Running(s.at[w].t)], ran := s.ran + [s.at[w].t])
      else s.(at := s.at[w := Rejected(s.at[w].t)])
    case Finish(w) =>
      if w >= |s.at| || !s.at[w].Running? then s
      else s.(pool := s.pool.(status := s.pool.status[s.at[w].t := Ended]), at := s.at[w := Looking], finished := s.finished + [s.at[w].t])
    case Look(w) =>
      if w >= |s.at| || !s.at[w].Looking? then s
      else
        var (pool, t) := Take(s.pool);
        if t.Some? then s.(pool := pool, at := s.at[w := Handed(t.value)], taken := s.taken + [t.value])
        else s.(at := s.at[w := Freeing])
    case Free(w) =>
      if w >= |s.at| || !s.at[w].Freeing? then s
      else s.(pool := Release(s.pool, w), at := s.at[w := Idle])
  }

  function Run(s: State, es: seq<Event>): (s': State)
    requires Fits(s)
    ensures Fits(s')
    decreases |es|
  {
    if es == [] then s else Apply(Run(s, es[..|es| - 1]), es[|es| - 1])
  }

  // ---- The invariant ----

  function Holds(c: Control): Option<Task> {
    match c
    case Reserved(t) => Some(t)
    case Starting(t) => Some(t)
    case Running(t) => Some(t)
    case Handed(t) => Some(t)
    case Rejected(t) => Some(t)
    case _ => None
  }

  function Runs(c: Control): Option<Task> {
    if c.Running? then Some(c.t) else None
  }

  function One(held: Option<Task>, t: Task): nat {
    if held == Some(t) then 1 else 0
  }

  /** How many workers have task t, as f sees each. */
  function Count(at: seq<Control>, f: Control -> Option<Task>, t: Task): nat {
    if at == [] then 0 else Count(at[..|at| - 1], f, t) + One(f(at[|at| - 1]), t)
  }

  function Times(ts: seq<Task>, t: Task): nat {
    multiset(ts)[t]
  }

  /** In how many places task t is. */
  function Places(s: State, t: Task): nat {
    Times(s.pool.tasks, t) + s.pending[t] + Count(s.at, Holds, t) + Times(s.finished, t)
  }

  ghost predicate WorkerOk(p: Pool, w: nat, c: Control)
    requires w < |p.workers|
  {
    var worker := p.workers[w];
    && (worker.lock <==> !c.Idle?)
    && !c.Rejected?
    && (c.Starting? || c.Running? ==> worker.task == Some(c.t) && c.t in p.status && p.status[c.t] == Start)
  }

  ghost predicate WorkersOk(s: State)
    requires Fits(s)
  {
    && s.pool.active == LockedCount(s.pool.workers)
    && forall w :: 0 <= w < |s.at| ==> WorkerOk(s.pool, w, s.at[w])
  }

  /** Every accepted task is in one place, and no other task is anywhere. */
  ghost predicate Conserved(s: State) {
    forall t :: Places(s, t) == if t in s.accepted then 1 else 0
  }

  /** Only the tasks that run or have finished were started, once each. */
  ghost predicate RunOnce(s: State) {
    forall t :: Times(s.ran, t) == Count(s.at, Runs, t) + Times(s.finished, t)
  }

  ghost predicate InOrder(s: State) {
    s.appended == s.taken + s.pool.tasks
  }

  ghost predicate Inv(s: State) {
    Fits(s) && WorkersOk(s) && Conserved(s) && RunOnce(s) && InOrder(s)
  }

  lemma {:induction false} CountMoves(at: seq<Control>, w: nat, c: Control, f: Control -> Option<Task>, t: Task)
    requires w < |at|
    ensures Count(at[w := c], f, t) + One(f(at[w]), t) == Count(at, f, t) + One(f(c), t)
  {
    var n := |at| - 1;
    if w == n {
      assert at[w := c][..n] == at[..n];
    } else {
      CountMoves(at[..n], w, c, f, t);
      assert at[w := c][..n] == at[..n][w := c];
    }
  }

  lemma {:induction false} CountHas(at: seq<Control>, w: nat, f: Control -> Option<Task>, t: Task)
    requires w < |at|
    ensures One(f(at[w]), t) <= Count(at, f, t)
    ensures forall v :: 0 <= v < |at| && v != w ==> One(f(at[v]), t) + One(f(at[w]), t) <= Count(at, f, t)
  {
    var n := |at| - 1;
    if w < n {
      CountHas(at[..n], w, f, t);
      assert forall v :: 0 <= v < n ==> at[..n][v] == at[v];
    } else {
      forall v | 0 <= v < n ensures One(f(at[v]), t) <= Count(at[..n], f, t) {
        CountHas(at[..n], v, f, t);
      }
    }
  }

  lemma {:induction false} CountNone(at: seq<Control>, f: Control -> Option<Task>, t: Task)
    requires f(Idle) == None && forall w :: 0 <= w < |at| ==> at[w] == Idle
    ensures Count(at, f, t) == 0
  {
    if at != [] {
      CountNone(at[..|at| - 1], f, t);
    }
  }

  lemma TimesAdds(ts: seq<Task>, x: Task, t: Task)
    ensures Times(ts + [x], t) == Times(ts, t) + One(Some(x), t)
  {
  }

  lemma TimesDrops(ts: seq<Task>, t: Task)
    requires ts != []
    ensures Times(ts, t) == Times(ts[1..], t) + One(Some(ts[0]), t)
  {
    assert ts == [ts[0]] + ts[1..];
  }

  /** Moving one worker changes the counts by what it holds before and after. */
  lemma WorkerMoves(s: State, s': State, w: nat, c: Control)
    requires w < |s.at| && s'.at == s.at[w := c]
    ensures forall t :: Count(s'.at, Holds, t) + One(Holds(s.at[w]), t) == Count(s.at, Holds, t) + One(Holds(c), t)
    ensures forall t :: Count(s'.at, Runs, t) + One(Runs(s.at[w]), t) == Count(s.at, Runs, t) + One(Runs(c), t)
  {
    forall t
      ensures Count(s'.at, Holds, t) + One(Holds(s.at[w]), t) == Count(s.at, Holds, t) + One(Holds(c), t)
      ensures Count(s'.at, Runs, t) + One(Runs(s.at[w]), t) == Count(s.at, Runs, t) + One(Runs(c), t)
    {
      CountMoves(s.at, w, c, Holds, t);
      CountMoves(s.at, w, c, Runs, t);
    }
  }

  lemma {:induction false} LockedMoves(workers: seq<Worker>, w: nat, worker: Worker)
    requires w < |workers|
    ensures LockedCount(workers[w := worker]) + (if workers[w].lock then 1 else 0) == LockedCount(workers) + (if worker.lock then 1 else 0)
  {
    var n := |workers| - 1;
    if w == n {
      assert workers[w := worker][..n] == workers[..n];
    } else {
      LockedMoves(workers[..n], w, worker);
      assert workers[w := worker][..n] == workers[..n][w := worker];
    }
  }

  /** The locked workers are at most all of them, and all of them only when each one is. */
  lemma {:induction false} LockedAtMost(workers: seq<Worker>)
    ensures LockedCount(workers) <= |workers|
    ensures LockedCount(workers) == |workers| <==> forall w :: 0 <= w < |workers| ==> workers[w].lock
    ensures LockedCount(workers) == 0 <==> forall w :: 0 <= w < |workers| ==> !workers[w].lock
  {
    if workers != [] {
      var n := |workers| - 1;
      LockedAtMost(workers[..n]);
      assert forall w :: 0 <= w < n ==> workers[..n][w] == workers[w];
    }
  }

  lemma InitHolds(count: nat)
    ensures Inv(Init(count))
  {
    var s := Init(count);
    forall t ensures Count(s.at, Holds, t) == 0 && Count(s.at, Runs, t) == 0 {
      CountNone(s.at, Holds, t);
      CountNone(s.at, Runs, t);
    }
    LockedAtMost(s.pool.workers);
  }

  /** A held task is accepted, and nothing else has it. */
  lemma HeldAlone(s: State, w: nat, t: Task)
    requires Conserved(s) && w < |s.at| && Holds(s.at[w]) == Some(t)
    ensures t in s.accepted && t !in s.pool.tasks && t !in s.pending && t !in s.finished
    ensures forall v :: 0 <= v < |s.at| && v != w ==> Holds(s.at[v]) != Some(t)
  {
    CountHas(s.at, w, Holds, t);
    assert Places(s, t) <= 1;
    forall v | 0 <= v < |s.at| && v != w ensures Holds(s.at[v]) != Some(t) {
      assert One(Holds(s.at[v]), t) + One(Holds(s.at[w]), t) <= Count(s.at, Holds, t);
    }
  }

  lemma CallKeepsWorkers(s: State, t: Task)
    requires Inv(s) && t !in s.accepted
    ensures WorkersOk(Apply(s, Call(t)))
  {
    var s' := Apply(s, Call(t));
    var (pool, w) := Reserve(s.pool.(status := s.pool.status[t := Queued]));
    if w.Some? {
      LockedMoves(s.pool.workers, w.value, s.pool.workers[w.value].(lock := true));
    }
    forall v | 0 <= v < |s.at| ensures WorkerOk(s'.pool, v, s'.at[v]) {
      assert WorkerOk(s.pool, v, s.at[v]);
      if Holds(s.at[v]).Some? { HeldAlone(s, v, s.at[v].t); }
    }
  }

  lemma CallKeeps(s: State, t: Task)
    requires Inv(s)
    ensures Inv(Apply(s, Call(t)))
  {
    var s' := Apply(s, Call(t));
    if t !in s.accepted {
      CallKeepsWorkers(s, t);
      var w := Reserve(s.pool.(status := s.pool.status[t := Queued])).1;
      if w.Some? {
        assert WorkerOk(s.pool, w.value, s.at[w.value]);
        WorkerMoves(s, s', w.value, Reserved(t));
      }
      forall x ensures Places(s', x) == if x in s'.accepted then 1 else 0 {
        assert Places(s', x) == Places(s, x) + One(Some(t), x);
      }
    }
  }

  lemma AppendKeeps(s: State, t: Task)
    requires Inv(s)
    ensures Inv(Apply(s, Append(t)))
  {
    var s' := Apply(s, Append(t));
    if t in s.pending {
      forall x ensures Places(s', x) == Places(s, x) {
        TimesAdds(s.pool.tasks, t, x);
      }
    }
  }

  lemma HandKeeps(s: State, w: nat)
    requires Inv(s)
    ensures Inv(Apply(s, Hand(w)))
  {
    if w < |s.at| && (s.at[w].Reserved? || s.at[w].Handed?) {
      var t := s.at[w].t;
      var s' := Apply(s, Hand(w));
      LockedMoves(s.pool.workers, w, s.pool.workers[w].(task := Some(t)));
      WorkerMoves(s, s', w, Starting(t));
      forall v | 0 <= v < |s.at| ensures WorkerOk(s'.pool, v, s'.at[v]) {
        assert WorkerOk(s.pool, v, s.at[v]);
        HeldAlone(s, w, t);
      }
      forall x ensures Places(s', x) == Places(s, x) {
      }
    }
  }

  /** The guard lets every started worker pass. */
  lemma BeginKeeps(s: State, w: nat)
    requires Inv(s)
    ensures Inv(Apply(s, Begin(w)))
    ensures w < |s.at| && s.at[w].Starting? ==> MayWork(s.pool, w)
  {
    if w < |s.at| && s.at[w].Starting? {
      var t, s' := s.at[w].t, Apply(s, Begin(w));
      assert WorkerOk(s.pool, w, s.at[w]);
      WorkerMoves(s, s', w, Running(t));
      forall x ensures Places(s', x) == Places(s, x) && Times(s'.ran, x) == Times(s.ran, x) + One(Some(t), x) {
        TimesAdds(s.ran, t, x);
      }
    }
  }

  lemma FinishKeeps(s: State, w: nat)
    requires Inv(s)
    ensures Inv(Apply(s, Finish(w)))
  {
    if w < |s.at| && s.at[w].Running? {
      var t, s' := s.at[w].t, Apply(s, Finish(w));
      WorkerMoves(s, s', w, Looking);
      forall v | 0 <= v < |s.at| ensures WorkerOk(s'.pool, v, s'.at[v]) {
        assert WorkerOk(s.pool, v, s.at[v]);
        HeldAlone(s, w, t);
      }
      forall x ensures Places(s', x) == Places(s, x) && Times(s'.finished, x) == Times(s.finished, x) + One(Some(t), x) {
        TimesAdds(s.finished, t, x);
      }
    }
  }

  lemma LookKeeps(s: State, w: nat)
    requires Inv(s)
    ensures Inv(Apply(s, Look(w)))
  {
    if w < |s.at| && s.at[w].Looking? {
      var s' := Apply(s, Look(w));
      WorkerMoves(s, s', w, s'.at[w]);
      assert WorkerOk(s.pool, w, s.at[w]);
      forall x ensures Places(s', x) == Places(s, x) {
        if s.pool.tasks != [] { TimesDrops(s.pool.tasks, x); }
      }
    }
  }

  lemma FreeKeeps(s: State, w: nat)
    requires Inv(s)
    ensures Inv(Apply(s, Free(w)))
  {
    if w < |s.at| && s.at[w].Freeing? {
      var s' := Apply(s, Free(w));
      WorkerMoves(s, s', w, Idle);
      LockedMoves(s.pool.workers, w, Worker(false, None));
      assert WorkerOk(s.pool, w, s.at[w]);
      forall x ensures Places(s', x) == Places(s, x) {
      }
    }
  }

  lemma StepKeeps(s: State, e: Event)
    requires Inv(s)
    ensures Inv(Apply(s, e))
  {
    match e
    case Call(t) => CallKeeps(s, t);
    case Append(t) => AppendKeeps(s, t);
    case Hand(w) => HandKeeps(s, w);
    case Begin(w) => BeginKeeps(s, w);
    case Finish(w) => FinishKeeps(s, w);
    case Look(w) => LookKeeps(s, w);
    case Free(w) => FreeKeeps(s, w);
  }

  lemma {:induction false} RunKeeps(s: State, es: seq<Event>)
    requires Inv(s)
    ensures Inv(Run(s, es))
    decreases |es|
  {
    if es != [] {
      var n := |es| - 1;
      RunKeeps(s, es[..n]);
      StepKeeps(Run(s, es[..n]), es[n]);
    }
  }

  // ---- What every run keeps ----

  /** The counter is the number of locked workers, and those are the ones in use. */
  lemma ActiveIsLocked(count: nat, es: seq<Event>)
    ensures var s := Run(Init(count), es);
            && s.pool.active == LockedCount(s.pool.workers) <= |s.pool.workers|
            && (forall w :: 0 <= w < |s.at| ==> (s.pool.workers[w].lock <==> s.at[w] != Idle))
  {
    var s := Run(Init(count), es);
    InitHolds(count);
    RunKeeps(Init(count), es);
    LockedAtMost(s.pool.workers);
    forall w | 0 <= w < |s.at| ensures s.pool.workers[w].lock <==> s.at[w] != Idle {
      assert WorkerOk(s.pool, w, s.at[w]);
    }
  }

  /** A call finds no free worker only when none is free. */
  lemma CallFindsAFreeWorker(count: nat, es: seq<Event>, t: Task)
    requires t !in Run(Init(count), es).accepted
    ensures var s := Run(Init(count), es);
            t in Apply(s, Call(t)).pending <==> forall w :: 0 <= w < |s.at| ==> s.at[w] != Idle
  {
    var s := Run(Init(count), es);
    InitHolds(count);
    RunKeeps(Init(count), es);
    ActiveIsLocked(count, es);
    LockedAtMost(s.pool.workers);
    assert Places(s, t) == 0;
  }

  /** Every accepted task is waiting to be listed, in the list, with one worker, or finished: in
      exactly one of them, once. */
  lemma EveryTaskOnce(count: nat, es: seq<Event>, t: Task)
    ensures var s := Run(Init(count), es);
            s.pending[t] + Times(s.pool.tasks, t) + Count(s.at, Holds, t) + Times(s.finished, t)
              == if t in s.accepted then 1 else 0
  {
    InitHolds(count);
    RunKeeps(Init(count), es);
    assert Places(Run(Init(count), es), t) == if t in Run(Init(count), es).accepted then 1 else 0;
  }

  /** No task is started twice, and a finished task was started. */
  lemma RunsAtMostOnce(count: nat, es: seq<Event>, t: Task)
    ensures var s := Run(Init(count), es);
            && Times(s.ran, t) <= 1 && (t in s.ran ==> t in s.accepted) && (t in s.finished ==> t in s.ran)
  {
    var s := Run(Init(count), es);
    InitHolds(count);
    RunKeeps(Init(count), es);
    RunsAreHeld(s.at, t);
    assert Places(s, t) == if t in s.accepted then 1 else 0;
    assert Times(s.ran, t) == Count(s.at, Runs, t) + Times(s.finished, t);
  }

  lemma {:induction false} RunsAreHeld(at: seq<Control>, t: Task)
    ensures Count(at, Runs, t) <= Count(at, Holds, t)
  {
    if at != [] {
      RunsAreHeld(at[..|at| - 1], t);
    }
  }

  /** Listed tasks leave in the order they arrived. */
  lemma FirstListedFirstTaken(count: nat, es: seq<Event>)
    ensures var s := Run(Init(count), es); s.taken <= s.appended && s.pool.tasks == s.appended[|s.taken|..]
  {
    InitHolds(count);
    RunKeeps(Init(count), es);
  }

  /** The guard never stops an assigned task, so no worker stays locked with nobody to free it. */
  lemma GuardNeverRejects(count: nat, es: seq<Event>, w: nat)
    requires w < count
    ensures var s := Run(Init(count), es);
            && w < |s.at| && !s.at[w].Rejected?
            && (s.at[w].Starting? ==> MayWork(s.pool, w) && Apply(s, Begin(w)).at[w] == Running(s.at[w].t))
  {
    var s := Run(Init(count), es);
    InitHolds(count);
    RunKeeps(Init(count), es);
    SizeKept(Init(count), es);
    assert WorkerOk(s.pool, w, s.at[w]);
    BeginKeeps(s, w);
  }

  lemma {:induction false} SizeKept(s: State, es: seq<Event>)
    requires Fits(s)
    ensures |Run(s, es).at| == |s.at|
    decreases |es|
  {
    if es != [] {
      SizeKept(s, es[..|es| - 1]);
    }
  }

  // ---- What the sections come to, in every run ----

  lemma StateOk(count: nat, es: seq<Event>)
    ensures Inv(Run(Init(count), es))
  {
    InitHolds(count);
    RunKeeps(Init(count), es);
  }

  lemma RunTwo(s: State, e1: Event, e2: Event)
    requires Fits(s)
    ensures Run(s, [e1, e2]) == Apply(Apply(s, e1), e2)
  {
    RunMore(s, [], e1);
    RunMore(s, [e1], e2);
    assert [] + [e1] == [e1] && [e1] + [e2] == [e1, e2];
  }

  lemma RunThree(s: State, e1: Event, e2: Event, e3: Event)
    requires Fits(s)
    ensures Run(s, [e1, e2, e3]) == Apply(Apply(Apply(s, e1), e2), e3)
  {
    RunTwo(s, e1, e2);
    RunMore(s, [e1, e2], e3);
    assert [e1, e2] + [e3] == [e1, e2, e3];
  }

  /** A task that is called for while some worker is free runs on the first such worker. */
  lemma CallStarts(count: nat, es: seq<Event>, t: Task, w: nat)
    requires var s := Run(Init(count), es); t !in s.accepted && w < |s.at| && s.at[w] == Idle && forall v :: 0 <= v < w ==> s.at[v] != Idle
    ensures var s := Run(Init(count), es); var end := Run(s, [Call(t), Hand(w), Begin(w)]);
            && end.at == s.at[w := Running(t)] && end.ran == s.ran + [t] && end.pool.tasks == s.pool.tasks && end.pending == s.pending
  {
    StateOk(count, es);
    var s := Run(Init(count), es);
    RunThree(s, Call(t), Hand(w), Begin(w));
    CallReserves(s, t, w);
    var s1 := Apply(s, Call(t));
    StepKeeps(s, Call(t));
    HandBegins(s1, w, t);
    assert s1.at[w := Running(t)] == s.at[w := Running(t)];
  }

  lemma CallReserves(s: State, t: Task, w: nat)
    requires Inv(s) && t !in s.accepted && w < |s.at| && s.at[w] == Idle && forall v :: 0 <= v < w ==> s.at[v] != Idle
    ensures var s' := Apply(s, Call(t));
            s'.at == s.at[w := Reserved(t)] && s'.ran == s.ran && s'.pool.tasks == s.pool.tasks && s'.pending == s.pending
  {
    LockedAtMost(s.pool.workers);
    LockedIffUsed(s);
    var r := Reserve(s.pool.(status := s.pool.status[t := Queued]));
    assert r.1 == Some(w);
  }

  lemma LockedIffUsed(s: State)
    requires Inv(s)
    ensures forall v :: 0 <= v < |s.at| ==> (s.pool.workers[v].lock <==> s.at[v] != Idle)
  {
    forall v | 0 <= v < |s.at| ensures s.pool.workers[v].lock <==> s.at[v] != Idle {
      assert WorkerOk(s.pool, v, s.at[v]);
    }
  }

  lemma HandBegins(s: State, w: nat, t: Task)
    requires Inv(s) && w < |s.at| && (s.at[w] == Reserved(t) || s.at[w] == Handed(t))
    ensures var s' := Apply(Apply(s, Hand(w)), Begin(w));
            && s'.at == s.at[w := Running(t)] && s'.ran == s.ran + [t] && s'.taken == s.taken && s'.finished == s.finished
            && s'.pool.tasks == s.pool.tasks && s'.pending == s.pending
  {
    var s1 := Apply(s, Hand(w));
    StepKeeps(s, Hand(w));
    BeginKeeps(s1, w);
    assert s1.at == s.at[w := Starting(t)] && s1.at[w] == Starting(t) && MayWork(s1.pool, w);
    assert s.at[w := Starting(t)][w := Running(t)] == s.at[w := Running(t)];
  }

  /** With every worker at work it is listed behind the others. */
  lemma CallWaits(count: nat, es: seq<Event>, t: Task)
    requires var s := Run(Init(count), es); t !in s.accepted && forall w :: 0 <= w < |s.at| ==> s.at[w] != Idle
    ensures var s := Run(Init(count), es); var end := Run(s, [Call(t), Append(t)]);
            end.pool.tasks == s.pool.tasks + [t] && end.at == s.at && end.pending == s.pending
  {
    StateOk(count, es);
    var s := Run(Init(count), es);
    RunTwo(s, Call(t), Append(t));
    CallListed(s, t);
  }

  lemma CallListed(s: State, t: Task)
    requires Inv(s) && t !in s.accepted && forall w :: 0 <= w < |s.at| ==> s.at[w] != Idle
    ensures var end := Apply(Apply(s, Call(t)), Append(t));
            end.pool.tasks == s.pool.tasks + [t] && end.at == s.at && end.pending == s.pending
  {
    LockedIffUsed(s);
    var r := Reserve(s.pool.(status := s.pool.status[t := Queued]));
    assert r.1 == None;
    var s1 := Apply(s, Call(t));
    assert s1.at == s.at && s1.pending == s.pending + multiset{t};
    assert s.pending + multiset{t} - multiset{t} == s.pending;
  }

  /** A worker whose task has ended goes on with the first listed task, which leaves the list. */
  lemma NextTakes(count: nat, es: seq<Event>, w: nat)
    requires var s := Run(Init(count), es); w < |s.at| && s.at[w] == Looking && s.pool.tasks != []
    ensures var s := Run(Init(count), es); var end := Run(s, [Look(w), Hand(w), Begin(w)]); var t := s.pool.tasks[0];
            && end.at == s.at[w := Running(t)] && end.ran == s.ran + [t] && end.taken == s.taken + [t]
            && end.pool.tasks == s.pool.tasks[1..]
  {
    StateOk(count, es);
    NextSteps(Run(Init(count), es), w);
  }

  lemma NextSteps(s: State, w: nat)
    requires Inv(s) && w < |s.at| && s.at[w] == Looking && s.pool.tasks != []
    ensures var end := Run(s, [Look(w), Hand(w), Begin(w)]); var t := s.pool.tasks[0];
            && Inv(end) && end.at == s.at[w := Running(t)] && end.ran == s.ran + [t] && end.taken == s.taken + [t]
            && end.pool.tasks == s.pool.tasks[1..] && end.pending == s.pending && end.finished == s.finished
  {
    var t, s1 := s.pool.tasks[0], Apply(s, Look(w));
    RunThree(s, Look(w), Hand(w), Begin(w));
    StepKeeps(s, Look(w));
    HandBegins(s1, w, t);
    StepKeeps(s1, Hand(w));
    StepKeeps(Apply(s1, Hand(w)), Begin(w));
    assert s1.at[w := Running(t)] == s.at[w := Running(t)];
  }

  /** With nothing listed the worker becomes free. */
  lemma NextFrees(count: nat, es: seq<Event>, w: nat)
    requires var s := Run(Init(count), es); w < |s.at| && s.at[w] == Looking && s.pool.tasks == []
    ensures var s := Run(Init(count), es); var end := Run(s, [Look(w), Free(w)]);
            && end.at == s.at[w := Idle] && |end.pool.workers| == |s.at| && end.pool.workers[w] == Worker(false, None)
            && end.pool.active == s.pool.active - 1 && end.ran == s.ran
  {
    var s := Run(Init(count), es);
    RunTwo(s, Look(w), Free(w));
    LookFrees(s, w);
  }

  lemma LookFrees(s: State, w: nat)
    requires Fits(s) && w < |s.at| && s.at[w] == Looking && s.pool.tasks == []
    ensures var end := Apply(Apply(s, Look(w)), Free(w));
            && end.at == s.at[w := Idle] && |end.pool.workers| == |s.at| && end.pool.workers[w] == Worker(false, None)
            && end.pool.active == s.pool.active - 1 && end.ran == s.ran
  {
    assert s.at[w := Freeing][w := Idle] == s.at[w := Idle];
  }

  /** A running task that ends leaves its worker looking for the next. */
  lemma FinishLooks(count: nat, es: seq<Event>, w: nat)
    requires var s := Run(Init(count), es); w < |s.at| && s.at[w].Running?
    ensures var s := Run(Init(count), es); var s' := Apply(s, Finish(w)); var t := s.at[w].t;
            && s'.at == s.at[w := Looking] && s'.finished == s.finished + [t] && s'.pool.tasks == s.pool.tasks
            && t in s'.pool.status && s'.pool.status[t] == Ended
  {
  }

  predicate OfWorker(e: Event, w: nat) {
    (e.Look? || e.Hand? || e.Begin? || e.Finish?) && e.w == w
  }

  /** One worker is enough: four steps of it for each listed task run them all, in order, and leave
      it looking at an empty list. */
  lemma OneWorkerDrains(count: nat, es: seq<Event>, w: nat) returns (more: seq<Event>)
    requires var s := Run(Init(count), es); w < |s.at| && s.at[w] == Looking
    ensures var s := Run(Init(count), es); var end := Run(s, more);
            && |more| == 4 * |s.pool.tasks| && (forall e :: e in more ==> OfWorker(e, w))
            && end.pool.tasks == [] && end.ran == s.ran + s.pool.tasks && end.finished == s.finished + s.pool.tasks
            && end.at == s.at
  {
    StateOk(count, es);
    var end;
    more, end := Drains(Run(Init(count), es), w);
  }

  lemma {:induction false} Drains(s: State, w: nat) returns (more: seq<Event>, end: State)
    requires Inv(s) && w < |s.at| && s.at[w] == Looking
    ensures |more| == 4 * |s.pool.tasks| && forall e :: e in more ==> OfWorker(e, w)
    ensures end == Run(s, more) && end.pool.tasks == [] && end.at == s.at
    ensures end.ran == s.ran + s.pool.tasks && end.finished == s.finished + s.pool.tasks
    decreases |s.pool.tasks|
  {
    if s.pool.tasks == [] {
      more, end := [], s;
    } else {
      var turn, s1 := OneTurn(s, w);
      var rest;
      rest, end := Drains(s1, w);
      more := turn + rest;
      RunsOn(s, s1, turn, rest);
      FirstAndRest(s.ran, s.pool.tasks);
      FirstAndRest(s.finished, s.pool.tasks);
    }
  }

  lemma FirstAndRest<X>(a: seq<X>, b: seq<X>)
    requires b != []
    ensures a + [b[0]] + b[1..] == a + b
  {
  }

  lemma RunsOn(s: State, s1: State, turn: seq<Event>, rest: seq<Event>)
    requires Fits(s) && s1 == Run(s, turn)
    ensures Run(s, turn + rest) == Run(s1, rest)
  {
    RunAppend(s, turn, rest);
  }

  lemma OneTurn(s: State, w: nat) returns (turn: seq<Event>, end: State)
    requires Inv(s) && w < |s.at| && s.at[w] == Looking && s.pool.tasks != []
    ensures |turn| == 4 && (forall e :: e in turn ==> OfWorker(e, w)) && end == Run(s, turn)
    ensures var t := s.pool.tasks[0];
            && Inv(end) && end.at == s.at && end.ran == s.ran + [t] && end.finished == s.finished + [t] && end.pool.tasks == s.pool.tasks[1..]
  {
    turn := [Look(w), Hand(w), Begin(w), Finish(w)];
    end := Run(s, turn);
    NextSteps(s, w);
    var s1 := Run(s, [Look(w), Hand(w), Begin(w)]);
    StepKeeps(s1, Finish(w));
    RunMore(s, [Look(w), Hand(w), Begin(w)], Finish(w));
    assert turn == [Look(w), Hand(w), Begin(w)] + [Finish(w)];
    assert s.at[w := Running(s.pool.tasks[0])][w := Looking] == s.at;
  }

  lemma RunMore(s: State, es: seq<Event>, e: Event)
    requires Fits(s)
    ensures Run(s, es + [e]) == Apply(Run(s, es), e)
  {
    assert (es + [e])[..|es|] == es;
  }

  lemma RestAndLast<X>(a: seq<X>, b: seq<X>)
    requires b != []
    ensures a + b[..|b| - 1] + [b[|b| - 1]] == a + b
  {
  }

  lemma {:induction false} RunAppend(s: State, es: seq<Event>, more: seq<Event>)
    requires Fits(s)
    ensures Run(s, es + more) == Run(Run(s, es), more)
  {
    if more == [] {
      assert es + more == es;
    } else {
      var n := |more| - 1;
      RunAppend(s, es, more[..n]);
      RunMore(s, es + more[..n], more[n]);
      RestAndLast(es, more);
    }
  }

  // ---- Tasks that wait while every worker is free ----

  ghost predicate AllFree(s: State) {
    forall w :: 0 <= w < |s.at| ==> s.at[w] == Idle
  }

  /** A task waits in the list and no worker is left to look for it. */
  ghost predicate Stranded(s: State) {
    s.pool.tasks != [] && AllFree(s)
  }

  ghost predicate LastFreed(s: State, e: Event) {
    && e.Free? && e.w < |s.at| && s.at[e.w].Freeing? && s.pool.tasks != []
    && forall v :: 0 <= v < |s.at| && v != e.w ==> s.at[v] == Idle
  }

  /** The only steps that strand a task: the last worker is freed after it saw the list
      empty and a task has been listed since, or a task is listed after every worker was freed. */
  lemma StrandedBy(s: State, e: Event)
    requires Inv(s) && !Stranded(s)
    ensures Stranded(Apply(s, e)) <==> LastFreed(s, e) || (e.Append? && e.t in s.pending && AllFree(s))
  {
    match e
    case Call(t) => CallStrandsNone(s, t);
    case Free(w) => FreeStrands(s, w);
    case Append(t) => assert Apply(s, e).at == s.at;
    case _ => assert Apply(s, e) != s ==> Apply(s, e).at[e.w] != Idle;
  }

  lemma CallStrandsNone(s: State, t: Task)
    requires Fits(s) && !Stranded(s)
    ensures !Stranded(Apply(s, Call(t)))
  {
    var s' := Apply(s, Call(t));
    if t !in s.accepted {
      var w := Reserve(s.pool.(status := s.pool.status[t := Queued])).1;
      assert if w.Some? then s'.at[w.value] == Reserved(t) else s'.at == s.at && s'.pool.tasks == s.pool.tasks;
    }
  }

  lemma FreeStrands(s: State, w: nat)
    requires Fits(s) && !Stranded(s)
    ensures Stranded(Apply(s, Free(w))) <==> LastFreed(s, Free(w))
  {
    var s' := Apply(s, Free(w));
    if w < |s.at| && s.at[w].Freeing? {
      assert s'.at == s.at[w := Idle] && s'.pool.tasks == s.pool.tasks;
      if Stranded(s') {
        assert forall v :: 0 <= v < |s.at| && v != w ==> s'.at[v] == Idle && s.at[v] == s'.at[v];
      }
    }
  }

  /** With one worker, a call that comes between the worker's empty look and its release
      leaves its task in the list with the worker free. */
  lemma SplitSectionsStrand(first: Task, second: Task)
    requires first != second
    ensures var es := [Call(first), Hand(0), Begin(0), Finish(0), Look(0), Call(second), Free(0), Append(second)];
            var s := Run(Init(1), es);
            Stranded(s) && s.pool.tasks == [second] && s.pool.active == 0 && s.pending == multiset{}
  {
    var es := [Call(first), Hand(0), Begin(0), Finish(0), Look(0), Call(second), Free(0), Append(second)];
    RunEight(Init(1), es);
    var s2 := Apply(Apply(Init(1), Call(first)), Hand(0));
    OneWorkerStarts(first);
    OneWorkerLooks(s2, first);
    LateCallStrands(Apply(Apply(Apply(s2, Begin(0)), Finish(0)), Look(0)), second);
  }

  lemma OneWorkerStarts(t: Task)
    ensures var s := Apply(Apply(Init(1), Call(t)), Hand(0));
            && s.at == [Starting(t)] && s.pool.workers == [Worker(true, Some(t))] && s.pool.active == 1
            && s.pool.tasks == [] && s.pending == multiset{} && s.accepted == {t} && t in s.pool.status && s.pool.status[t] == Start
  {
    var s1 := Apply(Init(1), Call(t));
    assert s1.at == [Reserved(t)] && s1.pool.workers == [Worker(true, None)];
  }

  lemma OneWorkerLooks(s: State, t: Task)
    requires s.at == [Starting(t)] && s.pool.workers == [Worker(true, Some(t))]
    requires s.pool.tasks == [] && t in s.pool.status && s.pool.status[t] == Start
    ensures var s' := Apply(Apply(Apply(s, Begin(0)), Finish(0)), Look(0));
            && s'.at == [Freeing] && s'.pool.workers == s.pool.workers && s'.pool.active == s.pool.active
            && s'.pool.tasks == [] && s'.pending == s.pending && s'.accepted == s.accepted
  {
    var s1 := Apply(s, Begin(0));
    assert s1.at == [Running(t)];
    assert Apply(s1, Finish(0)).at == [Looking];
  }

  lemma LateCallStrands(s: State, t: Task)
    requires |s.pool.workers| == 1 && s.at == [Freeing] && s.pool.active == 1 && s.pool.tasks == []
    requires s.pending == multiset{} && t !in s.accepted
    ensures var s' := Apply(Apply(Apply(s, Call(t)), Free(0)), Append(t));
            Stranded(s') && s'.pool.tasks == [t] && s'.pool.active == 0 && s'.pending == multiset{}
  {
    var s6 := Apply(s, Call(t));
    assert s6.pending == multiset{t} && s6.at == s.at;
    var s7 := Apply(s6, Free(0));
    assert s7.at == [Idle];
  }

  lemma {:induction false} RunEight(s: State, es: seq<Event>)
    requires Fits(s) && |es| == 8
    ensures Run(s, es) == Apply(Apply(Apply(Apply(Apply(Apply(Apply(Apply(s, es[0]), es[1]), es[2]), es[3]), es[4]), es[5]), es[6]), es[7])
  {
    RunFour(s, es[..4]);
    assert es[..8][..7] == es[..7] && es[..7][..6] == es[..6] && es[..6][..5] == es[..5] && es[..5][..4] == es[..4];
    assert Run(s, es[..5]) == Apply(Run(s, es[..4]), es[4]);
    assert Run(s, es[..6]) == Apply(Run(s, es[..5]), es[5]);
    assert Run(s, es[..7]) == Apply(Run(s, es[..6]), es[6]);
    assert Run(s, es) == Apply(Run(s, es[..7]), es[7]);
  }

  lemma {:induction false} RunFour(s: State, es: seq<Event>)
    requires Fits(s) && |es| == 4
    ensures Run(s, es) == Apply(Apply(Apply(Apply(s, es[0]), es[1]), es[2]), es[3])
  {
    assert es[..3][..2] == es[..2] && es[..2][..1] == es[..1] && es[..1][..0] == [];
    assert Run(s, es[..1]) == Apply(s, es[0]);
    assert Run(s, es[..2]) == Apply(Run(s, es[..1]), es[1]);
    assert Run(s, es[..3]) == Apply(Run(s, es[..2]), es[2]);
  }

  /** No step but a call takes a stranded task: until one comes every worker stays free, nothing
      is taken or run, and callers that found no free worker only add to the list. With no such
      caller left nothing changes at all. */
  lemma {:induction false} StrandedUntilNextCall(s: State, es: seq<Event>)
    requires Fits(s) && Stranded(s) && forall e :: e in es ==> !e.Call?
    ensures var s' := Run(s, es);
            && Stranded(s') && s.pool.tasks <= s'.pool.tasks
            && s'.taken == s.taken && s'.ran == s.ran && s'.finished == s.finished
            && multiset(s'.pool.tasks) + s'.pending == multiset(s.pool.tasks) + s.pending
            && (s.pending == multiset{} ==> s' == s)
    decreases |es|
  {
    if es != [] {
      var n := |es| - 1;
      StrandedUntilNextCall(s, es[..n]);
      assert es[n] in es;
      StrandedStep(Run(s, es[..n]), es[n]);
    }
  }

  lemma StrandedStep(s: State, e: Event)
    requires Fits(s) && Stranded(s) && !e.Call?
    ensures Apply(s, e) == if e.Append? && e.t in s.pending
                           then s.(pool := Enqueue(s.pool, e.t), pending := s.pending - multiset{e.t}, appended := s.appended + [e.t])
                           else s
    ensures multiset(Apply(s, e).pool.tasks) + Apply(s, e).pending == multiset(s.pool.tasks) + s.pending
  {
    if e.Append? {
      assert e.t in s.pending ==> multiset{e.t} + (s.pending - multiset{e.t}) == s.pending;
    } else {
      assert e.w < |s.at| ==> s.at[e.w] == Idle;
    }
  }

  /** A worker that has not yet seen the list empty is still in use as long as a listed task
      is: it frees itself only after seeing the list empty. */
  lemma {:induction false} BusyWhileListed(s: State, es: seq<Event>, w: nat, t: Task)
    requires Inv(s) && w < |s.at| && s.at[w] != Idle && s.at[w] != Freeing
    requires t in s.pool.tasks && t in Run(s, es).pool.tasks
    ensures w < |Run(s, es).at| && Run(s, es).at[w] != Idle && Run(s, es).at[w] != Freeing
    decreases |es|
  {
    if es != [] {
      var n := |es| - 1;
      var m := Run(s, es[..n]);
      ListedIsAccepted(s, t);
      ListedStays(s, es[..n], t);
      ListedByAppend(m, es[n], t);
      BusyWhileListed(s, es[..n], w, t);
      RunKeeps(s, es[..n]);
      BusyStep(m, es[n], w);
    }
  }

  lemma ListedIsAccepted(s: State, t: Task)
    requires Conserved(s) && t in s.pool.tasks
    ensures t in s.accepted && t !in s.pending
  {
    assert Places(s, t) <= 1 && Times(s.pool.tasks, t) >= 1;
  }

  lemma ListedByAppend(s: State, e: Event, t: Task)
    requires Fits(s) && t !in s.pending && t in Apply(s, e).pool.tasks
    ensures t in s.pool.tasks
  {
    if e.Append? && e.t in s.pending {
      assert Apply(s, e).pool.tasks == s.pool.tasks + [e.t];
    }
  }

  lemma BusyStep(s: State, e: Event, w: nat)
    requires Inv(s) && w < |s.at| && s.at[w] != Idle && s.at[w] != Freeing && s.pool.tasks != []
    ensures Apply(s, e).at[w] != Idle && Apply(s, e).at[w] != Freeing
  {
    assert WorkerOk(s.pool, w, s.at[w]);
  }

  /** A task once listed is never in a caller's hands again. */
  lemma {:induction false} ListedStays(s: State, es: seq<Event>, t: Task)
    requires Fits(s) && t in s.accepted && t !in s.pending
    ensures t in Run(s, es).accepted && t !in Run(s, es).pending
    decreases |es|
  {
    if es != [] {
      var n := |es| - 1;
      ListedStays(s, es[..n], t);
      ListedStep(Run(s, es[..n]), es[n], t);
    }
  }

  lemma ListedStep(s: State, e: Event, t: Task)
    requires Fits(s) && t in s.accepted && t !in s.pending
    ensures t in Apply(s, e).accepted && t !in Apply(s, e).pending
  {
  }

  // ---- If queue and next each held the mutex throughout ----

  datatype Whole = Submit(t: Task) | Work(w: nat) | End(w: nat) | Next(w: nat)

  function ApplyWhole(s: State, e: Whole): (s': State)
    requires Fits(s)
    ensures Fits(s')
  {
    match e
    case Submit(t) =>
      if t in s.accepted then s
      else
        var s1, w := Apply(s, Call(t)), Reserve(s.pool.(status := s.pool.status[t := Queued])).1;
        if w.Some? then Apply(s1, Hand(w.value)) else Apply(s1, Append(t))
    case Work(w) => Apply(s, Begin(w))
    case End(w) => Apply(s, Finish(w))
    case Next(w) =>
      if w >= |s.at| || !s.at[w].Looking? then s
      else
        var s1 := Apply(s, Look(w));
        if s1.at[w].Handed? then Apply(s1, Hand(w)) else Apply(s1, Free(w))
  }

  function RunWhole(s: State, es: seq<Whole>): (s': State)
    requires Fits(s)
    ensures Fits(s')
    decreases |es|
  {
    if es == [] then s else ApplyWhole(RunWhole(s, es[..|es| - 1]), es[|es| - 1])
  }

  predicate InUse(c: Control) {
    c.Starting? || c.Running? || c.Looking?
  }

  ghost predicate Settled(s: State) {
    && Inv(s) && s.pending == multiset{}
    && (forall w :: 0 <= w < |s.at| ==> s.at[w] == Idle || InUse(s.at[w]))
    && (s.pool.tasks != [] ==> forall w :: 0 <= w < |s.at| ==> s.at[w] != Idle)
  }

  lemma SubmitSettles(s: State, t: Task)
    requires Settled(s)
    ensures Settled(ApplyWhole(s, Submit(t)))
  {
    var s' := ApplyWhole(s, Submit(t));
    if t !in s.accepted {
      var s1, w := Apply(s, Call(t)), Reserve(s.pool.(status := s.pool.status[t := Queued])).1;
      StepKeeps(s, Call(t));
      if w.Some? {
        assert s.at[w.value] == Idle by { assert WorkerOk(s.pool, w.value, s.at[w.value]); }
        StepKeeps(s1, Hand(w.value));
        assert s'.at == s.at[w.value := Starting(t)] && s'.pool.tasks == s.pool.tasks == [];
      } else {
        StepKeeps(s1, Append(t));
        LockedAtMost(s.pool.workers);
        assert s'.at == s.at && s'.pending == multiset{};
        forall v | 0 <= v < |s.at| ensures s.at[v] != Idle {
          assert WorkerOk(s.pool, v, s.at[v]);
        }
      }
    }
  }

  lemma NextSettles(s: State, w: nat)
    requires Settled(s)
    ensures Settled(ApplyWhole(s, Next(w)))
  {
    if w < |s.at| && s.at[w].Looking? {
      var s1, s' := Apply(s, Look(w)), ApplyWhole(s, Next(w));
      StepKeeps(s, Look(w));
      StepKeeps(s1, Hand(w));
      StepKeeps(s1, Free(w));
      if s.pool.tasks != [] {
        assert s'.at == s.at[w := Starting(s.pool.tasks[0])];
      } else {
        assert s'.at == s.at[w := Idle] && s'.pool.tasks == [];
      }
    }
  }

  lemma WorkSettles(s: State, w: nat)
    requires Settled(s)
    ensures Settled(Apply(s, Begin(w))) && Settled(Apply(s, Finish(w)))
  {
    BeginKeeps(s, w);
    FinishKeeps(s, w);
    if w < |s.at| && s.at[w].Starting? {
      assert Apply(s, Begin(w)).at == s.at[w := Running(s.at[w].t)];
    }
    if w < |s.at| && s.at[w].Running? {
      assert Apply(s, Finish(w)).at == s.at[w := Looking];
    }
  }

  lemma SettledInUse(s: State)
    requires Settled(s) && s.pool.tasks != []
    ensures forall w :: 0 <= w < |s.at| ==> InUse(s.at[w])
  {
  }

  lemma WholeStepSettles(s: State, e: Whole)
    requires Settled(s)
    ensures Settled(ApplyWhole(s, e))
  {
    match e
    case Submit(t) => SubmitSettles(s, t);
    case Next(w) => NextSettles(s, w);
    case Work(w) => WorkSettles(s, w);
    case End(w) => WorkSettles(s, w);
  }

  /** Then a task waits in the list only while every worker is at work. */
  lemma {:induction false} WholeSectionsNeverStrand(count: nat, es: seq<Whole>)
    ensures var s := RunWhole(Init(count), es);
            s.pool.tasks != [] ==> forall w :: 0 <= w < |s.at| ==> InUse(s.at[w])
    ensures Settled(RunWhole(Init(count), es))
    decreases |es|
  {
    if es == [] {
      InitHolds(count);
    } else {
      var n := |es| - 1;
      WholeSectionsNeverStrand(count, es[..n]);
      WholeStepSettles(RunWhole(Init(count), es[..n]), es[n]);
    }
    if RunWhole(Init(count), es).pool.tasks != [] {
      SettledInUse(RunWhole(Init(count), es));
    }
  }
}
