/**
 The scheduler thread and the worker threads as one interleaved system. The scheduler releases a
 worker by posting its sem_cont and is blocked until the worker posts sem_done, or, under EDF and
 SCT, until the quantum is over. Every interleaving of the micro-steps below is considered.
 */
module Handshake {
  import opened Sums
  import opened Tasks
  import opened Engine
  import opened Bookkeeping
  import opened Priorities

  /**
   Where fixt_task_routine is: in sem_wait, about to read the pipe, with so much left to spin, past the post
   of sem_done but not yet back in sem_wait, or gone.
   */
  datatype Place = Waiting | Reading | Spinning(left: nat) | Returning | Exited

  /** released and spun are histories: jobs released to the worker, and quanta it has spun. */
  datatype Worker = Worker(place: Place, cont: nat, done: nat, pill: bool, released: nat, spun: nat)

  /** Deciding: between steps. Blocked: in al_block, the head h having spun for used quanta of it. */
  datatype Phase = Deciding | Blocked(h: nat, used: nat) | Stopping(next: nat) | Poisoned(i: nat) | Joining(i: nat) | Halted

  datatype System = System(run: Run, workers: seq<Worker>, phase: Phase)

  datatype Action =
    | Skip           // nothing is ready: spin to the next release
    | Dispatch       // post sem_cont of the head if its job has not begun, then block
    | Resume         // al_block returns with sem_done
    | Preempt        // al_block returns at the end of the quantum
    | Stop           // run_test_on leaves its loop
    | Poison         // fixt_task_stop: write the pill
    | Wake           // fixt_task_stop: post sem_cont
    | Join           // pthread_join returns
    | Finish
    | Take(i: nat)   // sem_wait of the worker returns
    | Read(i: nat)   // read the pipe: leave, or begin the job
    | Spin(i: nat)   // one quantum of work
    | Post(i: nat)   // post sem_done, which hands control to the scheduler
    | Return(i: nat) // go back to sem_wait, when there is the chance

  function Begin(ts: seq<Task>): System {
    System(Start(ts), seq(|ts|, _ => Worker(Waiting, 0, 0, false, 0, 0)), Deciding)
  }

  /** A worker gets the processor while the scheduler is blocked on it; in RMA there is no limit to that. */
  predicate MaySpin(alg: Alg, phase: Phase, i: nat) {
    || alg == RMA
    || phase.Joining?
    || (phase.Blocked? && phase.h == i && phase.used < 1)
  }

  predicate Sized(s: System) {
    && |s.run.tasks| == |s.run.done| == |s.workers|
    && (s.phase.Blocked? ==> s.phase.h < |s.workers|)
    && (s.phase.Stopping? ==> s.phase.next <= |s.workers|)
    && (s.phase.Poisoned? || s.phase.Joining? ==> s.phase.i < |s.workers|)
  }

  predicate Enabled(alg: Alg, s: System, act: Action)
    requires Sized(s)
  {
    var ws := s.workers;
    match act
    case Skip => s.phase == Deciding && Check(alg, s.run.tasks) && Idle(s.run.tasks)
    case Dispatch => s.phase == Deciding && Check(alg, s.run.tasks) && !Idle(s.run.tasks)
    case Resume => s.phase.Blocked? && ws[s.phase.h].done > 0
    // the grace period of the timed wait lets a worker that has finished its job post first
    case Preempt => alg != RMA && s.phase.Blocked? && s.phase.used == 1 && ws[s.phase.h].done == 0
                    && ws[s.phase.h].place != Spinning(0)
    case Stop => s.phase == Deciding
    case Poison => s.phase.Stopping? && s.phase.next < |ws|
    case Wake => s.phase.Poisoned?
    case Join => s.phase.Joining? && ws[s.phase.i].place == Exited
    case Finish => s.phase == Stopping(|ws|)
    case Take(i) => i < |ws| && ws[i].place == Waiting && ws[i].cont > 0
    case Read(i) => i < |ws| && ws[i].place == Reading
    case Spin(i) => i < |ws| && ws[i].place.Spinning? && ws[i].place.left > 0 && MaySpin(alg, s.phase, i)
    case Post(i) => i < |ws| && ws[i].place == Spinning(0)
    case Return(i) => i < |ws| && ws[i].place == Returning
  }

  /** What a worker's own micro-step does to it. */
  function WorkerStep(t: Task, w: Worker, act: Action): Worker
    requires t.c >= 0
    requires act.Spin? ==> w.place.Spinning? && w.place.left > 0
    requires act.Take? ==> w.cont > 0
  {
    match act
    case Take(_) => w.(cont := w.cont - 1, place := Reading)
    case Read(_) => if w.pill then w.(pill := false, place := Exited) else w.(place := Spinning(t.c))
    case Spin(_) => w.(place := Spinning(w.place.left - 1), spun := w.spun + 1)
    case Post(_) => w.(done := w.done + 1, place := Returning)
    case Return(_) => w.(place := Waiting)
    case _ => w
  }

  /** The actions that complete an al_run. */
  predicate CompletesRound(act: Action) {
    act == Skip || act == Resume || act == Preempt
  }

  predicate OfWorker(act: Action) {
    act.Take? || act.Read? || act.Spin? || act.Post? || act.Return?
  }

  function Do(alg: Alg, s: System, act: Action): System
    requires Sized(s) && Enabled(alg, s, act)
    requires forall i :: 0 <= i < |s.run.tasks| ==> s.run.tasks[i].c >= 0
  {
    var ws := s.workers;
    match act
    case Skip => s.(run := Rest(s.run))
    case Dispatch =>
      var h := Head(alg, s.run.tasks);
      var w := ws[h];
      s.(phase := Blocked(h, 0),
         workers := if s.run.tasks[h].AlreadyExecuting() then ws
                    else ws[h := w.(cont := w.cont + 1, released := w.released + 1)])
    case Resume =>
      var h := s.phase.h;
      s.(phase := Deciding, run := Grant(alg, s.run, h), workers := ws[h := ws[h].(done := ws[h].done - 1)])
    case Preempt => s.(phase := Deciding, run := Grant(alg, s.run, s.phase.h))
    case Stop => s.(phase := Stopping(0))
    case Poison =>
      var i := s.phase.next;
      s.(phase := Poisoned(i), workers := ws[i := ws[i].(pill := true)])
    case Wake =>
      var i := s.phase.i;
      s.(phase := Joining(i), workers := ws[i := ws[i].(cont := ws[i].cont + 1)])
    case Join => s.(phase := Stopping(s.phase.i + 1))
    case Finish => s.(phase := Halted)
    case Take(i) => s.(workers := ws[i := WorkerStep(s.run.tasks[i], ws[i], act)])
    case Read(i) => s.(workers := ws[i := WorkerStep(s.run.tasks[i], ws[i], act)])
    case Spin(i) =>
      s.(workers := ws[i := WorkerStep(s.run.tasks[i], ws[i], act)],
         phase := if s.phase.Blocked? && s.phase.h == i then Blocked(i, s.phase.used + 1) else s.phase)
    case Post(i) => s.(workers := ws[i := WorkerStep(s.run.tasks[i], ws[i], act)])
    case Return(i) => s.(workers := ws[i := WorkerStep(s.run.tasks[i], ws[i], act)])
  }

  // ---------- the invariant ----------

  /** Between jobs: in sem_wait or on the way there. */
  predicate Done(place: Place) {
    place == Waiting || place == Returning
  }

  /** Between steps: no token anywhere, and the worker is mid-job, with the right amount left, just when a > 0. */
  predicate AtRest(t: Task, k: nat, w: Worker) {
    && w.cont == 0 && w.done == 0 && !w.pill
    && 0 <= t.a < t.c
    && (if t.a > 0 then w.place == Spinning(t.c - t.a) else Done(w.place))
    && w.released == k + (if t.a > 0 then 1 else 0)
    && w.spun == k * t.c + t.a
  }

  /** While the scheduler is blocked on the worker: it holds the one token of its job k. */
  predicate Serving(alg: Alg, t: Task, k: nat, w: Worker, used: nat) {
    && !w.pill && 0 <= t.a < t.c
    && w.released == k + 1
    && w.spun == k * t.c + t.a + used
    && used <= Delta(alg, t)
    && (|| (t.a == 0 && used == 0 && w.cont == 1 && w.done == 0 && Done(w.place))
        || (t.a == 0 && used == 0 && w.cont == 0 && w.done == 0 && w.place == Reading)
        || (w.cont == 0 && w.done == 0 && w.place.Spinning? && w.place.left == t.c - t.a - used)
        || (w.cont == 0 && w.done == 1 && Done(w.place) && t.a + used == t.c))
  }

  /** Not stopped yet, while others are: it may finish its job, but nothing new comes. */
  predicate Draining(w: Worker) {
    !w.pill && w.cont == 0 && (Done(w.place) || w.place.Spinning?)
  }

  /** Being stopped: the pill is in the pipe before the worker reads it. */
  predicate Dying(w: Worker) {
    || w.place == Exited
    || (w.pill && w.cont == 1 && (Done(w.place) || w.place.Spinning?))
    || (w.pill && w.cont == 0 && w.place == Reading)
  }

  ghost predicate WorkerInv(alg: Alg, s: System, i: nat)
    requires Sized(s) && i < |s.workers|
  {
    var t, k, w := s.run.tasks[i], s.run.done[i], s.workers[i];
    match s.phase
    case Deciding => AtRest(t, k, w)
    case Blocked(h, used) => if i == h then Serving(alg, t, k, w, used) else AtRest(t, k, w)
    case Stopping(j) => if i < j then w.place == Exited else Draining(w)
    case Poisoned(j) => if i < j then w.place == Exited else if i == j then w.pill && Draining(w.(pill := false)) else Draining(w)
    case Joining(j) => if i < j then w.place == Exited else if i == j then Dying(w) else Draining(w)
    case Halted => w.place == Exited
  }

  ghost predicate Inv(alg: Alg, ts: seq<Task>, s: System) {
    && Books(alg, ts, s.run)
    && Sized(s) && |s.workers| == |ts|
    && (s.phase.Blocked? ==> Check(alg, s.run.tasks) && !Idle(s.run.tasks) && s.phase.h == Head(alg, s.run.tasks))
    && forall i :: 0 <= i < |ts| ==> WorkerInv(alg, s, i)
  }

  lemma CostsArePositive(alg: Alg, ts: seq<Task>, s: System)
    requires TaskSet(ts) && Inv(alg, ts, s)
    ensures forall i :: 0 <= i < |s.run.tasks| ==> s.run.tasks[i].c > 0
  {
    forall i | 0 <= i < |ts|
      ensures s.run.tasks[i].c > 0
    {
      assert TaskBooks(alg, ts[i], s.run.tasks[i], s.run.done[i], s.run.now);
    }
  }

  lemma BeginInv(alg: Alg, ts: seq<Task>)
    requires TaskSet(ts)
    ensures Inv(alg, ts, Begin(ts))
  {
    StartBooks(alg, ts);
    forall i | 0 <= i < |ts|
      ensures WorkerInv(alg, Begin(ts), i)
    {
      assert ts[i].WellFormed();
    }
  }

  lemma NoPartialJobs(alg: Alg, ts: seq<Task>, s: System)
    requires Inv(alg, ts, s) && alg == RMA
    ensures forall i :: 0 <= i < |ts| ==> s.run.tasks[i].a == 0
  {
    forall i | 0 <= i < |ts|
      ensures s.run.tasks[i].a == 0
    {
      assert TaskBooks(alg, ts[i], s.run.tasks[i], s.run.done[i], s.run.now);
    }
  }

  lemma WorkerMoves(alg: Alg, s: System, act: Action, i: nat)
    requires Sized(s) && OfWorker(act) && i == act.i && Enabled(alg, s, act)
    requires forall j :: 0 <= j < |s.run.tasks| ==> s.run.tasks[j].c >= 0
    requires WorkerInv(alg, s, i) && (alg == RMA ==> s.run.tasks[i].a == 0)
    ensures Sized(Do(alg, s, act)) && WorkerInv(alg, Do(alg, s, act), i)
  {
  }

  lemma OthersStay(alg: Alg, s: System, act: Action, i: nat)
    requires Sized(s) && OfWorker(act) && i != act.i && i < |s.workers| && Enabled(alg, s, act)
    requires forall j :: 0 <= j < |s.run.tasks| ==> s.run.tasks[j].c >= 0
    requires WorkerInv(alg, s, i)
    ensures Sized(Do(alg, s, act)) && WorkerInv(alg, Do(alg, s, act), i)
  {
  }

  /** A worker's micro-step keeps every worker in order, whatever the phase. */
  lemma WorkerStepInv(alg: Alg, ts: seq<Task>, s: System, act: Action)
    requires TaskSet(ts) && Inv(alg, ts, s) && OfWorker(act) && Enabled(alg, s, act)
    requires forall j :: 0 <= j < |s.run.tasks| ==> s.run.tasks[j].c >= 0
    ensures Sized(Do(alg, s, act)) && Inv(alg, ts, Do(alg, s, act))
  {
    hide Books, TaskSet, Check, Idle, Head, AtRest, Serving, Draining, Dying, WorkerInv;
    if alg == RMA {
      NoPartialJobs(alg, ts, s);
    }
    forall j | 0 <= j < |ts|
      ensures WorkerInv(alg, Do(alg, s, act), j)
    {
      if j == act.i {
        WorkerMoves(alg, s, act, j);
      } else {
        OthersStay(alg, s, act, j);
      }
    }
  }

  /** Skip, Resume and Preempt advance the engine; Resume only after all of the job, Preempt only before. */
  lemma ReturnInv(alg: Alg, ts: seq<Task>, s: System, act: Action)
    requires TaskSet(ts) && Inv(alg, ts, s) && s.phase.Blocked?
    requires forall j :: 0 <= j < |s.run.tasks| ==> s.run.tasks[j].c >= 0
    requires (act == Resume || act == Preempt) && Enabled(alg, s, act)
    ensures Sized(Do(alg, s, act)) && Inv(alg, ts, Do(alg, s, act))
    ensures Do(alg, s, act).run == Advance(alg, s.run)
  {
    var h, s' := s.phase.h, Do(alg, s, act);
    GrantKeepsBooks(alg, ts, s.run, h);
    hide Books, TaskSet, Check, AtRest, Serving, Charged, Wait, Delta;
    forall j | 0 <= j < |ts|
      ensures WorkerInv(alg, s', j)
    {
      assert WorkerInv(alg, s, j);
      if j == h {
        ServedJob(alg, s.run.tasks[h], s.run.done[h], s.workers[h], s.phase.used, act == Resume);
      } else {
        StaysAtRest(s.run.tasks[j], s.run.done[j], s.workers[j], Delta(alg, s.run.tasks[h]));
      }
    }
  }

  lemma StaysAtRest(t: Task, k: nat, w: Worker, delta: int)
    requires AtRest(t, k, w)
    ensures AtRest(Wait(t, delta), k, w)
  {
  }

  lemma ServedJob(alg: Alg, t: Task, k: nat, w: Worker, used: nat, finished: bool)
    requires Serving(alg, t, k, w, used) && (alg == RMA ==> t.a == 0)
    requires finished ==> w.done > 0
    requires !finished ==> alg != RMA && used == 1 && w.done == 0 && w.place != Spinning(0)
    ensures finished == Finishes(alg, t)
    ensures AtRest(Charged(alg, t), if finished then k + 1 else k, if finished then w.(done := w.done - 1) else w)
  {
    assert (k + 1) * t.c == k * t.c + t.c;
  }

  lemma SkipInv(alg: Alg, ts: seq<Task>, s: System)
    requires TaskSet(ts) && Inv(alg, ts, s) && Enabled(alg, s, Skip)
    requires forall j :: 0 <= j < |s.run.tasks| ==> s.run.tasks[j].c >= 0
    ensures Inv(alg, ts, Do(alg, s, Skip)) && Do(alg, s, Skip).run == Advance(alg, s.run)
  {
    RestKeepsBooks(alg, ts, s.run);
    hide Books, TaskSet, Check;
    forall j | 0 <= j < |ts|
      ensures WorkerInv(alg, Do(alg, s, Skip), j)
    {
      assert WorkerInv(alg, s, j);
    }
  }

  lemma Dispatched(alg: Alg, t: Task, k: nat, w: Worker)
    requires AtRest(t, k, w)
    ensures Serving(alg, t, k, if t.AlreadyExecuting() then w else w.(cont := w.cont + 1, released := w.released + 1), 0)
  {
  }

  lemma DispatchInv(alg: Alg, ts: seq<Task>, s: System)
    requires TaskSet(ts) && Inv(alg, ts, s) && Enabled(alg, s, Dispatch)
    requires forall j :: 0 <= j < |s.run.tasks| ==> s.run.tasks[j].c > 0
    ensures Sized(Do(alg, s, Dispatch)) && Inv(alg, ts, Do(alg, s, Dispatch))
  {
    hide Books, TaskSet, Check, AtRest, Serving, Idle, Head;
    var h := Head(alg, s.run.tasks);
    forall j | 0 <= j < |ts|
      ensures WorkerInv(alg, Do(alg, s, Dispatch), j)
    {
      assert WorkerInv(alg, s, j);
      if j == h {
        Dispatched(alg, s.run.tasks[j], s.run.done[j], s.workers[j]);
      }
    }
  }

  lemma HaltInv(alg: Alg, ts: seq<Task>, s: System, act: Action)
    requires TaskSet(ts) && Inv(alg, ts, s) && Enabled(alg, s, act)
    requires forall j :: 0 <= j < |s.run.tasks| ==> s.run.tasks[j].c >= 0
    requires act == Stop || act == Poison || act == Wake || act == Join || act == Finish
    ensures Sized(Do(alg, s, act)) && Inv(alg, ts, Do(alg, s, act))
  {
    hide Books, TaskSet, Check;
    forall j | 0 <= j < |ts|
      ensures WorkerInv(alg, Do(alg, s, act), j)
    {
      assert WorkerInv(alg, s, j);
    }
  }

  /** Every action of the scheduler or a worker keeps the invariant, and moves the engine only as the engine would. */
  lemma ActionInv(alg: Alg, ts: seq<Task>, s: System, act: Action)
    requires TaskSet(ts) && Inv(alg, ts, s) && Enabled(alg, s, act)
    ensures forall j :: 0 <= j < |s.run.tasks| ==> s.run.tasks[j].c > 0
    ensures Sized(Do(alg, s, act)) && Inv(alg, ts, Do(alg, s, act))
    ensures Do(alg, s, act).run == if CompletesRound(act) then Advance(alg, s.run) else s.run
  {
    hide Books, TaskSet, WorkerInv, Advance, Check, Idle, Head;
    CostsArePositive(alg, ts, s);
    match act
    case Skip => SkipInv(alg, ts, s);
    case Dispatch => DispatchInv(alg, ts, s);
    case Resume => ReturnInv(alg, ts, s, act);
    case Preempt => ReturnInv(alg, ts, s, act);
    case Take(i) => WorkerStepInv(alg, ts, s, act);
    case Read(i) => WorkerStepInv(alg, ts, s, act);
    case Spin(i) => WorkerStepInv(alg, ts, s, act);
    case Post(i) => WorkerStepInv(alg, ts, s, act);
    case Return(i) => WorkerStepInv(alg, ts, s, act);
    case _ => HaltInv(alg, ts, s, act);
  }

  // ---------- whole executions ----------

  /** A sequence of enabled actions from the beginning, with the states between them. */
  ghost predicate Execution(alg: Alg, ts: seq<Task>, states: seq<System>, acts: seq<Action>) {
    && |states| == |acts| + 1 && states[0] == Begin(ts)
    && forall m :: 0 <= m < |acts| ==> Moves(alg, states[m], acts[m], states[m + 1])
  }

  ghost predicate Moves(alg: Alg, s: System, act: Action, s': System) {
    && Sized(s) && Enabled(alg, s, act)
    && (forall i :: 0 <= i < |s.run.tasks| ==> s.run.tasks[i].c >= 0)
    && s' == Do(alg, s, act)
  }

  /** How many of the first m actions completed an al_run. */
  function Advances(acts: seq<Action>, m: nat): nat
    requires m <= |acts|
  {
    if m == 0 then 0
    else Advances(acts, m - 1) + if CompletesRound(acts[m - 1]) then 1 else 0
  }

  /** One action, seen from the run of the engine. */
  lemma ActionRefines(alg: Alg, ts: seq<Task>, s: System, act: Action, s': System, n: nat)
    requires TaskSet(ts) && Inv(alg, ts, s) && Moves(alg, s, act, s') && s.run == At(alg, ts, n)
    ensures Inv(alg, ts, s')
    ensures s'.run == At(alg, ts, if CompletesRound(act) then n + 1 else n)
  {
    hide Inv, Do, At, TaskSet, Enabled, Sized, Advance;
    ActionInv(alg, ts, s, act);
    NextState(alg, ts, n);
  }

  /**
   Whatever the interleaving, the invariant holds in every state, and the tasks are in the state
   the engine alone reaches after as many steps.
   */
  lemma {:induction false} ExecutionRefinesRun(alg: Alg, ts: seq<Task>, states: seq<System>, acts: seq<Action>, m: nat)
    requires TaskSet(ts) && Execution(alg, ts, states, acts) && m <= |acts|
    ensures Inv(alg, ts, states[m])
    ensures states[m].run == At(alg, ts, Advances(acts, m))
  {
    hide Inv, At, TaskSet, Moves;
    if m == 0 {
      BeginInv(alg, ts);
      StartsAtZero(alg, ts);
    } else {
      ExecutionRefinesRun(alg, ts, states, acts, m - 1);
      assert Moves(alg, states[m - 1], acts[m - 1], states[m - 1 + 1]);
      ActionRefines(alg, ts, states[m - 1], acts[m - 1], states[m], Advances(acts, m - 1));
    }
  }

  /** The tokens of a worker: a posted sem_cont, a job under way, a posted sem_done. */
  function Tokens(w: Worker): int {
    w.cont + w.done + if w.place == Reading || w.place.Spinning? then 1 else 0
  }

  function AllTokens(s: System): seq<int> {
    seq(|s.workers|, i requires 0 <= i < |s.workers| => Tokens(s.workers[i]))
  }

  lemma WorkerTokens(s: System, i: nat)
    requires Sized(s) && i < |s.workers| && WorkerInv(RMA, s, i) && s.run.tasks[i].a == 0
    requires s.phase == Deciding || s.phase.Blocked?
    ensures Tokens(s.workers[i]) == if s.phase.Blocked? && i == s.phase.h then 1 else 0
  {
  }

  lemma TokensOfState(ts: seq<Task>, s: System)
    requires Inv(RMA, ts, s)
    requires s.phase == Deciding || s.phase.Blocked?
    ensures Sum(AllTokens(s)) == if s.phase.Blocked? then 1 else 0
  {
    hide Books, WorkerInv, Idle, Head;
    NoPartialJobs(RMA, ts, s);
    var zeros := seq(|s.workers|, _ => 0);
    SumZero(zeros);
    forall i | 0 <= i < |ts|
      ensures AllTokens(s)[i] == if s.phase.Blocked? && i == s.phase.h then 1 else 0
    {
      WorkerTokens(s, i);
    }
    if s.phase.Blocked? {
      SumUpdate(zeros, s.phase.h, 1);
      assert AllTokens(s) == zeros[s.phase.h := 1];
    } else {
      assert AllTokens(s) == zeros;
    }
  }

  /** RMA: while testing there is one token in the whole system if the scheduler is blocked, and none otherwise. */
  lemma OneToken(ts: seq<Task>, states: seq<System>, acts: seq<Action>, m: nat)
    requires TaskSet(ts) && Execution(RMA, ts, states, acts) && m <= |acts|
    requires states[m].phase == Deciding || states[m].phase.Blocked?
    ensures Sum(AllTokens(states[m])) == if states[m].phase.Blocked? then 1 else 0
  {
    hide Inv, At, TaskSet, AllTokens;
    ExecutionRefinesRun(RMA, ts, states, acts, m);
    TokensOfState(ts, states[m]);
  }

  /** The worker has spun what the engine has charged, is in its job just when a > 0, and has no token outstanding. */
  predicate Settled(s: System, i: nat)
    requires Sized(s) && i < |s.workers|
  {
    var t, k, w := s.run.tasks[i], s.run.done[i], s.workers[i];
    && w.cont == 0 && w.done == 0
    && w.spun == Work(s.run)[i]
    && (w.place.Spinning? <==> t.a > 0)
    && (w.place.Spinning? ==> w.place.left == t.CompletionTime())
    && w.released == k + if t.a > 0 then 1 else 0
  }

  lemma RestIsSettled(alg: Alg, ts: seq<Task>, s: System, i: nat)
    requires Inv(alg, ts, s) && s.phase == Deciding && i < |ts|
    ensures Settled(s, i)
  {
    assert WorkerInv(alg, s, i);
  }

  /**
   Between steps of any algorithm and under any interleaving: no token has leaked, each worker has spun
   exactly the quanta the engine has charged, it is mid-job with c - a quanta left just when a > 0, and
   sem_cont has been posted once for each job begun.
   */
  lemma ChargedIsSpun(alg: Alg, ts: seq<Task>, states: seq<System>, acts: seq<Action>, m: nat, i: nat)
    requires TaskSet(ts) && Execution(alg, ts, states, acts) && m <= |acts|
    requires states[m].phase == Deciding && i < |ts|
    ensures Sized(states[m]) && i < |states[m].workers| && Settled(states[m], i)
  {
    hide At, TaskSet, WorkerInv, Settled;
    ExecutionRefinesRun(alg, ts, states, acts, m);
    RestIsSettled(alg, ts, states[m], i);
  }

  function Spun(s: System): seq<int> {
    seq(|s.workers|, i requires 0 <= i < |s.workers| => s.workers[i].spun)
  }

  lemma SpunIsWork(alg: Alg, ts: seq<Task>, s: System)
    requires Inv(alg, ts, s) && s.phase == Deciding
    ensures Sum(Spun(s)) + s.run.idle == s.run.now
  {
    hide WorkerInv;
    forall i | 0 <= i < |ts|
      ensures Spun(s)[i] == Work(s.run)[i]
    {
      RestIsSettled(alg, ts, s, i);
    }
    assert Spun(s) == Work(s.run);
  }

  /** So the processor's time is accounted for: what the workers have spun, and idling. */
  lemma SpunPlusIdleIsTime(alg: Alg, ts: seq<Task>, states: seq<System>, acts: seq<Action>, m: nat)
    requires TaskSet(ts) && Execution(alg, ts, states, acts) && m <= |acts| && states[m].phase == Deciding
    ensures Sum(Spun(states[m])) + states[m].run.idle == states[m].run.now
  {
    hide Inv, At, TaskSet;
    ExecutionRefinesRun(alg, ts, states, acts, m);
    SpunIsWork(alg, ts, states[m]);
  }

  // ---------- progress ----------

  /** Micro-steps a worker can still make before it waits for another token. */
  function Effort(t: Task, w: Worker): int {
    w.cont * (t.c + 5) +
    match w.place
    case Waiting => 0
    case Reading => t.c + 4
    case Spinning(left) => left + 3
    case Returning => 1
    case Exited => 0
  }

  lemma WorkerStepIsEffort(alg: Alg, s: System, act: Action)
    requires Sized(s) && OfWorker(act) && Enabled(alg, s, act)
    requires forall j :: 0 <= j < |s.run.tasks| ==> s.run.tasks[j].c >= 0
    ensures Do(alg, s, act).run == s.run && |Do(alg, s, act).workers| == |s.workers|
    ensures Effort(s.run.tasks[act.i], Do(alg, s, act).workers[act.i]) < Effort(s.run.tasks[act.i], s.workers[act.i])
    ensures forall j :: 0 <= j < |s.workers| && j != act.i ==> Do(alg, s, act).workers[j] == s.workers[j]
  {
    var t, w := s.run.tasks[act.i], s.workers[act.i];
    if act.Take? {
      assert (w.cont - 1) * (t.c + 5) == w.cont * (t.c + 5) - (t.c + 5);
    }
  }

  /** The scheduler is never blocked for good: it, or its head's worker, can always act. */
  lemma BlockedIsLive(alg: Alg, ts: seq<Task>, s: System) returns (act: Action)
    requires TaskSet(ts) && Inv(alg, ts, s) && s.phase.Blocked?
    ensures Enabled(alg, s, act)
    ensures act == Resume || act == Preempt || (OfWorker(act) && act.i == s.phase.h)
  {
    var h, used := s.phase.h, s.phase.used;
    assert WorkerInv(alg, s, h);
    var w := s.workers[h];
    if w.done > 0 {
      act := Resume;
    } else if w.place == Returning {
      act := Return(h);
    } else if w.place == Waiting {
      act := Take(h);
    } else if w.place == Reading {
      act := Read(h);
    } else if w.place == Spinning(0) {
      act := Post(h);
    } else if alg == RMA || used < 1 {
      act := Spin(h);
    } else {
      act := Preempt;
    }
  }

  function Efforts(s: System): (e: seq<int>)
    requires Sized(s)
    ensures |e| == |s.workers|
    ensures forall i :: 0 <= i < |e| ==> e[i] == Effort(s.run.tasks[i], s.workers[i])
  {
    seq(|s.workers|, i requires 0 <= i < |s.workers| => Effort(s.run.tasks[i], s.workers[i]))
  }

  lemma EffortIsNatural(t: Task, w: Worker)
    requires t.c >= 0
    ensures Effort(t, w) >= 0
  {
  }

  lemma EffortsAreNatural(s: System)
    requires Sized(s)
    requires forall j :: 0 <= j < |s.run.tasks| ==> s.run.tasks[j].c >= 0
    ensures Sum(Efforts(s)) >= 0
  {
    forall i | 0 <= i < |s.workers|
      ensures Efforts(s)[i] >= 0
    {
      EffortIsNatural(s.run.tasks[i], s.workers[i]);
    }
    SumAtLeast(Efforts(s));
  }

  /** A worker's action uses up effort. */
  lemma WorkerStepSpends(alg: Alg, s: System, act: Action)
    requires Sized(s) && OfWorker(act) && Enabled(alg, s, act)
    requires forall j :: 0 <= j < |s.run.tasks| ==> s.run.tasks[j].c >= 0
    ensures Sized(Do(alg, s, act)) && Sum(Efforts(Do(alg, s, act))) < Sum(Efforts(s))
  {
    WorkerStepIsEffort(alg, s, act);
    SumLt(Efforts(Do(alg, s, act)), Efforts(s), act.i);
  }

  /** s' is s with some worker further on. */
  predicate StillBlocked(s: System, s': System) {
    s.phase.Blocked? && s'.phase.Blocked? && s'.phase.h == s.phase.h && s'.run == s.run
  }

  /** While the scheduler is blocked the other workers can at most go back to their sem_wait. */
  lemma OnlyHeadWorks(alg: Alg, ts: seq<Task>, s: System, act: Action)
    requires Inv(alg, ts, s) && s.phase.Blocked? && OfWorker(act) && Enabled(alg, s, act)
    ensures act.i == s.phase.h || act.Return?
  {
    if alg == RMA {
      NoPartialJobs(alg, ts, s);
    }
    assert WorkerInv(alg, s, act.i);
  }

  /** What can still happen before al_block returns: the head's micro-steps, and the way back to sem_wait of others. */
  function BlockEfforts(s: System): (e: seq<int>)
    requires Sized(s) && s.phase.Blocked?
    ensures |e| == |s.workers|
    ensures forall i :: 0 <= i < |e| ==>
              e[i] == if i == s.phase.h then Effort(s.run.tasks[i], s.workers[i])
                      else if s.workers[i].place == Returning then 1 else 0
  {
    seq(|s.workers|, i requires 0 <= i < |s.workers| =>
      if i == s.phase.h then Effort(s.run.tasks[i], s.workers[i]) else if s.workers[i].place == Returning then 1 else 0)
  }

  lemma BlockEffortsAreNatural(s: System)
    requires Sized(s) && s.phase.Blocked?
    requires forall j :: 0 <= j < |s.run.tasks| ==> s.run.tasks[j].c >= 0
    ensures Sum(BlockEfforts(s)) >= 0
  {
    EffortIsNatural(s.run.tasks[s.phase.h], s.workers[s.phase.h]);
    SumAtLeast(BlockEfforts(s));
  }

  lemma BlockedStepSpends(alg: Alg, s: System, act: Action)
    requires Sized(s) && s.phase.Blocked? && OfWorker(act) && Enabled(alg, s, act)
    requires act.i == s.phase.h || act.Return?
    requires forall j :: 0 <= j < |s.run.tasks| ==> s.run.tasks[j].c >= 0
    ensures Sized(Do(alg, s, act)) && StillBlocked(s, Do(alg, s, act))
    ensures Sum(BlockEfforts(Do(alg, s, act))) < Sum(BlockEfforts(s))
  {
    WorkerStepIsEffort(alg, s, act);
    SumLt(BlockEfforts(Do(alg, s, act)), BlockEfforts(s), act.i);
  }

  /** Until al_block returns, every action uses up effort, and all of it but the way back to sem_wait is the head's. */
  lemma BlockEnds(alg: Alg, ts: seq<Task>, s: System, act: Action, s': System)
    requires TaskSet(ts) && Inv(alg, ts, s) && s.phase.Blocked? && Moves(alg, s, act, s')
    ensures Sized(s')
    ensures || (CompletesRound(act) && s'.phase == Deciding && s'.run == Advance(alg, s.run))
            || (!CompletesRound(act) && StillBlocked(s, s') && (act.Return? || act.i == s.phase.h)
                && 0 <= Sum(BlockEfforts(s')) < Sum(BlockEfforts(s)))
  {
    CostsArePositive(alg, ts, s);
    ActionInv(alg, ts, s, act);
    if OfWorker(act) {
      OnlyHeadWorks(alg, ts, s, act);
      BlockedStepSpends(alg, s, act);
      BlockEffortsAreNatural(s');
    }
  }

  /**
   The scheduler is not blocked for long: within as many actions as there is effort left, and one more,
   al_block returns and the engine has made its step, unless the execution is cut off before that with an
   action still possible.
   */
  lemma {:induction false} BlockReturns(alg: Alg, ts: seq<Task>, states: seq<System>, acts: seq<Action>, m: nat) returns (n: nat)
    requires TaskSet(ts) && Execution(alg, ts, states, acts) && m <= |acts|
    requires states[m].phase.Blocked?
    ensures Sized(states[m]) && m <= n <= |acts| && n - m <= Sum(BlockEfforts(states[m])) + 1
    ensures forall j :: m <= j < n ==> StillBlocked(states[m], states[j])
    ensures || (states[n].phase == Deciding && states[n].run == Advance(alg, states[m].run))
            || (n == |acts| && Sized(states[n]) && StillBlocked(states[m], states[n])
                && exists act :: Enabled(alg, states[n], act))
    decreases |acts| - m
  {
    ExecutionRefinesRun(alg, ts, states, acts, m);
    hide Inv, Do, At, TaskSet, Enabled, Sized, BlockEfforts, Sum;
    InvIsSized(alg, ts, states[m]);
    InvEfforts(alg, ts, states[m]);
    if m == |acts| {
      n := m;
      var act := BlockedIsLive(alg, ts, states[m]);
    } else {
      assert Moves(alg, states[m], acts[m], states[m + 1]);
      BlockEnds(alg, ts, states[m], acts[m], states[m + 1]);
      if states[m + 1].phase.Blocked? {
        n := BlockReturns(alg, ts, states, acts, m + 1);
      } else {
        n := m + 1;
      }
    }
  }

  lemma InvEfforts(alg: Alg, ts: seq<Task>, s: System)
    requires TaskSet(ts) && Inv(alg, ts, s) && Sized(s) && s.phase.Blocked?
    ensures Sum(BlockEfforts(s)) >= 0
  {
    CostsArePositive(alg, ts, s);
    BlockEffortsAreNatural(s);
  }

  lemma InvIsSized(alg: Alg, ts: seq<Task>, s: System)
    requires Inv(alg, ts, s)
    ensures Sized(s)
  {
  }

  // ---------- stopping ----------

  predicate Ending(phase: Phase) {
    phase.Stopping? || phase.Poisoned? || phase.Joining? || phase.Halted?
  }

  /** What the scheduler still has to do for the tasks from i on: poison and join each, and let it wind up. */
  function StopCost(v: seq<Task>, i: nat): int
    decreases |v| - i
  {
    if i >= |v| then 1 else v[i].c + 8 + StopCost(v, i + 1)
  }

  function PhaseCost(s: System): int {
    match s.phase
    case Stopping(i) => StopCost(s.run.tasks, i)
    case Poisoned(i) => StopCost(s.run.tasks, i) - 1
    case Joining(i) => StopCost(s.run.tasks, i + 1) + 1
    case _ => 0
  }

  function Remaining(s: System): int
    requires Sized(s)
  {
    Sum(Efforts(s)) + PhaseCost(s)
  }

  lemma {:induction false} StopCostIsPositive(v: seq<Task>, i: nat)
    requires forall j :: 0 <= j < |v| ==> v[j].c >= 0
    ensures StopCost(v, i) >= 1
    decreases |v| - i
  {
    if i < |v| {
      StopCostIsPositive(v, i + 1);
    }
  }

  lemma PhaseCostIsNatural(s: System)
    requires forall j :: 0 <= j < |s.run.tasks| ==> s.run.tasks[j].c >= 0
    ensures PhaseCost(s) >= 0
  {
    match s.phase
    case Stopping(i) => StopCostIsPositive(s.run.tasks, i);
    case Poisoned(i) => StopCostIsPositive(s.run.tasks, i);
    case Joining(i) => StopCostIsPositive(s.run.tasks, i + 1);
    case _ =>
  }

  lemma WorkerStepNearsEnd(alg: Alg, s: System, act: Action)
    requires Sized(s) && Ending(s.phase) && OfWorker(act) && Enabled(alg, s, act)
    requires forall j :: 0 <= j < |s.run.tasks| ==> s.run.tasks[j].c >= 0
    ensures Sized(Do(alg, s, act)) && Do(alg, s, act).phase == s.phase
    ensures Remaining(Do(alg, s, act)) < Remaining(s)
  {
    WorkerStepSpends(alg, s, act);
  }

  lemma PoisonNearsEnd(alg: Alg, s: System)
    requires Sized(s) && Enabled(alg, s, Poison)
    requires forall j :: 0 <= j < |s.run.tasks| ==> s.run.tasks[j].c >= 0
    ensures Sized(Do(alg, s, Poison)) && Do(alg, s, Poison).phase == Poisoned(s.phase.next)
    ensures Remaining(Do(alg, s, Poison)) < Remaining(s)
  {
    assert Efforts(Do(alg, s, Poison)) == Efforts(s);
  }

  lemma WakeNearsEnd(alg: Alg, s: System)
    requires Sized(s) && Enabled(alg, s, Wake)
    requires forall j :: 0 <= j < |s.run.tasks| ==> s.run.tasks[j].c >= 0
    ensures Sized(Do(alg, s, Wake)) && Do(alg, s, Wake).phase == Joining(s.phase.i)
    ensures Remaining(Do(alg, s, Wake)) < Remaining(s)
  {
    var s', i := Do(alg, s, Wake), s.phase.i;
    var e, more := Efforts(s), s.run.tasks[i].c + 5;
    assert (s.workers[i].cont + 1) * more == s.workers[i].cont * more + more;
    assert Efforts(s') == e[i := e[i] + more];
    SumUpdate(e, i, e[i] + more);
  }

  lemma JoinNearsEnd(alg: Alg, s: System, act: Action)
    requires Sized(s) && Enabled(alg, s, act) && (act == Join || act == Finish)
    requires forall j :: 0 <= j < |s.run.tasks| ==> s.run.tasks[j].c >= 0
    ensures Sized(Do(alg, s, act)) && Ending(Do(alg, s, act).phase)
    ensures Remaining(Do(alg, s, act)) < Remaining(s)
  {
    assert Efforts(Do(alg, s, act)) == Efforts(s);
  }

  /** Once stopping, every action, of whichever thread, brings the end nearer. */
  lemma StoppingNearsEnd(alg: Alg, s: System, act: Action)
    requires Sized(s) && Ending(s.phase) && Enabled(alg, s, act)
    requires forall j :: 0 <= j < |s.run.tasks| ==> s.run.tasks[j].c >= 0
    ensures Sized(Do(alg, s, act)) && Ending(Do(alg, s, act).phase)
    ensures Remaining(Do(alg, s, act)) < Remaining(s)
  {
    hide Remaining, Do;
    if OfWorker(act) {
      WorkerStepNearsEnd(alg, s, act);
    } else if act == Poison {
      PoisonNearsEnd(alg, s);
    } else if act == Wake {
      WakeNearsEnd(alg, s);
    } else {
      JoinNearsEnd(alg, s, act);
    }
  }

  /** So no execution goes on for longer than that after run_test_on has begun to halt. */
  lemma {:induction false} StoppingIsBounded(alg: Alg, ts: seq<Task>, states: seq<System>, acts: seq<Action>, m: nat)
    requires TaskSet(ts) && Execution(alg, ts, states, acts) && m <= |acts|
    requires Ending(states[m].phase)
    ensures Sized(states[m]) && |acts| - m <= Remaining(states[m])
    decreases |acts| - m
  {
    ExecutionRefinesRun(alg, ts, states, acts, m);
    CostsArePositive(alg, ts, states[m]);
    hide Inv, Do, TaskSet, Enabled, Ending, Sized, Remaining;
    if m < |acts| {
      assert Moves(alg, states[m], acts[m], states[m + 1]);
      StoppingNearsEnd(alg, states[m], acts[m]);
      StoppingIsBounded(alg, ts, states, acts, m + 1);
    } else {
      RemainingIsNatural(states[m]);
    }
  }

  lemma RemainingIsNatural(s: System)
    requires Sized(s)
    requires forall j :: 0 <= j < |s.run.tasks| ==> s.run.tasks[j].c >= 0
    ensures Remaining(s) >= 0
  {
    EffortsAreNatural(s);
    PhaseCostIsNatural(s);
  }

  /** Until everything has halted some action is possible: every worker gets to its pill, and each join returns. */
  lemma StoppingIsLive(alg: Alg, ts: seq<Task>, s: System) returns (act: Action)
    requires TaskSet(ts) && Inv(alg, ts, s) && Ending(s.phase) && s.phase != Halted
    ensures Enabled(alg, s, act)
  {
    if s.phase.Stopping? {
      act := if s.phase.next < |s.workers| then Poison else Finish;
    } else if s.phase.Poisoned? {
      act := Wake;
    } else {
      var i := s.phase.i;
      assert WorkerInv(alg, s, i);
      var w := s.workers[i];
      match w.place
      case Exited => act := Join;
      case Reading => act := Read(i);
      case Waiting => act := Take(i);
      case Returning => act := Return(i);
      case Spinning(left) => act := if left == 0 then Post(i) else Spin(i);
    }
  }

  /** At the end every worker is gone. */
  lemma HaltedIsOver(alg: Alg, ts: seq<Task>, states: seq<System>, acts: seq<Action>, m: nat, i: nat)
    requires TaskSet(ts) && Execution(alg, ts, states, acts) && m <= |acts|
    requires states[m].phase == Halted && i < |ts|
    ensures i < |states[m].workers| && states[m].workers[i].place == Exited
  {
    hide At, TaskSet;
    ExecutionRefinesRun(alg, ts, states, acts, m);
    assert WorkerInv(alg, states[m], i);
  }

  /** Some action is always possible, until everything has halted. */
  lemma AlwaysLive(alg: Alg, ts: seq<Task>, s: System) returns (act: Action)
    requires TaskSet(ts) && Inv(alg, ts, s) && s.phase != Halted
    ensures Enabled(alg, s, act)
  {
    if s.phase.Deciding? {
      act := Stop;
    } else if s.phase.Blocked? {
      act := BlockedIsLive(alg, ts, s);
    } else {
      act := StoppingIsLive(alg, ts, s);
    }
  }

  /** An execution that cannot go on has halted, with every worker gone. */
  lemma StoppingEnds(alg: Alg, ts: seq<Task>, states: seq<System>, acts: seq<Action>)
    requires TaskSet(ts) && Execution(alg, ts, states, acts)
    requires forall act :: !(Sized(states[|acts|]) && Enabled(alg, states[|acts|], act))
    ensures states[|acts|].phase == Halted && |states[|acts|].workers| == |ts|
    ensures forall i :: 0 <= i < |ts| ==> states[|acts|].workers[i].place == Exited
  {
    var s := states[|acts|];
    ExecutionRefinesRun(alg, ts, states, acts, |acts|);
    hide At, TaskSet, Enabled;
    if s.phase != Halted {
      var act := AlwaysLive(alg, ts, s);
    }
    forall i | 0 <= i < |ts|
      ensures s.workers[i].place == Exited
    {
      assert WorkerInv(alg, s, i);
    }
  }

  // ---------- priorities ----------

  lemma IdleWorker(alg: Alg, ts: seq<Task>, s: System, j: nat)
    requires Inv(alg, ts, s) && s.phase.Blocked? && j < |ts| && j != s.phase.h && !Ready(s.run.tasks[j])
    ensures Done(s.workers[j].place) && s.workers[j].cont == 0
  {
    assert WorkerInv(alg, s, j);
    assert TaskBooks(alg, ts[j], s.run.tasks[j], s.run.done[j], s.run.now);
  }

  lemma SharerHasNoJob(alg: Alg, ts: seq<Task>, s: System, n: nat, j: nat)
    requires Inv(alg, ts, s) && s.phase.Blocked? && s.run == At(alg, ts, n)
    requires s.phase.h < |ts| && j < |ts| && j != s.phase.h
    requires Prios(alg, ts, n + 1)[j] >= Prios(alg, ts, n + 1)[s.phase.h]
    ensures j < |s.workers| && Done(s.workers[j].place) && s.workers[j].cont == 0
  {
    hide At, Prios, Done, Head, Idle, Books, WorkerInv, Ready;
    HeadHasTopPrio(alg, ts, n, j);
    IdleWorker(alg, ts, s, j);
  }

  /**
   Other threads can have the head's priority while the scheduler is blocked, but such a thread has no job
   to compete with: it is in sem_wait, or about to go there, with nothing posted.
   */
  lemma SharersHaveNoJob(alg: Alg, ts: seq<Task>, states: seq<System>, acts: seq<Action>, m: nat, j: nat)
    requires TaskSet(ts) && Execution(alg, ts, states, acts) && m <= |acts|
    requires states[m].phase.Blocked? && states[m].phase.h < |ts| && j < |ts| && j != states[m].phase.h
    requires var pr := Prios(alg, ts, Advances(acts, m) + 1); pr[j] >= pr[states[m].phase.h]
    ensures j < |states[m].workers| && Done(states[m].workers[j].place) && states[m].workers[j].cont == 0
  {
    hide Inv, At, TaskSet, Prios, Done, Moves;
    ExecutionRefinesRun(alg, ts, states, acts, m);
    SharerHasNoJob(alg, ts, states[m], Advances(acts, m), j);
  }
}
