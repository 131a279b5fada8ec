/** The threads of the daemon as a step machine: the priority manager's loop, the
    Terminator's loop and the finalising main thread, over two mutexes with
    condition variables, two stop flags and the Terminator's VM pool
    (`Manager.h`, `pm_loop`, `tm_loop`, `kill_running`, `kill_pending`). */
module Protocol {
  import opened Wrappers

  /** What an early return after a failed fetch does with the mutex: keep it, as the
      code is written, or release it, as its comments intend. */
  datatype Discipline = AsWritten | Intended

  /** The two managers; each has a mutex, a condition and a stop flag of its own.
      The Terminator's mutex also guards its pool. */
  datatype Worker = PM | TM

  datatype Pair<T> = Pair(pm: T, tm: T)
  {
    function Get(w: Worker): T {
      if w.PM? then pm else tm
    }

    function Set(w: Worker, v: T): Pair<T> {
      if w.PM? then Pair(v, tm) else Pair(pm, v)
    }
  }

  datatype Thread = Work(w: Worker) | Main

  datatype Mutex = Free | Held(owner: Thread)

  /** Where a worker stands; `left` counts the pool calls still to come in this cycle. */
  datatype Pc =
    | LoopTest                                // while (!stop_manager)
    | LockOwn                                 // lock() before the timed wait
    | WaitTest(waiting: bool)                 // while (wait && !stop_manager)
    | Asleep                                  // in pthread_cond_timedwait, mutex released
    | Waking(timedOut: bool)                  // woken, mutex not yet retaken
    | UnlockOwn                               // unlock() after the wait
    | Call(left: nat)                         // lock() in kill_running or kill_pending
    | Flush(left: nat)                        // set_up: delete the pooled objects
    | Load(left: nat)                         // set_up: fetch and refill
    | Iterate(left: nat, copy: seq<nat>)      // loop over the copied pointer map
    | UnlockCall(left: nat)                   // unlock() after the loop
    | Rest                                    // the rest of the cycle
    | Stopped

  /** Where main stands: `pm->finalize()`, then `tm->finalize()`. */
  datatype MainPc = Idle | LockIt(w: Worker) | SetStop(w: Worker) | Signal(w: Worker) | UnlockIt(w: Worker) | Done

  /** Objects are numbered as they are allocated; `live` are those not yet deleted,
      `pool` those the pool points to.  `late` counts cycle bodies begun after stop. */
  datatype State = State(pc: Pair<Pc>, main: MainPc, mutex: Pair<Mutex>, stop: Pair<bool>, late: Pair<nat>,
                         live: set<nat>, pool: seq<nat>, next: nat, users: nat)

  /** What the environment decides: how a sleeper wakes, what a fetch brings. */
  datatype Choice = Go | Timeout | Spurious | FetchFails | FetchLoads(count: nat)

  datatype Action = Run(w: Worker, choice: Choice) | RunMain

  function Init(users: nat): State {
    State(Pair(LoopTest, LoopTest), Idle, Pair(Free, Free), Pair(false, false), Pair(0, 0), {}, [], 0, users)
  }

  /** Pool calls per cycle: one `kill_pending`, or one `kill_running` per user. */
  function Calls(s: State, w: Worker): nat {
    if w.PM? then 1 else s.users
  }

  function NextCall(calls: nat): Pc {
    if calls > 0 then Call(calls - 1) else Rest
  }

  function Numbers(from: nat, count: nat): (r: seq<nat>)
    ensures |r| == count && forall i :: 0 <= i < count ==> r[i] == from + i
  {
    seq(count, i requires 0 <= i < count => from + i)
  }

  function Members(s: seq<nat>): (r: set<nat>)
    ensures forall p :: p in r <==> p in s
  {
    set p | p in s
  }

  function At(s: State, w: Worker, pc: Pc): State {
    s.(pc := s.pc.Set(w, pc))
  }

  function WithMutex(s: State, m: Worker, v: Mutex): State {
    s.(mutex := s.mutex.Set(m, v))
  }

  predicate Waits(pc: Pc) {
    pc.LoopTest? || pc.LockOwn? || pc.WaitTest? || pc.Asleep? || pc.Waking? || pc.UnlockOwn?
  }

  /** A step of the loop around the timed wait. */
  function WaitStep(s: State, w: Worker, choice: Choice): Option<State> {
    match (s.pc.Get(w), choice)
    case (LoopTest, Go) => Some(At(s, w, if s.stop.Get(w) then Stopped else LockOwn))
    case (LockOwn, Go) =>
      if s.mutex.Get(w).Free? then Some(At(WithMutex(s, w, Held(Work(w))), w, WaitTest(true))) else None
    case (WaitTest(waiting), Go) =>
      if waiting && !s.stop.Get(w) then Some(At(WithMutex(s, w, Free), w, Asleep)) else Some(At(s, w, UnlockOwn))
    case (Asleep, Timeout) => Some(At(s, w, Waking(true)))
    case (Asleep, Spurious) => Some(At(s, w, Waking(false)))
    case (Waking(timedOut), Go) =>
      if s.mutex.Get(w).Free? then Some(At(WithMutex(s, w, Held(Work(w))), w, WaitTest(!timedOut))) else None
    case (UnlockOwn, Go) =>
      var late := s.late.Get(w) + if s.stop.Get(w) then 1 else 0;
      Some(At(WithMutex(s, w, Free), w, NextCall(Calls(s, w))).(late := s.late.Set(w, late)))
    case _ => None
  }

  /** A step of the cycle body: the locked pool calls, then the rest. */
  function BodyStep(d: Discipline, s: State, w: Worker, choice: Choice): Option<State> {
    match (s.pc.Get(w), choice)
    case (Call(left), Go) =>
      if s.mutex.Get(TM).Free? then Some(At(WithMutex(s, TM, Held(Work(w))), w, Flush(left))) else None
    case (Flush(left), Go) =>
      Some(At(s, w, Load(left)).(live := s.live - Members(s.pool), pool := []))
    case (Load(left), FetchFails) =>
      Some(At(if d.AsWritten? then s else WithMutex(s, TM, Free), w, NextCall(left)))
    case (Load(left), FetchLoads(count)) =>
      var loaded := Numbers(s.next, count);
      Some(At(s, w, Iterate(left, loaded)).(live := s.live + Members(loaded), pool := loaded, next := s.next + count))
    case (Iterate(left, copy), Go) =>
      Some(At(s, w, if copy == [] then UnlockCall(left) else Iterate(left, copy[1..])))
    case (UnlockCall(left), Go) => Some(At(WithMutex(s, TM, Free), w, NextCall(left)))
    case (Rest, Go) => Some(At(s, w, LoopTest))
    case _ => None
  }

  function WorkerStep(d: Discipline, s: State, w: Worker, choice: Choice): Option<State> {
    if Waits(s.pc.Get(w)) then WaitStep(s, w, choice) else BodyStep(d, s, w, choice)
  }

  function MainStep(s: State): Option<State> {
    match s.main
    case Idle => Some(s.(main := LockIt(PM)))
    case LockIt(w) => if s.mutex.Get(w).Free? then Some(WithMutex(s, w, Held(Main)).(main := SetStop(w))) else None
    case SetStop(w) => Some(s.(main := Signal(w), stop := s.stop.Set(w, true)))
    case Signal(w) =>
      Some((if s.pc.Get(w).Asleep? then At(s, w, Waking(false)) else s).(main := UnlockIt(w)))
    case UnlockIt(w) => Some(WithMutex(s, w, Free).(main := if w.PM? then LockIt(TM) else Done))
    case Done => None
  }

  function Step(d: Discipline, s: State, a: Action): Option<State> {
    match a
    case Run(w, choice) => WorkerStep(d, s, w, choice)
    case RunMain => MainStep(s)
  }

  /** The state a run ends in, if every action was enabled. */
  function Exec(d: Discipline, s: State, run: seq<Action>): Option<State> {
    if run == [] then Some(s) else
      match Exec(d, s, run[..|run| - 1])
      case None => None
      case Some(t) => Step(d, t, run[|run| - 1])
  }

  // ----- the invariant -----

  predicate InCall(pc: Pc) {
    pc.Flush? || pc.Load? || pc.Iterate? || pc.UnlockCall?
  }

  /** By its position in the code, thread `t` is inside a section of mutex `m`. */
  predicate Inside(s: State, t: Thread, m: Worker) {
    match t
    case Work(w) => (m == w && (s.pc.Get(w).WaitTest? || s.pc.Get(w).UnlockOwn?)) || (m.TM? && InCall(s.pc.Get(w)))
    case Main => s.main == SetStop(m) || s.main == Signal(m) || s.main == UnlockIt(m)
  }

  /** Main has set the stop flag of `w`. */
  predicate StopSet(main: MainPc, w: Worker) {
    main.Done? || main == Signal(w) || main == UnlockIt(w)
    || (w.PM? && (main.LockIt? || main.SetStop? || main.Signal? || main.UnlockIt?) && main.w.TM?)
  }

  /** Past the start of a cycle body. */
  predicate InOrAfterBody(pc: Pc) {
    pc.Call? || InCall(pc) || pc.Rest? || pc.LoopTest? || pc.Stopped?
  }

  ghost predicate LocksOk(s: State) {
    forall t, m :: Inside(s, t, m) ==> s.mutex.Get(m) == Held(t)
  }

  ghost predicate PoolOk(s: State) {
    && (forall p :: p in s.live <==> p in s.pool)
    && (forall p :: p in s.pool ==> p < s.next)
    && (s.pc.pm.Load? || s.pc.tm.Load? ==> s.pool == [])
  }

  ghost predicate PointersOk(s: State) {
    forall w :: s.pc.Get(w).Iterate? ==> forall p :: p in s.pc.Get(w).copy ==> p in s.live
  }

  ghost predicate StopOk(s: State) {
    StopOkFor(s, PM) && StopOkFor(s, TM)
  }

  ghost predicate Inv(s: State) {
    LocksOk(s) && PoolOk(s) && PointersOk(s) && StopOk(s)
  }

  lemma LocksStep(d: Discipline, s: State, a: Action)
    requires LocksOk(s) && Step(d, s, a).Some?
    ensures LocksOk(Step(d, s, a).value)
  {
    var s' := Step(d, s, a).value;
    forall t, m | Inside(s', t, m)
      ensures s'.mutex.Get(m) == Held(t)
    {
      LockKept(d, s, a, t, m);
    }
  }

  lemma LockKept(d: Discipline, s: State, a: Action, t: Thread, m: Worker)
    requires LocksOk(s) && Step(d, s, a).Some? && Inside(Step(d, s, a).value, t, m)
    ensures Step(d, s, a).value.mutex.Get(m) == Held(t)
  {
    hide WaitStep, BodyStep, MainStep, Inside, Waits;
    match a
    case Run(w, choice) =>
      if Waits(s.pc.Get(w)) {
        LockKeptWaiting(s, w, choice, t, m);
      } else {
        LockKeptInBody(d, s, w, choice, t, m);
      }
    case RunMain =>
      LockKeptByMain(s, t, m);
  }

  lemma LockKeptWaiting(s: State, w: Worker, choice: Choice, t: Thread, m: Worker)
    requires LocksOk(s) && WaitStep(s, w, choice).Some? && Inside(WaitStep(s, w, choice).value, t, m)
    ensures WaitStep(s, w, choice).value.mutex.Get(m) == Held(t)
  {
    assert Inside(s, t, m) ==> s.mutex.Get(m) == Held(t);
    assert Inside(s, Work(w), w) ==> s.mutex.Get(w) == Held(Work(w));
  }

  lemma LockKeptInBody(d: Discipline, s: State, w: Worker, choice: Choice, t: Thread, m: Worker)
    requires LocksOk(s) && BodyStep(d, s, w, choice).Some? && Inside(BodyStep(d, s, w, choice).value, t, m)
    ensures BodyStep(d, s, w, choice).value.mutex.Get(m) == Held(t)
  {
    assert Inside(s, t, m) ==> s.mutex.Get(m) == Held(t);
    assert Inside(s, Work(w), TM) ==> s.mutex.Get(TM) == Held(Work(w));
  }

  lemma LockKeptByMain(s: State, t: Thread, m: Worker)
    requires LocksOk(s) && MainStep(s).Some? && Inside(MainStep(s).value, t, m)
    ensures MainStep(s).value.mutex.Get(m) == Held(t)
  {
    assert Inside(s, t, m) ==> s.mutex.Get(m) == Held(t);
    if s.main.UnlockIt? {
      assert Inside(s, Main, s.main.w);
    }
  }

  /** Mutual exclusion on the pool. */
  lemma MutualExclusion(s: State)
    requires LocksOk(s)
    ensures !(InCall(s.pc.pm) && InCall(s.pc.tm))
  {
    assert Inside(s, Work(PM), TM) ==> s.mutex.Get(TM) == Held(Work(PM));
    assert Inside(s, Work(TM), TM) ==> s.mutex.Get(TM) == Held(Work(TM));
  }

  /** Around the timed wait a thread moves itself and its own mutex only, and stays
      outside the pool calls. */
  lemma WaitFrame(s: State, w: Worker, choice: Choice)
    requires WaitStep(s, w, choice).Some?
    ensures var t := WaitStep(s, w, choice).value;
            && t.live == s.live && t.pool == s.pool && t.next == s.next && t.main == s.main && t.stop == s.stop
            && !InCall(t.pc.Get(w))
            && forall v :: v != w ==> t.pc.Get(v) == s.pc.Get(v) && t.late.Get(v) == s.late.Get(v)
  {
  }

  lemma PoolStep(d: Discipline, s: State, a: Action)
    requires LocksOk(s) && PoolOk(s) && Step(d, s, a).Some?
    ensures PoolOk(Step(d, s, a).value)
  {
    hide WaitStep, BodyStep, MainStep, Inside, Waits, PoolOk, LocksOk, InCall;
    MutualExclusion(s);
    match a
    case Run(w, choice) =>
      if Waits(s.pc.Get(w)) {
        PoolWhileWaiting(s, w, choice);
      } else {
        PoolInBody(d, s, w, choice);
      }
    case RunMain =>
      PoolByMain(s);
  }

  lemma PoolWhileWaiting(s: State, w: Worker, choice: Choice)
    requires PoolOk(s) && WaitStep(s, w, choice).Some?
    ensures PoolOk(WaitStep(s, w, choice).value)
  {
    hide WaitStep, InCall;
    WaitFrame(s, w, choice);
    NotLoading(WaitStep(s, w, choice).value.pc.Get(w));
    assert w.TM? ==> WaitStep(s, w, choice).value.pc.Get(PM) == s.pc.Get(PM);
    assert w.PM? ==> WaitStep(s, w, choice).value.pc.Get(TM) == s.pc.Get(TM);
  }

  lemma NotLoading(pc: Pc)
    ensures !InCall(pc) ==> !pc.Load?
  {
  }

  lemma PoolInBody(d: Discipline, s: State, w: Worker, choice: Choice)
    requires PoolOk(s) && !(InCall(s.pc.pm) && InCall(s.pc.tm)) && BodyStep(d, s, w, choice).Some?
    ensures PoolOk(BodyStep(d, s, w, choice).value)
  {
  }

  lemma PoolByMain(s: State)
    requires PoolOk(s) && MainStep(s).Some?
    ensures PoolOk(MainStep(s).value)
  {
  }

  lemma PointersStep(d: Discipline, s: State, a: Action)
    requires LocksOk(s) && PointersOk(s) && Step(d, s, a).Some?
    ensures PointersOk(Step(d, s, a).value)
  {
    hide WaitStep, BodyStep, MainStep, Inside, Waits, PointersOk, LocksOk, InCall;
    MutualExclusion(s);
    match a
    case Run(w, choice) =>
      if Waits(s.pc.Get(w)) {
        PointersWhileWaiting(s, w, choice);
      } else {
        PointersInBody(d, s, w, choice);
      }
    case RunMain =>
      PointersByMain(s);
  }

  lemma PointersWhileWaiting(s: State, w: Worker, choice: Choice)
    requires PointersOk(s) && WaitStep(s, w, choice).Some?
    ensures PointersOk(WaitStep(s, w, choice).value)
  {
    hide WaitStep;
    WaitFrame(s, w, choice);
    assert s.pc.pm.Iterate? ==> forall p :: p in s.pc.Get(PM).copy ==> p in s.live;
    assert s.pc.tm.Iterate? ==> forall p :: p in s.pc.Get(TM).copy ==> p in s.live;
  }

  /** A refresh deletes objects only while the other thread is outside its calls. */
  lemma PointersInBody(d: Discipline, s: State, w: Worker, choice: Choice)
    requires PointersOk(s) && !(InCall(s.pc.pm) && InCall(s.pc.tm)) && BodyStep(d, s, w, choice).Some?
    ensures PointersOk(BodyStep(d, s, w, choice).value)
  {
    assert s.pc.pm.Iterate? ==> forall p :: p in s.pc.Get(PM).copy ==> p in s.live;
    assert s.pc.tm.Iterate? ==> forall p :: p in s.pc.Get(TM).copy ==> p in s.live;
  }

  lemma PointersByMain(s: State)
    requires PointersOk(s) && MainStep(s).Some?
    ensures PointersOk(MainStep(s).value)
  {
    assert s.pc.pm.Iterate? ==> forall p :: p in s.pc.Get(PM).copy ==> p in s.live;
    assert s.pc.tm.Iterate? ==> forall p :: p in s.pc.Get(TM).copy ==> p in s.live;
  }

  /** The stop protocol of one manager. */
  ghost predicate StopOkFor(s: State, w: Worker) {
    && (s.stop.Get(w) <==> StopSet(s.main, w))
    && (s.pc.Get(w).Asleep? && s.stop.Get(w) ==> s.main == Signal(w))
    && (s.pc.Get(w).Stopped? ==> s.stop.Get(w))
    && s.late.Get(w) <= 1
    && (s.late.Get(w) == 1 ==> s.stop.Get(w) && InOrAfterBody(s.pc.Get(w)))
  }

  lemma StopStep(d: Discipline, s: State, a: Action, w: Worker)
    requires LocksOk(s) && StopOkFor(s, w) && Step(d, s, a).Some?
    ensures StopOkFor(Step(d, s, a).value, w)
  {
    hide WaitStep, BodyStep, MainStep, Inside, Waits, StopOkFor;
    match a
    case Run(v, choice) =>
      if Waits(s.pc.Get(v)) {
        StopWhileWaiting(s, v, choice, w);
      } else {
        StopInBody(d, s, v, choice, w);
      }
    case RunMain =>
      StopByMain(s, w);
  }

  lemma StopWhileWaiting(s: State, v: Worker, choice: Choice, w: Worker)
    requires LocksOk(s) && StopOkFor(s, w) && WaitStep(s, v, choice).Some?
    ensures StopOkFor(WaitStep(s, v, choice).value, w)
  {
    hide WaitStep, LocksOk, InCall;
    if v == w {
      StopOwnWaiting(s, w, choice);
    } else {
      WaitFrame(s, v, choice);
      assert WaitStep(s, v, choice).value.pc.Get(w) == s.pc.Get(w);
    }
  }

  lemma StopOwnWaiting(s: State, w: Worker, choice: Choice)
    requires LocksOk(s) && StopOkFor(s, w) && WaitStep(s, w, choice).Some?
    ensures StopOkFor(WaitStep(s, w, choice).value, w)
  {
    assert Inside(s, Main, w) ==> s.mutex.Get(w) == Held(Main);
    assert Inside(s, Work(w), w) ==> s.mutex.Get(w) == Held(Work(w));
  }

  lemma StopInBody(d: Discipline, s: State, v: Worker, choice: Choice, w: Worker)
    requires StopOkFor(s, w) && BodyStep(d, s, v, choice).Some?
    ensures StopOkFor(BodyStep(d, s, v, choice).value, w)
  {
  }

  lemma StopByMain(s: State, w: Worker)
    requires StopOkFor(s, w) && MainStep(s).Some?
    ensures StopOkFor(MainStep(s).value, w)
  {
  }

  lemma InvInit(users: nat)
    ensures Inv(Init(users))
  {
  }

  lemma InvStep(d: Discipline, s: State, a: Action)
    requires Inv(s) && Step(d, s, a).Some?
    ensures Inv(Step(d, s, a).value)
  {
    hide Step, LocksOk, PoolOk, PointersOk, StopOkFor;
    LocksStep(d, s, a);
    PoolStep(d, s, a);
    PointersStep(d, s, a);
    StopStep(d, s, a, PM);
    StopStep(d, s, a, TM);
  }

  /** The invariant holds after every run, under either discipline. */
  lemma {:induction false} InvRun(d: Discipline, users: nat, run: seq<Action>)
    requires Exec(d, Init(users), run).Some?
    ensures Inv(Exec(d, Init(users), run).value)
  {
    hide Step, Inv, Init;
    if run == [] {
      InvInit(users);
    } else {
      var front := run[..|run| - 1];
      InvRun(d, users, front);
      InvStep(d, Exec(d, Init(users), front).value, run[|run| - 1]);
    }
  }

  // ----- pointer safety and mutual exclusion -----

  /** After every run: while one thread iterates over its copied map, every object
      it still has to visit is alive, and the other thread is not refreshing the pool. */
  lemma PointersStayAlive(d: Discipline, users: nat, run: seq<Action>, w: Worker, other: Worker)
    requires Exec(d, Init(users), run).Some? && other != w
    requires Exec(d, Init(users), run).value.pc.Get(w).Iterate?
    ensures var s := Exec(d, Init(users), run).value;
            (forall p :: p in s.pc.Get(w).copy ==> p in s.live) && !InCall(s.pc.Get(other))
  {
    hide Exec;
    InvRun(d, users, run);
    MutualExclusion(Exec(d, Init(users), run).value);
  }

  // ----- what a worker visits -----

  /** A worker that iterates still has a rest of the pool before it. */
  ghost predicate CopyOkFor(s: State, w: Worker) {
    s.pc.Get(w).Iterate? ==>
      |s.pc.Get(w).copy| <= |s.pool| && s.pc.Get(w).copy == s.pool[|s.pool| - |s.pc.Get(w).copy|..]
  }

  /** What one step does to a worker that iterates: its own step takes the next
      object off, a step of another thread leaves both the copy and the pool alone. */
  lemma IterateStep(d: Discipline, s: State, a: Action, w: Worker)
    requires LocksOk(s) && s.pc.Get(w).Iterate? && Step(d, s, a).Some?
    ensures var t, here := Step(d, s, a).value, s.pc.Get(w);
            && t.pool == s.pool
            && t.pc.Get(w) == if a != Run(w, Go) then here
                              else if here.copy == [] then UnlockCall(here.left) else Iterate(here.left, here.copy[1..])
    ensures a.Run? && a.w == w ==> a.choice.Go?
  {
    hide LocksOk, InCall, WaitStep, BodyStep, MainStep, Waits;
    MutualExclusion(s);
    match a
    case Run(v, choice) =>
      if Waits(s.pc.Get(v)) {
        IterateWhileOtherWaits(s, v, choice, w);
      } else {
        IterateInBody(d, s, v, choice, w);
      }
    case RunMain =>
      IterateWhileMainMoves(s, w);
  }

  lemma IterateWhileOtherWaits(s: State, v: Worker, choice: Choice, w: Worker)
    requires s.pc.Get(w).Iterate? && Waits(s.pc.Get(v)) && WaitStep(s, v, choice).Some?
    ensures v != w
    ensures WaitStep(s, v, choice).value.pool == s.pool && WaitStep(s, v, choice).value.pc.Get(w) == s.pc.Get(w)
  {
    hide WaitStep;
    WaitFrame(s, v, choice);
  }

  lemma IterateInBody(d: Discipline, s: State, v: Worker, choice: Choice, w: Worker)
    requires !(InCall(s.pc.pm) && InCall(s.pc.tm)) && s.pc.Get(w).Iterate? && BodyStep(d, s, v, choice).Some?
    ensures var t, here := BodyStep(d, s, v, choice).value, s.pc.Get(w);
            && t.pool == s.pool
            && t.pc.Get(w) == if v != w then here
                              else if here.copy == [] then UnlockCall(here.left) else Iterate(here.left, here.copy[1..])
    ensures v == w ==> choice.Go?
  {
  }

  lemma IterateWhileMainMoves(s: State, w: Worker)
    requires s.pc.Get(w).Iterate? && MainStep(s).Some?
    ensures MainStep(s).value.pool == s.pool && MainStep(s).value.pc.Get(w) == s.pc.Get(w)
  {
  }

  lemma CopyStep(d: Discipline, s: State, a: Action, w: Worker)
    requires LocksOk(s) && CopyOkFor(s, w) && Step(d, s, a).Some?
    ensures CopyOkFor(Step(d, s, a).value, w)
  {
    hide LocksOk, WaitStep, BodyStep, MainStep, Waits, InCall;
    if s.pc.Get(w).Iterate? {
      IterateStep(d, s, a, w);
    } else {
      match a
      case Run(v, choice) =>
        if Waits(s.pc.Get(v)) {
          NoIterateAfterWait(s, v, choice, w);
        } else {
          CopyIsPoolAfterLoad(d, s, v, choice, w);
        }
      case RunMain =>
        NoIterateByMain(s, w);
    }
  }

  lemma NoIterateAfterWait(s: State, v: Worker, choice: Choice, w: Worker)
    requires !s.pc.Get(w).Iterate? && WaitStep(s, v, choice).Some?
    ensures !WaitStep(s, v, choice).value.pc.Get(w).Iterate?
  {
    hide WaitStep;
    WaitFrame(s, v, choice);
  }

  lemma CopyIsPoolAfterLoad(d: Discipline, s: State, v: Worker, choice: Choice, w: Worker)
    requires !s.pc.Get(w).Iterate? && BodyStep(d, s, v, choice).Some?
    ensures var t := BodyStep(d, s, v, choice).value;
            t.pc.Get(w).Iterate? ==> t.pc.Get(w).copy == t.pool
  {
  }

  lemma NoIterateByMain(s: State, w: Worker)
    requires !s.pc.Get(w).Iterate? && MainStep(s).Some?
    ensures !MainStep(s).value.pc.Get(w).Iterate?
  {
  }

  /** After every run: what an iterating thread still has to visit is the rest of
      the pool, in pool order. */
  lemma {:induction false} CopyIsRestOfPool(d: Discipline, users: nat, run: seq<Action>, w: Worker)
    requires Exec(d, Init(users), run).Some?
    ensures CopyOkFor(Exec(d, Init(users), run).value, w)
  {
    hide Step, CopyOkFor, LocksOk, PoolOk, PointersOk, StopOk;
    if run == [] {
      NothingCopiedAtFirst(users, w);
    } else {
      var front := run[..|run| - 1];
      CopyIsRestOfPool(d, users, front, w);
      InvRun(d, users, front);
      CopyStep(d, Exec(d, Init(users), front).value, run[|run| - 1], w);
    }
  }

  lemma NothingCopiedAtFirst(users: nat, w: Worker)
    ensures CopyOkFor(Init(users), w)
  {
  }

  /** How many steps of a run worker `w` takes. */
  function Moves(run: seq<Action>, w: Worker): nat {
    if run == [] then 0 else
      Moves(run[..|run| - 1], w) + if run[|run| - 1].Run? && run[|run| - 1].w == w then 1 else 0
  }

  lemma FetchedPool(d: Discipline, s: State, w: Worker, count: nat)
    requires s.pc.Get(w).Load?
    ensures Step(d, s, Run(w, FetchLoads(count))).Some?
    ensures var t := Step(d, s, Run(w, FetchLoads(count))).value;
            && t.pc.Get(w) == Iterate(s.pc.Get(w).left, t.pool) && |t.pool| == count
            && forall i :: 0 <= i < count ==> t.pool[i] == s.next + i
  {
  }

  /** A fetch of `count` VMs fills the pool with as many new objects.  However the
      threads interleave, after its next `k` steps the worker has taken off the
      first `k` of them, in order; only then does it go on to unlock. */
  lemma {:induction false} VisitsEachOnce(d: Discipline, s: State, w: Worker, count: nat, rest: seq<Action>)
    requires LocksOk(s) && s.pc.Get(w).Load? && Moves(rest, w) <= count + 1
    requires Exec(d, s, [Run(w, FetchLoads(count))] + rest).Some?
    ensures var t, k := Exec(d, s, [Run(w, FetchLoads(count))] + rest).value, Moves(rest, w);
            && LocksOk(t) && |t.pool| == count
            && (forall i :: 0 <= i < count ==> t.pool[i] == s.next + i)
            && t.pc.Get(w) == if k <= count then Iterate(s.pc.Get(w).left, t.pool[k..]) else UnlockCall(s.pc.Get(w).left)
    decreases |rest|
  {
    hide Step, LocksOk;
    var load := Run(w, FetchLoads(count));
    if rest == [] {
      assert [load] + rest == [load];
      OneStep(d, s, load);
      FetchedPool(d, s, w, count);
      LocksStep(d, s, load);
    } else {
      var front, last := rest[..|rest| - 1], rest[|rest| - 1];
      var run := [load] + rest;
      assert run[..|run| - 1] == [load] + front && run[|run| - 1] == last;
      if Moves(front, w) <= count {
        VisitsEachOnce(d, s, w, count, front);
        var t := Exec(d, s, [load] + front).value;
        LocksStep(d, t, last);
        IterateStep(d, t, last, w);
      } else {
        VisitsEachOnce(d, s, w, count, front);
        var t := Exec(d, s, [load] + front).value;
        LocksStep(d, t, last);
        UnlockingStays(d, t, last, w);
      }
    }
  }

  lemma OneStep(d: Discipline, s: State, a: Action)
    ensures Exec(d, s, [a]) == Step(d, s, a)
  {
    hide Step;
    assert [a][..0] == [];
    assert Exec(d, s, []) == Some(s);
  }

  /** Until it unlocks itself, nobody touches the pool. */
  lemma UnlockingStays(d: Discipline, s: State, a: Action, w: Worker)
    requires LocksOk(s) && s.pc.Get(w).UnlockCall? && !(a.Run? && a.w == w) && Step(d, s, a).Some?
    ensures Step(d, s, a).value.pool == s.pool && Step(d, s, a).value.pc.Get(w) == s.pc.Get(w)
  {
    hide LocksOk;
    MutualExclusion(s);
  }

  /** And a worker left alone can take them all off. */
  lemma {:induction false} CanVisitAll(d: Discipline, s: State, w: Worker, count: nat, k: nat)
    requires LocksOk(s) && s.pc.Get(w).Load? && k <= count + 1
    ensures Exec(d, s, [Run(w, FetchLoads(count))] + seq(k, i => Run(w, Go))).Some?
    ensures Moves(seq(k, i => Run(w, Go)), w) == k
  {
    hide Step, LocksOk;
    var load, moves := Run(w, FetchLoads(count)), seq(k, i => Run(w, Go));
    if k == 0 {
      assert [load] + moves == [load];
      OneStep(d, s, load);
      FetchedPool(d, s, w, count);
    } else {
      var front := seq(k - 1, i => Run(w, Go));
      CanVisitAll(d, s, w, count, k - 1);
      VisitsEachOnce(d, s, w, count, front);
      var run := [load] + moves;
      assert moves[..k - 1] == front;
      assert run[..|run| - 1] == [load] + front && run[|run| - 1] == Run(w, Go);
      IterationEnabled(d, Exec(d, s, [load] + front).value, w);
    }
  }

  lemma IterationEnabled(d: Discipline, s: State, w: Worker)
    requires s.pc.Get(w).Iterate?
    ensures Step(d, s, Run(w, Go)).Some?
  {
  }

  // ----- how often a worker fetches -----

  /** Fetches of a run by worker `w`, failed or not. */
  function Fetches(run: seq<Action>, w: Worker): nat {
    if run == [] then 0 else
      var a := run[|run| - 1];
      Fetches(run[..|run| - 1], w) + if a.Run? && a.w == w && (a.choice.FetchFails? || a.choice.FetchLoads?) then 1 else 0
  }

  /** Pool calls due from the bodies begun in a run: each time the worker is done
      waiting, one for the priority manager, one per user for the Terminator. */
  function Due(d: Discipline, s: State, run: seq<Action>, w: Worker): nat
    requires Exec(d, s, run).Some?
  {
    if run == [] then 0 else
      var front := run[..|run| - 1];
      var here := Exec(d, s, front).value;
      Due(d, s, front, w)
      + if run[|run| - 1] == Run(w, Go) && here.pc.Get(w).UnlockOwn? then (if w == PM then 1 else s.users) else 0
  }

  /** Calls of the running body that have not fetched yet. */
  function Owed(pc: Pc): nat {
    match pc
    case Call(left) => left + 1
    case Flush(left) => left + 1
    case Load(left) => left + 1
    case Iterate(left, _) => left
    case UnlockCall(left) => left
    case _ => 0
  }

  lemma OwedStep(d: Discipline, s: State, a: Action, w: Worker)
    requires Step(d, s, a).Some?
    ensures var t := Step(d, s, a).value;
            && t.users == s.users
            && Owed(t.pc.Get(w))
               + (if a.Run? && a.w == w && (a.choice.FetchFails? || a.choice.FetchLoads?) then 1 else 0)
               == Owed(s.pc.Get(w))
                  + if a == Run(w, Go) && s.pc.Get(w).UnlockOwn? then (if w == PM then 1 else s.users) else 0
  {
    hide WaitStep, BodyStep, MainStep, Waits;
    match a
    case Run(v, choice) =>
      if Waits(s.pc.Get(v)) {
        OwedWaiting(s, v, choice, w);
      } else {
        OwedInBody(d, s, v, choice, w);
      }
    case RunMain =>
      OwedByMain(s, w);
  }

  lemma OwedWaiting(s: State, v: Worker, choice: Choice, w: Worker)
    requires WaitStep(s, v, choice).Some?
    ensures var t := WaitStep(s, v, choice).value;
            && t.users == s.users && !choice.FetchFails? && !choice.FetchLoads?
            && Owed(t.pc.Get(w))
               == Owed(s.pc.Get(w))
                  + if v == w && choice.Go? && s.pc.Get(w).UnlockOwn? then (if w == PM then 1 else s.users) else 0
  {
  }

  lemma OwedInBody(d: Discipline, s: State, v: Worker, choice: Choice, w: Worker)
    requires !Waits(s.pc.Get(v)) && BodyStep(d, s, v, choice).Some?
    ensures !s.pc.Get(v).UnlockOwn?
    ensures var t := BodyStep(d, s, v, choice).value;
            && t.users == s.users
            && Owed(t.pc.Get(w)) + (if v == w && (choice.FetchFails? || choice.FetchLoads?) then 1 else 0)
               == Owed(s.pc.Get(w))
  {
  }

  lemma OwedByMain(s: State, w: Worker)
    requires MainStep(s).Some?
    ensures MainStep(s).value.users == s.users && Owed(MainStep(s).value.pc.Get(w)) == Owed(s.pc.Get(w))
  {
  }

  /** After every run, a worker has fetched as often as the bodies it has begun
      call for, short of the calls the running body still owes: failed fetches
      end a call, not the body. */
  lemma {:induction false} FetchesAreDue(d: Discipline, users: nat, run: seq<Action>, w: Worker)
    requires Exec(d, Init(users), run).Some?
    ensures Exec(d, Init(users), run).value.users == users
    ensures Fetches(run, w) + Owed(Exec(d, Init(users), run).value.pc.Get(w)) == Due(d, Init(users), run, w)
  {
    hide Step, Owed;
    if run == [] {
      NothingOwedAtFirst(users, w);
    } else {
      var front := run[..|run| - 1];
      FetchesAreDue(d, users, front, w);
      OwedStep(d, Exec(d, Init(users), front).value, run[|run| - 1], w);
    }
  }

  lemma NothingOwedAtFirst(users: nat, w: Worker)
    ensures Owed(Init(users).pc.Get(w)) == 0
  {
  }

  // ----- lock balance -----

  /** A held mutex is held by a thread that is inside its section. */
  ghost predicate Balanced(s: State) {
    forall m :: s.mutex.Get(m).Held? ==> Inside(s, s.mutex.Get(m).owner, m)
  }

  /** The Terminator's mutex is held by a thread that has left its section. */
  predicate Leaked(s: State) {
    s.mutex.tm.Held? && !Inside(s, s.mutex.tm.owner, TM)
  }

  ghost predicate OwnBalanced(s: State) {
    s.mutex.pm.Held? ==> Inside(s, s.mutex.pm.owner, PM)
  }

  lemma OwnBalancedStep(d: Discipline, s: State, a: Action)
    requires LocksOk(s) && OwnBalanced(s) && Step(d, s, a).Some?
    ensures OwnBalanced(Step(d, s, a).value)
  {
    hide WaitStep, BodyStep, MainStep, Inside, Waits, OwnBalanced;
    match a
    case Run(w, choice) =>
      if Waits(s.pc.Get(w)) {
        OwnBalancedWaiting(s, w, choice);
      } else {
        OwnBalancedInBody(d, s, w, choice);
      }
    case RunMain =>
      OwnBalancedByMain(s);
  }

  lemma OwnBalancedWaiting(s: State, w: Worker, choice: Choice)
    requires LocksOk(s) && OwnBalanced(s) && WaitStep(s, w, choice).Some?
    ensures OwnBalanced(WaitStep(s, w, choice).value)
  {
  }

  lemma OwnBalancedInBody(d: Discipline, s: State, w: Worker, choice: Choice)
    requires OwnBalanced(s) && !Waits(s.pc.Get(w)) && BodyStep(d, s, w, choice).Some?
    ensures OwnBalanced(BodyStep(d, s, w, choice).value)
  {
  }

  lemma OwnBalancedByMain(s: State)
    requires OwnBalanced(s) && MainStep(s).Some?
    ensures OwnBalanced(MainStep(s).value)
  {
  }

  /** A step leaks the mutex only if it is a failing fetch of the unrepaired code;
      every other step keeps it balanced. */
  lemma LeakStep(d: Discipline, s: State, a: Action)
    requires LocksOk(s) && !Leaked(s) && Step(d, s, a).Some?
    ensures Leaked(Step(d, s, a).value) <==> d.AsWritten? && a.Run? && a.choice.FetchFails?
  {
    hide WaitStep, BodyStep, MainStep, Inside, Waits, Leaked;
    match a
    case Run(w, choice) =>
      if Waits(s.pc.Get(w)) {
        LeakWaiting(s, w, choice);
      } else {
        LeakInBody(d, s, w, choice);
      }
    case RunMain =>
      LeakByMain(s);
  }

  lemma LeakWaiting(s: State, w: Worker, choice: Choice)
    requires LocksOk(s) && !Leaked(s) && Waits(s.pc.Get(w)) && WaitStep(s, w, choice).Some?
    ensures !Leaked(WaitStep(s, w, choice).value) && !choice.FetchFails?
  {
    assert Inside(s, Work(w), w) ==> s.mutex.Get(w) == Held(Work(w));
  }

  lemma LeakInBody(d: Discipline, s: State, w: Worker, choice: Choice)
    requires LocksOk(s) && !Leaked(s) && BodyStep(d, s, w, choice).Some?
    ensures Leaked(BodyStep(d, s, w, choice).value) <==> d.AsWritten? && choice.FetchFails?
  {
    assert Inside(s, Work(w), TM) ==> s.mutex.Get(TM) == Held(Work(w));
  }

  lemma LeakByMain(s: State)
    requires LocksOk(s) && !Leaked(s) && MainStep(s).Some?
    ensures !Leaked(MainStep(s).value)
  {
    assert Inside(s, Main, TM) ==> s.mutex.Get(TM) == Held(Main);
  }

  /** A leak is absorbing: the owner stays, and no thread is inside the section ever after. */
  lemma LeakAbsorbs(d: Discipline, s: State, a: Action)
    requires LocksOk(s) && Leaked(s) && Step(d, s, a).Some?
    ensures Leaked(Step(d, s, a).value) && Step(d, s, a).value.mutex.tm == s.mutex.tm
    ensures !(a.Run? && a.choice.FetchFails?)
  {
    hide WaitStep, BodyStep, MainStep, Inside, Waits, Leaked, InCall;
    NobodyInside(s);
    match a
    case Run(w, choice) =>
      if Waits(s.pc.Get(w)) {
        AbsorbWaiting(s, w, choice);
      } else {
        AbsorbInBody(d, s, w, choice);
      }
    case RunMain =>
      AbsorbByMain(s);
  }

  ghost predicate Deserted(s: State) {
    forall t :: !Inside(s, t, TM)
  }

  lemma NobodyInside(s: State)
    requires LocksOk(s) && Leaked(s)
    ensures Deserted(s)
  {
  }

  lemma AbsorbWaiting(s: State, w: Worker, choice: Choice)
    requires Leaked(s) && Deserted(s) && Waits(s.pc.Get(w)) && WaitStep(s, w, choice).Some?
    ensures Leaked(WaitStep(s, w, choice).value) && WaitStep(s, w, choice).value.mutex.tm == s.mutex.tm
    ensures !choice.FetchFails?
  {
    assert !Inside(s, Work(w), TM);
    assert !Inside(s, Main, TM);
  }

  lemma AbsorbInBody(d: Discipline, s: State, w: Worker, choice: Choice)
    requires Leaked(s) && Deserted(s) && BodyStep(d, s, w, choice).Some?
    ensures Leaked(BodyStep(d, s, w, choice).value) && BodyStep(d, s, w, choice).value.mutex.tm == s.mutex.tm
    ensures !choice.FetchFails?
  {
    assert !Inside(s, Work(w), TM);
    assert !Inside(s, Main, TM);
  }

  lemma AbsorbByMain(s: State)
    requires Leaked(s) && Deserted(s) && MainStep(s).Some?
    ensures Leaked(MainStep(s).value) && MainStep(s).value.mutex.tm == s.mutex.tm
  {
    assert !Inside(s, Main, TM);
  }

  ghost predicate SomeFetchFailed(run: seq<Action>) {
    exists i :: 0 <= i < |run| && run[i].Run? && run[i].choice.FetchFails?
  }

  lemma FailedStep(run: seq<Action>)
    requires run != []
    ensures SomeFetchFailed(run)
       <==> SomeFetchFailed(run[..|run| - 1]) || (run[|run| - 1].Run? && run[|run| - 1].choice.FetchFails?)
  {
    var front := run[..|run| - 1];
    if i :| 0 <= i < |front| && front[i].Run? && front[i].choice.FetchFails? {
      assert run[i].Run? && run[i].choice.FetchFails?;
    }
    if i :| 0 <= i < |run| && run[i].Run? && run[i].choice.FetchFails? {
      assert i < |front| ==> front[i] == run[i];
    }
  }

  /** As written, the mutex is left behind exactly on the runs in which some pool
      fetch failed. */
  lemma {:induction false} LeakedIffFetchFailed(users: nat, run: seq<Action>)
    requires Exec(AsWritten, Init(users), run).Some?
    ensures Leaked(Exec(AsWritten, Init(users), run).value) <==> SomeFetchFailed(run)
  {
    hide Step, Leaked, Init, SomeFetchFailed, LocksOk, PoolOk, PointersOk, StopOk;
    if run == [] {
      NothingLeakedAtFirst(users);
    } else {
      var front, last := run[..|run| - 1], run[|run| - 1];
      FailedStep(run);
      LeakedIffFetchFailed(users, front);
      InvRun(AsWritten, users, front);
      var s := Exec(AsWritten, Init(users), front).value;
      if Leaked(s) {
        LeakAbsorbs(AsWritten, s, last);
      } else {
        LeakStep(AsWritten, s, last);
      }
    }
  }

  lemma ExecNext(d: Discipline, s: State, run: seq<Action>, a: Action)
    requires Exec(d, s, run).Some?
    ensures Exec(d, s, run + [a]) == Step(d, Exec(d, s, run).value, a)
  {
    assert (run + [a])[..|run|] == run;
  }

  /** The priority manager gets through its wait: the next thing is `lock()` in `kill_pending`. */
  lemma FirstCallReached() returns (run: seq<Action>)
    ensures Exec(AsWritten, Init(0), run) == Some(At(Init(0), PM, Call(0)))
  {
    hide Exec;
    var s := Init(0);
    run := [];
    ExecNone(AsWritten, s);
    run, s := Follow(run, s, Go);
    run, s := Follow(run, s, Go);
    run, s := Follow(run, s, Go);
    assert s == At(Init(0), PM, Asleep);
    run, s := Follow(run, s, Timeout);
    run, s := Follow(run, s, Go);
    run, s := Follow(run, s, Go);
    run, s := Follow(run, s, Go);
    assert s == At(Init(0), PM, Call(0));
  }

  /** A run that leaks: the first pool fetch of the priority manager fails. */
  lemma FailedFetchLeaks() returns (run: seq<Action>)
    ensures Exec(AsWritten, Init(0), run).Some? && Leaked(Exec(AsWritten, Init(0), run).value)
  {
    hide Exec;
    run := FirstCallReached();
    var s := At(Init(0), PM, Call(0));
    run, s := Follow(run, s, Go);
    run, s := Follow(run, s, Go);
    run, s := Follow(run, s, FetchFails);
  }

  /** Extend a run by one step of the priority manager. */
  lemma Follow(run: seq<Action>, s: State, choice: Choice) returns (run': seq<Action>, s': State)
    requires Exec(AsWritten, Init(0), run) == Some(s) && WorkerStep(AsWritten, s, PM, choice).Some?
    ensures Exec(AsWritten, Init(0), run') == Some(s') && WorkerStep(AsWritten, s, PM, choice) == Some(s')
  {
    hide Exec, WorkerStep;
    run', s' := run + [Run(PM, choice)], WorkerStep(AsWritten, s, PM, choice).value;
    ExecNext(AsWritten, Init(0), run, Run(PM, choice));
  }

  lemma ExecNone(d: Discipline, s: State)
    ensures Exec(d, s, []) == Some(s)
  {
  }

  lemma NothingLeakedAtFirst(users: nat)
    ensures !Leaked(Init(users)) && !SomeFetchFailed([]) && Balanced(Init(users))
  {
  }

  /** With the intended release every run keeps both mutexes balanced, failed
      fetches included. */
  lemma {:induction false} IntendedStaysBalanced(users: nat, run: seq<Action>)
    requires Exec(Intended, Init(users), run).Some?
    ensures Balanced(Exec(Intended, Init(users), run).value)
  {
    hide Step, Init, LocksOk, PoolOk, PointersOk, StopOk;
    if run == [] {
      NothingLeakedAtFirst(users);
    } else {
      var front, last := run[..|run| - 1], run[|run| - 1];
      IntendedStaysBalanced(users, front);
      InvRun(Intended, users, front);
      BalancedStep(Exec(Intended, Init(users), front).value, last);
    }
  }

  lemma BalancedStep(s: State, a: Action)
    requires LocksOk(s) && Balanced(s) && Step(Intended, s, a).Some?
    ensures Balanced(Step(Intended, s, a).value)
  {
    hide Step, LocksOk, Inside;
    BalancedIff(s);
    OwnBalancedStep(Intended, s, a);
    LeakStep(Intended, s, a);
    BalancedIff(Step(Intended, s, a).value);
  }

  lemma BalancedIff(s: State)
    ensures Balanced(s) <==> OwnBalanced(s) && !Leaked(s)
  {
    hide Inside;
    if OwnBalanced(s) && !Leaked(s) {
      forall m | s.mutex.Get(m).Held?
        ensures Inside(s, s.mutex.Get(m).owner, m)
      {
      }
    }
    if Balanced(s) {
      assert s.mutex.Get(PM).Held? ==> Inside(s, s.mutex.Get(PM).owner, PM);
      assert s.mutex.Get(TM).Held? ==> Inside(s, s.mutex.Get(TM).owner, TM);
    }
  }

  /** After a leak, early or late, however the run goes on: the same thread owns the
      mutex, no thread is in a pool call, and main, unless it was done by then, never
      finalises the Terminator. */
  lemma {:induction false} LeakNeverEnds(s: State, run: seq<Action>)
    requires Inv(s) && Leaked(s) && Exec(AsWritten, s, run).Some?
    ensures var t := Exec(AsWritten, s, run).value;
            && Inv(t) && Leaked(t) && t.mutex.tm == s.mutex.tm
            && !InCall(t.pc.pm) && !InCall(t.pc.tm)
            && (s.main != Done ==> t.main != Done)
  {
    hide Step, StopOk, PoolOk, PointersOk, Inside, InCall, Leaked;
    if run != [] {
      var front, last := run[..|run| - 1], run[|run| - 1];
      LeakNeverEnds(s, front);
      var t := Exec(AsWritten, s, front).value;
      InvStep(AsWritten, t, last);
      LeakAbsorbs(AsWritten, t, last);
      if t.main != Done {
        MainStuck(t, last);
      }
    }
    DesertedMeansNoCall(Exec(AsWritten, s, run).value);
  }

  lemma MainStuck(s: State, a: Action)
    requires LocksOk(s) && Leaked(s) && s.main != Done && Step(AsWritten, s, a).Some?
    ensures Step(AsWritten, s, a).value.main != Done
  {
    assert Inside(s, Main, TM) ==> s.mutex.Get(TM) == Held(Main);
  }

  lemma DesertedMeansNoCall(s: State)
    requires LocksOk(s) && Leaked(s)
    ensures !InCall(s.pc.pm) && !InCall(s.pc.tm)
  {
    NobodyInside(s);
    assert !Inside(s, Work(PM), TM) && !Inside(s, Work(TM), TM);
  }

  // ----- stop protocol -----

  /** No lost wakeup: after every run, a worker that sleeps although its stop flag
      is set is about to be signalled. */
  lemma NoLostWakeup(d: Discipline, users: nat, run: seq<Action>, w: Worker)
    requires Exec(d, Init(users), run).Some?
    ensures var s := Exec(d, Init(users), run).value;
            s.pc.Get(w).Asleep? && s.stop.Get(w) ==> s.main == Signal(w)
  {
    hide Exec;
    InvRun(d, users, run);
  }

  /** The cycle bodies worker `w` begins in a run although its stop flag is set. */
  function LateBodies(d: Discipline, s: State, run: seq<Action>, w: Worker): nat
    requires Exec(d, s, run).Some?
  {
    if run == [] then 0 else
      var front := run[..|run| - 1];
      var here := Exec(d, s, front).value;
      LateBodies(d, s, front, w)
      + if run[|run| - 1] == Run(w, Go) && here.pc.Get(w).UnlockOwn? && here.stop.Get(w) then 1 else 0
  }

  lemma LateStep(d: Discipline, s: State, a: Action, w: Worker)
    requires Step(d, s, a).Some?
    ensures Step(d, s, a).value.late.Get(w)
         == s.late.Get(w) + if a == Run(w, Go) && s.pc.Get(w).UnlockOwn? && s.stop.Get(w) then 1 else 0
  {
  }

  lemma {:induction false} LateIsCounted(d: Discipline, users: nat, run: seq<Action>, w: Worker)
    requires Exec(d, Init(users), run).Some?
    ensures Exec(d, Init(users), run).value.late.Get(w) == LateBodies(d, Init(users), run, w)
  {
    hide Step;
    if run != [] {
      var front := run[..|run| - 1];
      LateIsCounted(d, users, front, w);
      LateStep(d, Exec(d, Init(users), front).value, run[|run| - 1], w);
    }
  }

  /** Over every run, each manager begins at most one cycle body after it was told
      to stop. */
  lemma AtMostOneMoreBody(d: Discipline, users: nat, run: seq<Action>, w: Worker)
    requires Exec(d, Init(users), run).Some?
    ensures LateBodies(d, Init(users), run, w) <= 1
  {
    hide Exec, LateBodies;
    InvRun(d, users, run);
    LateIsCounted(d, users, run, w);
  }

  /** No thread ends before it was told to stop. */
  lemma EndsOnlyWhenTold(d: Discipline, users: nat, run: seq<Action>, w: Worker)
    requires Exec(d, Init(users), run).Some?
    ensures var s := Exec(d, Init(users), run).value;
            s.pc.Get(w).Stopped? ==> s.stop.Get(w)
  {
    hide Exec;
    InvRun(d, users, run);
  }

  /** Still in its first wait, and no timeout has ended it. */
  predicate FirstWait(pc: Pc) {
    pc.LoopTest? || pc.LockOwn? || pc == WaitTest(true) || pc.Asleep? || pc == Waking(false)
  }

  predicate TimesOut(run: seq<Action>, w: Worker) {
    exists i :: 0 <= i < |run| && run[i] == Run(w, Timeout)
  }

  lemma NoTimeoutBefore(run: seq<Action>, w: Worker)
    requires run != [] && !TimesOut(run, w)
    ensures !TimesOut(run[..|run| - 1], w) && run[|run| - 1] != Run(w, Timeout)
  {
  }

  lemma FirstWaitStep(d: Discipline, s: State, a: Action, w: Worker)
    requires Step(d, s, a).Some? && FirstWait(s.pc.Get(w)) && !s.stop.Get(w) && a != Run(w, Timeout)
    ensures FirstWait(Step(d, s, a).value.pc.Get(w))
  {
    hide BodyStep;
    if a.Run? && a.w != w && !Waits(s.pc.Get(a.w)) {
      OthersUntouched(d, s, a.w, a.choice, w);
    }
  }

  lemma OthersUntouched(d: Discipline, s: State, v: Worker, choice: Choice, w: Worker)
    requires v != w && BodyStep(d, s, v, choice).Some?
    ensures BodyStep(d, s, v, choice).value.pc.Get(w) == s.pc.Get(w)
  {
  }

  lemma StopStays(d: Discipline, s: State, a: Action, w: Worker)
    requires Step(d, s, a).Some? && s.stop.Get(w)
    ensures Step(d, s, a).value.stop.Get(w)
  {
  }

  /** A worker that was not told to stop begins no cycle body before its wait has
      timed out, however often it is woken. */
  lemma {:induction false} WaitsForTimeout(d: Discipline, users: nat, run: seq<Action>, w: Worker)
    requires Exec(d, Init(users), run).Some? && !TimesOut(run, w)
    requires !Exec(d, Init(users), run).value.stop.Get(w)
    ensures FirstWait(Exec(d, Init(users), run).value.pc.Get(w))
  {
    hide Step;
    if run != [] {
      var front, last := run[..|run| - 1], run[|run| - 1];
      var s := Exec(d, Init(users), front).value;
      if s.stop.Get(w) {
        StopStays(d, s, last, w);
      } else {
        NoTimeoutBefore(run, w);
        WaitsForTimeout(d, users, front, w);
        FirstWaitStep(d, s, last, w);
      }
    }
  }

  // ----- shutdown -----

  predicate Finished(s: State) {
    s.pc.pm.Stopped? && s.pc.tm.Stopped?
  }

  /** A thread inside a section is never blocked. */
  lemma InsideIsEnabled(d: Discipline, s: State, t: Thread, m: Worker) returns (a: Action)
    requires Inside(s, t, m)
    ensures Step(d, s, a).Some?
  {
    match t
    case Work(w) =>
      a := Run(w, if s.pc.Get(w).Load? then FetchFails else Go);
    case Main =>
      a := RunMain;
  }

  /** With the intended release there is no deadlock. */
  lemma NoDeadlock(s: State) returns (a: Action)
    requires Balanced(s) && !(s.main.Done? && Finished(s))
    ensures Step(Intended, s, a).Some?
  {
    var w := if !s.pc.pm.Stopped? then PM else TM;
    if !s.main.Done? {
      a := RunMain;
      if s.main.LockIt? && s.mutex.Get(s.main.w).Held? {
        a := InsideIsEnabled(Intended, s, s.mutex.Get(s.main.w).owner, s.main.w);
      }
    } else {
      var pc := s.pc.Get(w);
      a := Run(w, if pc.Load? then FetchFails else if pc.Asleep? then Timeout else Go);
      if (pc.LockOwn? || pc.Waking?) && s.mutex.Get(w).Held? {
        a := InsideIsEnabled(Intended, s, s.mutex.Get(w).owner, w);
      } else if pc.Call? && s.mutex.Get(TM).Held? {
        a := InsideIsEnabled(Intended, s, s.mutex.Get(TM).owner, TM);
      }
    }
  }

  /** How far a worker that has been told to stop is from its end. */
  function Phase(pc: Pc): nat {
    match pc
    case Asleep => 7
    case LockOwn => 6
    case Waking(_) => 6
    case WaitTest(_) => 5
    case UnlockOwn => 4
    case Rest => 2
    case LoopTest => 1
    case Stopped => 0
    case _ => 3
  }

  function CallPhase(pc: Pc): nat {
    match pc
    case Call(left) => 5 * left + 4
    case Flush(left) => 5 * left + 3
    case Load(left) => 5 * left + 2
    case Iterate(left, _) => 5 * left + 1
    case UnlockCall(left) => 5 * left
    case _ => 0
  }

  function Remaining(pc: Pc): nat {
    if pc.Iterate? then |pc.copy| else 0
  }

  ghost predicate Closer(now: Pc, before: Pc) {
    || Phase(now) < Phase(before)
    || (Phase(now) == Phase(before) && CallPhase(now) < CallPhase(before))
    || (Phase(now) == Phase(before) && CallPhase(now) == CallPhase(before) && Remaining(now) < Remaining(before))
  }

  /** Main has finalised both managers. */
  ghost predicate ShuttingDown(s: State) {
    Inv(s) && Balanced(s) && s.main.Done?
  }

  /** Once both managers are finalised, every step brings the thread that takes it
      closer to its end. */
  lemma ShutdownStep(s: State, a: Action)
    requires ShuttingDown(s) && Step(Intended, s, a).Some?
    ensures ShuttingDown(Step(Intended, s, a).value)
    ensures a.Run? && var t := Step(Intended, s, a).value;
              && Closer(t.pc.Get(a.w), s.pc.Get(a.w))
              && forall v :: v != a.w ==> t.pc.Get(v) == s.pc.Get(v)
  {
    hide LocksOk, PoolOk, PointersOk, Inside, Balanced;
    InvStep(Intended, s, a);
    BalancedStep(s, a);
    MovesCloser(s, a.w, a.choice);
  }

  lemma MovesCloser(s: State, w: Worker, choice: Choice)
    requires StopOk(s) && s.main.Done? && WorkerStep(Intended, s, w, choice).Some?
    ensures var t := WorkerStep(Intended, s, w, choice).value;
            && t.main.Done? && Closer(t.pc.Get(w), s.pc.Get(w))
            && forall v :: v != w ==> t.pc.Get(v) == s.pc.Get(v)
  {
    hide WaitStep, BodyStep, Waits, Closer, StopOkFor;
    assert StopOkFor(s, w);
    if Waits(s.pc.Get(w)) {
      MovesCloserWaiting(s, w, choice);
    } else {
      MovesCloserInBody(s, w, choice);
    }
  }

  lemma MovesCloserWaiting(s: State, w: Worker, choice: Choice)
    requires StopOkFor(s, w) && s.main.Done? && WaitStep(s, w, choice).Some?
    ensures var t := WaitStep(s, w, choice).value;
            && t.main.Done? && Closer(t.pc.Get(w), s.pc.Get(w))
            && forall v :: v != w ==> t.pc.Get(v) == s.pc.Get(v)
  {
  }

  lemma MovesCloserInBody(s: State, w: Worker, choice: Choice)
    requires BodyStep(Intended, s, w, choice).Some?
    ensures var t := BodyStep(Intended, s, w, choice).value;
            && t.main == s.main && Closer(t.pc.Get(w), s.pc.Get(w))
            && forall v :: v != w ==> t.pc.Get(v) == s.pc.Get(v)
  {
  }

  /** A scheduler that, while the shutdown is not over, always picks an enabled step. */
  ghost predicate Schedules(sched: (nat, State) -> Action) {
    forall i: nat, s: State :: ShuttingDown(s) && !Finished(s) ==> Step(Intended, s, sched(i, s)).Some?
  }

  /** The state `k` steps into the shutdown; a step that is not enabled changes nothing. */
  ghost function After(sched: (nat, State) -> Action, i: nat, s: State, k: nat): State
    decreases k
  {
    if k == 0 then s else
      match Step(Intended, s, sched(i, s))
      case None => s
      case Some(t) => After(sched, i + 1, t, k - 1)
  }

  /** Whatever the scheduler, the fetches and the snapshot sizes: after finitely many
      steps both managers have stopped. */
  lemma {:induction false} ShutdownCompletes(sched: (nat, State) -> Action, i: nat, s: State) returns (k: nat)
    requires Schedules(sched) && ShuttingDown(s)
    ensures Finished(After(sched, i, s, k))
    decreases Phase(s.pc.pm), CallPhase(s.pc.pm), Remaining(s.pc.pm),
              Phase(s.pc.tm), CallPhase(s.pc.tm), Remaining(s.pc.tm)
  {
    hide Step, Inv, Balanced;
    if Finished(s) {
      k := 0;
    } else {
      var a := sched(i, s);
      ShutdownStep(s, a);
      var t := Step(Intended, s, a).value;
      assert a.w == PM ==> t.pc.Get(TM) == s.pc.Get(TM);
      assert a.w == TM ==> t.pc.Get(PM) == s.pc.Get(PM);
      var n := ShutdownCompletes(sched, i + 1, t);
      k := n + 1;
    }
  }
}
