/**
 The fork/join protocol of src/cpu/executor.cpp as a step system: one caller
 that holds the job flag, and one loop per worker with its own mailbox. Every
 atomic access is a step of its own, so the invariant speaks of every
 interleaving, with spurious wake-ups allowed at any time.
 */
module Executors {

  /** What a mailbox carries; a participant's rows follow from its index. */
  datatype Job = Job(task: nat, context: nat, rows: nat, participants: nat)

  datatype Slot = Slot(generation: nat, job: Job)

  datatype WorkerPc =
    | Spin               // the top of the loop
    | Load               // about to read its generation
    | Waiting            // about to compare and block
    | Blocked
    | Found(seen: nat)   // a new generation, the stop flag not yet read
    | Reading            // about to read the payload
    | Running(job: Job)
    | Counting(job: Job) // about to count itself as completed
    | Notifying          // the last one: about to wake the caller
    | Exited

  datatype Worker = Worker(pc: WorkerPc, observed: nat)

  datatype CallerPc =
    | Idle
    | Reset              // the flag is taken, the completion counter not yet cleared
    | Write(k: nat)      // about to write mailbox k
    | Publish(k: nat)    // about to advance its generation
    | Wake(k: nat)       // about to notify its worker
    | RunOwn
    | Check              // about to read the completion counter
    | CallerWaiting(v: nat)
    | CallerBlocked(v: nat)
    | Done               // about to return ok and release the flag
    | StopPublish(k: nat)
    | StopWake(k: nat)
    | Join(k: nat)
    | Stopped

  /** A participant's call of the task on a range of rows. */
  datatype Call = Call(participant: nat, task: nat, context: nat, begin: nat, end: nat)

  datatype State = State(
    workers: seq<Worker>, slots: seq<Slot>, completed: nat, stopping: bool,
    caller: CallerPc, job: Job, calls: seq<Call>)

  datatype Action =
    | Begin(task: nat, context: nat, rows: nat)
    | CallerStep
    | WorkerStep(i: nat, sawStop: bool)
    | CallerSpurious
    | WorkerSpurious(i: nat)
    | BeginShutdown

  // ----- static_row_range -----

  function Min(a: nat, b: nat): nat {
    if a < b then a else b
  }

  function RangeBegin(rows: nat, participants: nat, index: nat): nat
    requires participants > 0
  {
    index * (rows / participants) + Min(index, rows % participants)
  }

  function RangeEnd(rows: nat, participants: nat, index: nat): nat
    requires participants > 0
  {
    RangeBegin(rows, participants, index) + rows / participants + if index < rows % participants then 1 else 0
  }

  /** Consecutive ranges meet, from row 0 to the last row. */
  lemma RangesMeet(rows: nat, participants: nat, index: nat)
    requires index < participants
    ensures RangeBegin(rows, participants, 0) == 0
    ensures RangeEnd(rows, participants, index) == RangeBegin(rows, participants, index + 1)
    ensures RangeBegin(rows, participants, participants) == rows
    ensures RangeBegin(rows, participants, index) <= RangeEnd(rows, participants, index)
  {
    var q := rows / participants;
    assert (index + 1) * q == index * q + q;
    assert participants * q + rows % participants == rows;
  }

  lemma {:induction false} RangesGrow(rows: nat, participants: nat, i: nat, j: nat)
    requires i <= j <= participants && participants > 0
    ensures RangeBegin(rows, participants, i) <= RangeBegin(rows, participants, j)
    decreases j - i
  {
    if i < j {
      RangesMeet(rows, participants, i);
      RangesGrow(rows, participants, i + 1, j);
    }
  }

  /** Any two ranges differ by at most one row, the longer ones first. */
  lemma RangesBalance(rows: nat, participants: nat, i: nat, j: nat)
    requires i <= j < participants
    ensures var a, b := RangeEnd(rows, participants, i) - RangeBegin(rows, participants, i),
                        RangeEnd(rows, participants, j) - RangeBegin(rows, participants, j);
            b <= a <= b + 1
  {}

  predicate Covers(rows: nat, participants: nat, index: nat, row: nat)
    requires participants > 0
  {
    RangeBegin(rows, participants, index) <= row < RangeEnd(rows, participants, index)
  }

  /** The ranges partition the rows. */
  lemma {:induction false} RowHasOneParticipant(rows: nat, participants: nat, row: nat, bound: nat) returns (index: nat)
    requires 0 < bound <= participants && row < RangeBegin(rows, participants, bound)
    ensures index < bound && Covers(rows, participants, index, row)
    ensures forall j | 0 <= j < participants && Covers(rows, participants, j, row) :: j == index
    decreases bound
  {
    RangesMeet(rows, participants, bound - 1);
    if row < RangeBegin(rows, participants, bound - 1) {
      assert bound > 1;
      index := RowHasOneParticipant(rows, participants, row, bound - 1);
    } else {
      index := bound - 1;
      forall j | 0 <= j < participants && Covers(rows, participants, j, row) ensures j == index {
        RangesMeet(rows, participants, j);
        if j < index {
          RangesGrow(rows, participants, j + 1, index);
        } else if j > index {
          RangesGrow(rows, participants, index + 1, j);
        }
      }
    }
  }

  function CallOf(job: Job, participant: nat): Call
    requires job.participants > 0
  {
    Call(participant, job.task, job.context,
         RangeBegin(job.rows, job.participants, participant), RangeEnd(job.rows, job.participants, participant))
  }

  // ----- the steps -----

  function Workers(s: State): nat {
    if s.job.participants > 0 then s.job.participants - 1 else 0
  }

  function SetWorker(s: State, i: nat, w: Worker): State
    requires i < |s.workers|
  {
    s.(workers := s.workers[i := w])
  }

  function SetPc(s: State, i: nat, pc: WorkerPc): State
    requires i < |s.workers|
  {
    SetWorker(s, i, s.workers[i].(pc := pc))
  }

  /** notify_one on a mailbox: its worker compares again. */
  function WakeWorker(s: State, i: nat): State
    requires i < |s.workers|
  {
    if s.workers[i].pc.Blocked? then SetPc(s, i, Waiting) else s
  }

  /** notify_one on the completion counter. */
  function WakeCaller(s: State): State {
    if s.caller.CallerBlocked? then s.(caller := CallerWaiting(s.caller.v)) else s
  }

  function Bump(s: State, k: nat): State
    requires k < |s.slots|
  {
    s.(slots := s.slots[k := s.slots[k].(generation := s.slots[k].generation + 1)])
  }

  predicate Shaped(s: State) {
    |s.workers| == |s.slots| && s.job.participants <= |s.workers| + 1
  }

  predicate CallerEnabled(s: State) {
    match s.caller
    case Idle => false
    case Stopped => false
    case CallerBlocked(_) => false
    case Write(k) => k < |s.slots|
    case Publish(k) => k < |s.slots|
    case Wake(k) => k < |s.slots|
    case StopPublish(k) => true
    case StopWake(k) => k < |s.slots|
    case Join(k) => k >= |s.workers| || s.workers[k].pc.Exited?
    case RunOwn => s.job.participants > 0
    case _ => true
  }

  function CallerNext(s: State): State
    requires Shaped(s) && CallerEnabled(s)
  {
    match s.caller
    case Reset => s.(completed := 0, caller := Write(0))
    case Write(k) => s.(slots := s.slots[k := s.slots[k].(job := s.job)], caller := Publish(k))
    case Publish(k) => Bump(s, k).(caller := Wake(k))
    case Wake(k) => WakeWorker(s, k).(caller := if k + 1 == Workers(s) then RunOwn else Write(k + 1))
    case RunOwn => s.(calls := s.calls + [CallOf(s.job, 0)], caller := Check)
    case Check => s.(caller := if s.completed == Workers(s) then Done else CallerWaiting(s.completed))
    case CallerWaiting(v) => s.(caller := if s.completed != v then Check else CallerBlocked(v))
    case Done => s.(caller := Idle)
    case StopPublish(k) =>
      if k < |s.slots| then Bump(s, k).(caller := StopWake(k)) else s.(caller := Join(0))
    case StopWake(k) => WakeWorker(s, k).(caller := StopPublish(k + 1))
    case Join(k) => s.(caller := if k < |s.workers| then Join(k + 1) else Stopped)
    case _ => s
  }

  predicate WorkerEnabled(s: State, i: nat, sawStop: bool) {
    && i < |s.workers|
    && !s.workers[i].pc.Blocked? && !s.workers[i].pc.Exited?
    && (sawStop ==> s.stopping && s.workers[i].pc.Spin?)
    && (s.workers[i].pc.Running? ==> s.workers[i].pc.job.participants > 0)
  }

  /** One step of worker i; sawStop is the stop test inside its spin loop. */
  function WorkerNext(s: State, i: nat, sawStop: bool): State
    requires Shaped(s) && WorkerEnabled(s, i, sawStop)
  {
    var w := s.workers[i];
    var generation := s.slots[i].generation;
    match w.pc
    case Spin => SetPc(s, i, if sawStop then Exited else Load)
    case Load => SetPc(s, i, if generation != w.observed then Found(generation) else Waiting)
    case Waiting => SetPc(s, i, if generation != w.observed then Load else Blocked)
    case Found(seen) => if s.stopping then SetPc(s, i, Exited) else SetWorker(s, i, Worker(Reading, seen))
    case Reading => SetPc(s, i, Running(s.slots[i].job))
    case Running(job) => SetPc(s, i, Counting(job)).(calls := s.calls + [CallOf(job, i + 1)])
    case Counting(job) =>
      SetPc(s, i, if s.completed + 1 == job.participants - 1 then Notifying else Spin).(completed := s.completed + 1)
    case Notifying => WakeCaller(SetPc(s, i, Spin))
    case _ => s
  }

  /** A call with rows to run, once the flag is taken. */
  function BeginJob(s: State, threshold: nat, task: nat, context: nat, rows: nat): State {
    var participants := Min(rows, |s.workers| + 1);
    if participants == 1 || rows < threshold then
      var job := Job(task, context, rows, 1);
      s.(job := job, calls := [Call(0, task, context, 0, rows)], caller := Done)
    else
      s.(job := Job(task, context, rows, participants), calls := [], caller := Reset)
  }

  predicate Enabled(s: State, a: Action) {
    match a
    case Begin(_, _, rows) => s.caller.Idle? && rows > 0
    case CallerStep => CallerEnabled(s)
    case WorkerStep(i, sawStop) => WorkerEnabled(s, i, sawStop)
    case CallerSpurious => s.caller.CallerBlocked?
    case WorkerSpurious(i) => i < |s.workers| && s.workers[i].pc.Blocked?
    case BeginShutdown => s.caller.Idle?
  }

  function Next(s: State, threshold: nat, a: Action): State
    requires Shaped(s) && Enabled(s, a)
  {
    match a
    case Begin(task, context, rows) => BeginJob(s, threshold, task, context, rows)
    case CallerStep => CallerNext(s)
    case WorkerStep(i, sawStop) => WorkerNext(s, i, sawStop)
    case CallerSpurious => WakeCaller(s)
    case WorkerSpurious(i) => WakeWorker(s, i)
    case BeginShutdown => s.(stopping := true, caller := StopPublish(0))
  }

  /** After `start`: every worker at the top of its loop. */
  function Start(workers: nat): State {
    State(seq(workers, _ => Worker(Spin, 0)), seq(workers, _ => Slot(0, Job(0, 0, 0, 0))),
          0, false, Idle, Job(0, 0, 0, 0), [])
  }

  // ----- the invariant -----

  predicate Dispatched(s: State) {
    s.caller.Write? || s.caller.Publish? || s.caller.Wake? || Joining(s) || s.caller.RunOwn?
  }

  /** The caller has run its own rows. */
  predicate Joining(s: State) {
    s.caller.Check? || s.caller.CallerWaiting? || s.caller.CallerBlocked? || s.caller.Done?
  }

  /** Mailbox i carries the current job. */
  predicate Published(s: State, i: nat) {
    match s.caller
    case Write(k) => i < k
    case Publish(k) => i < k
    case Wake(k) => i <= k
    case RunOwn => i < Workers(s)
    case Check => i < Workers(s)
    case CallerWaiting(_) => i < Workers(s)
    case CallerBlocked(_) => i < Workers(s)
    case Done => i < Workers(s)
    case _ => false
  }

  predicate Stopping(s: State) {
    s.caller.StopPublish? || s.caller.StopWake? || s.caller.Join? || s.caller.Stopped?
  }

  /** The stop has been published to worker i. */
  predicate StopPublished(s: State, i: nat) {
    match s.caller
    case StopPublish(k) => i < k
    case StopWake(k) => i <= k
    case Join(_) => true
    case Stopped => true
    case _ => false
  }

  /** Not holding anything of a job. */
  predicate Free(pc: WorkerPc) {
    pc.Spin? || pc.Load? || pc.Waiting? || pc.Blocked? || pc.Notifying?
  }

  predicate Fresh(s: State, i: nat)
    requires i < |s.workers| == |s.slots|
  {
    s.slots[i].generation == s.workers[i].observed + 1
  }

  /** Participant i has counted itself in the current job. */
  predicate Finished(s: State, i: nat)
    requires i < |s.workers| == |s.slots|
  {
    Published(s, i) && !Fresh(s, i) && Free(s.workers[i].pc)
  }

  function CountFinished(s: State, n: nat): nat
    requires n <= |s.workers| == |s.slots|
  {
    if n == 0 then 0 else CountFinished(s, n - 1) + if Finished(s, n - 1) then 1 else 0
  }

  /** Participant 0 is the caller, participant i + 1 is worker i. */
  predicate HasRun(s: State, participant: nat)
    requires |s.workers| == |s.slots| && participant <= |s.workers|
  {
    if participant == 0 then Joining(s)
    else
      var i := participant - 1;
      Published(s, i) && !Fresh(s, i) && !s.workers[i].pc.Reading? && !s.workers[i].pc.Running?
  }

  ghost predicate WorkerInv(s: State, i: nat)
    requires i < |s.workers| == |s.slots|
  {
    var w, slot := s.workers[i], s.slots[i];
    && (slot.generation == w.observed || Fresh(s, i))
    && (Published(s, i) ==> slot.job == s.job)
    && (Fresh(s, i) ==> Published(s, i) || StopPublished(s, i))
    && (StopPublished(s, i) ==> Fresh(s, i) || w.pc.Exited?)
    && match w.pc
       case Found(seen) => Fresh(s, i) && seen == slot.generation
       case Reading => Published(s, i) && !Fresh(s, i)
       case Running(job) => Published(s, i) && !Fresh(s, i) && job == s.job
       case Counting(job) => Published(s, i) && !Fresh(s, i) && job == s.job
       case Blocked => Fresh(s, i) ==> s.caller == Wake(i) || s.caller == StopWake(i)
       case Exited => s.stopping
       case _ => true
  }

  ghost predicate CallerInv(s: State)
    requires Shaped(s)
  {
    && (s.stopping <==> Stopping(s))
    && (Dispatched(s) || s.caller.Reset? ==> 1 <= s.job.participants <= |s.workers| + 1 && s.job.rows > 0)
    && (s.caller.Reset? || (Dispatched(s) && !s.caller.Done?) ==> Workers(s) > 0)
    && (s.caller.Write? ==> s.caller.k < Workers(s))
    && (s.caller.Publish? ==> s.caller.k < Workers(s) && s.slots[s.caller.k].job == s.job)
    && (s.caller.Wake? ==> s.caller.k < Workers(s))
    && (s.caller.StopWake? ==> s.caller.k < |s.slots|)
    && (s.caller.StopPublish? ==> s.caller.k <= |s.slots|)
    && (s.caller.CallerWaiting? ==> s.caller.v < Workers(s))
    && (s.caller.CallerBlocked? ==> s.caller.v < Workers(s))
    && (s.caller.Join? ==> s.caller.k <= |s.workers| && forall i | 0 <= i < s.caller.k :: s.workers[i].pc.Exited?)
    && (s.caller.Stopped? ==> forall i | 0 <= i < |s.workers| :: s.workers[i].pc.Exited?)
    && (s.caller.Done? ==> Workers(s) > 0 ==> s.completed == Workers(s))
  }

  /** A blocked caller still has a completion or a notification to come. */
  ghost predicate CallerWillWake(s: State) {
    s.caller.CallerBlocked? ==>
      s.completed < Workers(s) || exists i | 0 <= i < |s.workers| :: s.workers[i].pc.Notifying?
  }

  ghost predicate CountInv(s: State)
    requires |s.workers| == |s.slots| && Workers(s) <= |s.workers|
  {
    Dispatched(s) && Workers(s) > 0 ==> s.completed == CountFinished(s, Workers(s))
  }

  /** Exactly the participants that have run have made a call, each one, for its rows. */
  ghost predicate CallsInv(s: State)
    requires |s.workers| == |s.slots|
  {
    Dispatched(s) ==>
      && s.job.participants > 0
      && (forall a | 0 <= a < |s.calls| ::
            && s.calls[a].participant <= |s.workers| && HasRun(s, s.calls[a].participant)
            && s.calls[a] == CallOf(s.job, s.calls[a].participant))
      && (forall a, b | 0 <= a < b < |s.calls| :: s.calls[a].participant != s.calls[b].participant)
      && (forall p | 0 <= p <= |s.workers| && HasRun(s, p) :: exists a | 0 <= a < |s.calls| ::
          s.calls[a].participant == p)
  }

  ghost predicate Inv(s: State) {
    && Shaped(s)
    && CallerInv(s)
    && (forall i | 0 <= i < |s.workers| :: WorkerInv(s, i))
    && CallerWillWake(s)
    && CountInv(s)
    && CallsInv(s)
    && (s.caller.Reset? ==> s.calls == [])
  }

  lemma StartHolds(workers: nat)
    ensures Inv(Start(workers))
  {}

  // ----- counting -----

  lemma {:induction false} CountSame(s: State, t: State, n: nat)
    requires n <= |s.workers| == |s.slots| && n <= |t.workers| == |t.slots|
    requires forall i | 0 <= i < n :: Finished(s, i) == Finished(t, i)
    ensures CountFinished(s, n) == CountFinished(t, n)
  {
    if n > 0 {
      CountSame(s, t, n - 1);
    }
  }

  lemma {:induction false} CountOneMore(s: State, t: State, n: nat, k: nat)
    requires k < n <= |s.workers| == |s.slots| && n <= |t.workers| == |t.slots|
    requires forall i | 0 <= i < n && i != k :: Finished(s, i) == Finished(t, i)
    requires !Finished(s, k) && Finished(t, k)
    ensures CountFinished(t, n) == CountFinished(s, n) + 1
  {
    if k < n - 1 {
      CountOneMore(s, t, n - 1, k);
    } else {
      CountSame(s, t, n - 1);
    }
  }

  lemma {:induction false} CountBound(s: State, n: nat)
    requires n <= |s.workers| == |s.slots|
    ensures CountFinished(s, n) <= n
    ensures CountFinished(s, n) == n ==> forall i | 0 <= i < n :: Finished(s, i)
    ensures CountFinished(s, n) < n ==> exists i | 0 <= i < n :: !Finished(s, i)
  {
    if n > 0 {
      CountBound(s, n - 1);
    }
  }

  lemma {:induction false} CountNone(s: State, n: nat)
    requires n <= |s.workers| == |s.slots|
    requires forall i | 0 <= i < n :: !Finished(s, i)
    ensures CountFinished(s, n) == 0
  {
    if n > 0 {
      CountNone(s, n - 1);
    }
  }

  // ----- every step keeps the invariant -----

  lemma SerialCall(task: nat, context: nat, rows: nat)
    ensures CallOf(Job(task, context, rows, 1), 0) == Call(0, task, context, 0, rows)
  {
    assert rows / 1 == rows && rows % 1 == 0;
  }

  lemma BeginKeeps(s: State, threshold: nat, task: nat, context: nat, rows: nat)
    requires Inv(s) && s.caller.Idle? && rows > 0
    ensures Inv(BeginJob(s, threshold, task, context, rows))
  {
    var t := BeginJob(s, threshold, task, context, rows);
    SerialCall(task, context, rows);
    assert t.caller.Done? ==> t.calls[0].participant == 0;
    forall i | 0 <= i < |t.workers| ensures WorkerInv(t, i) {
      assert WorkerInv(s, i);
    }
  }

  /** The call made by a participant that has not made one. */
  lemma CallAdded(s: State, t: State, p: nat)
    requires |s.workers| == |s.slots| == |t.workers| == |t.slots| && Dispatched(s) && Dispatched(t)
    requires CallsInv(s) && p <= |s.workers| && !HasRun(s, p) && HasRun(t, p) && t.job == s.job
    requires forall q | 0 <= q <= |s.workers| && q != p :: HasRun(s, q) == HasRun(t, q)
    requires t.calls == s.calls + [CallOf(s.job, p)]
    ensures CallsInv(t)
  {
    forall q | 0 <= q <= |t.workers| && HasRun(t, q)
      ensures exists a | 0 <= a < |t.calls| :: t.calls[a].participant == q
    {
      if q == p {
        assert t.calls[|s.calls|].participant == p;
      } else {
        var a :| 0 <= a < |s.calls| && s.calls[a].participant == q;
        assert t.calls[a].participant == q;
      }
    }
  }

  lemma CallsSame(s: State, t: State)
    requires |s.workers| == |s.slots| == |t.workers| == |t.slots| && CallsInv(s)
    requires Dispatched(t) ==> Dispatched(s) && t.job == s.job && t.calls == s.calls
    requires Dispatched(t) ==> forall q | 0 <= q <= |s.workers| :: HasRun(s, q) == HasRun(t, q)
    ensures CallsInv(t)
  {
    if Dispatched(t) {
      forall q | 0 <= q <= |t.workers| && HasRun(t, q)
        ensures exists a | 0 <= a < |t.calls| :: t.calls[a].participant == q
      {
        assert HasRun(s, q);
      }
    }
  }

  lemma ResetKeeps(s: State)
    requires Inv(s) && s.caller.Reset?
    ensures Inv(CallerNext(s))
  {
    var t := CallerNext(s);
    forall i | 0 <= i < |t.workers| ensures WorkerInv(t, i) {
      assert WorkerInv(s, i);
    }
    CountNone(t, Workers(t));
  }

  /** Writing, publishing and waking change no worker's part in the job. */
  lemma DispatchKeepsWorkers(s: State)
    requires Inv(s) && CallerEnabled(s) && (s.caller.Write? || s.caller.Publish? || s.caller.Wake?)
    ensures var t := CallerNext(s);
            && |t.workers| == |s.workers| == |t.slots|
            && (forall i | 0 <= i < |s.workers| :: WorkerInv(t, i) && Finished(s, i) == Finished(t, i))
            && (forall q | 0 <= q <= |s.workers| :: HasRun(s, q) == HasRun(t, q))
  {
    var t := CallerNext(s);
    forall i | 0 <= i < |t.workers| ensures WorkerInv(t, i) && Finished(s, i) == Finished(t, i) {
      assert WorkerInv(s, i);
    }
    forall q | 0 <= q <= |s.workers| ensures HasRun(s, q) == HasRun(t, q) {
      if q > 0 {
        assert WorkerInv(s, q - 1);
      }
    }
  }

  lemma DispatchKeeps(s: State)
    requires Inv(s) && CallerEnabled(s) && (s.caller.Write? || s.caller.Publish? || s.caller.Wake?)
    ensures Inv(CallerNext(s))
  {
    var t := CallerNext(s);
    DispatchKeepsWorkers(s);
    CountSame(s, t, Workers(s));
    CallsSame(s, t);
  }

  lemma OwnRowsKeep(s: State)
    requires Inv(s) && s.caller.RunOwn?
    ensures Inv(CallerNext(s))
  {
    var t := CallerNext(s);
    forall i | 0 <= i < |t.workers| ensures WorkerInv(t, i) && Finished(s, i) == Finished(t, i) {
      assert WorkerInv(s, i);
    }
    CountSame(s, t, Workers(s));
    CallAdded(s, t, 0);
  }

  lemma JoinKeeps(s: State)
    requires Inv(s) && CallerEnabled(s) && (s.caller.Check? || s.caller.CallerWaiting?)
    ensures Inv(CallerNext(s))
  {
    var t := CallerNext(s);
    forall i | 0 <= i < |t.workers| ensures WorkerInv(t, i) && Finished(s, i) == Finished(t, i) {
      assert WorkerInv(s, i);
    }
    CountSame(s, t, Workers(s));
    CountBound(s, Workers(s));
    CallsSame(s, t);
  }

  /** When the caller returns, no worker holds anything of the job. */
  lemma DoneMeansFinished(s: State)
    requires Inv(s) && s.caller.Done?
    ensures forall i | 0 <= i < Workers(s) :: Finished(s, i)
  {
    if Workers(s) > 0 {
      CountBound(s, Workers(s));
    }
  }

  lemma ReturnKeeps(s: State)
    requires Inv(s) && s.caller.Done?
    ensures Inv(CallerNext(s))
  {
    var t := CallerNext(s);
    DoneMeansFinished(s);
    forall i | 0 <= i < |t.workers| ensures WorkerInv(t, i) {
      assert WorkerInv(s, i);
      assert Published(s, i) ==> Finished(s, i);
    }
  }

  lemma StopKeeps(s: State)
    requires Inv(s) && CallerEnabled(s) && Stopping(s)
    ensures Inv(CallerNext(s))
  {
    var t := CallerNext(s);
    forall i | 0 <= i < |t.workers| ensures WorkerInv(t, i) {
      assert WorkerInv(s, i);
    }
  }

  lemma CallerKeeps(s: State)
    requires Inv(s) && CallerEnabled(s)
    ensures Inv(CallerNext(s))
  {
    match s.caller
    case RunOwn => OwnRowsKeep(s);
    case Check => JoinKeeps(s);
    case CallerWaiting(_) => JoinKeeps(s);
    case Done => ReturnKeeps(s);
    case Reset => ResetKeeps(s);
    case Write(_) => DispatchKeeps(s);
    case Publish(_) => DispatchKeeps(s);
    case Wake(_) => DispatchKeeps(s);
    case _ => StopKeeps(s);
  }

  /** A step of worker i leaves the other workers as they are. */
  lemma OthersUntouched(s: State, t: State, i: nat)
    requires Inv(s) && i < |s.workers|
    requires |t.workers| == |s.workers| && t.workers == s.workers[i := t.workers[i]] && t.slots == s.slots
    requires t.stopping == s.stopping && t.job == s.job && t.caller == s.caller
    ensures forall j | 0 <= j < |t.workers| && j != i :: WorkerInv(t, j) && Finished(s, j) == Finished(t, j)
    ensures forall q | 0 <= q <= |t.workers| && q != i + 1 :: HasRun(s, q) == HasRun(t, q)
    ensures (exists j | 0 <= j < |s.workers| && j != i :: s.workers[j].pc.Notifying?) ==>
              exists j | 0 <= j < |t.workers| :: t.workers[j].pc.Notifying?
  {
    forall j | 0 <= j < |t.workers| && j != i ensures WorkerInv(t, j) && Finished(s, j) == Finished(t, j) {
      assert WorkerInv(s, j);
    }
    forall q | 0 <= q <= |t.workers| && q != i + 1 ensures HasRun(s, q) == HasRun(t, q) {
      if q > 0 {
        assert WorkerInv(s, q - 1);
      }
    }
    if j :| 0 <= j < |s.workers| && j != i && s.workers[j].pc.Notifying? {
      assert t.workers[j].pc.Notifying?;
    }
  }

  /** The other workers and the counts, when worker i changes but not whether it has finished. */
  lemma QuietWorkerStep(s: State, t: State, i: nat)
    requires Inv(s) && i < |s.workers|
    requires |t.workers| == |s.workers| && t.workers == s.workers[i := t.workers[i]] && t.slots == s.slots
    requires t.completed == s.completed && t.stopping == s.stopping && t.job == s.job && t.calls == s.calls
    requires t.caller == s.caller
    requires WorkerInv(t, i)
    requires Finished(t, i) == Finished(s, i) && HasRun(t, i + 1) == HasRun(s, i + 1)
    requires s.workers[i].pc.Exited? ==> t.workers[i].pc.Exited?
    requires s.workers[i].pc.Notifying? ==> t.workers[i].pc.Notifying?
    ensures Inv(t)
  {
    OthersUntouched(s, t, i);
    CountSame(s, t, Workers(s));
    CallsSame(s, t);
    assert s.workers[i].pc.Notifying? ==> t.workers[i].pc.Notifying?;
  }

  lemma WorkerRunKeeps(s: State, i: nat)
    requires Inv(s) && i < |s.workers| && s.workers[i].pc.Running? && s.workers[i].pc.job.participants > 0
    ensures Inv(WorkerNext(s, i, false))
  {
    assert WorkerInv(s, i);
    var t := WorkerNext(s, i, false);
    OthersUntouched(s, t, i);
    CountSame(s, t, Workers(s));
    CallAdded(s, t, i + 1);
  }

  lemma CountStep(s: State, i: nat)
    requires Inv(s) && i < |s.workers| && s.workers[i].pc.Counting?
    ensures var t := WorkerNext(s, i, false);
            && Dispatched(t) && i < Workers(s) == Workers(t)
            && WorkerInv(t, i) && !Finished(s, i) && Finished(t, i) && HasRun(s, i + 1) == HasRun(t, i + 1)
            && (t.completed == Workers(t) <==> t.workers[i].pc.Notifying?)
  {
    assert WorkerInv(s, i);
  }

  lemma CountKeepsCount(s: State, i: nat)
    requires Inv(s) && i < |s.workers| && s.workers[i].pc.Counting?
    ensures var t := WorkerNext(s, i, false);
            Shaped(t) && CallerInv(t) && CallerWillWake(t) && CountInv(t) && CallsInv(t)
  {
    var t := WorkerNext(s, i, false);
    CountStep(s, i);
    OthersUntouched(s, t, i);
    CountOneMore(s, t, Workers(s), i);
    CountBound(t, Workers(t));
    CallsSame(s, t);
  }

  lemma WorkerCountKeeps(s: State, i: nat)
    requires Inv(s) && i < |s.workers| && s.workers[i].pc.Counting?
    ensures Inv(WorkerNext(s, i, false))
  {
    CountStep(s, i);
    OthersUntouched(s, WorkerNext(s, i, false), i);
    CountKeepsCount(s, i);
  }

  /** Waking the caller changes nothing for the workers. */
  lemma WakeIsTransparent(s: State)
    requires |s.workers| == |s.slots|
    ensures forall j | 0 <= j < |s.workers| :: WorkerInv(s, j) ==> WorkerInv(WakeCaller(s), j)
    ensures forall j | 0 <= j < |s.workers| :: Finished(s, j) == Finished(WakeCaller(s), j)
    ensures forall q | 0 <= q <= |s.workers| :: HasRun(s, q) == HasRun(WakeCaller(s), q)
  {}

  lemma NotifyKeepsWorkers(s: State, i: nat)
    requires Inv(s) && i < |s.workers| && s.workers[i].pc.Notifying?
    ensures var t := WorkerNext(s, i, false);
            && (forall j | 0 <= j < |t.workers| :: WorkerInv(t, j) && Finished(s, j) == Finished(t, j))
            && (forall q | 0 <= q <= |t.workers| :: HasRun(s, q) == HasRun(t, q))
  {
    var u := SetPc(s, i, Spin);
    assert WorkerInv(s, i);
    OthersUntouched(s, u, i);
    assert WorkerInv(u, i) && Finished(s, i) == Finished(u, i) && HasRun(s, i + 1) == HasRun(u, i + 1);
    WakeIsTransparent(u);
  }

  lemma WorkerNotifyKeeps(s: State, i: nat)
    requires Inv(s) && i < |s.workers| && s.workers[i].pc.Notifying?
    ensures Inv(WorkerNext(s, i, false))
  {
    var t := WorkerNext(s, i, false);
    NotifyKeepsWorkers(s, i);
    CountSame(s, t, Workers(s));
    CallsSame(s, t);
  }

  lemma IdleStepKeeps(s: State, i: nat, sawStop: bool)
    requires Inv(s) && WorkerEnabled(s, i, sawStop)
    requires s.workers[i].pc.Spin? || s.workers[i].pc.Load? || s.workers[i].pc.Waiting?
    ensures Inv(WorkerNext(s, i, sawStop))
  {
    assert WorkerInv(s, i);
    QuietWorkerStep(s, WorkerNext(s, i, sawStop), i);
  }

  lemma TakeStepKeeps(s: State, i: nat)
    requires Inv(s) && i < |s.workers| && (s.workers[i].pc.Found? || s.workers[i].pc.Reading?)
    ensures Inv(WorkerNext(s, i, false))
  {
    assert WorkerInv(s, i);
    QuietWorkerStep(s, WorkerNext(s, i, false), i);
  }

  lemma WorkerKeeps(s: State, i: nat, sawStop: bool)
    requires Inv(s) && WorkerEnabled(s, i, sawStop)
    ensures Inv(WorkerNext(s, i, sawStop))
  {
    match s.workers[i].pc
    case Running(_) => WorkerRunKeeps(s, i);
    case Counting(_) => WorkerCountKeeps(s, i);
    case Notifying => WorkerNotifyKeeps(s, i);
    case Found(_) => TakeStepKeeps(s, i);
    case Reading => TakeStepKeeps(s, i);
    case _ => IdleStepKeeps(s, i, sawStop);
  }

  lemma WorkerSpuriousKeeps(s: State, i: nat)
    requires Inv(s) && i < |s.workers| && s.workers[i].pc.Blocked?
    ensures Inv(WakeWorker(s, i))
  {
    assert WorkerInv(s, i);
    QuietWorkerStep(s, WakeWorker(s, i), i);
  }

  lemma CallerSpuriousKeeps(s: State)
    requires Inv(s) && s.caller.CallerBlocked?
    ensures Inv(WakeCaller(s))
  {
    var t := WakeCaller(s);
    forall i | 0 <= i < |t.workers| ensures WorkerInv(t, i) && Finished(s, i) == Finished(t, i) {
      assert WorkerInv(s, i);
    }
    CountSame(s, t, Workers(s));
    CallsSame(s, t);
  }

  lemma ShutdownKeeps(s: State)
    requires Inv(s) && s.caller.Idle?
    ensures Inv(s.(stopping := true, caller := StopPublish(0)))
  {
    var t := s.(stopping := true, caller := StopPublish(0));
    forall i | 0 <= i < |t.workers| ensures WorkerInv(t, i) {
      assert WorkerInv(s, i);
    }
  }

  /** Every step of every thread keeps the invariant. */
  lemma NextKeeps(s: State, threshold: nat, a: Action)
    requires Inv(s) && Enabled(s, a)
    ensures Inv(Next(s, threshold, a))
  {
    match a
    case Begin(task, context, rows) => BeginKeeps(s, threshold, task, context, rows);
    case CallerStep => CallerKeeps(s);
    case WorkerStep(i, sawStop) => WorkerKeeps(s, i, sawStop);
    case CallerSpurious => CallerSpuriousKeeps(s);
    case WorkerSpurious(i) => WorkerSpuriousKeeps(s, i);
    case BeginShutdown => ShutdownKeeps(s);
  }

  /** The states of any run, whatever the threads do and in whatever order. */
  ghost predicate IsRun(threshold: nat, workers: nat, states: seq<State>, actions: seq<Action>) {
    && |states| == |actions| + 1
    && states[0] == Start(workers)
    && forall k | 0 <= k < |actions| ::
         Shaped(states[k]) && Enabled(states[k], actions[k]) && states[k + 1] == Next(states[k], threshold, actions[k])
  }

  lemma {:induction false} RunsKeep(threshold: nat, workers: nat, states: seq<State>, actions: seq<Action>, n: nat)
    requires IsRun(threshold, workers, states, actions) && n <= |actions|
    ensures Inv(states[n])
  {
    if n == 0 {
      StartHolds(workers);
    } else {
      RunsKeep(threshold, workers, states, actions, n - 1);
      NextKeeps(states[n - 1], threshold, actions[n - 1]);
    }
  }

  // ----- safety -----

  /** The call covers the row, for this job's task and context. */
  predicate Serves(c: Call, job: Job, row: nat) {
    c.task == job.task && c.context == job.context && c.begin <= row < c.end
  }

  /**
   When parallel_for_rows returns ok, each row in [0, rows) has been run by
   exactly one call, and every call of the run was for this job.
   */
  lemma ReturnedJobRanEachRowOnce(threshold: nat, workers: nat, states: seq<State>, actions: seq<Action>, n: nat,
                                  row: nat)
    returns (a: nat)
    requires IsRun(threshold, workers, states, actions) && n <= |actions|
    requires states[n].caller.Done? && row < states[n].job.rows
    ensures a < |states[n].calls| && Serves(states[n].calls[a], states[n].job, row)
    ensures forall b | 0 <= b < |states[n].calls| ::
              && states[n].calls[b].task == states[n].job.task && states[n].calls[b].context == states[n].job.context
              && (states[n].calls[b].begin <= row < states[n].calls[b].end ==> b == a)
  {
    var s := states[n];
    RunsKeep(threshold, workers, states, actions, n);
    DoneMeansFinished(s);
    var p := s.job.participants;
    RangesMeet(s.job.rows, p, 0);
    var index := RowHasOneParticipant(s.job.rows, p, row, p);
    assert HasRun(s, index) by {
      if index > 0 {
        assert Finished(s, index - 1);
      }
    }
    a :| 0 <= a < |s.calls| && s.calls[a].participant == index;
    assert s.calls[a] == CallOf(s.job, index);
    forall b | 0 <= b < |s.calls| && s.calls[b].begin <= row < s.calls[b].end ensures b == a {
      var q := s.calls[b].participant;
      assert s.calls[b] == CallOf(s.job, q);
      assert HasRun(s, q);
      assert q < p;
      assert Covers(s.job.rows, p, q, row);
    }
  }

  /**
   A mailbox is written and republished only while its worker has taken its last
   generation and holds nothing that it read from the mailbox.
   */
  lemma MailboxIsWrittenOnlyWhenConsumed(threshold: nat, workers: nat, states: seq<State>, actions: seq<Action>, n: nat)
    requires IsRun(threshold, workers, states, actions) && n <= |actions|
    requires states[n].caller.Write? || states[n].caller.Publish?
    ensures var s := states[n];
            && s.caller.k < |s.workers| == |s.slots|
            && s.workers[s.caller.k].observed == s.slots[s.caller.k].generation
            && Free(s.workers[s.caller.k].pc)
  {
    RunsKeep(threshold, workers, states, actions, n);
    assert WorkerInv(states[n], states[n].caller.k);
  }

  /** The completion counter counts the participants that have finished this job. */
  lemma CounterCountsFinished(threshold: nat, workers: nat, states: seq<State>, actions: seq<Action>, n: nat)
    requires IsRun(threshold, workers, states, actions) && n <= |actions|
    requires Dispatched(states[n]) && states[n].job.participants > 1
    ensures Shaped(states[n]) && states[n].completed == CountFinished(states[n], states[n].job.participants - 1)
    ensures states[n].completed <= states[n].job.participants - 1
  {
    RunsKeep(threshold, workers, states, actions, n);
    CountBound(states[n], Workers(states[n]));
  }

  // ----- progress -----

  predicate Ordinary(a: Action) {
    a.CallerStep? || a.WorkerStep?
  }

  /** Some thread can take an ordinary step. */
  ghost predicate CanStep(s: State) {
    exists a :: Ordinary(a) && Enabled(s, a)
  }

  lemma UnfinishedCanStep(s: State, i: nat)
    requires Inv(s) && i < Workers(s) && Published(s, i) && !Finished(s, i)
    requires !s.caller.Wake? && !s.caller.StopWake?
    ensures CanStep(s)
  {
    assert WorkerInv(s, i);
    assert Enabled(s, WorkerStep(i, false));
  }

  /**
   No deadlock: while a call or a shutdown is under way some thread can step,
   although only the last worker notifies the caller.
   */
  lemma SomeThreadCanStep(s: State)
    requires Inv(s) && !s.caller.Idle? && !s.caller.Stopped?
    ensures CanStep(s)
  {
    if CallerEnabled(s) {
      assert Enabled(s, CallerStep);
    } else if s.caller.CallerBlocked? {
      if s.completed < Workers(s) {
        CountBound(s, Workers(s));
        var i :| 0 <= i < Workers(s) && !Finished(s, i);
        UnfinishedCanStep(s, i);
      } else {
        var i :| 0 <= i < |s.workers| && s.workers[i].pc.Notifying?;
        assert Enabled(s, WorkerStep(i, false));
      }
    } else {
      var k := s.caller.k;
      assert WorkerInv(s, k);
      assert Enabled(s, WorkerStep(k, false));
    }
  }

  /** How much a worker can still do, more while it has a generation to take. */
  function WorkerWeight(w: Worker, generation: nat): nat {
    if generation == w.observed then
      match w.pc
      case Blocked => 0
      case Waiting => 1
      case Load => 2
      case Spin => 3
      case Notifying => 8
      case Counting(_) => 14
      case Running(_) => 15
      case Reading => 16
      case Found(_) => 17
      case Exited => 0
    else
      match w.pc
      case Exited => 0
      case Found(_) => 17
      case Load => 18
      case Blocked => 18
      case Waiting => 19
      case Spin => 20
      case _ => 26
  }

  function SumWeights(workers: seq<Worker>, slots: seq<Slot>): nat
    requires |workers| == |slots|
  {
    if workers == [] then 0
    else SumWeights(workers[1..], slots[1..]) + WorkerWeight(workers[0], slots[0].generation)
  }

  function CallerWeight(s: State): nat {
    var w := Workers(s);
    var n := |s.workers|;
    match s.caller
    case Idle => 0
    case Stopped => 0
    case Done => 1
    case Check => 4
    case CallerWaiting(v) => if s.completed == v then 3 else 5
    case CallerBlocked(_) => 2
    case RunOwn => 6
    case Reset => 7 + 40 * w
    case Write(k) => if k <= w then 6 + 40 * (w - k) else 0
    case Publish(k) => if k <= w then 5 + 40 * (w - k) else 0
    case Wake(k) => if k < w then 40 * (w - k) - 15 else 0
    case StopPublish(k) => if k <= n then n + 2 + 40 * (n - k) else 0
    case StopWake(k) => if k < n then n + 40 * (n - k) - 18 else 0
    case Join(k) => if k <= n then n - k + 1 else 0
  }

  function Measure(s: State): nat
    requires Shaped(s)
  {
    CallerWeight(s) + SumWeights(s.workers, s.slots)
  }

  lemma {:induction false} SumUpdate(workers: seq<Worker>, slots: seq<Slot>, i: nat, w: Worker, slot: Slot)
    requires i < |workers| == |slots|
    ensures SumWeights(workers[i := w], slots[i := slot]) ==
            SumWeights(workers, slots) - WorkerWeight(workers[i], slots[i].generation) +
                WorkerWeight(w, slot.generation)
    decreases |workers|
  {
    if i > 0 {
      SumUpdate(workers[1..], slots[1..], i - 1, w, slot);
      assert workers[i := w][1..] == workers[1..][i - 1 := w];
      assert slots[i := slot][1..] == slots[1..][i - 1 := slot];
    } else {
      assert workers[0 := w][1..] == workers[1..] && slots[0 := slot][1..] == slots[1..];
    }
  }

  lemma WorkerStepLowers(s: State, i: nat, sawStop: bool)
    requires Inv(s) && WorkerEnabled(s, i, sawStop)
    ensures Shaped(WorkerNext(s, i, sawStop)) && Measure(WorkerNext(s, i, sawStop)) < Measure(s)
  {
    var t := WorkerNext(s, i, sawStop);
    SumUpdate(s.workers, s.slots, i, t.workers[i], s.slots[i]);
    assert s.slots[i := s.slots[i]] == s.slots && t.workers == s.workers[i := t.workers[i]];
    OneWorkerLowers(s, i, sawStop);
  }

  /** What the worker gives up exceeds what its step adds to the caller. */
  lemma OneWorkerLowers(s: State, i: nat, sawStop: bool)
    requires Inv(s) && WorkerEnabled(s, i, sawStop)
    ensures var t := WorkerNext(s, i, sawStop);
            CallerWeight(t) + WorkerWeight(t.workers[i], s.slots[i].generation)
            < CallerWeight(s) + WorkerWeight(s.workers[i], s.slots[i].generation)
  {
    assert WorkerInv(s, i);
  }

  /** The caller's step at one mailbox. */
  lemma MailboxStepLowers(s: State)
    requires Inv(s) && CallerEnabled(s)
    requires s.caller.Write? || s.caller.Publish? || s.caller.Wake? || s.caller.StopWake? ||
               (s.caller.StopPublish? && s.caller.k < |s.slots|)
    ensures Shaped(CallerNext(s)) && Measure(CallerNext(s)) < Measure(s)
  {
    var t := CallerNext(s);
    var k := s.caller.k;
    SumUpdate(s.workers, s.slots, k, t.workers[k], t.slots[k]);
    assert t.workers == s.workers[k := t.workers[k]] && t.slots == s.slots[k := t.slots[k]];
    OneMailboxLowers(s);
  }

  lemma OneMailboxLowers(s: State)
    requires Inv(s) && CallerEnabled(s)
    requires s.caller.Write? || s.caller.Publish? || s.caller.Wake? || s.caller.StopWake? ||
               (s.caller.StopPublish? && s.caller.k < |s.slots|)
    ensures var t, k := CallerNext(s), s.caller.k;
            k < |s.workers| == |t.workers| == |t.slots| &&
            CallerWeight(t) + WorkerWeight(t.workers[k], t.slots[k].generation)
            < CallerWeight(s) + WorkerWeight(s.workers[k], s.slots[k].generation)
  {
    assert WorkerInv(s, s.caller.k);
  }

  lemma CallerStepLowers(s: State)
    requires Inv(s) && CallerEnabled(s)
    ensures Shaped(CallerNext(s)) && Measure(CallerNext(s)) < Measure(s)
  {
    if s.caller.Write? || s.caller.Publish? || s.caller.Wake? || s.caller.StopWake? ||
        (s.caller.StopPublish? && s.caller.k < |s.slots|) {
      MailboxStepLowers(s);
    }
  }

  /**
   Every ordinary step lowers the measure, so a call returns, and a shutdown
   ends, after at most that many steps besides spurious wake-ups.
   */
  lemma OrdinaryStepsLower(s: State, threshold: nat, a: Action)
    requires Inv(s) && Ordinary(a) && Enabled(s, a)
    ensures Shaped(Next(s, threshold, a)) && Measure(Next(s, threshold, a)) < Measure(s)
  {
    match a
    case CallerStep => CallerStepLowers(s);
    case WorkerStep(i, sawStop) => WorkerStepLowers(s, i, sawStop);
  }

  /** Left to run, an operation under way ends: with the caller idle or stopped. */
  lemma {:induction false} OperationsEnd(s: State, threshold: nat) returns (states: seq<State>, actions: seq<Action>)
    requires Inv(s) && !s.caller.Idle? && !s.caller.Stopped?
    ensures |states| == |actions| + 1 && |actions| <= Measure(s) && states[0] == s
    ensures forall k | 0 <= k < |actions| ::
              Shaped(states[k]) && Ordinary(actions[k]) && Enabled(states[k], actions[k])
              && states[k + 1] == Next(states[k], threshold, actions[k])
    ensures Inv(states[|actions|]) && (states[|actions|].caller.Idle? || states[|actions|].caller.Stopped?)
    decreases Measure(s)
  {
    SomeThreadCanStep(s);
    var a :| Ordinary(a) && Enabled(s, a);
    OrdinaryStepsLower(s, threshold, a);
    NextKeeps(s, threshold, a);
    var t := Next(s, threshold, a);
    if t.caller.Idle? || t.caller.Stopped? {
      states, actions := [s, t], [a];
    } else {
      var rest, more := OperationsEnd(t, threshold);
      states, actions := [s] + rest, [a] + more;
    }
  }

  /** After a shutdown every worker loop has exited. */
  lemma StoppedMeansExited(threshold: nat, workers: nat, states: seq<State>, actions: seq<Action>, n: nat)
    requires IsRun(threshold, workers, states, actions) && n <= |actions| && states[n].caller.Stopped?
    ensures forall i | 0 <= i < |states[n].workers| :: states[n].workers[i].pc.Exited?
  {
    RunsKeep(threshold, workers, states, actions, n);
  }
}
