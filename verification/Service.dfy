/**
 The worker loop of Service in src/server.cpp as a step system. HTTP threads
 enqueue, cancel and stop between any two steps of the worker; what the
 tokenizer, the engine and the clock do is a choice of the environment.
 */
module Services {

  const CAPACITY := 64

  datatype Kind = Decision(questions: nat) | CountOnly | Generate

  /** admitted and replied count how often the two promises have been set. */
  datatype Job = Job(kind: Kind, question: nat, cancelled: bool, admitted: nat, replied: nat)

  datatype Item = Item(id: nat, job: nat)

  datatype Pc = Top | Admit | EngineStep | FailAll | Visit(k: nat) | Returned

  datatype State = State(
    jobs: seq<Job>, pending: seq<nat>, batch: seq<nat>, active: seq<Item>, finished: seq<nat>,
    outstanding: nat, stopping: bool, sawStop: bool, pc: Pc,
    nextId: nat, releases: multiset<nat>, doubled: set<nat>)

  /** What becomes of a job that is neither stopped nor cancelled. */
  datatype Admission = Refused | Counted | Submitted | SubmitFailed | Threw

  /** What the worker finds when it visits an active job. */
  datatype Finding =
    | Deadline
    | NoRoom           // a stream whose queue is full
    | ReadFailed
    | TextThrew        // a generated token could not be decoded or queued
    | Draining         // the engine is complete, but tokens are still buffered
    | StillRunning
    | Failed
    | EngineCancelled
    | Completed        // the last question, or a whole generation, or cancelled meanwhile
    | AnswerThrew
    | NextSubmitted    // a further question was submitted
    | NextFailed       // its submission returned no id
    | NextThrew        // its submission threw

  datatype Action =
    | Enqueue(kind: Kind)
    | Cancel(j: nat)
    | Stop
    | Swap
    | AdmitOne(outcome: Admission)
    | BatchDone
    | StepOk
    | StepFailed
    | FailOne
    | VisitOne(finding: Finding)
    | PassDone

  // ----- pieces of a step -----

  function SetJob(s: State, j: nat, job: Job): State
    requires j < |s.jobs|
  {
    s.(jobs := s.jobs[j := job])
  }

  /** `ready`: the admission promise is set once. */
  function Ready(s: State, j: nat): State
    requires j < |s.jobs|
  {
    if s.jobs[j].admitted == 0 then SetJob(s, j, s.jobs[j].(admitted := 1)) else s
  }

  /** `finish`: the final reply, and one outstanding job fewer. */
  function Finish(s: State, j: nat): State
    requires j < |s.jobs| && s.outstanding > 0
  {
    var t := Ready(s, j);
    SetJob(t, j, t.jobs[j].(replied := t.jobs[j].replied + 1)).(outstanding := s.outstanding - 1,
                                                                finished := s.finished + [j])
  }

  function Release(s: State, id: nat): State {
    s.(releases := s.releases + multiset{id}, doubled := if id in s.releases then s.doubled + {id} else s.doubled)
  }

  function Erase(active: seq<Item>, k: nat): seq<Item>
    requires k < |active|
  {
    active[..k] + active[k + 1..]
  }

  /** Releases the engine request of item k, replies to its job and drops it. */
  function Drop(s: State, k: nat): State
    requires k < |s.active| && s.active[k].job < |s.jobs| && s.outstanding > 0
  {
    Finish(Release(s, s.active[k].id), s.active[k].job).(active := Erase(s.active, k))
  }

  // ----- the steps -----

  predicate IsIdle(s: State) {
    s.active == [] && s.pending == [] && !s.stopping
  }

  predicate Possible(job: Job, outcome: Admission) {
    match job.kind
    case Decision(_) => !outcome.Counted?
    case CountOnly => outcome.Refused? || outcome.Counted? || outcome.Threw?
    case Generate => !outcome.Counted?
  }

  /** The findings that the branches of the visit allow for this job. */
  predicate CanFind(s: State, job: Job, finding: Finding) {
    var followUp := job.kind.Decision? && job.question + 1 < job.kind.questions && !job.cancelled && !s.sawStop;
    match finding
    case Deadline => true
    case NoRoom => true
    case TextThrew => !job.kind.Decision?
    case Draining => !job.kind.Decision?
    case Completed => true    // not the last question, if a cancellation arrives during the visit
    case AnswerThrew => true
    case NextSubmitted => followUp
    case NextFailed => followUp
    case NextThrew => followUp
    case _ => true
  }

  predicate Enabled(s: State, a: Action) {
    match a
    case Enqueue(kind) => kind.Decision? ==> kind.questions > 0
    case Cancel(j) => j < |s.jobs|
    case Stop => true
    case Swap => s.pc.Top? && !IsIdle(s)
    case AdmitOne(outcome) =>
      s.pc.Admit? && s.batch != [] && s.batch[0] < |s.jobs| && s.outstanding > 0 &&
          Possible(s.jobs[s.batch[0]], outcome)
    case BatchDone => s.pc.Admit? && s.batch == []
    case StepOk => s.pc.EngineStep?
    case StepFailed => s.pc.EngineStep? && s.active != []
    case FailOne => s.pc.FailAll? && s.active != [] && s.active[0].job < |s.jobs| && s.outstanding > 0
    case VisitOne(finding) =>
      s.pc.Visit? && s.pc.k < |s.active| && s.active[s.pc.k].job < |s.jobs| && s.outstanding > 0
      && CanFind(s, s.jobs[s.active[s.pc.k].job], finding)
    case PassDone => (s.pc.Visit? && s.pc.k >= |s.active|) || (s.pc.FailAll? && s.active == [])
  }

  function NextEnqueue(s: State, kind: Kind): State {
    if s.stopping || s.outstanding >= CAPACITY then s
    else s.(jobs := s.jobs + [Job(kind, 0, false, 0, 0)], pending := s.pending + [|s.jobs|],
            outstanding := s.outstanding + 1)
  }

  function NextAdmit(s: State, outcome: Admission): State
    requires Enabled(s, AdmitOne(outcome))
  {
    var j := s.batch[0];
    var t := s.(batch := s.batch[1..]);
    if s.sawStop || s.jobs[j].cancelled || !outcome.Submitted? then Finish(t, j)
    else
      var u := t.(active := s.active + [Item(s.nextId, j)], nextId := s.nextId + 1);
      if s.jobs[j].kind.Decision? then u else Ready(u, j)
  }

  /** `++question`, for a decision. */
  function CountAnswer(s: State, j: nat): State
    requires j < |s.jobs|
  {
    SetJob(s, j, s.jobs[j].(question := if s.jobs[j].kind.Decision? then s.jobs[j].question + 1
                            else s.jobs[j].question))
  }

  /** The old request is released, and the next question holds a fresh one. */
  function NextQuestion(s: State, k: nat): State
    requires k < |s.active| && s.active[k].job < |s.jobs|
  {
    CountAnswer(Release(s, s.active[k].id), s.active[k].job)
      .(active := s.active[k := Item(s.nextId, s.active[k].job)], nextId := s.nextId + 1, pc := Visit(k + 1))
  }

  function NextVisit(s: State, finding: Finding): State
    requires Enabled(s, VisitOne(finding))
  {
    var k := s.pc.k;
    var item := s.active[k];
    var job := s.jobs[item.job];
    if finding.Deadline? || job.cancelled || s.sawStop then Drop(s, k)
    else match finding
         case NoRoom => s.(pc := Visit(k + 1))
         case Draining => s.(pc := Visit(k + 1))
         case StillRunning => s.(pc := Visit(k + 1))
         case NextSubmitted => NextQuestion(s, k)
         case NextFailed => Finish(Release(s, item.id), item.job).(active := Erase(s.active, k))
         case NextThrew => Drop(Release(s, item.id), k)
         case Completed => Drop(CountAnswer(s, item.job), k)
         case _ => Drop(s, k)
  }

  function Next(s: State, a: Action): State
    requires Enabled(s, a)
  {
    match a
    case Enqueue(kind) => NextEnqueue(s, kind)
    case Cancel(j) => SetJob(s, j, s.jobs[j].(cancelled := true))
    case Stop => s.(stopping := true)
    case Swap => s.(batch := s.pending, pending := [], sawStop := s.stopping, pc := Admit)
    case AdmitOne(outcome) => NextAdmit(s, outcome)
    case BatchDone => s.(pc := EngineStep)
    case StepOk => s.(pc := Visit(0))
    case StepFailed => s.(pc := FailAll)
    case FailOne => Drop(s, 0)
    case VisitOne(finding) => NextVisit(s, finding)
    case PassDone => s.(pc := if s.sawStop && s.active == [] then Returned else Top)
  }

  const START := State([], [], [], [], [], 0, false, false, Top, 1, multiset{}, {})

  // ----- the invariant -----

  function JobsOf(active: seq<Item>): (js: seq<nat>)
    ensures |js| == |active| && forall i | 0 <= i < |active| :: js[i] == active[i].job
  {
    seq(|active|, i requires 0 <= i < |active| => active[i].job)
  }

  function IdsOf(active: seq<Item>): (ids: seq<nat>)
    ensures |ids| == |active| && forall i | 0 <= i < |active| :: ids[i] == active[i].id
  {
    seq(|active|, i requires 0 <= i < |active| => active[i].id)
  }

  /** Every list a job can be on. */
  function Places(s: State): multiset<nat> {
    multiset(s.pending) + multiset(s.batch) + multiset(JobsOf(s.active)) + multiset(s.finished)
  }

  ghost predicate PlacedOnce(s: State) {
    forall j: nat :: Places(s)[j] == if j < |s.jobs| then 1 else 0
  }

  /** A job still waiting has heard nothing; a finished one has had both answers. */
  ghost predicate JobInv(s: State, j: nat)
    requires j < |s.jobs|
  {
    var job := s.jobs[j];
    && job.replied == (if j in s.finished then 1 else 0)
    && (j in s.finished ==> job.admitted == 1)
    && (j in s.pending || j in s.batch ==> job.admitted == 0)
    && (j in JobsOf(s.active) ==> job.admitted == if job.kind.Decision? then 0 else 1)
    && (job.kind.Decision? && j !in s.finished ==> job.question < job.kind.questions)
  }

  /** An id is held by one active job or has been released: once, or twice if doubled. */
  ghost predicate IdsInv(s: State) {
    && s.nextId > 0
    && forall id: nat ::
         && multiset(IdsOf(s.active))[id] <= 1
         && (multiset(IdsOf(s.active))[id] == 1 ==> 0 < id < s.nextId)
         && s.releases[id] == (if id == 0 || id >= s.nextId || multiset(IdsOf(s.active))[id] == 1 then 0
                               else if id in s.doubled then 2 else 1)
         && (id in s.doubled ==> 0 < id < s.nextId && multiset(IdsOf(s.active))[id] == 0)
  }

  ghost predicate FlowInv(s: State) {
    && s.outstanding == |s.pending| + |s.batch| + |s.active| <= CAPACITY
    && (!s.pc.Admit? ==> s.batch == [])
    && (s.sawStop ==> s.stopping && s.pending == [])
    && (s.pc.Visit? ==> s.pc.k <= |s.active|)
    && (s.pc.Returned? ==> s.sawStop && s.active == [])
  }

  ghost predicate Inv(s: State) {
    && PlacedOnce(s)
    && (forall j | 0 <= j < |s.jobs| :: JobInv(s, j))
    && IdsInv(s)
    && FlowInv(s)
  }

  lemma StartHolds()
    ensures Inv(START)
  {
    assert JobsOf([]) == [] && IdsOf([]) == [];
  }

  // ----- multisets of lists -----

  lemma EraseJobs(active: seq<Item>, k: nat)
    requires k < |active|
    ensures multiset(JobsOf(Erase(active, k))) + multiset{active[k].job} == multiset(JobsOf(active))
    ensures multiset(IdsOf(Erase(active, k))) + multiset{active[k].id} == multiset(IdsOf(active))
  {
    var js, ids := JobsOf(active), IdsOf(active);
    assert JobsOf(Erase(active, k)) == js[..k] + js[k + 1..];
    assert IdsOf(Erase(active, k)) == ids[..k] + ids[k + 1..];
    EraseOne(js, k);
    EraseOne(ids, k);
  }

  lemma EraseOne(xs: seq<nat>, k: nat)
    requires k < |xs|
    ensures multiset(xs[..k] + xs[k + 1..]) + multiset{xs[k]} == multiset(xs)
  {
    assert xs == xs[..k] + [xs[k]] + xs[k + 1..];
  }

  lemma AppendItem(active: seq<Item>, item: Item)
    ensures multiset(JobsOf(active + [item])) == multiset(JobsOf(active)) + multiset{item.job}
    ensures multiset(IdsOf(active + [item])) == multiset(IdsOf(active)) + multiset{item.id}
  {
    assert JobsOf(active + [item]) == JobsOf(active) + [item.job];
    assert IdsOf(active + [item]) == IdsOf(active) + [item.id];
  }

  lemma ReplaceItem(active: seq<Item>, k: nat, id: nat)
    requires k < |active|
    ensures JobsOf(active[k := Item(id, active[k].job)]) == JobsOf(active)
    ensures multiset(IdsOf(active[k := Item(id, active[k].job)])) + multiset{active[k].id} ==
              multiset(IdsOf(active)) + multiset{id}
  {
    var next := active[k := Item(id, active[k].job)];
    var ids := IdsOf(active);
    assert IdsOf(next) == ids[k := id];
    assert ids == ids[..k] + [ids[k]] + ids[k + 1..];
    assert ids[k := id] == ids[..k] + [id] + ids[k + 1..];
  }

  lemma HeadOf(s: seq<nat>)
    requires s != []
    ensures multiset(s) == multiset{s[0]} + multiset(s[1..])
  {
    assert s == [s[0]] + s[1..];
  }

  lemma AppendOne(s: seq<nat>, x: nat)
    ensures multiset(s + [x]) == multiset(s) + multiset{x}
  {}

  /** On one list, so on none of the others. */
  lemma OnlyOnePlace(s: State, j: nat)
    requires PlacedOnce(s)
    ensures j in s.pending || j in s.batch || j in JobsOf(s.active) || j in s.finished ==> j < |s.jobs|
    ensures j in s.finished ==> j !in s.pending && j !in s.batch && j !in JobsOf(s.active)
    ensures j in JobsOf(s.active) ==> j !in s.pending && j !in s.batch && j !in s.finished
    ensures j in s.batch ==> j !in s.pending && j !in JobsOf(s.active) && j !in s.finished
  {
    assert Places(s)[j] == multiset(s.pending)[j] + multiset(s.batch)[j] + multiset(JobsOf(s.active))[j] +
        multiset(s.finished)[j];
    assert j in s.pending <==> multiset(s.pending)[j] > 0;
    assert j in s.batch <==> multiset(s.batch)[j] > 0;
    assert j in JobsOf(s.active) <==> multiset(JobsOf(s.active))[j] > 0;
    assert j in s.finished <==> multiset(s.finished)[j] > 0;
  }

  // ----- finishing a job keeps the invariant -----

  /** The jobs after `finish`, given where each of them was. */
  lemma FinishJobs(s: State, t: State, j: nat)
    requires PlacedOnce(s) && forall i | 0 <= i < |s.jobs| :: JobInv(s, i)
    requires j < |s.jobs| == |t.jobs| && j !in s.finished && t.finished == s.finished + [j]
    requires t.jobs == s.jobs[j := t.jobs[j]]
    requires t.jobs[j].admitted == 1 && t.jobs[j].replied == s.jobs[j].replied + 1
    requires forall i :: (i in t.pending ==> i in s.pending) && (i in t.batch ==> i in s.batch) &&
               (i in JobsOf(t.active) ==> i in JobsOf(s.active))
    requires j !in t.pending && j !in t.batch && j !in JobsOf(t.active)
    ensures forall i | 0 <= i < |t.jobs| :: JobInv(t, i)
  {
    forall i | 0 <= i < |t.jobs| ensures JobInv(t, i) {
      assert JobInv(s, i);
      assert i in t.finished <==> i in s.finished || i == j;
    }
  }

  lemma FinishValue(s: State, j: nat)
    requires j < |s.jobs| && s.outstanding > 0 && s.jobs[j].admitted <= 1
    ensures Finish(s, j) == s.(jobs := s.jobs[j := s.jobs[j].(admitted := 1, replied := s.jobs[j].replied + 1)],
                               outstanding := s.outstanding - 1, finished := s.finished + [j])
  {
    var t := Ready(s, j);
    var done := s.jobs[j].(admitted := 1, replied := s.jobs[j].replied + 1);
    assert t.jobs[j := done] == s.jobs[j := done];
  }

  lemma SameLists(s: State, t: State)
    requires PlacedOnce(s) && IdsInv(s) && |t.jobs| == |s.jobs|
    requires t.pending == s.pending && t.batch == s.batch && t.active == s.active && t.finished == s.finished
    requires t.nextId == s.nextId && t.releases == s.releases && t.doubled == s.doubled
    ensures PlacedOnce(t) && IdsInv(t)
  {
    assert Places(t) == Places(s);
  }

  lemma SetQuestionKeeps(s: State, j: nat, question: nat)
    requires Inv(s) && j < |s.jobs| && (s.jobs[j].kind.Decision? && j !in s.finished ==>
                                        question < s.jobs[j].kind.questions)
    ensures Inv(SetJob(s, j, s.jobs[j].(question := question)))
  {
    var t := SetJob(s, j, s.jobs[j].(question := question));
    forall i | 0 <= i < |t.jobs| ensures JobInv(t, i) {
      assert JobInv(s, i);
    }
    SameLists(s, t);
  }

  lemma ActiveJob(s: State, k: nat)
    requires Inv(s) && k < |s.active|
    ensures var j := s.active[k].job;
            && j in JobsOf(s.active) && j < |s.jobs| && j !in s.finished && j !in s.pending && j !in s.batch
            && j !in JobsOf(Erase(s.active, k)) && s.jobs[j].admitted <= 1
    ensures forall i :: i in JobsOf(Erase(s.active, k)) ==> i in JobsOf(s.active)
    ensures s.outstanding > 0
  {
    var j := s.active[k].job;
    assert JobsOf(s.active)[k] == j;
    OnlyOnePlace(s, j);
    EraseJobs(s.active, k);
    assert JobInv(s, j);
    assert Places(s)[j] == multiset(s.pending)[j] + multiset(s.batch)[j] + multiset(JobsOf(s.active))[j] +
        multiset(s.finished)[j];
    forall i | i in JobsOf(Erase(s.active, k)) ensures i in JobsOf(s.active) {
      assert i in multiset(JobsOf(Erase(s.active, k)));
      assert i in multiset(JobsOf(s.active));
    }
    assert multiset(JobsOf(Erase(s.active, k)))[j] == 0;
  }

  /** Item k's job moves from active to finished. */
  lemma MovedToFinished(s: State, t: State, k: nat)
    requires Inv(s) && k < |s.active| && |t.jobs| == |s.jobs|
    requires t.active == Erase(s.active, k) && t.finished == s.finished + [s.active[k].job]
    requires t.pending == s.pending && t.batch == s.batch
    ensures PlacedOnce(t)
  {
    EraseJobs(s.active, k);
    AppendOne(s.finished, s.active[k].job);
    assert Places(t) == Places(s);
  }

  /** Item k's id is no longer held: released once, or twice and then doubled. */
  lemma IdGone(s: State, t: State, k: nat, twice: bool)
    requires Inv(s) && k < |s.active| && t.active == Erase(s.active, k) && t.nextId == s.nextId
    requires t.releases == s.releases + (if twice then multiset{s.active[k].id, s.active[k].id}
                                         else multiset{s.active[k].id})
    requires t.doubled == if twice then s.doubled + {s.active[k].id} else s.doubled
    ensures IdsInv(t)
  {
    var id := s.active[k].id;
    EraseJobs(s.active, k);
    assert IdsOf(s.active)[k] == id;
    assert id in multiset(IdsOf(s.active));
    forall i: nat ensures
      && multiset(IdsOf(t.active))[i] == multiset(IdsOf(s.active))[i] - (if i == id then 1 else 0)
      && t.releases[i] == s.releases[i] + (if i != id then 0 else if twice then 2 else 1) {}
  }

  lemma HeldIsUnreleased(s: State, k: nat)
    requires Inv(s) && k < |s.active|
    ensures s.active[k].id !in s.releases && 0 < s.active[k].id < s.nextId
  {
    assert IdsOf(s.active)[k] == s.active[k].id;
    assert s.active[k].id in multiset(IdsOf(s.active));
    assert s.releases[s.active[k].id] == 0;
  }

  lemma DropKeeps(s: State, k: nat)
    requires Inv(s) && k < |s.active| && (s.pc.Visit? ==> s.pc.k <= k)
    ensures s.active[k].job < |s.jobs| && s.outstanding > 0 && Inv(Drop(s, k))
  {
    ActiveJob(s, k);
    HeldIsUnreleased(s, k);
    var j := s.active[k].job;
    FinishValue(Release(s, s.active[k].id), j);
    var t := Drop(s, k);
    MovedToFinished(s, t, k);
    IdGone(s, t, k, false);
    FinishJobs(s, t, j);
  }

  /** After `release` and an exception, the handler releases the same id again. */
  lemma DoubleDropKeeps(s: State, k: nat)
    requires Inv(s) && k < |s.active| && (s.pc.Visit? ==> s.pc.k <= k)
    ensures s.active[k].job < |s.jobs| && s.outstanding > 0 && Inv(Drop(Release(s, s.active[k].id), k))
    ensures Drop(Release(s, s.active[k].id), k).releases[s.active[k].id] == 2
  {
    ActiveJob(s, k);
    HeldIsUnreleased(s, k);
    var j := s.active[k].job;
    var id := s.active[k].id;
    FinishValue(Release(Release(s, id), id), j);
    var t := Drop(Release(s, id), k);
    MovedToFinished(s, t, k);
    IdGone(s, t, k, true);
    FinishJobs(s, t, j);
  }

  /** A failed follow-up holds no id, so only the old one has been released. */
  lemma NextFailedKeeps(s: State, k: nat)
    requires Inv(s) && k < |s.active| && (s.pc.Visit? ==> s.pc.k <= k)
    ensures s.active[k].job < |s.jobs| && s.outstanding > 0
    ensures Inv(Finish(Release(s, s.active[k].id), s.active[k].job).(active := Erase(s.active, k)))
  {
    DropKeeps(s, k);
    ActiveJob(s, k);
    FinishValue(Release(s, s.active[k].id), s.active[k].job);
  }

  lemma NextSubmittedKeeps(s: State, k: nat)
    requires Inv(s) && k < |s.active| && s.pc == Visit(k)
    requires s.active[k].job < |s.jobs| && s.jobs[s.active[k].job].kind.Decision?
    requires s.jobs[s.active[k].job].question + 1 < s.jobs[s.active[k].job].kind.questions
    ensures Inv(NextQuestion(s, k))
  {
    var item := s.active[k];
    SetQuestionKeeps(s, item.job, s.jobs[item.job].question + 1);
    var u := CountAnswer(s, item.job);
    var t := NextQuestion(s, k);
    ReplaceItem(s.active, k, s.nextId);
    assert Places(t) == Places(u);
    forall i | 0 <= i < |t.jobs| ensures JobInv(t, i) {
      assert JobInv(u, i);
    }
    IdReplaced(s, t, k);
  }

  /** Item k's old id is released and a fresh one held. */
  lemma IdReplaced(s: State, t: State, k: nat)
    requires Inv(s) && k < |s.active| && t.active == s.active[k := Item(s.nextId, s.active[k].job)]
    requires t.nextId == s.nextId + 1 && t.releases == s.releases + multiset{s.active[k].id} && t.doubled == s.doubled
    ensures IdsInv(t)
  {
    var id := s.active[k].id;
    HeldIsUnreleased(s, k);
    ReplaceItem(s.active, k, s.nextId);
    assert IdsOf(s.active)[k] == id && id in multiset(IdsOf(s.active));
    var old_, new_ := multiset(IdsOf(s.active)), multiset(IdsOf(t.active));
    assert old_[s.nextId] == 0;
    forall i: nat ensures
      && new_[i] + (if i == id then 1 else 0) == old_[i] + (if i == s.nextId then 1 else 0)
      && t.releases[i] == s.releases[i] + (if i == id then 1 else 0)
    {
      assert (new_ + multiset{id})[i] == (old_ + multiset{s.nextId})[i];
    }
  }

  lemma PassedOver(s: State)
    requires Inv(s) && s.pc.Visit? && s.pc.k < |s.active|
    ensures Inv(s.(pc := Visit(s.pc.k + 1)))
  {
    var t := s.(pc := Visit(s.pc.k + 1));
    SameLists(s, t);
    forall i | 0 <= i < |s.jobs| ensures JobInv(t, i) {
      assert JobInv(s, i);
    }
  }

  lemma VisitKeeps(s: State, finding: Finding)
    requires Inv(s) && Enabled(s, VisitOne(finding))
    ensures Inv(NextVisit(s, finding))
  {
    var k := s.pc.k;
    if finding.Deadline? || s.jobs[s.active[k].job].cancelled || s.sawStop {
      DropKeeps(s, k);
    } else {
      match finding
      case NoRoom => PassedOver(s);
      case Draining => PassedOver(s);
      case StillRunning => PassedOver(s);
      case NextSubmitted => NextSubmittedKeeps(s, k);
      case _ => EndingKeeps(s, finding);
    }
  }

  lemma EndingKeeps(s: State, finding: Finding)
    requires Inv(s) && Enabled(s, VisitOne(finding)) && !s.jobs[s.active[s.pc.k].job].cancelled && !s.sawStop
    requires !finding.NoRoom? && !finding.Draining? && !finding.StillRunning? && !finding.NextSubmitted?
    ensures Inv(NextVisit(s, finding))
  {
    var k := s.pc.k;
    match finding
    case NextFailed => NextFailedKeeps(s, k);
    case NextThrew => DoubleDropKeeps(s, k);
    case Completed => CompletedKeeps(s, k);
    case _ => DropKeeps(s, k);
  }

  /** The last question has been counted before the job is finished. */
  lemma CompletedKeeps(s: State, k: nat)
    requires Inv(s) && k < |s.active| && (s.pc.Visit? ==> s.pc.k <= k)
    ensures s.active[k].job < |s.jobs| && s.outstanding > 0 && Inv(Drop(CountAnswer(s, s.active[k].job), k))
  {
    ActiveJob(s, k);
    HeldIsUnreleased(s, k);
    var j := s.active[k].job;
    var u := CountAnswer(s, j);
    FinishValue(Release(u, s.active[k].id), j);
    var t := Drop(u, k);
    var done := u.jobs[j].(admitted := 1, replied := s.jobs[j].replied + 1);
    assert s.jobs[j := u.jobs[j]][j := done] == s.jobs[j := done];
    MovedToFinished(s, t, k);
    IdGone(s, t, k, false);
    FinishJobs(s, t, j);
  }

  lemma EnqueueKeeps(s: State, kind: Kind)
    requires Inv(s) && (kind.Decision? ==> kind.questions > 0)
    ensures Inv(NextEnqueue(s, kind))
  {
    var t := NextEnqueue(s, kind);
    if t != s {
      var j := |s.jobs|;
      AppendOne(s.pending, j);
      assert Places(t) == Places(s) + multiset{j};
      OnlyOnePlace(s, j);
      forall i | 0 <= i < |t.jobs| ensures JobInv(t, i) {
        if i < j {
          assert JobInv(s, i);
        } else {
          assert i !in s.finished && i !in JobsOf(s.active) && i !in s.batch;
        }
      }
    }
  }

  /** A job is taken, to wait behind the others, exactly while there is room and no stop; else nothing changes. */
  lemma EnqueueTakesIff(s: State, kind: Kind)
    requires Inv(s) && (kind.Decision? ==> kind.questions > 0)
    ensures var t, j := Next(s, Enqueue(kind)), |s.jobs|;
            && (t.pending == s.pending + [j] && t.jobs == s.jobs + [Job(kind, 0, false, 0, 0)] <==>
                !s.stopping && |s.pending| + |s.batch| + |s.active| < 64)
            && (t.pending != s.pending + [j] ==> t == s)
  {
    assert |s.pending + [|s.jobs|]| == |s.pending| + 1;
  }

  lemma SwapKeeps(s: State)
    requires Inv(s) && s.pc.Top?
    ensures Inv(s.(batch := s.pending, pending := [], sawStop := s.stopping, pc := Admit))
  {
    var t := s.(batch := s.pending, pending := [], sawStop := s.stopping, pc := Admit);
    assert Places(t) == Places(s);
    forall i | 0 <= i < |t.jobs| ensures JobInv(t, i) {
      assert JobInv(s, i);
    }
  }

  lemma FirstOfBatch(s: State)
    requires Inv(s) && s.batch != []
    ensures var j := s.batch[0];
            && j < |s.jobs| && j !in s.finished && j !in s.pending && j !in s.batch[1..] && j !in JobsOf(s.active)
            && s.jobs[j].admitted == 0 && s.outstanding > 0
    ensures forall i :: i in s.batch[1..] ==> i in s.batch
  {
    var j := s.batch[0];
    OnlyOnePlace(s, j);
    HeadOf(s.batch);
    assert JobInv(s, j);
    assert Places(s)[j] == multiset(s.pending)[j] + multiset(s.batch)[j] + multiset(JobsOf(s.active))[j] +
        multiset(s.finished)[j];
    assert multiset(s.batch[1..])[j] == 0;
  }

  lemma RefuseKeeps(s: State)
    requires Inv(s) && s.batch != [] && s.pc.Admit?
    ensures s.batch[0] < |s.jobs| && s.outstanding > 0 && Inv(Finish(s.(batch := s.batch[1..]), s.batch[0]))
  {
    FirstOfBatch(s);
    var j := s.batch[0];
    var u := s.(batch := s.batch[1..]);
    FinishValue(u, j);
    var t := Finish(u, j);
    HeadOf(s.batch);
    AppendOne(s.finished, j);
    assert Places(t) == Places(s);
    FinishJobs(s, t, j);
    IdsUnchanged(s, t);
  }

  lemma IdsUnchanged(s: State, t: State)
    requires IdsInv(s) && t.active == s.active && t.nextId == s.nextId && t.releases == s.releases &&
               t.doubled == s.doubled
    ensures IdsInv(t)
  {}

  lemma SubmitKeeps(s: State)
    requires Inv(s) && s.batch != [] && s.pc.Admit? && s.batch[0] < |s.jobs| && s.outstanding > 0
    requires Enabled(s, AdmitOne(Submitted)) && !s.sawStop && !s.jobs[s.batch[0]].cancelled
    ensures Inv(NextAdmit(s, Submitted))
  {
    FirstOfBatch(s);
    var j := s.batch[0];
    var t := NextAdmit(s, Submitted);
    var item := Item(s.nextId, j);
    HeadOf(s.batch);
    AppendItem(s.active, item);
    assert t.active == s.active + [item];
    assert Places(t) == Places(s);
    assert JobsOf(t.active) == JobsOf(s.active) + [j];
    forall i | 0 <= i < |t.jobs| ensures JobInv(t, i) {
      SubmittedJob(s, t, i);
    }
    IdAdded(s, t, j);
  }

  lemma SubmittedJob(s: State, t: State, i: nat)
    requires s.batch != [] && s.pc.Admit? && s.batch[0] < |s.jobs| && s.outstanding > 0
    requires Enabled(s, AdmitOne(Submitted)) && !s.sawStop && !s.jobs[s.batch[0]].cancelled
    requires t == NextAdmit(s, Submitted) && i < |s.jobs| == |t.jobs| && JobInv(s, i)
    requires JobsOf(t.active) == JobsOf(s.active) + [s.batch[0]]
    requires s.batch[0] !in s.finished && JobInv(s, s.batch[0]) && s.batch[0] !in s.pending &&
               s.batch[0] !in s.batch[1..]
    ensures JobInv(t, i)
  {
    assert i in JobsOf(t.active) <==> i in JobsOf(s.active) || i == s.batch[0];
    assert i in s.batch[1..] ==> i in s.batch;
  }

  lemma IdAdded(s: State, t: State, j: nat)
    requires IdsInv(s) && t.active == s.active + [Item(s.nextId, j)] && t.nextId == s.nextId + 1
    requires t.releases == s.releases && t.doubled == s.doubled
    ensures IdsInv(t)
  {
    AppendItem(s.active, Item(s.nextId, j));
    assert multiset(IdsOf(s.active))[s.nextId] == 0;
    forall i: nat ensures multiset(IdsOf(t.active))[i] ==
        multiset(IdsOf(s.active))[i] + (if i == s.nextId then 1 else 0) {}
  }

  /** Every step of the worker and of the HTTP threads keeps the invariant. */
  lemma NextKeeps(s: State, a: Action)
    requires Inv(s) && Enabled(s, a)
    ensures Inv(Next(s, a))
  {
    match a
    case Enqueue(kind) => EnqueueKeeps(s, kind);
    case Cancel(j) =>
      forall i | 0 <= i < |s.jobs| ensures JobInv(Next(s, a), i) {
        assert JobInv(s, i);
      }
      SameLists(s, Next(s, a));
    case Swap => SwapKeeps(s);
    case AdmitOne(outcome) =>
      if s.sawStop || s.jobs[s.batch[0]].cancelled || !outcome.Submitted? {
        RefuseKeeps(s);
      } else {
        SubmitKeeps(s);
      }
    case FailOne => DropKeeps(s, 0);
    case VisitOne(finding) => VisitKeeps(s, finding);
    case _ => OtherKeeps(s, a);
  }

  lemma OtherKeeps(s: State, a: Action)
    requires Inv(s) && Enabled(s, a) && (a.Stop? || a.BatchDone? || a.StepOk? || a.StepFailed? || a.PassDone?)
    ensures Inv(Next(s, a))
  {
    forall i | 0 <= i < |s.jobs| ensures JobInv(Next(s, a), i) {
      assert JobInv(s, i);
    }
    SameLists(s, Next(s, a));
  }

  // ----- runs -----

  ghost predicate IsRun(states: seq<State>, actions: seq<Action>) {
    && |states| == |actions| + 1
    && states[0] == START
    && forall k | 0 <= k < |actions| :: Enabled(states[k], actions[k]) && states[k + 1] == Next(states[k], actions[k])
  }

  lemma {:induction false} RunsKeep(states: seq<State>, actions: seq<Action>, n: nat)
    requires IsRun(states, actions) && n <= |actions|
    ensures Inv(states[n])
  {
    if n == 0 {
      StartHolds();
    } else {
      RunsKeep(states, actions, n - 1);
      NextKeeps(states[n - 1], actions[n - 1]);
    }
  }

  /**
   In every run each enqueued job is in exactly one place, the outstanding count
   is the number of unfinished ones and never exceeds its bound, and a job has
   its one reply and one admission exactly from when it is finished.
   */
  lemma JobsAreAccountedFor(states: seq<State>, actions: seq<Action>, n: nat, j: nat)
    requires IsRun(states, actions) && n <= |actions| && j < |states[n].jobs|
    ensures var s := states[n];
            && Places(s)[j] == 1
            && s.outstanding == |s.pending| + |s.batch| + |s.active| <= CAPACITY
            && s.jobs[j].replied == (if j in s.finished then 1 else 0)
            && s.jobs[j].admitted <= 1 && (j in s.finished ==> s.jobs[j].admitted == 1)
  {
    RunsKeep(states, actions, n);
    var s := states[n];
    assert JobInv(s, j);
    assert Places(s)[j] == multiset(s.pending)[j] + multiset(s.batch)[j] + multiset(JobsOf(s.active))[j] +
        multiset(s.finished)[j];
    assert j in s.pending <==> multiset(s.pending)[j] > 0;
    assert j in s.batch <==> multiset(s.batch)[j] > 0;
    assert j in JobsOf(s.active) <==> multiset(JobsOf(s.active))[j] > 0;
    assert j in s.finished <==> multiset(s.finished)[j] > 0;
  }

  /** When the worker returns, every job has been answered and every id given back. */
  lemma ReturnLeavesNothing(states: seq<State>, actions: seq<Action>, n: nat)
    requires IsRun(states, actions) && n <= |actions| && states[n].pc.Returned?
    ensures var s := states[n];
            && s.outstanding == 0 && s.pending == [] && s.batch == [] && s.active == []
            && (forall j | 0 <= j < |s.jobs| :: j in s.finished && s.jobs[j].replied == 1 && s.jobs[j].admitted == 1)
            && (forall id: nat | 0 < id < s.nextId :: s.releases[id] >= 1)
  {
    RunsKeep(states, actions, n);
    var s := states[n];
    forall j | 0 <= j < |s.jobs| ensures j in s.finished && s.jobs[j].replied == 1 && s.jobs[j].admitted == 1 {
      assert JobInv(s, j);
      assert JobsOf(s.active) == [];
      assert Places(s)[j] == multiset(s.finished)[j];
      assert j in s.finished <==> multiset(s.finished)[j] > 0;
    }
    assert IdsOf(s.active) == [];
  }

  // ----- how often an id is released -----

  /** This step is a follow-up submission that throws for the request with this id. */
  ghost predicate FollowUpThrows(s: State, a: Action, id: nat) {
    && a == VisitOne(NextThrew) && s.pc.Visit? && s.pc.k < |s.active| && s.active[s.pc.k].id == id
    && s.active[s.pc.k].job < |s.jobs| && !s.jobs[s.active[s.pc.k].job].cancelled && !s.sawStop
  }

  lemma DoubledOnlyByThrow(s: State, a: Action, id: nat)
    requires Inv(s) && Enabled(s, a)
    ensures id in Next(s, a).doubled <==> id in s.doubled || FollowUpThrows(s, a, id)
  {
    match a
    case FailOne =>
      HeldIsUnreleased(s, 0);
      ActiveJob(s, 0);
      FinishValue(Release(s, s.active[0].id), s.active[0].job);
    case VisitOne(finding) => VisitDoubles(s, finding, id);
    case AdmitOne(outcome) =>
      FirstOfBatch(s);
      FinishValue(s.(batch := s.batch[1..]), s.batch[0]);
    case _ =>
  }

  lemma VisitDoubles(s: State, finding: Finding, id: nat)
    requires Inv(s) && Enabled(s, VisitOne(finding))
    ensures id in NextVisit(s, finding).doubled <==> id in s.doubled || FollowUpThrows(s, VisitOne(finding), id)
  {
    var k := s.pc.k;
    var item := s.active[k];
    HeldIsUnreleased(s, k);
    ActiveJob(s, k);
    FinishValue(Release(s, item.id), item.job);
    FinishValue(Release(Release(s, item.id), item.id), item.job);
  }

  lemma {:induction false} DoubledInRun(states: seq<State>, actions: seq<Action>, n: nat, id: nat)
    requires IsRun(states, actions) && n <= |actions|
    ensures id in states[n].doubled <==> exists k | 0 <= k < n :: FollowUpThrows(states[k], actions[k], id)
  {
    if n > 0 {
      DoubledInRun(states, actions, n - 1, id);
      RunsKeep(states, actions, n - 1);
      DoubledOnlyByThrow(states[n - 1], actions[n - 1], id);
    }
  }

  /**
   An id that the engine gave out is released exactly once, after it stops being
   held, if and only if no follow-up submission for its request threw: the code
   then releases it before submitting and again in its handler.
   */
  lemma ReleasedOnceUnlessFollowUpThrows(states: seq<State>, actions: seq<Action>, n: nat, id: nat)
    requires IsRun(states, actions) && n <= |actions| && 0 < id < states[n].nextId
    ensures var s := states[n];
            && (id in IdsOf(s.active) ==> s.releases[id] == 0)
            && (id !in IdsOf(s.active) ==>
                  (s.releases[id] == 1 <==> !exists k | 0 <= k < n :: FollowUpThrows(states[k], actions[k], id)))
            && (id !in IdsOf(s.active) ==> 1 <= s.releases[id] <= 2)
  {
    RunsKeep(states, actions, n);
    DoubledInRun(states, actions, n, id);
    var s := states[n];
    assert id in IdsOf(s.active) <==> multiset(IdsOf(s.active))[id] > 0;
  }

  /** One decision with two questions, active after its first submission. */
  lemma FirstQuestionSubmitted() returns (states: seq<State>, actions: seq<Action>)
    ensures IsRun(states, actions) && |actions| == 4
    ensures states[4] == State([Job(Decision(2), 0, false, 0, 0)], [], [], [Item(1, 0)], [], 1, false, false,
                               EngineStep, 2, multiset{}, {})
  {
    actions := [Enqueue(Decision(2)), Swap, AdmitOne(Submitted), BatchDone];
    var s1 := Next(START, actions[0]);
    assert s1.jobs == [Job(Decision(2), 0, false, 0, 0)] && s1.pending == [0];
    var s2 := Next(s1, actions[1]);
    var s3 := Next(s2, actions[2]);
    assert s3.active == [Item(1, 0)] && s3.batch == [];
    var s4 := Next(s3, actions[3]);
    states := [START, s1, s2, s3, s4];
  }

  /** The second submission throws: its first request is released twice. */
  lemma SecondSubmissionThrows(s: State)
    requires s.pc == Visit(0) && s.active == [Item(1, 0)] && s.jobs == [Job(Decision(2), 0, false, 0, 0)]
    requires s.outstanding == 1 && !s.sawStop && s.releases == multiset{}
    ensures Enabled(s, VisitOne(NextThrew)) && Next(s, VisitOne(NextThrew)).releases[1] == 2
  {
    FinishValue(Release(Release(s, 1), 1), 0);
  }

  /** A run in which one id is released twice. */
  lemma FollowUpThrowReleasesTwice() returns (states: seq<State>, actions: seq<Action>)
    ensures IsRun(states, actions) && |actions| > 0
    ensures states[|actions|].releases[1] == 2
  {
    var first, before := FirstQuestionSubmitted();
    var s5 := Next(first[4], StepOk);
    SecondSubmissionThrows(s5);
    RunGoesOn(first, before, StepOk);
    RunGoesOn(first + [s5], before + [StepOk], VisitOne(NextThrew));
    states, actions := first + [s5] + [Next(s5, VisitOne(NextThrew))], before + [StepOk] + [VisitOne(NextThrew)];
  }

  lemma RunGoesOn(states: seq<State>, actions: seq<Action>, a: Action)
    requires IsRun(states, actions) && Enabled(states[|actions|], a)
    ensures IsRun(states + [Next(states[|actions|], a)], actions + [a])
  {
    var all, taken := states + [Next(states[|actions|], a)], actions + [a];
    forall k | 0 <= k < |taken| ensures Enabled(all[k], taken[k]) && all[k + 1] == Next(all[k], taken[k]) {
      assert all[k] == states[k];
      if k < |actions| {
        assert taken[k] == actions[k] && all[k + 1] == states[k + 1];
      }
    }
  }

  // ----- after Stop the worker returns -----

  predicate IsWorkerStep(a: Action) {
    !a.Enqueue? && !a.Cancel? && !a.Stop?
  }

  /** Once the worker has seen the stop it begins no further pass, and visits only the first item. */
  predicate LastPass(s: State) {
    s.sawStop ==> !s.pc.Top? && (s.pc.Visit? ==> s.pc.k == 0)
  }

  lemma NextKeepsLastPass(s: State, a: Action)
    requires Inv(s) && LastPass(s) && Enabled(s, a)
    ensures LastPass(Next(s, a))
  {
    match a
    case FailOne => DropValue(s, 0);
    case AdmitOne(outcome) => AdmitValue(s, outcome);
    case VisitOne(finding) =>
      if s.sawStop {
        DropValue(s, s.pc.k);
      } else {
        VisitValue(s, finding);
      }
    case _ =>
  }

  /** The worker's steps left in this pass, if every job in it is visited once more. */
  function LeftInPass(s: State): nat {
    match s.pc
    case Top => 2 * s.outstanding + 4
    case Admit => 2 * |s.batch| + |s.active| + 3
    case EngineStep => |s.active| + 2
    case FailAll => |s.active| + 1
    case Visit(k) => if k <= |s.active| then |s.active| - k + 1 else 1
    case Returned => 0
  }

  /** And in the pass after it, when the stop has not been seen yet. */
  function StepsLeft(s: State): nat {
    LeftInPass(s) + if s.sawStop || s.pc.Top? || s.pc.Returned? then 0 else 2 * s.outstanding + 4
  }

  lemma DropValue(s: State, k: nat)
    requires Inv(s) && k < |s.active|
    ensures s.active[k].job < |s.jobs| && s.outstanding > 0
    ensures var t := Drop(s, k);
            && t.pc == s.pc && t.sawStop == s.sawStop && t.stopping == s.stopping && t.batch == s.batch
            && |t.active| == |s.active| - 1 && t.outstanding == s.outstanding - 1
  {
    ActiveJob(s, k);
    FinishValue(Release(s, s.active[k].id), s.active[k].job);
  }

  lemma AdmitValue(s: State, outcome: Admission)
    requires Inv(s) && Enabled(s, AdmitOne(outcome))
    ensures var t := NextAdmit(s, outcome);
            && t.pc == s.pc && t.sawStop == s.sawStop && t.stopping == s.stopping && |t.batch| == |s.batch| - 1
            && |t.active| <= |s.active| + 1 && t.outstanding <= s.outstanding
  {
    FirstOfBatch(s);
    FinishValue(s.(batch := s.batch[1..]), s.batch[0]);
  }

  /** A visit passes on to the next item, or drops this one. */
  lemma VisitValue(s: State, finding: Finding)
    requires Inv(s) && Enabled(s, VisitOne(finding))
    ensures var t := NextVisit(s, finding);
            && t.sawStop == s.sawStop && t.stopping == s.stopping
            && (|| (t.pc == Visit(s.pc.k + 1) && |t.active| == |s.active| && t.outstanding == s.outstanding)
                || (t.pc == s.pc && |t.active| == |s.active| - 1 && t.outstanding == s.outstanding - 1))
  {
    var k := s.pc.k;
    var item := s.active[k];
    ActiveJob(s, k);
    DropValue(s, k);
    FinishValue(Release(s, item.id), item.job);
    FinishValue(Release(Release(s, item.id), item.id), item.job);
    FinishValue(Release(CountAnswer(s, item.job), item.id), item.job);
  }

  /** Every step of the worker lowers what is left, once it has been told to stop. */
  lemma WorkerStepsLower(s: State, a: Action)
    requires Inv(s) && LastPass(s) && s.stopping && Enabled(s, a) && IsWorkerStep(a)
    ensures Next(s, a).stopping && StepsLeft(Next(s, a)) < StepsLeft(s)
  {
    match a
    case FailOne => DropValue(s, 0);
    case AdmitOne(outcome) => AdmitValue(s, outcome);
    case VisitOne(finding) => VisitValue(s, finding);
    case _ =>
  }

  /** What the HTTP threads do meanwhile does not raise it: nothing is admitted any more. */
  lemma OthersDoNotRaise(s: State, a: Action)
    requires s.stopping && Enabled(s, a) && !IsWorkerStep(a)
    ensures Next(s, a).stopping && StepsLeft(Next(s, a)) == StepsLeft(s)
  {}

  /** Until it returns, a worker that has work or is told to stop has a step: it does not wait. */
  lemma WorkerCanStep(s: State) returns (a: Action)
    requires Inv(s) && !s.pc.Returned? && (s.pc.Top? ==> !IsIdle(s))
    ensures IsWorkerStep(a) && Enabled(s, a)
  {
    match s.pc
    case Top => a := Swap;
    case Admit =>
      if s.batch != [] {
        FirstOfBatch(s);
        a := AdmitOne(Refused);
      } else {
        a := BatchDone;
      }
    case EngineStep => a := StepOk;
    case FailAll =>
      if s.active != [] {
        ActiveJob(s, 0);
        a := FailOne;
      } else {
        a := PassDone;
      }
    case Visit(k) =>
      if k < |s.active| {
        ActiveJob(s, k);
        a := VisitOne(Deadline);
      } else {
        a := PassDone;
      }
  }

  function WorkerSteps(actions: seq<Action>, n: nat, m: nat): nat
    requires n <= m <= |actions|
  {
    if n == m then 0 else WorkerSteps(actions, n, m - 1) + if IsWorkerStep(actions[m - 1]) then 1 else 0
  }

  lemma {:induction false} RunsKeepLastPass(states: seq<State>, actions: seq<Action>, n: nat)
    requires IsRun(states, actions) && n <= |actions|
    ensures LastPass(states[n])
  {
    if n > 0 {
      RunsKeepLastPass(states, actions, n - 1);
      RunsKeep(states, actions, n - 1);
      NextKeepsLastPass(states[n - 1], actions[n - 1]);
    }
  }

  lemma {:induction false} StepsAreSpent(states: seq<State>, actions: seq<Action>, n: nat, m: nat)
    requires IsRun(states, actions) && n <= m <= |actions| && states[n].stopping
    ensures states[m].stopping && WorkerSteps(actions, n, m) + StepsLeft(states[m]) <= StepsLeft(states[n])
    decreases m - n
  {
    if n < m {
      StepsAreSpent(states, actions, n, m - 1);
      var s, a := states[m - 1], actions[m - 1];
      RunsKeep(states, actions, m - 1);
      RunsKeepLastPass(states, actions, m - 1);
      if IsWorkerStep(a) {
        WorkerStepsLower(s, a);
      } else {
        OthersDoNotRaise(s, a);
      }
    }
  }

  /** No run of a stopping worker is longer than this: two passes over all the jobs there may be. */
  const MAX_SHUTDOWN := 4 * CAPACITY + 7

  /**
   After Stop, whatever the environment does, the worker has returned once it has
   made that many steps, and before that it always has one to make.
   */
  lemma StoppedWorkerReturns(states: seq<State>, actions: seq<Action>, n: nat, m: nat)
    requires IsRun(states, actions) && n <= m <= |actions| && states[n].stopping
    ensures WorkerSteps(actions, n, m) <= MAX_SHUTDOWN
    ensures WorkerSteps(actions, n, m) == MAX_SHUTDOWN ==> states[m].pc.Returned?
    ensures states[m].pc.Returned? || exists a :: IsWorkerStep(a) && Enabled(states[m], a)
  {
    StepsAreSpent(states, actions, n, m);
    RunsKeep(states, actions, n);
    RunsKeep(states, actions, m);
    if !states[m].pc.Returned? {
      var a := WorkerCanStep(states[m]);
    }
  }

  // ----- after a cancellation the job is dropped -----

  /** A job cannot come back from `finished`, and its cancellation cannot be taken back. */
  lemma SettledStays(s: State, a: Action, j: nat)
    requires Inv(s) && Enabled(s, a) && j < |s.jobs|
    ensures j < |Next(s, a).jobs| && (s.jobs[j].cancelled ==> Next(s, a).jobs[j].cancelled)
    ensures j in s.finished ==> j in Next(s, a).finished
  {
    match a
    case FailOne => DropFinishes(s, 0);
    case AdmitOne(outcome) => AdmitFinishes(s, outcome);
    case VisitOne(finding) => VisitFinishes(s, finding);
    case _ =>
  }

  /** Dropping item k finishes its job and changes no other. */
  lemma DropFinishes(s: State, k: nat)
    requires Inv(s) && k < |s.active|
    ensures s.active[k].job < |s.jobs| && s.outstanding > 0
    ensures var t := Drop(s, k);
            && t.active == Erase(s.active, k) && t.finished == s.finished + [s.active[k].job]
            && SameFlags(s, t) && t.nextId == s.nextId
  {
    ActiveJob(s, k);
    FinishValue(Release(s, s.active[k].id), s.active[k].job);
  }

  ghost predicate SameFlags(s: State, t: State) {
    |t.jobs| == |s.jobs| && forall i | 0 <= i < |s.jobs| :: t.jobs[i].cancelled == s.jobs[i].cancelled
  }

  /** The first of the batch is finished, or it is not cancelled and has a fresh request. */
  lemma AdmitFinishes(s: State, outcome: Admission)
    requires Inv(s) && Enabled(s, AdmitOne(outcome))
    ensures var t, j := NextAdmit(s, outcome), s.batch[0];
            && SameFlags(s, t) && t.batch == s.batch[1..] && s.nextId <= t.nextId
            && (|| (t.finished == s.finished + [j] && t.active == s.active)
                || (t.finished == s.finished && t.active == s.active + [Item(s.nextId, j)] && !s.jobs[j].cancelled &&
                    t.nextId > s.nextId))
  {
    FirstOfBatch(s);
    FinishValue(s.(batch := s.batch[1..]), s.batch[0]);
  }

  /** The visited item stays, or is dropped, or is not cancelled and has a fresh request. */
  lemma VisitFinishes(s: State, finding: Finding)
    requires Inv(s) && Enabled(s, VisitOne(finding))
    ensures var t, k := NextVisit(s, finding), s.pc.k;
            var j := s.active[k].job;
            && SameFlags(s, t) && s.nextId <= t.nextId
            && (|| (t.finished == s.finished + [j] && t.active == Erase(s.active, k) && t.pc == s.pc)
                || (!s.jobs[j].cancelled && t.finished == s.finished && t.active == s.active && t.pc == Visit(k + 1))
                || (!s.jobs[j].cancelled && t.finished == s.finished && t.active == s.active[k := Item(s.nextId, j)] &&
                    t.pc == Visit(k + 1) && t.nextId > s.nextId))
  {
    var k := s.pc.k;
    var item := s.active[k];
    ActiveJob(s, k);
    DropFinishes(s, k);
    FinishValue(Release(s, item.id), item.job);
    FinishValue(Release(Release(s, item.id), item.id), item.job);
    FinishValue(Release(CountAnswer(s, item.job), item.id), item.job);
  }

  /**
   A visit leaves a job running only while it is neither cancelled nor stopped, and then only for want of room, of
   output or of an end, or with its next question submitted: a deadline or a failure ends it.
   */
  lemma VisitEndsIff(s: State, finding: Finding)
    requires Inv(s) && Enabled(s, VisitOne(finding))
    ensures var j := s.active[s.pc.k].job;
            j !in NextVisit(s, finding).finished <==>
              && !s.jobs[j].cancelled && !s.sawStop
              && (finding.NoRoom? || finding.Draining? || finding.StillRunning? || finding.NextSubmitted?)
  {
    var k := s.pc.k;
    var item := s.active[k];
    var t := NextVisit(s, finding);
    ActiveJob(s, k);
    DropFinishes(s, k);
    FinishValue(Release(s, item.id), item.job);
    FinishValue(Release(Release(s, item.id), item.id), item.job);
    FinishValue(Release(CountAnswer(s, item.job), item.id), item.job);
    assert t.finished != s.finished ==> t.finished[|s.finished|] == item.job;
  }

  /** A request is only ever submitted for a job that is not cancelled, under an id not given out before. */
  lemma SubmittedUncancelled(s: State, a: Action, item: Item)
    requires Inv(s) && Enabled(s, a) && item in Next(s, a).active
    ensures item in s.active || (item.id == s.nextId && item.job < |s.jobs| && !s.jobs[item.job].cancelled)
  {
    match a
    case FailOne => DropFinishes(s, 0);
    case AdmitOne(outcome) =>
      FirstOfBatch(s);
      AdmitFinishes(s, outcome);
    case VisitOne(finding) => VisitFinishes(s, finding);
    case _ =>
  }

  lemma IdsOnlyGrow(s: State, a: Action)
    requires Inv(s) && Enabled(s, a)
    ensures s.nextId <= Next(s, a).nextId
  {
    match a
    case FailOne => DropFinishes(s, 0);
    case AdmitOne(outcome) => AdmitFinishes(s, outcome);
    case VisitOne(finding) => VisitFinishes(s, finding);
    case _ =>
  }

  /** The worker reaches job j before it ends this pass. */
  ghost predicate Due(s: State, j: nat) {
    match s.pc
    case Top => true
    case Admit => j in s.batch || j in JobsOf(s.active)
    case EngineStep => j in JobsOf(s.active)
    case FailAll => j in JobsOf(s.active)
    case Visit(k) => exists i | k <= i < |s.active| :: s.active[i].job == j
    case Returned => false
  }

  /** A whole pass: the swap, two steps for each job admitted, one for each visited, and three between. */
  const MAX_PASS := 2 * CAPACITY + 4

  /** The worker's steps left before a cancelled job is finished. */
  ghost function CancelLeft(s: State, j: nat): nat {
    if j in s.finished then 0
    else (if s.pc.Top? then MAX_PASS else LeftInPass(s)) + if Due(s, j) then 0 else MAX_PASS
  }

  ghost predicate Unfinished(s: State, j: nat) {
    j < |s.jobs| && j !in s.finished
  }

  lemma WhereUnfinished(s: State, j: nat)
    requires Inv(s) && Unfinished(s, j)
    ensures j in s.pending || j in s.batch || j in JobsOf(s.active)
  {
    assert Places(s)[j] == multiset(s.pending)[j] + multiset(s.batch)[j] + multiset(JobsOf(s.active))[j] +
        multiset(s.finished)[j];
    assert j in s.pending <==> multiset(s.pending)[j] > 0;
    assert j in s.batch <==> multiset(s.batch)[j] > 0;
    assert j in JobsOf(s.active) <==> multiset(JobsOf(s.active))[j] > 0;
    assert j in s.finished <==> multiset(s.finished)[j] > 0;
  }

  lemma InJobs(active: seq<Item>, j: nat)
    ensures j in JobsOf(active) <==> exists i | 0 <= i < |active| :: active[i].job == j
  {
    if j in JobsOf(active) {
      var i :| 0 <= i < |active| && JobsOf(active)[i] == j;
      assert active[i].job == j;
    }
    if i :| 0 <= i < |active| && active[i].job == j {
      assert JobsOf(active)[i] == j;
    }
  }

  lemma ErasedStays(active: seq<Item>, k: nat, i: nat)
    requires k < |active| && i < |active| && i != k
    ensures var at := if i < k then i else i - 1;
            at < |Erase(active, k)| && Erase(active, k)[at] == active[i]
  {}

  lemma AdmitLowers(s: State, outcome: Admission, j: nat)
    requires Inv(s) && Enabled(s, AdmitOne(outcome)) && Unfinished(s, j) && s.jobs[j].cancelled
    ensures CancelLeft(NextAdmit(s, outcome), j) < CancelLeft(s, j)
  {
    AdmitFinishes(s, outcome);
    AdmitValue(s, outcome);
    var t := NextAdmit(s, outcome);
    if s.batch[0] == j {
      assert t.finished[|s.finished|] == j;
    } else if Due(s, j) {
      HeadOf(s.batch);
      assert j in s.batch ==> j in s.batch[1..];
      if j in JobsOf(s.active) {
        InJobs(s.active, j);
        InJobs(t.active, j);
        var i :| 0 <= i < |s.active| && s.active[i].job == j;
        assert t.active[i].job == j;
      }
    }
  }

  lemma FailLowers(s: State, j: nat)
    requires Inv(s) && Enabled(s, FailOne) && Unfinished(s, j)
    ensures CancelLeft(Drop(s, 0), j) < CancelLeft(s, j)
  {
    DropFinishes(s, 0);
    DropValue(s, 0);
    var t := Drop(s, 0);
    if s.active[0].job == j {
      assert t.finished[|s.finished|] == j;
    } else if Due(s, j) {
      InJobs(s.active, j);
      InJobs(t.active, j);
      var i :| 0 <= i < |s.active| && s.active[i].job == j;
      ErasedStays(s.active, 0, i);
    }
  }

  lemma VisitLowers(s: State, finding: Finding, j: nat)
    requires Inv(s) && Enabled(s, VisitOne(finding)) && Unfinished(s, j) && s.jobs[j].cancelled
    ensures CancelLeft(NextVisit(s, finding), j) < CancelLeft(s, j)
  {
    VisitFinishes(s, finding);
    VisitValue(s, finding);
    var k := s.pc.k;
    var t := NextVisit(s, finding);
    if s.active[k].job == j {
      assert t.finished[|s.finished|] == j;
    } else if Due(s, j) {
      var i :| k <= i < |s.active| && s.active[i].job == j;
      ErasedStays(s.active, k, i);
      assert t.pc == Visit(k + 1) ==> t.active[i].job == j;
      assert t.pc == s.pc ==> t.active[i - 1].job == j;
    }
  }

  /** Every step of the worker brings a cancelled job nearer to its end, whatever the engine finds. */
  lemma WorkerNearsCancelled(s: State, a: Action, j: nat)
    requires Inv(s) && Enabled(s, a) && IsWorkerStep(a) && Unfinished(s, j) && s.jobs[j].cancelled
    ensures CancelLeft(Next(s, a), j) < CancelLeft(s, j)
  {
    match a
    case AdmitOne(outcome) => AdmitLowers(s, outcome, j);
    case FailOne => FailLowers(s, j);
    case VisitOne(finding) => VisitLowers(s, finding, j);
    case _ =>
      WhereUnfinished(s, j);
      InJobs(s.active, j);
  }

  /** The HTTP threads do not put it off. */
  lemma OthersDoNotDelay(s: State, a: Action, j: nat)
    requires Enabled(s, a) && !IsWorkerStep(a)
    ensures CancelLeft(Next(s, a), j) == CancelLeft(s, j)
  {}

  /** From step n on, job j is cancelled and holds no request but those in `held`, none of them released twice. */
  ghost predicate Settling(s: State, j: nat, held: seq<Item>) {
    && j < |s.jobs| && s.jobs[j].cancelled
    && (forall item | item in s.active && item.job == j :: item in held)
    && forall h | h in held && h.job == j ::
         && 0 < h.id < s.nextId && h.id !in s.doubled
         && forall item | item in s.active && item.id == h.id :: item.job == j
  }

  lemma SettlingStays(s: State, a: Action, j: nat, held: seq<Item>)
    requires Inv(s) && Enabled(s, a) && Settling(s, j, held)
    ensures Settling(Next(s, a), j, held)
  {
    var t := Next(s, a);
    SettledStays(s, a, j);
    IdsOnlyGrow(s, a);
    forall item | item in t.active
      ensures item in s.active || (item.id == s.nextId && item.job != j)
    {
      SubmittedUncancelled(s, a, item);
    }
    assert s.pc.Visit? && s.pc.k < |s.active| ==> s.active[s.pc.k] in s.active;
    forall h | h in held && h.job == j ensures h.id !in t.doubled {
      DoubledOnlyByThrow(s, a, h.id);
    }
  }

  lemma SettlingStarts(s: State, j: nat)
    requires Inv(s) && j < |s.jobs| && s.jobs[j].cancelled
    ensures Settling(s, j, s.active)
  {
    forall h, item | h in s.active && item in s.active && item.id == h.id
      ensures item == h && 0 < h.id < s.nextId && h.id !in s.doubled
    {
      var i, k :| 0 <= i < |s.active| && 0 <= k < |s.active| && s.active[i] == h && s.active[k] == item;
      HeldOnce(s, i, k);
    }
  }

  lemma HeldOnce(s: State, i: nat, k: nat)
    requires Inv(s) && i < |s.active| && k < |s.active| && s.active[i].id == s.active[k].id
    ensures i == k && 0 < s.active[i].id < s.nextId && s.active[i].id !in s.doubled
  {
    HeldIsUnreleased(s, i);
    var ids, id := IdsOf(s.active), s.active[i].id;
    assert ids[i] == id == ids[k];
    assert multiset(ids)[id] <= 1;
    if i < k {
      CountedTwice(ids, i, k);
    } else if k < i {
      CountedTwice(ids, k, i);
    }
  }

  lemma CountedTwice(ids: seq<nat>, i: nat, k: nat)
    requires i < k < |ids| && ids[i] == ids[k]
    ensures multiset(ids)[ids[i]] >= 2
  {
    assert ids == ids[..k] + ids[k..] && ids[..k][i] == ids[k..][0] == ids[i];
    assert ids[i] in multiset(ids[..k]) && ids[i] in multiset(ids[k..]);
  }

  lemma {:induction false} CancelIsSpent(states: seq<State>, actions: seq<Action>, n: nat, m: nat, j: nat)
    requires IsRun(states, actions) && n <= m <= |actions|
    requires j < |states[n].jobs| && states[n].jobs[j].cancelled
    ensures Settling(states[m], j, states[n].active)
    ensures j in states[m].finished ||
              WorkerSteps(actions, n, m) + CancelLeft(states[m], j) <= CancelLeft(states[n], j)
    decreases m - n
  {
    if n == m {
      RunsKeep(states, actions, n);
      SettlingStarts(states[n], j);
    } else {
      CancelIsSpent(states, actions, n, m - 1, j);
      CancelStep(states, actions, n, m - 1, j);
    }
  }

  lemma CancelStep(states: seq<State>, actions: seq<Action>, n: nat, k: nat, j: nat)
    requires IsRun(states, actions) && n <= k < |actions|
    requires Settling(states[k], j, states[n].active)
    requires j in states[k].finished ||
               WorkerSteps(actions, n, k) + CancelLeft(states[k], j) <= CancelLeft(states[n], j)
    ensures Settling(states[k + 1], j, states[n].active)
    ensures j in states[k + 1].finished ||
              WorkerSteps(actions, n, k + 1) + CancelLeft(states[k + 1], j) <= CancelLeft(states[n], j)
  {
    var s, a := states[k], actions[k];
    RunsKeep(states, actions, k);
    SettlingStays(s, a, j, states[n].active);
    SettledStays(s, a, j);
    if j !in s.finished {
      if IsWorkerStep(a) {
        WorkerNearsCancelled(s, a, j);
      } else {
        OthersDoNotDelay(s, a, j);
      }
    }
  }

  /** No cancellation takes longer than the rest of one pass and the whole of the next. */
  lemma CancelLeftIsBounded(s: State, j: nat)
    requires Inv(s) && Unfinished(s, j)
    ensures 0 < CancelLeft(s, j) <= 2 * MAX_PASS
    ensures Due(s, j) ==> CancelLeft(s, j) <= MAX_PASS
  {
    WhereUnfinished(s, j);
  }

  /**
   A cancelled job is finished, with its one reply, by the end of the next whole pass: of this one, when the worker
   has it still before it. Nothing is submitted for it meanwhile, and the request it held is released exactly once.
   Until then the worker has a step to make.
   */
  lemma CancelledJobIsDropped(states: seq<State>, actions: seq<Action>, n: nat, m: nat, j: nat)
    requires IsRun(states, actions) && n <= m <= |actions|
    requires j < |states[n].jobs| && states[n].jobs[j].cancelled
    ensures WorkerSteps(actions, n, m) >= 2 * MAX_PASS ==> j in states[m].finished
    ensures WorkerSteps(actions, n, m) >= MAX_PASS && Due(states[n], j) ==> j in states[m].finished
    ensures j < |states[m].jobs| && (j in states[m].finished ==>
              states[m].jobs[j].replied == 1 && states[m].jobs[j].admitted == 1)
    ensures j in states[m].finished || exists a :: IsWorkerStep(a) && Enabled(states[m], a)
    ensures forall item | item in states[m].active && item.job == j :: item in states[n].active
    ensures forall h | h in states[n].active && h.job == j && j in states[m].finished ::
              h.id !in IdsOf(states[m].active) && states[m].releases[h.id] == 1
  {
    CancelIsSpent(states, actions, n, m, j);
    RunsKeep(states, actions, n);
    RunsKeep(states, actions, m);
    var s := states[m];
    assert JobInv(s, j);
    if j in s.finished {
      forall h | h in states[n].active && h.job == j ensures h.id !in IdsOf(s.active) && s.releases[h.id] == 1 {
        FinishedHoldsNothing(s, j, h.id, states[n].active);
      }
    } else {
      if j !in states[n].finished {
        CancelLeftIsBounded(states[n], j);
      }
      CancelLeftIsBounded(s, j);
      WhereUnfinished(s, j);
      var a := WorkerCanStep(s);
    }
  }

  lemma FinishedHoldsNothing(s: State, j: nat, id: nat, held: seq<Item>)
    requires Inv(s) && Settling(s, j, held) && j in s.finished && Item(id, j) in held
    ensures id !in IdsOf(s.active) && s.releases[id] == 1
  {
    OnlyOnePlace(s, j);
    InJobs(s.active, j);
    forall k | 0 <= k < |s.active| ensures IdsOf(s.active)[k] != id {
      assert s.active[k] in s.active && JobsOf(s.active)[k] == s.active[k].job;
    }
    assert id in IdsOf(s.active) <==> multiset(IdsOf(s.active))[id] > 0;
  }
}
