/**
 The filament protocol of cfix/cfix/filament.c, thread.c and CfixsRunTestRoutine in pe.c as a
 transition system: any number of threads run test routines (possibly nested), create child threads
 and join them, in every interleaving.

 A step is one access to shared state: on behalf of a new thread a call of CfixsSetCurrentFilament is
 cut where it takes the child-list lock, a join where it takes the lock, where its wait is satisfied
 and where it goes on.
 */
module FilamentProtocol {
  import opened Prelude
  import opened FilamentTables

  // How far CfixsThreadStart got before it signals the hand-off event.
  datatype Stage = Spawned | Copied | Listed | Installed | Notified | Failed

  datatype Control =
    // in CfixsThreadStart, still using the Parameters block on the stack of `creator`
    | Starting(stage: Stage, creator: ThreadId)
    // in user code: a test routine, a thread routine, or whatever an unrelated thread does
    | User
    // blocked in CfixCreateThread2 on the hand-off event; the fields are the Parameters block
    | Creating(child: ThreadId, signalled: bool, filament: FilamentId, outcome: Option<Status>)
    // in CfixsRunTestRoutine, after the routine has returned
    | Joining
    | Waiting(handles: seq<ThreadId>)
    | Joined
    | Left
    // out of the filament for good, but the thread object is not signalled yet
    | Exiting
    | Ended

  // One activation of CfixsRunTestRoutine: its stack-allocated filament and its PrevFilament.
  datatype Frame = Frame(filament: FilamentId, previous: Option<FilamentId>)

  // `copy` is CopyOfParameters.Filament, while a child thread still needs it.
  datatype Thread = Thread(control: Control, frames: seq<Frame>, copy: Option<FilamentId>)

  // `locks` maps a filament whose ChildThreads.Lock is held across a join to the joining thread.
  datatype State = State(
    tables: Tables,
    threads: map<ThreadId, Thread>,
    locks: map<FilamentId, ThreadId>,
    destroyed: set<FilamentId>)

  datatype Step =
    | BeginRun(t: ThreadId, f: FilamentId, context: ContextId, isDefault: bool)
    | EndRoutine(t: ThreadId)
    | LockJoin(t: ThreadId)
    | JoinDone(t: ThreadId)
    | Restore(t: ThreadId, handleOk: bool)
    | Destroy(t: ThreadId)
    | Create(t: ThreadId, c: ThreadId)
    | CopyParameters(c: ThreadId)
    | EnlistChild(c: ThreadId, handleOk: bool)
    | InstallChild(c: ThreadId)
    | NotifyStart(c: ThreadId)
    | Signal(c: ThreadId)
    | Wake(t: ThreadId)
    | Finish(t: ThreadId)
    | Exit(t: ThreadId)
    | AutoRegister(t: ThreadId)

  /* ---------------------------------------------------------------- transitions */

  function Slot(s: State, t: ThreadId): Option<FilamentId>
  {
    Current(s.tables, t)
  }

  predicate In(s: State, t: ThreadId, control: Control)
  {
    t in s.threads && s.threads[t].control == control
  }

  predicate InStage(s: State, c: ThreadId, stage: Stage)
  {
    c in s.threads && s.threads[c].control.Starting? && s.threads[c].control.stage == stage
  }

  predicate Running(s: State, t: ThreadId)
  {
    t in s.threads && s.threads[t].frames != []
  }

  // The innermost filament whose main thread is `t`, and the filament to return to after it.
  function Top(s: State, t: ThreadId): Frame
    requires Running(s, t)
  {
    s.threads[t].frames[|s.threads[t].frames| - 1]
  }

  // The Parameters block of the thread that created `c` can still be read.
  predicate HasParameters(s: State, c: ThreadId)
  {
    && c in s.threads && s.threads[c].control.Starting?
    && var p := s.threads[c].control.creator;
       p in s.threads && s.threads[p].control.Creating? && s.threads[p].control.child == c
  }

  function Parameters(s: State, c: ThreadId): (r: Control)
    requires HasParameters(s, c)
    ensures r.Creating?
  {
    s.threads[s.threads[c].control.creator].control
  }

  function SetControl(s: State, t: ThreadId, control: Control): State
    requires t in s.threads
  {
    s.(threads := s.threads[t := s.threads[t].(control := control)])
  }

  // `c` goes on to `stage` and keeps `copy`; the Parameters block of its creator becomes `params`.
  function Advance(s: State, c: ThreadId, control: Control, copy: Option<FilamentId>, params: Control): State
    requires HasParameters(s, c)
  {
    var p := s.threads[c].control.creator;
    s.(threads := s.threads[p := s.threads[p].(control := params)][c := Thread(control, s.threads[c].frames, copy)])
  }

  // All filament addresses a thread may use belong to filaments that were set up at some time.
  ghost predicate Addressable(s: State)
  {
    && WellFormed(s.tables)
    && (forall t, i :: t in s.threads && 0 <= i < |s.threads[t].frames| ==>
          Known(s.tables, s.threads[t].frames[i].previous))
    && (forall t :: t in s.threads && s.threads[t].control.Creating? ==>
          s.threads[t].control.filament in s.tables.filaments)
  }

  // The child-list lock of `f` can be taken at once.
  predicate Unlocked(s: State, f: Option<FilamentId>)
  {
    f.Some? ==> f.value !in s.locks
  }

  // The call of CfixsSetCurrentFilament can go on: once a thread that is to become a child has its
  // handle, it needs the child-list lock.
  predicate Admitted(s: State, t: ThreadId, target: Option<FilamentId>, handleOk: bool)
    requires Known(s.tables, target)
  {
    WantsChild(s.tables, t, target) && handleOk ==> Unlocked(s, target)
  }

  // CfixpInitializeFilament and CfixpSetCurrentFilament at the start of CfixsRunTestRoutine.  While a
  // default filament is in place another one is refused: the routine is not run, and all that remains
  // of the call is its effect on the reference counts.
  function DoBeginRun(s: State, t: ThreadId, f: FilamentId, context: ContextId, isDefault: bool): State
    requires Addressable(s) && In(s, t, User) && f !in s.tables.filaments
  {
    var tables := s.tables.(filaments := s.tables.filaments[f := Filament(context, t, isDefault, [])]);
    var th := s.threads[t];
    var tables' := SetCurrent(tables, t, Some(f), false, true).0;
    if Refused(s, isDefault) then s.(tables := s.tables.(references := tables'.references))
    else s.(tables := tables', threads := s.threads[t := th.(frames := th.frames + [Frame(f, Slot(s, t))])])
  }

  predicate Refused(s: State, isDefault: bool)
  {
    isDefault && s.tables.defaultFilament.Some?
  }

  // CfixpJoinChildThreadsFilament takes the lock and waits for the handles it finds.
  function DoLockJoin(s: State, t: ThreadId): State
    requires Running(s, t) && Top(s, t).filament in s.tables.filaments
  {
    var f := Top(s, t).filament;
    SetControl(s, t, Waiting(s.tables.filaments[f].children)).(locks := s.locks[f := t])
  }

  // The wait is satisfied and the lock is released.
  function DoJoinDone(s: State, t: ThreadId): State
    requires Running(s, t)
  {
    SetControl(s, t, Joined).(locks := s.locks - {Top(s, t).filament})
  }

  // CfixpSetCurrentFilament( PrevFilament ); its result is not looked at.
  function DoRestore(s: State, t: ThreadId, handleOk: bool): State
    requires Addressable(s) && Running(s, t)
  {
    SetControl(s, t, Left).(tables := SetCurrent(s.tables, t, Top(s, t).previous, false, handleOk).0)
  }

  // CfixpDestroyFilament and the return from CfixsRunTestRoutine
  function DoDestroy(s: State, t: ThreadId): State
    requires Running(s, t)
  {
    var th := s.threads[t];
    s.(threads := s.threads[t := th.(control := User, frames := th.frames[..|th.frames| - 1])],
       destroyed := s.destroyed + {Top(s, t).filament})
  }

  // CfixCreateThread2 up to the wait
  function DoCreate(s: State, t: ThreadId, c: ThreadId): State
    requires In(s, t, User) && Slot(s, t).Some? && c != t
  {
    s.(threads := s.threads[t := s.threads[t].(control := Creating(c, false, Slot(s, t).value, None))]
                           [c := Thread(Starting(Spawned, t), [], None)])
  }

  // The new thread copies the Parameters block.
  function DoCopyParameters(s: State, c: ThreadId): State
    requires HasParameters(s, c)
  {
    Advance(s, c, s.threads[c].control.(stage := Copied), Some(Parameters(s, c).filament), Parameters(s, c))
  }

  // The new thread announces itself to the execution context.
  function DoNotifyStart(s: State, c: ThreadId): State
    requires HasParameters(s, c)
  {
    Advance(s, c, s.threads[c].control.(stage := Notified), s.threads[c].copy, Parameters(s, c))
  }

  // The new thread sets the hand-off event, its last access to the Parameters block.
  function DoSignal(s: State, c: ThreadId): State
    requires HasParameters(s, c)
  {
    var params := Parameters(s, c);
    Advance(s, c, if InStage(s, c, Failed) then Exiting else User, s.threads[c].copy, params.(signalled := true))
  }

  // CfixsRegisterChildThreadFilament on behalf of the new thread
  function DoEnlistChild(s: State, c: ThreadId, handleOk: bool): State
    requires Addressable(s) && HasParameters(s, c)
  {
    var params := Parameters(s, c);
    var (tables, status) := Enlist(s.tables, c, Some(params.filament), handleOk);
    var control := s.threads[c].control;
    if status == Success then
      Advance(s, c, control.(stage := Listed), s.threads[c].copy, params).(tables := tables)
    else
      Advance(s, c, control.(stage := Failed), None, params.(outcome := Some(status))).(tables := tables)
  }

  // The rest of CfixsSetCurrentFilament on behalf of the new thread
  function DoInstallChild(s: State, c: ThreadId): State
    requires Addressable(s) && HasParameters(s, c)
  {
    var params := Parameters(s, c);
    var (tables, status) := Install(s.tables, c, None, Some(params.filament), false);
    Advance(s, c, s.threads[c].control.(stage := Installed), s.threads[c].copy,
            params.(outcome := Some(status))).(tables := tables)
  }

  // The child thread revokes its slot, or DllMain sweeps it when the thread detaches.
  function DoFinish(s: State, t: ThreadId): State
    requires Addressable(s) && t in s.threads
  {
    s.(tables := SetCurrent(s.tables, t, None, false, true).0, threads := s.threads[t := Thread(Exiting, [], None)])
  }

  // CfixsGetCurrentFilament takes an anonymous thread into the default filament.
  function DoAutoRegister(s: State, t: ThreadId): State
    requires Addressable(s)
  {
    s.(tables := SetCurrent(s.tables, t, s.tables.defaultFilament, true, true).0)
  }

  ghost predicate Enabled(s: State, step: Step)
  {
    Addressable(s) &&
    match step
    case BeginRun(t, f, context, isDefault) =>
      In(s, t, User) && f !in s.tables.filaments
    case EndRoutine(t) =>
      In(s, t, User) && Running(s, t)
    case LockJoin(t) =>
      && In(s, t, Joining) && Running(s, t)
      && Top(s, t).filament in s.tables.filaments && Unlocked(s, Some(Top(s, t).filament))
    case JoinDone(t) =>
      && Running(s, t) && s.threads[t].control.Waiting?
      && forall c :: c in s.threads[t].control.handles ==> In(s, c, Ended)
    case Restore(t, handleOk) =>
      In(s, t, Joined) && Running(s, t) && Admitted(s, t, Top(s, t).previous, handleOk)
    case Destroy(t) =>
      In(s, t, Left) && Running(s, t)
    case Create(t, c) =>
      In(s, t, User) && Slot(s, t).Some? && c !in s.threads
    case CopyParameters(c) =>
      InStage(s, c, Spawned) && HasParameters(s, c)
    case EnlistChild(c, handleOk) =>
      InStage(s, c, Copied) && HasParameters(s, c) && Admitted(s, c, Some(Parameters(s, c).filament), handleOk)
    case InstallChild(c) =>
      InStage(s, c, Listed) && HasParameters(s, c)
    case NotifyStart(c) =>
      InStage(s, c, Installed) && HasParameters(s, c)
    case Signal(c) =>
      (InStage(s, c, Notified) || InStage(s, c, Failed)) && HasParameters(s, c)
    case Wake(t) =>
      t in s.threads && s.threads[t].control.Creating? && s.threads[t].control.signalled
    case Finish(t) =>
      In(s, t, User) && !Running(s, t)
    case Exit(t) =>
      In(s, t, Exiting)
    case AutoRegister(t) =>
      && In(s, t, User) && Slot(s, t).None? && s.tables.defaultFilament.Some?
      && Admitted(s, t, s.tables.defaultFilament, true)
  }

  ghost function Apply(s: State, step: Step): State
    requires Enabled(s, step)
  {
    match step
    case BeginRun(t, f, context, isDefault) => DoBeginRun(s, t, f, context, isDefault)
    case EndRoutine(t) => SetControl(s, t, Joining)
    case LockJoin(t) => DoLockJoin(s, t)
    case JoinDone(t) => DoJoinDone(s, t)
    case Restore(t, handleOk) => DoRestore(s, t, handleOk)
    case Destroy(t) => DoDestroy(s, t)
    case Create(t, c) => DoCreate(s, t, c)
    case CopyParameters(c) => DoCopyParameters(s, c)
    case EnlistChild(c, handleOk) => DoEnlistChild(s, c, handleOk)
    case InstallChild(c) => DoInstallChild(s, c)
    case NotifyStart(c) => DoNotifyStart(s, c)
    case Signal(c) => DoSignal(s, c)
    case Wake(t) => SetControl(s, t, User)
    case Finish(t) => DoFinish(s, t)
    case Exit(t) => SetControl(s, t, Ended)
    case AutoRegister(t) => DoAutoRegister(s, t)
  }

  // No thread uses cfix yet.
  ghost predicate Init(s: State)
  {
    && s.tables == Tables(map[], map[], {}, None, map[])
    && (forall t :: t in s.threads ==> s.threads[t] == Thread(User, [], None))
    && s.locks == map[] && s.destroyed == {}
  }

  // `steps` leads from `s` to `s'`.
  ghost predicate Run(s: State, steps: seq<Step>, s': State)
    decreases |steps|
  {
    if steps == [] then s == s'
    else Enabled(s, steps[0]) && Run(Apply(s, steps[0]), steps[1..], s')
  }

  // The main thread of `f` has seen the end of all children of `f` and goes on to tear `f` down.
  predicate PastJoin(s: State, f: FilamentId)
  {
    && f in s.tables.filaments
    && var t := s.tables.filaments[f].main;
       Running(s, t) && Top(s, t).filament == f && (In(s, t, Joined) || In(s, t, Left))
  }

  // Anonymous threads are taken into the default filament only while its main thread can still join
  // them; nothing is asked of any other step.
  ghost predicate Timely(s: State, step: Step)
  {
    step.AutoRegister? && s.tables.defaultFilament.Some? ==>
      !PastJoin(s, s.tables.defaultFilament.value) && s.tables.defaultFilament.value !in s.destroyed
  }

  // CfixsRunTestRoutine does not get rid of its filament: the previous one is a default filament of the
  // same thread while a default filament is in place, or the thread is to become a child of it and
  // gets no handle.
  predicate Slips(s: State, step: Step)
  {
    && step.Restore? && Running(s, step.t)
    && var previous := Top(s, step.t).previous;
       && previous.Some? && previous.value in s.tables.filaments
       && if s.tables.filaments[previous.value].main == step.t then
            s.tables.filaments[previous.value].isDefault && s.tables.defaultFilament.Some?
          else !step.handleOk
  }

  // A step that is neither too late nor slips
  ghost predicate Orderly(s: State, step: Step)
  {
    Timely(s, step) && !Slips(s, step)
  }

  ghost predicate OrderlyRun(s: State, steps: seq<Step>)
    decreases |steps|
  {
    steps != [] && Enabled(s, steps[0]) ==>
      Orderly(s, steps[0]) && OrderlyRun(Apply(s, steps[0]), steps[1..])
  }

  /* ---------------------------------------------------------------- the inductive invariant */

  predicate Live(s: State, t: ThreadId)
  {
    t in s.threads && !s.threads[t].control.Ended?
  }

  predicate Unlisted(s: State, c: ThreadId)
  {
    InStage(s, c, Spawned) || InStage(s, c, Copied)
  }

  // `t` still holds the address of `f`: in its slot, as a copied parameter, or to return to it.
  ghost predicate Needs(s: State, t: ThreadId, f: FilamentId)
  {
    && Live(s, t)
    && (|| Slot(s, t) == Some(f)
        || s.threads[t].copy == Some(f)
        || exists i :: 0 <= i < |s.threads[t].frames| && s.threads[t].frames[i].previous == Some(f))
  }

  predicate Member(s: State, t: ThreadId, f: FilamentId)
  {
    && f in s.tables.filaments
    && (s.tables.filaments[f].main == t || t in s.tables.filaments[f].children)
  }

  predicate Foreign(s: State, t: ThreadId, f: FilamentId)
  {
    f in s.tables.filaments && s.tables.filaments[f].main != t
  }

  // Whoever holds the address of a filament is a member of it or on the way to become one, and the
  // filament still exists.
  ghost predicate CoveredAt(s: State, t: ThreadId)
  {
    forall f :: Needs(s, t, f) ==> f !in s.destroyed && (Member(s, t, f) || Unlisted(s, t))
  }

  // The filaments of the frames belong to `t` and return to one another.
  ghost predicate FramesAt(s: State, t: ThreadId)
    requires t in s.threads
  {
    var frames := s.threads[t].frames;
    && (forall i :: 0 <= i < |frames| ==>
          && frames[i].filament in s.tables.filaments
          && frames[i].filament !in s.destroyed
          && s.tables.filaments[frames[i].filament].main == t)
    && (forall i, j :: 0 <= i < j < |frames| ==> frames[i].filament != frames[j].filament)
    && (forall i :: 1 <= i < |frames| ==> frames[i].previous == Some(frames[i-1].filament))
    && (frames != [] && frames[0].previous.Some? ==> Foreign(s, t, frames[0].previous.value))
  }

  // Where the slot of `t` points, depending on how far `t` got.
  ghost predicate SlotAt(s: State, t: ThreadId)
    requires t in s.threads
  {
    var th := s.threads[t];
    && (th.frames != [] && th.control != Left ==> Slot(s, t) == Some(Top(s, t).filament))
    && (th.frames != [] && th.control == Left ==>
          Slot(s, t) == Top(s, t).previous || (Slot(s, t) == None && |th.frames| == 1))
    && (th.frames == [] && Slot(s, t).Some? ==> Foreign(s, t, Slot(s, t).value))
    && (th.copy.Some? ==> Foreign(s, t, th.copy.value))
  }

  ghost predicate StartingAt(s: State, c: ThreadId)
    requires c in s.threads && s.threads[c].control.Starting?
  {
    && HasParameters(s, c)
    && var th, stage, params := s.threads[c], s.threads[c].control.stage, Parameters(s, c);
       && !params.signalled
       && Foreign(s, c, params.filament)
       && th.frames == []
       && th.copy == (if stage == Spawned || stage == Failed then None else Some(params.filament))
       && Slot(s, c) == (if stage == Installed || stage == Notified then Some(params.filament) else None)
       && (stage == Listed || stage == Installed || stage == Notified ==> Member(s, c, params.filament))
       && (stage == Installed || stage == Notified ==> params.outcome == Some(Success))
       && (stage == Failed ==> params.outcome.Some? && params.outcome.value != Success)
  }

  ghost predicate CreatingAt(s: State, t: ThreadId)
    requires t in s.threads && s.threads[t].control.Creating?
  {
    var params := s.threads[t].control;
    && Slot(s, t) == Some(params.filament)
    && params.filament in s.tables.filaments
    && params.child in s.threads && params.child != t
    && (params.signalled ==>
          && params.outcome.Some?
          && (params.outcome.value == Success ==> Member(s, params.child, params.filament)))
  }

  // The lock is held across the wait, so the child list does not grow under the wait.
  ghost predicate WaitingAt(s: State, t: ThreadId)
    requires t in s.threads && s.threads[t].control.Waiting?
  {
    && Running(s, t)
    && var f := Top(s, t).filament;
       f in s.locks && f in s.tables.filaments && s.threads[t].control.handles == s.tables.filaments[f].children
  }

  ghost predicate ControlAt(s: State, t: ThreadId)
    requires t in s.threads
  {
    match s.threads[t].control
    case Starting(_, _) => StartingAt(s, t)
    case User => true
    case Creating(_, _, _, _) => CreatingAt(s, t)
    case Waiting(_) => WaitingAt(s, t)
    case Joining => Running(s, t)
    case Joined => Running(s, t)
    case Left => Running(s, t)
    case Exiting => !Running(s, t) && Slot(s, t) == None && s.threads[t].copy == None
    case Ended => !Running(s, t) && Slot(s, t) == None && s.threads[t].copy == None
  }

  ghost predicate ThreadOk(s: State, t: ThreadId)
    requires t in s.threads
  {
    FramesAt(s, t) && SlotAt(s, t) && ControlAt(s, t) && CoveredAt(s, t)
  }

  ghost predicate FilamentOk(s: State, f: FilamentId)
    requires f in s.tables.filaments
  {
    && s.tables.filaments[f].main in s.threads
    && (forall c :: c in s.tables.filaments[f].children ==> c in s.threads)
    && (PastJoin(s, f) ==> forall c :: c in s.tables.filaments[f].children ==> In(s, c, Ended))
  }

  ghost predicate Tidy(s: State)
  {
    && WellFormed(s.tables)
    && (forall t :: t in s.tables.tls ==> t in s.threads)
    && (forall f :: f in s.destroyed ==> f in s.tables.filaments)
  }

  ghost predicate Inv(s: State)
  {
    && Tidy(s)
    && (forall t {:trigger ThreadOk(s, t)} :: t in s.threads ==> ThreadOk(s, t))
    && (forall f {:trigger FilamentOk(s, f)} :: f in s.tables.filaments ==> FilamentOk(s, f))
  }

  lemma InitInv(s: State)
    requires Init(s)
    ensures Inv(s)
  {
  }

  lemma PreviousKnown(s: State, t: ThreadId, i: nat)
    requires t in s.threads && FramesAt(s, t) && i < |s.threads[t].frames|
    ensures Known(s.tables, s.threads[t].frames[i].previous)
  {
    if i > 0 {
      assert s.threads[t].frames[i - 1].filament in s.tables.filaments;
    }
  }

  lemma InvAddressable(s: State)
    requires Inv(s)
    ensures Addressable(s)
  {
    forall t, i | t in s.threads && 0 <= i < |s.threads[t].frames|
      ensures Known(s.tables, s.threads[t].frames[i].previous)
    {
      assert ThreadOk(s, t);
      PreviousKnown(s, t, i);
    }
    forall t | t in s.threads && s.threads[t].control.Creating?
      ensures s.threads[t].control.filament in s.tables.filaments
    {
      assert ThreadOk(s, t);
      assert CreatingAt(s, t);
    }
  }

  /* ---------------------------------------------------------------- frame lemmas */

  // From `s` to `s'` filaments are only added, and only `t` may be appended to the children of `joined`.
  ghost predicate Grows(s: State, s': State, t: ThreadId, joined: Option<FilamentId>)
  {
    && (forall f :: f in s.tables.filaments ==>
          && f in s'.tables.filaments
          && s'.tables.filaments[f] ==
             if joined == Some(f) then s.tables.filaments[f].(children := s.tables.filaments[f].children + [t])
             else s.tables.filaments[f])
  }

  // A thread that a step does not mention stays as it was.
  lemma Untouched(s: State, s': State, u: ThreadId, t: ThreadId, joined: Option<FilamentId>)
    requires u in s.threads && u in s'.threads && s'.threads[u] == s.threads[u] && Slot(s', u) == Slot(s, u)
    requires Grows(s, s', t, joined) && s'.destroyed == s.destroyed
    requires forall v :: v in s.threads ==> v in s'.threads
    requires ThreadOk(s, u)
    requires s.threads[u].control.Starting? ==>
               && s.threads[u].control.creator in s'.threads
               && s'.threads[s.threads[u].control.creator].control == Parameters(s, u)
    requires s.threads[u].control.Waiting? ==>
               && joined != Some(Top(s, u).filament)
               && Top(s, u).filament in s'.locks
    ensures ThreadOk(s', u)
  {
    forall f | Needs(s', u, f)
      ensures f !in s'.destroyed && (Member(s', u, f) || Unlisted(s', u))
    {
      assert Needs(s, u, f);
    }
  }

  lemma FilamentFrame(s: State, s': State, f: FilamentId, t: ThreadId, joined: Option<FilamentId>)
    requires f in s.tables.filaments && FilamentOk(s, f)
    requires Grows(s, s', t, joined)
    requires forall v :: v in s.threads ==> v in s'.threads
    requires forall v :: In(s, v, Ended) ==> In(s', v, Ended)
    requires joined == Some(f) ==> t in s'.threads && !PastJoin(s', f)
    requires PastJoin(s', f) ==> PastJoin(s, f)
    ensures FilamentOk(s', f)
  {
  }

  lemma PastJoinNoMember(s: State, f: FilamentId, u: ThreadId)
    requires f in s.tables.filaments && FilamentOk(s, f) && PastJoin(s, f)
    requires CoveredAt(s, u) && Live(s, u) && !Unlisted(s, u) && u != s.tables.filaments[f].main
    ensures !Needs(s, u, f)
  {
    assert !Member(s, u, f);
  }

  lemma PastJoinNoStart(s: State, f: FilamentId, u: ThreadId, p: ThreadId)
    requires f in s.tables.filaments && FilamentOk(s, f) && PastJoin(s, f)
    requires p in s.threads && s.threads[p].control.Creating? && CreatingAt(s, p) && CoveredAt(s, p)
    ensures s.threads[p].control.filament != f
  {
    if s.threads[p].control.filament == f {
      assert Needs(s, p, f);
      PastJoinNoMember(s, f, p);
    }
  }

  // Once the children of `f` have ended nobody but its main thread holds its address any more, and
  // no thread that is still starting was created for it.
  lemma PastJoinUnneeded(s: State, f: FilamentId, u: ThreadId)
    requires Inv(s) && PastJoin(s, f) && Live(s, u) && u != s.tables.filaments[f].main
    ensures !Needs(s, u, f)
    ensures HasParameters(s, u) ==> Parameters(s, u).filament != f
  {
    assert ThreadOk(s, u) && FilamentOk(s, f);
    if HasParameters(s, u) {
      var p := s.threads[u].control.creator;
      assert ThreadOk(s, p);
      PastJoinNoStart(s, f, u, p);
    }
    if Unlisted(s, u) {
      StartingNeeds(s, u, f);
    } else {
      PastJoinNoMember(s, f, u);
    }
  }

  lemma StartingNeeds(s: State, u: ThreadId, f: FilamentId)
    requires u in s.threads && s.threads[u].control.Starting? && StartingAt(s, u)
    ensures Needs(s, u, f) ==> f == Parameters(s, u).filament
  {
  }

  /* ---------------------------------------------------------------- every step keeps the invariant */

  // What `s` owes to a thread outside `touched`: its creator's block, its own wait and slot stay put.
  ghost predicate Leaves(s: State, s': State, u: ThreadId, joined: Option<FilamentId>)
  {
    && u in s.threads && u in s'.threads && s'.threads[u] == s.threads[u] && Slot(s', u) == Slot(s, u)
    && (HasParameters(s, u) ==>
          && s.threads[u].control.creator in s'.threads
          && s'.threads[s.threads[u].control.creator].control == Parameters(s, u))
    && (Running(s, u) && s.threads[u].control.Waiting? && Top(s, u).filament in s.locks ==>
          && joined != Some(Top(s, u).filament)
          && Top(s, u).filament in s'.locks)
  }

  // A step keeps the invariant if it does so for the threads it touches, adds nobody to the children
  // of a filament past its join and brings no filament past its join.
  lemma StepFrame(s: State, s': State, touched: set<ThreadId>, t: ThreadId, joined: Option<FilamentId>)
    requires Inv(s) && Tidy(s')
    requires Grows(s, s', t, joined) && s'.destroyed == s.destroyed
    requires forall v :: v in s.threads ==> v in s'.threads
    requires forall v :: In(s, v, Ended) ==> In(s', v, Ended)
    requires forall u {:trigger ThreadOk(s', u)} :: u in s'.threads && u in touched ==> ThreadOk(s', u)
    requires forall u {:trigger Leaves(s, s', u, joined)} :: u in s'.threads && u !in touched ==> Leaves(s, s', u, joined)
    requires forall f {:trigger FilamentOk(s', f)} :: f in s'.tables.filaments ==>
               || FilamentOk(s', f)
               || (&& f in s.tables.filaments
                   && (PastJoin(s', f) ==> PastJoin(s, f))
                   && (joined == Some(f) ==> t in s'.threads && !PastJoin(s', f)))
    ensures Inv(s')
  {
    forall u | u in s'.threads
      ensures ThreadOk(s', u)
    {
      if u !in touched {
        assert Leaves(s, s', u, joined);
        assert ThreadOk(s, u);
        Untouched(s, s', u, t, joined);
      }
    }
    forall f | f in s'.tables.filaments
      ensures FilamentOk(s', f)
    {
      if !FilamentOk(s', f) {
        assert FilamentOk(s, f);
        FilamentFrame(s, s', f, t, joined);
      }
    }
  }

  // A thread that only moves on in its code holds the same addresses as before.
  lemma MovesOn(s: State, s': State, t: ThreadId, newcomer: ThreadId, joined: Option<FilamentId>)
    requires t in s.threads && t in s'.threads && s'.threads[t].(control := s.threads[t].control) == s.threads[t]
    requires Slot(s', t) == Slot(s, t)
    requires Grows(s, s', newcomer, joined) && s'.destroyed == s.destroyed
    requires FramesAt(s, t) && CoveredAt(s, t) && Live(s, t) && (Unlisted(s, t) ==> Unlisted(s', t))
    ensures FramesAt(s', t) && CoveredAt(s', t)
  {
    forall f | Needs(s', t, f)
      ensures f !in s'.destroyed && (Member(s', t, f) || Unlisted(s', t))
    {
      assert Needs(s, t, f);
    }
  }

  // No other thread depends on the control of `t`, unless `t` is a creator whose child is not done yet.
  lemma ControlLeaves(s: State, t: ThreadId, control: Control, u: ThreadId)
    requires t in s.threads && u in s.threads && u != t
    requires s.threads[u].control.Starting? ==> StartingAt(s, u)
    requires s.threads[t].control.Creating? ==> s.threads[t].control.signalled
    ensures Leaves(s, SetControl(s, t, control), u, None)
  {
  }

  // A thread moves on without touching anything shared.
  lemma ControlKeeps(s: State, t: ThreadId, control: Control)
    requires Inv(s) && Live(s, t) && !Unlisted(s, t)
    requires s.threads[t].control.Creating? ==> s.threads[t].control.signalled
    requires var s' := SetControl(s, t, control);
      && SlotAt(s', t) && ControlAt(s', t)
      && (control == Joined || control == Left ==> s.threads[t].control == Joined || s.threads[t].control == Left)
    ensures Inv(SetControl(s, t, control))
  {
    var s' := SetControl(s, t, control);
    assert ThreadOk(s, t);
    MovesOn(s, s', t, t, None);
    assert ThreadOk(s', t);
    forall u | u in s'.threads && u != t
      ensures Leaves(s, s', u, None)
    {
      assert ThreadOk(s, u);
      ControlLeaves(s, t, control, u);
    }
    StepFrame(s, s', {t}, t, None);
  }

  lemma EndRoutineKeeps(s: State, t: ThreadId)
    requires Inv(s) && Enabled(s, EndRoutine(t))
    ensures Inv(Apply(s, EndRoutine(t)))
  {
    assert ThreadOk(s, t);
    ControlKeeps(s, t, Joining);
  }

  lemma WakeKeeps(s: State, t: ThreadId)
    requires Inv(s) && Enabled(s, Wake(t))
    ensures Inv(Apply(s, Wake(t)))
  {
    assert ThreadOk(s, t);
    ControlKeeps(s, t, User);
  }

  lemma ExitKeeps(s: State, t: ThreadId)
    requires Inv(s) && Enabled(s, Exit(t))
    ensures Inv(Apply(s, Exit(t)))
  {
    assert ThreadOk(s, t);
    ControlKeeps(s, t, Ended);
  }

  lemma LockJoinOk(s: State, t: ThreadId)
    requires In(s, t, Joining) && Running(s, t) && ThreadOk(s, t)
    ensures Top(s, t).filament in s.tables.filaments && ThreadOk(DoLockJoin(s, t), t)
  {
    MovesOn(s, DoLockJoin(s, t), t, t, None);
  }

  lemma LockJoinLeaves(s: State, t: ThreadId, u: ThreadId)
    requires In(s, t, Joining) && Running(s, t) && Top(s, t).filament in s.tables.filaments
    requires u in s.threads && u != t && (s.threads[u].control.Starting? ==> StartingAt(s, u))
    ensures Leaves(s, DoLockJoin(s, t), u, None)
  {
  }

  lemma LockJoinPast(s: State, t: ThreadId, f: FilamentId)
    requires In(s, t, Joining) && Running(s, t) && Top(s, t).filament in s.tables.filaments
    requires PastJoin(DoLockJoin(s, t), f)
    ensures PastJoin(s, f)
  {
  }

  lemma LockJoinKeeps(s: State, t: ThreadId)
    requires Inv(s) && Enabled(s, LockJoin(t))
    ensures Inv(Apply(s, LockJoin(t)))
  {
    var s' := DoLockJoin(s, t);
    assert ThreadOk(s, t);
    LockJoinOk(s, t);
    forall u | u in s'.threads && u != t
      ensures Leaves(s, s', u, None)
    {
      assert ThreadOk(s, u);
      LockJoinLeaves(s, t, u);
    }
    forall f | f in s'.tables.filaments
      ensures PastJoin(s', f) ==> PastJoin(s, f)
    {
      if PastJoin(s', f) {
        LockJoinPast(s, t, f);
      }
    }
    StepFrame(s, s', {t}, t, None);
  }

  // Different threads have different filaments on top of their frames.
  lemma TopsDiffer(s: State, t: ThreadId, u: ThreadId)
    requires t != u && Running(s, t) && Running(s, u) && FramesAt(s, t) && FramesAt(s, u)
    ensures Top(s, t).filament != Top(s, u).filament
  {
    assert s.tables.filaments[Top(s, t).filament].main == t;
    assert s.tables.filaments[Top(s, u).filament].main == u;
  }

  lemma JoinDoneOk(s: State, t: ThreadId)
    requires Enabled(s, JoinDone(t)) && ThreadOk(s, t) && FilamentOk(s, Top(s, t).filament)
    ensures ThreadOk(DoJoinDone(s, t), t) && FilamentOk(DoJoinDone(s, t), Top(s, t).filament)
  {
    MovesOn(s, DoJoinDone(s, t), t, t, None);
  }

  lemma JoinDoneLeaves(s: State, t: ThreadId, u: ThreadId)
    requires Running(s, t) && s.threads[t].control.Waiting? && FramesAt(s, t)
    requires u in s.threads && u != t && FramesAt(s, u) && (s.threads[u].control.Starting? ==> StartingAt(s, u))
    ensures Leaves(s, DoJoinDone(s, t), u, None)
  {
    if Running(s, u) {
      TopsDiffer(s, t, u);
    }
  }

  lemma JoinDoneKeeps(s: State, t: ThreadId)
    requires Inv(s) && Enabled(s, JoinDone(t))
    ensures Inv(Apply(s, JoinDone(t)))
  {
    var s' := DoJoinDone(s, t);
    assert ThreadOk(s, t) && FilamentOk(s, Top(s, t).filament);
    JoinDoneOk(s, t);
    forall u | u in s'.threads && u != t
      ensures Leaves(s, s', u, None)
    {
      assert ThreadOk(s, u);
      JoinDoneLeaves(s, t, u);
    }
    StepFrame(s, s', {t}, t, None);
  }

  // The tables only change in the slot of `t`, which may also join the children of `joined`.
  ghost predicate TablesMove(s: State, s': State, t: ThreadId, joined: Option<FilamentId>)
  {
    WellFormed(s'.tables) && OnlySlot(s.tables, s'.tables, t) && ListsChild(s.tables, s'.tables, t, joined)
  }

  // The hand-off between `c` and its creator moves on.
  ghost predicate Advances(s: State, s': State, c: ThreadId, joined: Option<FilamentId>)
  {
    && HasParameters(s, c)
    && s'.locks == s.locks && s'.destroyed == s.destroyed && s'.threads.Keys == s.threads.Keys
    && (forall u :: u in s.threads && u != c && u != s.threads[c].control.creator ==> s'.threads[u] == s.threads[u])
    && TablesMove(s, s', c, joined)
    && (joined.Some? ==> joined == Some(Parameters(s, c).filament) && joined.value !in s.locks)
    && (s'.threads[c].control.Starting? || s'.threads[c].control == User || s'.threads[c].control == Exiting)
    && s'.threads[s.threads[c].control.creator].control.Creating?
  }

  lemma AdvanceLeaves(s: State, s': State, c: ThreadId, joined: Option<FilamentId>, u: ThreadId)
    requires Advances(s, s', c, joined) && u in s.threads && u != c && u != s.threads[c].control.creator
    ensures Leaves(s, s', u, joined)
  {
    OtherSlots(s.tables, s'.tables, c, u);
  }

  lemma AdvanceKeepsPast(s: State, s': State, c: ThreadId, joined: Option<FilamentId>, f: FilamentId)
    requires Advances(s, s', c, joined) && PastJoin(s', f)
    ensures PastJoin(s, f)
  {
  }

  lemma AdvanceTidy(s: State, s': State, c: ThreadId, joined: Option<FilamentId>)
    requires Advances(s, s', c, joined) && Tidy(s)
    ensures Tidy(s')
  {
    forall u | u in s'.tables.tls
      ensures u in s'.threads
    {
      if u != c { OtherSlots(s.tables, s'.tables, c, u); }
    }
  }

  lemma AdvanceKeeps(s: State, s': State, c: ThreadId, joined: Option<FilamentId>)
    requires Inv(s) && Advances(s, s', c, joined)
    requires ThreadOk(s', c) && ThreadOk(s', s.threads[c].control.creator)
    ensures Inv(s')
  {
    var p := s.threads[c].control.creator;
    AdvanceTidy(s, s', c, joined);
    forall u | u in s'.threads && u != c && u != p
      ensures Leaves(s, s', u, joined)
    {
      AdvanceLeaves(s, s', c, joined, u);
    }
    forall f | f in s'.tables.filaments
      ensures PastJoin(s', f) ==> PastJoin(s, f)
      ensures joined == Some(f) ==> !PastJoin(s', f)
    {
      if PastJoin(s', f) {
        AdvanceKeepsPast(s, s', c, joined, f);
        PastJoinUnneeded(s, f, c);
      }
    }
    StepFrame(s, s', {c, p}, c, joined);
  }

  // The creator stays blocked with the same filament while its child is being set up.
  lemma CreatorStays(s: State, s': State, c: ThreadId, joined: Option<FilamentId>)
    requires Advances(s, s', c, joined) && StartingAt(s, c) && ThreadOk(s, s.threads[c].control.creator)
    requires var p := s.threads[c].control.creator;
      && s'.threads[p] == s.threads[p].(control := s'.threads[p].control)
      && s'.threads[p].control.(outcome := Parameters(s, c).outcome) == Parameters(s, c)
    ensures ThreadOk(s', s.threads[c].control.creator)
  {
    var p := s.threads[c].control.creator;
    OtherSlots(s.tables, s'.tables, c, p);
    MovesOn(s, s', p, c, joined);
  }

  lemma CopyParametersOk(s: State, c: ThreadId)
    requires InStage(s, c, Spawned) && StartingAt(s, c) && WellFormed(s.tables)
    requires FramesAt(s, c) && SlotAt(s, c) && CoveredAt(s, c)
    requires Parameters(s, c).filament !in s.destroyed
    ensures Advances(s, DoCopyParameters(s, c), c, None) && ThreadOk(DoCopyParameters(s, c), c)
  {
    var s' := DoCopyParameters(s, c);
    forall f | Needs(s', c, f)
      ensures f == Parameters(s, c).filament
    {
    }
  }

  lemma CopyParametersKeeps(s: State, c: ThreadId)
    requires Inv(s) && Enabled(s, CopyParameters(c))
    ensures Inv(Apply(s, CopyParameters(c)))
  {
    assert ThreadOk(s, c) && ThreadOk(s, s.threads[c].control.creator);
    assert Needs(s, s.threads[c].control.creator, Parameters(s, c).filament);
    CopyParametersOk(s, c);
    CreatorStays(s, DoCopyParameters(s, c), c, None);
    AdvanceKeeps(s, DoCopyParameters(s, c), c, None);
  }

  lemma NotifyStartOk(s: State, c: ThreadId)
    requires InStage(s, c, Installed) && StartingAt(s, c) && WellFormed(s.tables)
    requires FramesAt(s, c) && SlotAt(s, c) && CoveredAt(s, c)
    ensures Advances(s, DoNotifyStart(s, c), c, None) && ThreadOk(DoNotifyStart(s, c), c)
  {
    MovesOn(s, DoNotifyStart(s, c), c, c, None);
  }

  lemma NotifyStartKeeps(s: State, c: ThreadId)
    requires Inv(s) && Enabled(s, NotifyStart(c))
    ensures Inv(Apply(s, NotifyStart(c)))
  {
    assert ThreadOk(s, c) && ThreadOk(s, s.threads[c].control.creator);
    NotifyStartOk(s, c);
    CreatorStays(s, DoNotifyStart(s, c), c, None);
    AdvanceKeeps(s, DoNotifyStart(s, c), c, None);
  }

  lemma SignalOk(s: State, c: ThreadId)
    requires (InStage(s, c, Notified) || InStage(s, c, Failed)) && StartingAt(s, c) && WellFormed(s.tables)
    requires FramesAt(s, c) && SlotAt(s, c) && CoveredAt(s, c)
    ensures Advances(s, DoSignal(s, c), c, None) && ThreadOk(DoSignal(s, c), c)
  {
    MovesOn(s, DoSignal(s, c), c, c, None);
  }

  // The creator may wake up; if its child came up it is listed.
  lemma CreatorSignalled(s: State, c: ThreadId)
    requires (InStage(s, c, Notified) || InStage(s, c, Failed)) && StartingAt(s, c)
    requires s.threads[c].control.creator != c && ThreadOk(s, s.threads[c].control.creator)
    ensures ThreadOk(DoSignal(s, c), s.threads[c].control.creator)
  {
    var p := s.threads[c].control.creator;
    MovesOn(s, DoSignal(s, c), p, p, None);
  }

  lemma SignalKeeps(s: State, c: ThreadId)
    requires Inv(s) && Enabled(s, Signal(c))
    ensures Inv(Apply(s, Signal(c)))
  {
    assert ThreadOk(s, c) && ThreadOk(s, s.threads[c].control.creator);
    SignalOk(s, c);
    CreatorSignalled(s, c);
    AdvanceKeeps(s, DoSignal(s, c), c, None);
  }

  lemma EnlistChildMoves(s: State, c: ThreadId, handleOk: bool, status: Status, joined: Option<FilamentId>)
    requires Enabled(s, EnlistChild(c, handleOk)) && StartingAt(s, c)
    requires status == Enlist(s.tables, c, Some(Parameters(s, c).filament), handleOk).1
    requires joined == if status == Success then Some(Parameters(s, c).filament) else None
    ensures Advances(s, DoEnlistChild(s, c, handleOk), c, joined)
    ensures Slot(DoEnlistChild(s, c, handleOk), c) == None
  {
    var s' := DoEnlistChild(s, c, handleOk);
    EnlistFrame(s.tables, c, Some(Parameters(s, c).filament), handleOk, s'.tables, status);
  }

  lemma EnlistChildOk(s: State, s': State, c: ThreadId, joined: Option<FilamentId>)
    requires InStage(s, c, Copied) && StartingAt(s, c) && CoveredAt(s, c)
    requires Advances(s, s', c, joined) && HasParameters(s', c) && Slot(s', c) == None
    requires if joined.Some? then
        && s'.threads[c] == s.threads[c].(control := s.threads[c].control.(stage := Listed))
        && Parameters(s', c) == Parameters(s, c)
      else
        && s'.threads[c] == Thread(s.threads[c].control.(stage := Failed), [], None)
        && Parameters(s', c).outcome.Some? && Parameters(s', c).outcome.value != Success
        && Parameters(s', c).(outcome := Parameters(s, c).outcome) == Parameters(s, c)
    ensures ThreadOk(s', c)
  {
    assert Needs(s, c, Parameters(s, c).filament);
  }

  lemma EnlistChildKeeps(s: State, c: ThreadId, handleOk: bool)
    requires Inv(s) && Enabled(s, EnlistChild(c, handleOk))
    ensures Inv(Apply(s, EnlistChild(c, handleOk)))
  {
    var s' := DoEnlistChild(s, c, handleOk);
    var f := Parameters(s, c).filament;
    var status := Enlist(s.tables, c, Some(f), handleOk).1;
    var joined := if status == Success then Some(f) else None;
    assert ThreadOk(s, c) && ThreadOk(s, s.threads[c].control.creator);
    EnlistChildMoves(s, c, handleOk, status, joined);
    CreatorStays(s, s', c, joined);
    EnlistChildOk(s, s', c, joined);
    AdvanceKeeps(s, s', c, joined);
  }

  lemma InstallChildMoves(s: State, c: ThreadId)
    requires Enabled(s, InstallChild(c)) && StartingAt(s, c)
    ensures var s' := DoInstallChild(s, c);
      && Advances(s, s', c, None)
      && Slot(s', c) == Some(Parameters(s, c).filament)
      && s'.threads[c] == s.threads[c].(control := s.threads[c].control.(stage := Installed))
      && HasParameters(s', c)
      && Parameters(s', c) == Parameters(s, c).(outcome := Some(Success))
  {
    var s', f := DoInstallChild(s, c), Parameters(s, c).filament;
    var status := Install(s.tables, c, None, Some(f), false).1;
    InstallFrame(s.tables, c, None, Some(f), false, s'.tables, status);
    assert status == Success;
  }

  lemma InstallChildOk(s: State, s': State, c: ThreadId)
    requires InStage(s, c, Listed) && StartingAt(s, c) && CoveredAt(s, c)
    requires Advances(s, s', c, None) && Slot(s', c) == Some(Parameters(s, c).filament) && HasParameters(s', c)
    requires s'.threads[c] == s.threads[c].(control := s.threads[c].control.(stage := Installed))
    requires Parameters(s', c) == Parameters(s, c).(outcome := Some(Success))
    ensures ThreadOk(s', c)
  {
    assert Needs(s, c, Parameters(s, c).filament);
  }

  lemma InstallChildKeeps(s: State, c: ThreadId)
    requires Inv(s) && Enabled(s, InstallChild(c))
    ensures Inv(Apply(s, InstallChild(c)))
  {
    var s' := DoInstallChild(s, c);
    assert ThreadOk(s, c) && ThreadOk(s, s.threads[c].control.creator);
    InstallChildMoves(s, c);
    CreatorStays(s, s', c, None);
    InstallChildOk(s, s', c);
    AdvanceKeeps(s, s', c, None);
  }

  // Only `t` moves, and with it possibly its slot, a child list it joins and a filament it sets up.
  ghost predicate MovesAlone(s: State, s': State, t: ThreadId, joined: Option<FilamentId>)
  {
    && t in s.threads && (s.threads[t].control == User || s.threads[t].control == Joined)
    && t in s'.threads && s'.threads == s.threads[t := s'.threads[t]]
    && s'.locks == s.locks && s'.destroyed == s.destroyed
    && WellFormed(s'.tables) && OnlySlot(s.tables, s'.tables, t) && Grows(s, s', t, joined)
    && (joined.Some? ==> joined.value !in s.locks && !PastJoin(s, joined.value))
    && (|| s'.threads[t].control == User || s'.threads[t].control == Exiting
        || (s'.threads[t] == s.threads[t].(control := Left) && s.threads[t].control == Joined))
  }

  lemma MovesAloneLeaves(s: State, s': State, t: ThreadId, joined: Option<FilamentId>, u: ThreadId)
    requires MovesAlone(s, s', t, joined) && u in s.threads && u != t
    ensures Leaves(s, s', u, joined)
  {
    OtherSlots(s.tables, s'.tables, t, u);
  }

  lemma MovesAlonePast(s: State, s': State, t: ThreadId, joined: Option<FilamentId>, f: FilamentId)
    requires MovesAlone(s, s', t, joined) && f in s.tables.filaments && PastJoin(s', f)
    ensures PastJoin(s, f)
  {
  }

  lemma MovesAloneTidy(s: State, s': State, t: ThreadId, joined: Option<FilamentId>)
    requires MovesAlone(s, s', t, joined) && Tidy(s)
    ensures Tidy(s')
  {
    forall u | u in s'.tables.tls
      ensures u in s'.threads
    {
      if u != t { OtherSlots(s.tables, s'.tables, t, u); }
    }
  }

  lemma MovesAloneKeeps(s: State, s': State, t: ThreadId, joined: Option<FilamentId>)
    requires Inv(s) && MovesAlone(s, s', t, joined) && ThreadOk(s', t)
    requires forall f {:trigger FilamentOk(s', f)} ::
               f in s'.tables.filaments && f !in s.tables.filaments ==> FilamentOk(s', f)
    ensures Inv(s')
  {
    MovesAloneTidy(s, s', t, joined);
    forall u | u in s'.threads && u != t
      ensures Leaves(s, s', u, joined)
    {
      MovesAloneLeaves(s, s', t, joined, u);
    }
    forall f | f in s.tables.filaments
      ensures PastJoin(s', f) ==> PastJoin(s, f)
    {
      if PastJoin(s', f) {
        MovesAlonePast(s, s', t, joined, f);
      }
    }
    StepFrame(s, s', {t}, t, joined);
  }

  lemma FinishKeeps(s: State, t: ThreadId)
    requires Inv(s) && Enabled(s, Finish(t))
    ensures Inv(Apply(s, Finish(t)))
  {
    var s' := DoFinish(s, t);
    SetCurrentEffect(s.tables, t, None, false, true, s'.tables, SetCurrent(s.tables, t, None, false, true).1);
    assert ThreadOk(s, t);
    assert ThreadOk(s', t);
    MovesAloneKeeps(s, s', t, None);
  }

  // `t` gives its slot away or takes a filament it has just joined.
  lemma NewSlotOk(s: State, s': State, t: ThreadId, joined: Option<FilamentId>)
    requires MovesAlone(s, s', t, joined) && FramesAt(s, t) && SlotAt(s, t)
    requires s.threads[t].frames == [] && s.threads[t].control == User && s'.threads[t] == s.threads[t]
    requires CoveredAt(s, t)
    requires Slot(s', t) == joined
    requires joined.Some? ==> Foreign(s, t, joined.value) && joined.value !in s.destroyed
    ensures ThreadOk(s', t)
  {
    forall f | Needs(s', t, f)
      ensures f !in s'.destroyed && Member(s', t, f)
    {
      if joined != Some(f) {
        assert Needs(s, t, f);
      }
    }
  }

  lemma AutoRegisterMoves(s: State, t: ThreadId, status: Status)
    requires Enabled(s, AutoRegister(t)) && Timely(s, AutoRegister(t)) && SlotAt(s, t)
    requires status == SetCurrent(s.tables, t, s.tables.defaultFilament, true, true).1
    ensures !Running(s, t) && (status == Success ==> Foreign(s, t, s.tables.defaultFilament.value))
    ensures Slot(DoAutoRegister(s, t), t) == if status == Success then s.tables.defaultFilament else None
    ensures MovesAlone(s, DoAutoRegister(s, t), t, if status == Success then s.tables.defaultFilament else None)
  {
    SetCurrentStatus(s.tables, t, s.tables.defaultFilament, true, true);
    SetCurrentEffect(s.tables, t, s.tables.defaultFilament, true, true, DoAutoRegister(s, t).tables, status);
  }

  lemma AutoRegisterKeeps(s: State, t: ThreadId)
    requires Inv(s) && Enabled(s, AutoRegister(t)) && Timely(s, AutoRegister(t))
    ensures Inv(Apply(s, AutoRegister(t)))
  {
    var s' := DoAutoRegister(s, t);
    var status := SetCurrent(s.tables, t, s.tables.defaultFilament, true, true).1;
    assert ThreadOk(s, t);
    AutoRegisterMoves(s, t, status);
    NewSlotOk(s, s', t, if status == Success then s.tables.defaultFilament else None);
    MovesAloneKeeps(s, s', t, if status == Success then s.tables.defaultFilament else None);
  }

  lemma CreateOk(s: State, t: ThreadId, c: ThreadId)
    requires Enabled(s, Create(t, c)) && Tidy(s) && ThreadOk(s, t)
    requires Slot(s, t).value in s.tables.filaments && FilamentOk(s, Slot(s, t).value)
    ensures ThreadOk(DoCreate(s, t, c), t) && ThreadOk(DoCreate(s, t, c), c)
  {
    var s' := DoCreate(s, t, c);
    MovesOn(s, s', t, t, None);
    assert Slot(s, c) == None;
  }

  lemma CreateLeaves(s: State, t: ThreadId, c: ThreadId, u: ThreadId)
    requires In(s, t, User) && Slot(s, t).Some? && c !in s.threads && u in s.threads && u != t
    requires s.threads[u].control.Starting? ==> StartingAt(s, u)
    ensures Leaves(s, DoCreate(s, t, c), u, None)
  {
  }

  lemma CreatePast(s: State, t: ThreadId, c: ThreadId, f: FilamentId)
    requires In(s, t, User) && Slot(s, t).Some? && c !in s.threads
    requires f in s.tables.filaments && FilamentOk(s, f) && PastJoin(DoCreate(s, t, c), f)
    ensures PastJoin(s, f)
  {
  }

  lemma CreateKeeps(s: State, t: ThreadId, c: ThreadId)
    requires Inv(s) && Enabled(s, Create(t, c))
    ensures Inv(Apply(s, Create(t, c)))
  {
    var s' := DoCreate(s, t, c);
    assert ThreadOk(s, t) && FilamentOk(s, Slot(s, t).value);
    CreateOk(s, t, c);
    forall u | u in s'.threads && u != t && u != c
      ensures Leaves(s, s', u, None)
    {
      assert ThreadOk(s, u);
      CreateLeaves(s, t, c, u);
    }
    forall f | f in s.tables.filaments
      ensures PastJoin(s', f) ==> PastJoin(s, f)
    {
      assert FilamentOk(s, f);
      if PastJoin(s', f) {
        CreatePast(s, t, c, f);
      }
    }
    StepFrame(s, s', {t, c}, t, None);
  }

  // A return that does not slip succeeds or finds the child list full.
  lemma RestoreStatus(s: State, t: ThreadId, handleOk: bool)
    requires Enabled(s, Restore(t, handleOk)) && Known(s.tables, Top(s, t).previous) && !Slips(s, Restore(t, handleOk))
    ensures SetCurrent(s.tables, t, Top(s, t).previous, false, handleOk).1 in {Success, TooManyChildThreads}
  {
    SetCurrentStatus(s.tables, t, Top(s, t).previous, false, handleOk);
  }

  lemma RestoreMoves(s: State, t: ThreadId, handleOk: bool, status: Status, joined: Option<FilamentId>)
    requires Enabled(s, Restore(t, handleOk)) && FramesAt(s, t) && Known(s.tables, Top(s, t).previous)
    requires status == SetCurrent(s.tables, t, Top(s, t).previous, false, handleOk).1
    requires status in {Success, TooManyChildThreads}
    requires joined == if status == Success then Joins(s.tables, t, Top(s, t).previous) else None
    requires joined.Some? ==> !PastJoin(s, joined.value)
    ensures MovesAlone(s, DoRestore(s, t, handleOk), t, joined)
    ensures status == Success ==> Slot(DoRestore(s, t, handleOk), t) == Top(s, t).previous
    ensures status != Success ==>
              Slot(DoRestore(s, t, handleOk), t) == None && Joins(s.tables, t, Top(s, t).previous).Some?
    ensures DoRestore(s, t, handleOk).tables.filaments.Keys == s.tables.filaments.Keys
  {
    SetCurrentStatus(s.tables, t, Top(s, t).previous, false, handleOk);
    SetCurrentEffect(s.tables, t, Top(s, t).previous, false, handleOk, DoRestore(s, t, handleOk).tables, status);
  }

  lemma RestoreOk(s: State, s': State, t: ThreadId, joined: Option<FilamentId>)
    requires MovesAlone(s, s', t, joined) && In(s, t, Joined) && Running(s, t)
    requires s'.threads[t] == s.threads[t].(control := Left)
    requires ThreadOk(s, t) && Known(s.tables, Top(s, t).previous)
    requires || Slot(s', t) == Top(s, t).previous
             || (Slot(s', t) == None && Joins(s.tables, t, Top(s, t).previous).Some?)
    ensures ThreadOk(s', t)
  {
    var frames := s.threads[t].frames;
    if |frames| > 1 {
      assert s.tables.filaments[frames[|frames| - 2].filament].main == t;
    }
    forall f | Needs(s', t, f)
      ensures f !in s'.destroyed && Member(s', t, f)
    {
      assert Top(s, t) == s.threads[t].frames[|s.threads[t].frames| - 1];
      assert Needs(s, t, f);
    }
  }

  // A filament to which a child thread returns is not past its join.
  lemma RestoreJoinsOpen(s: State, t: ThreadId, f: FilamentId)
    requires Inv(s) && In(s, t, Joined) && Running(s, t)
    requires Known(s.tables, Top(s, t).previous) && Joins(s.tables, t, Top(s, t).previous) == Some(f)
    ensures !PastJoin(s, f)
  {
    if PastJoin(s, f) {
      assert Needs(s, t, f);
      PastJoinUnneeded(s, f, t);
    }
  }

  // The filament whose children `t` joins by returning to it
  function RestoreJoins(s: State, t: ThreadId, handleOk: bool): Option<FilamentId>
    requires Addressable(s) && Running(s, t) && Known(s.tables, Top(s, t).previous)
  {
    if SetCurrent(s.tables, t, Top(s, t).previous, false, handleOk).1 == Success then
      Joins(s.tables, t, Top(s, t).previous)
    else None
  }

  lemma RestoreThread(s: State, t: ThreadId, handleOk: bool, joined: Option<FilamentId>)
    requires Enabled(s, Restore(t, handleOk)) && !Slips(s, Restore(t, handleOk))
    requires ThreadOk(s, t) && Known(s.tables, Top(s, t).previous)
    requires joined == RestoreJoins(s, t, handleOk) && (joined.Some? ==> !PastJoin(s, joined.value))
    ensures MovesAlone(s, DoRestore(s, t, handleOk), t, joined) && ThreadOk(DoRestore(s, t, handleOk), t)
    ensures DoRestore(s, t, handleOk).tables.filaments.Keys == s.tables.filaments.Keys
  {
    var status := SetCurrent(s.tables, t, Top(s, t).previous, false, handleOk).1;
    RestoreStatus(s, t, handleOk);
    RestoreMoves(s, t, handleOk, status, joined);
    RestoreOk(s, DoRestore(s, t, handleOk), t, joined);
  }

  lemma RestoreKeeps(s: State, t: ThreadId, handleOk: bool)
    requires Inv(s) && Enabled(s, Restore(t, handleOk)) && !Slips(s, Restore(t, handleOk))
    ensures Inv(Apply(s, Restore(t, handleOk)))
  {
    assert ThreadOk(s, t);
    PreviousKnown(s, t, |s.threads[t].frames| - 1);
    var joined := RestoreJoins(s, t, handleOk);
    if joined.Some? {
      RestoreJoinsOpen(s, t, joined.value);
    }
    RestoreThread(s, t, handleOk, joined);
    MovesAloneKeeps(s, DoRestore(s, t, handleOk), t, joined);
  }

  lemma DestroyLeaves(s: State, t: ThreadId, u: ThreadId)
    requires Enabled(s, Destroy(t)) && FramesAt(s, t) && u in s.threads && u != t
    requires ThreadOk(s, u) && !Needs(s, u, Top(s, t).filament)
    ensures ThreadOk(DoDestroy(s, t), u)
  {
    var s' := DoDestroy(s, t);
    forall f | Needs(s', u, f)
      ensures f !in s'.destroyed && (Member(s', u, f) || Unlisted(s', u))
    {
      assert Needs(s, u, f);
    }
  }

  // No frame of `t` returns to the filament on top.
  lemma TopIsNoPrevious(s: State, t: ThreadId, i: nat)
    requires Running(s, t) && FramesAt(s, t) && i < |s.threads[t].frames|
    ensures s.threads[t].frames[i].previous != Some(Top(s, t).filament)
  {
    var frames := s.threads[t].frames;
    if i > 0 {
      assert frames[i].previous == Some(frames[i - 1].filament);
      assert frames[i - 1].filament != frames[|frames| - 1].filament;
    }
  }

  lemma DestroyOk(s: State, t: ThreadId)
    requires Enabled(s, Destroy(t)) && ThreadOk(s, t)
    ensures ThreadOk(DoDestroy(s, t), t) && !Needs(DoDestroy(s, t), t, Top(s, t).filament)
  {
    var s' := DoDestroy(s, t);
    var frames, frames' := s.threads[t].frames, s'.threads[t].frames;
    assert forall i :: 0 <= i < |frames'| ==> frames'[i] == frames[i];
    TopIsNoPrevious(s, t, |frames| - 1);
    forall f | Needs(s', t, f)
      ensures Needs(s, t, f) && f != Top(s, t).filament
    {
      if i :| 0 <= i < |frames'| && frames'[i].previous == Some(f) {
        assert frames[i].previous == Some(f);
        TopIsNoPrevious(s, t, i);
      }
    }
  }

  lemma DestroyFilament(s: State, t: ThreadId, f: FilamentId)
    requires Enabled(s, Destroy(t)) && f in s.tables.filaments && FilamentOk(s, f)
    ensures FilamentOk(DoDestroy(s, t), f)
  {
  }

  lemma DestroyThread(s: State, t: ThreadId, u: ThreadId)
    requires Inv(s) && Enabled(s, Destroy(t)) && u in s.threads
    ensures ThreadOk(DoDestroy(s, t), u)
  {
    assert ThreadOk(s, t) && ThreadOk(s, u);
    if u == t {
      DestroyOk(s, t);
    } else {
      if Live(s, u) {
        PastJoinUnneeded(s, Top(s, t).filament, u);
      }
      DestroyLeaves(s, t, u);
    }
  }

  lemma DestroyKeeps(s: State, t: ThreadId)
    requires Inv(s) && Enabled(s, Destroy(t))
    ensures Inv(Apply(s, Destroy(t)))
  {
    var s' := DoDestroy(s, t);
    assert ThreadOk(s, t);
    forall u | u in s'.threads
      ensures ThreadOk(s', u)
    {
      DestroyThread(s, t, u);
    }
    forall f | f in s'.tables.filaments
      ensures FilamentOk(s', f)
    {
      assert FilamentOk(s, f);
      DestroyFilament(s, t, f);
    }
  }

  lemma BeginRunMoves(s: State, t: ThreadId, f: FilamentId, context: ContextId, isDefault: bool)
    requires Enabled(s, BeginRun(t, f, context, isDefault)) && Tidy(s) && !Refused(s, isDefault)
    ensures MovesAlone(s, DoBeginRun(s, t, f, context, isDefault), t, None)
    ensures Slot(DoBeginRun(s, t, f, context, isDefault), t) == Some(f)
    ensures DoBeginRun(s, t, f, context, isDefault).tables.filaments
         == s.tables.filaments[f := Filament(context, t, isDefault, [])]
  {
    var s' := DoBeginRun(s, t, f, context, isDefault);
    var tables := s.tables.(filaments := s.tables.filaments[f := Filament(context, t, isDefault, [])]);
    var status := SetCurrent(tables, t, Some(f), false, true).1;
    SetCurrentEffect(tables, t, Some(f), false, true, s'.tables, status);
    assert status == Success;
  }

  lemma BeginRunFrames(s: State, s': State, t: ThreadId, f: FilamentId)
    requires MovesAlone(s, s', t, None) && FramesAt(s, t) && SlotAt(s, t) && s.threads[t].control == User
    requires f !in s.tables.filaments && f !in s.destroyed
    requires f in s'.tables.filaments && s'.tables.filaments[f].main == t
    requires s'.threads[t] == s.threads[t].(frames := s.threads[t].frames + [Frame(f, Slot(s, t))])
    ensures FramesAt(s', t)
  {
    var frames, frames' := s.threads[t].frames, s'.threads[t].frames;
    assert forall i :: 0 <= i < |frames| ==> frames'[i] == frames[i];
  }

  lemma BeginRunOk(s: State, s': State, t: ThreadId, f: FilamentId)
    requires MovesAlone(s, s', t, None) && In(s, t, User) && ThreadOk(s, t)
    requires f !in s.tables.filaments && f !in s.destroyed
    requires f in s'.tables.filaments && s'.tables.filaments[f].main == t
    requires s'.threads[t] == s.threads[t].(frames := s.threads[t].frames + [Frame(f, Slot(s, t))])
    requires Slot(s', t) == Some(f)
    ensures ThreadOk(s', t)
  {
    BeginRunFrames(s, s', t, f);
    var frames, frames' := s.threads[t].frames, s'.threads[t].frames;
    assert forall i :: 0 <= i < |frames| ==> frames'[i] == frames[i];
    forall g | Needs(s', t, g)
      ensures g !in s'.destroyed && Member(s', t, g)
    {
      if g != f {
        assert Needs(s, t, g);
      }
    }
  }

  // A refused routine only changes reference counts.
  lemma RefusedKeeps(s: State, t: ThreadId, f: FilamentId, context: ContextId)
    requires Inv(s) && Enabled(s, BeginRun(t, f, context, true)) && Refused(s, true)
    ensures Inv(DoBeginRun(s, t, f, context, true))
  {
    var s' := DoBeginRun(s, t, f, context, true);
    assert ThreadOk(s, t);
    Untouched(s, s', t, t, None);
    MovesAloneKeeps(s, s', t, None);
  }

  lemma BeginRunKeeps(s: State, t: ThreadId, f: FilamentId, context: ContextId, isDefault: bool)
    requires Inv(s) && Enabled(s, BeginRun(t, f, context, isDefault))
    ensures Inv(Apply(s, BeginRun(t, f, context, isDefault)))
  {
    if Refused(s, isDefault) {
      RefusedKeeps(s, t, f, context);
    } else {
      var s' := DoBeginRun(s, t, f, context, isDefault);
      assert ThreadOk(s, t);
      BeginRunMoves(s, t, f, context, isDefault);
      BeginRunOk(s, s', t, f);
      MovesAloneKeeps(s, s', t, None);
    }
  }

  lemma StepKeeps(s: State, step: Step)
    requires Inv(s) && Enabled(s, step) && Orderly(s, step)
    ensures Inv(Apply(s, step))
  {
    match step
    case BeginRun(t, f, context, isDefault) => BeginRunKeeps(s, t, f, context, isDefault);
    case EndRoutine(t) => EndRoutineKeeps(s, t);
    case LockJoin(t) => LockJoinKeeps(s, t);
    case JoinDone(t) => JoinDoneKeeps(s, t);
    case Restore(t, handleOk) => RestoreKeeps(s, t, handleOk);
    case Destroy(t) => DestroyKeeps(s, t);
    case Create(t, c) => CreateKeeps(s, t, c);
    case CopyParameters(c) => CopyParametersKeeps(s, c);
    case EnlistChild(c, handleOk) => EnlistChildKeeps(s, c, handleOk);
    case InstallChild(c) => InstallChildKeeps(s, c);
    case NotifyStart(c) => NotifyStartKeeps(s, c);
    case Signal(c) => SignalKeeps(s, c);
    case Wake(t) => WakeKeeps(s, t);
    case Finish(t) => FinishKeeps(s, t);
    case Exit(t) => ExitKeeps(s, t);
    case AutoRegister(t) => AutoRegisterKeeps(s, t);
  }
}
