/** The default filament over whole runs. */
module FilamentDefault {
  import opened Prelude
  import opened FilamentTables
  import opened FilamentProtocol
  import opened FilamentTheorems

  // The main thread of `d` has given `d` up and is about to destroy it.
  predicate Leaving(s: State, d: FilamentId)
  {
    && d in s.tables.filaments
    && var m := s.tables.filaments[d].main;
       In(s, m, Left) && Running(s, m) && Top(s, m).filament == d
  }

  // The default filament, if any, is alive, is the current filament of its main thread and is not
  // about to be destroyed.
  ghost predicate DefaultCurrent(s: State)
  {
    s.tables.defaultFilament.Some? ==>
      var d := s.tables.defaultFilament.value;
      && d in s.tables.filaments && d !in s.destroyed
      && Slot(s, s.tables.filaments[d].main) == Some(d) && !Leaving(s, d)
  }

  // A thread ends a routine whose filament is the default one, and nothing revokes that: the previous
  // filament is another default filament of the same thread; or one it is only a child of, and that
  // one is marked default as well, has a full child list, or cannot be joined for lack of a handle.
  predicate StrandsDefault(s: State, step: Step)
  {
    && step.Restore? && Running(s, step.t)
    && s.tables.defaultFilament == Some(Top(s, step.t).filament)
    && var previous := Top(s, step.t).previous;
       && previous.Some? && previous.value in s.tables.filaments
       && var g := s.tables.filaments[previous.value];
          || g.isDefault
          || (g.main != step.t && (!step.handleOk || |g.children| >= MAX_THREADS))
  }

  // The default filament after one call of CfixsSetCurrentFilament.
  lemma DefaultAfterCall(tb: Tables, t: ThreadId, target: Option<FilamentId>, derived: bool, handleOk: bool,
                         tb': Tables, status: Status)
    requires WellFormed(tb) && Known(tb, target) && (target.None? ==> !derived)
    requires (tb', status) == SetCurrent(tb, t, target, derived, handleOk)
    ensures tb'.defaultFilament ==
      if status != Success then tb.defaultFilament
      else if target.Some? then
        (if !tb.filaments[target.value].isDefault then None
         else if tb.filaments[target.value].main == t then target
         else tb.defaultFilament)
      else
        (if Current(tb, t).Some? && tb.filaments[Current(tb, t).value].main == t
            && tb.filaments[Current(tb, t).value].isDefault then None
         else tb.defaultFilament)
  {
  }

  // The default filament after a return
  lemma RestoreRevokes(s: State, t: ThreadId, handleOk: bool)
    requires Inv(s) && Enabled(s, Restore(t, handleOk)) && s.tables.defaultFilament.Some?
    ensures DoRestore(s, t, handleOk).tables.defaultFilament == s.tables.defaultFilament
              || DoRestore(s, t, handleOk).tables.defaultFilament == None
    ensures s.tables.defaultFilament == Some(Top(s, t).filament) ==>
              (DoRestore(s, t, handleOk).tables.defaultFilament.Some? <==> StrandsDefault(s, Restore(t, handleOk)))
  {
    var s', previous := DoRestore(s, t, handleOk), Top(s, t).previous;
    assert ThreadOk(s, t);
    PreviousKnown(s, t, |s.threads[t].frames| - 1);
    SetCurrentStatus(s.tables, t, previous, false, handleOk);
    DefaultAfterCall(s.tables, t, previous, false, handleOk, s'.tables,
                     SetCurrent(s.tables, t, previous, false, handleOk).1);
  }

  lemma RestoreSlots(s: State, t: ThreadId, handleOk: bool)
    requires Inv(s) && Enabled(s, Restore(t, handleOk))
    ensures forall u :: u != t ==> Slot(DoRestore(s, t, handleOk), u) == Slot(s, u)
    ensures SameMains(s.tables, DoRestore(s, t, handleOk).tables)
  {
    var s', previous := DoRestore(s, t, handleOk), Top(s, t).previous;
    assert ThreadOk(s, t);
    PreviousKnown(s, t, |s.threads[t].frames| - 1);
    SetCurrentEffect(s.tables, t, previous, false, handleOk, s'.tables,
                     SetCurrent(s.tables, t, previous, false, handleOk).1);
    forall u | u != t
      ensures Slot(s', u) == Slot(s, u)
    {
      OtherSlots(s.tables, s'.tables, t, u);
    }
  }

  lemma RestoreDefault(s: State, t: ThreadId, handleOk: bool)
    requires Inv(s) && DefaultCurrent(s) && Enabled(s, Restore(t, handleOk))
    ensures DefaultCurrent(DoRestore(s, t, handleOk)) <==> !StrandsDefault(s, Restore(t, handleOk))
  {
    RestoreSlots(s, t, handleOk);
    assert ThreadOk(s, t);
    if s.tables.defaultFilament.Some? {
      RestoreRevokes(s, t, handleOk);
    } else {
      NoDefaultRestored(s, t, handleOk);
    }
  }

  // A return never sets up a default filament again that was revoked, unless it is the previous one.
  lemma NoDefaultRestored(s: State, t: ThreadId, handleOk: bool)
    requires Inv(s) && Enabled(s, Restore(t, handleOk)) && s.tables.defaultFilament == None
    ensures DefaultCurrent(DoRestore(s, t, handleOk))
  {
    var s', previous := DoRestore(s, t, handleOk), Top(s, t).previous;
    var status := SetCurrent(s.tables, t, previous, false, handleOk).1;
    assert ThreadOk(s, t);
    PreviousKnown(s, t, |s.threads[t].frames| - 1);
    TopIsNoPrevious(s, t, |s.threads[t].frames| - 1);
    DefaultAfterCall(s.tables, t, previous, false, handleOk, s'.tables, status);
    SetCurrentEffect(s.tables, t, previous, false, handleOk, s'.tables, status);
    if previous.Some? {
      assert Needs(s, t, previous.value);
    }
  }

  lemma BeginRunDefault(s: State, t: ThreadId, f: FilamentId, context: ContextId, isDefault: bool)
    requires Inv(s) && DefaultCurrent(s) && Enabled(s, BeginRun(t, f, context, isDefault))
    ensures DefaultCurrent(DoBeginRun(s, t, f, context, isDefault))
  {
    if !Refused(s, isDefault) {
      var s' := DoBeginRun(s, t, f, context, isDefault);
      var tb := s.tables.(filaments := s.tables.filaments[f := Filament(context, t, isDefault, [])]);
      BeginRunMoves(s, t, f, context, isDefault);
      DefaultAfterCall(tb, t, Some(f), false, true, s'.tables, SetCurrent(tb, t, Some(f), false, true).1);
    }
  }

  // A step that changes no slot but that of a thread which is not the main thread of the default filament.
  lemma BystanderDefault(s: State, s': State, t: ThreadId)
    requires DefaultCurrent(s) && WellFormed(s.tables) && s'.destroyed == s.destroyed
    requires OnlySlot(s.tables, s'.tables, t) && SameMains(s.tables, s'.tables)
    requires s'.tables.defaultFilament == None || s'.tables.defaultFilament == s.tables.defaultFilament
    requires s.tables.defaultFilament.Some? ==> s.tables.filaments[s.tables.defaultFilament.value].main != t
    requires forall f :: Leaving(s', f) ==> Leaving(s, f)
    ensures DefaultCurrent(s')
  {
    if s'.tables.defaultFilament.Some? {
      OtherSlots(s.tables, s'.tables, t, s.tables.filaments[s.tables.defaultFilament.value].main);
    }
  }

  lemma FinishDefault(s: State, t: ThreadId)
    requires Inv(s) && DefaultCurrent(s) && Enabled(s, Finish(t))
    ensures DefaultCurrent(DoFinish(s, t))
  {
    var s', status := DoFinish(s, t), SetCurrent(s.tables, t, None, false, true).1;
    assert ThreadOk(s, t);
    DefaultAfterCall(s.tables, t, None, false, true, s'.tables, status);
    SetCurrentEffect(s.tables, t, None, false, true, s'.tables, status);
    BystanderDefault(s, s', t);
  }

  lemma AutoRegisterDefault(s: State, t: ThreadId)
    requires Inv(s) && DefaultCurrent(s) && Enabled(s, AutoRegister(t))
    ensures DefaultCurrent(DoAutoRegister(s, t))
  {
    var s', d := DoAutoRegister(s, t), s.tables.defaultFilament;
    var status := SetCurrent(s.tables, t, d, true, true).1;
    DefaultAfterCall(s.tables, t, d, true, true, s'.tables, status);
    SetCurrentEffect(s.tables, t, d, true, true, s'.tables, status);
    BystanderDefault(s, s', t);
  }

  lemma StarterIsBystander(s: State, c: ThreadId)
    requires c in s.threads && s.threads[c].control.Starting? && StartingAt(s, c)
    requires DefaultCurrent(s) && WellFormed(s.tables)
    requires !InStage(s, c, Installed) && !InStage(s, c, Notified)
    ensures s.tables.defaultFilament.Some? ==> s.tables.filaments[s.tables.defaultFilament.value].main != c
  {
  }

  lemma EnlistDefault(s: State, c: ThreadId, handleOk: bool)
    requires Inv(s) && DefaultCurrent(s) && Enabled(s, EnlistChild(c, handleOk))
    ensures DefaultCurrent(DoEnlistChild(s, c, handleOk))
  {
    var s', f := DoEnlistChild(s, c, handleOk), Parameters(s, c).filament;
    assert ThreadOk(s, c);
    EnlistFrame(s.tables, c, Some(f), handleOk, s'.tables, Enlist(s.tables, c, Some(f), handleOk).1);
    StarterIsBystander(s, c);
    BystanderDefault(s, s', c);
  }

  lemma InstallDefault(s: State, c: ThreadId)
    requires Inv(s) && DefaultCurrent(s) && Enabled(s, InstallChild(c))
    ensures DefaultCurrent(DoInstallChild(s, c))
  {
    var s', f := DoInstallChild(s, c), Parameters(s, c).filament;
    assert ThreadOk(s, c);
    InstallFrame(s.tables, c, None, Some(f), false, s'.tables, Install(s.tables, c, None, Some(f), false).1);
    StarterIsBystander(s, c);
    BystanderDefault(s, s', c);
  }

  lemma DestroyDefault(s: State, t: ThreadId)
    requires Inv(s) && DefaultCurrent(s) && Enabled(s, Destroy(t))
    ensures DefaultCurrent(DoDestroy(s, t))
  {
    assert ThreadOk(s, t);
    TopIsNoPrevious(s, t, |s.threads[t].frames| - 1);
  }

  // The other steps change neither tables nor destroyed filaments and nobody's way out.
  lemma QuietDefault(s: State, step: Step)
    requires DefaultCurrent(s) && Enabled(s, step) && (step.CopyParameters? || step.NotifyStart? || step.Signal?
               || step.EndRoutine? || step.LockJoin? || step.JoinDone? || step.Create? || step.Wake? || step.Exit?)
    ensures DefaultCurrent(Apply(s, step))
  {
    assert Apply(s, step).tables == s.tables && Apply(s, step).destroyed == s.destroyed;
  }

  // A default filament that is alive and current stays so exactly until a thread leaves it in one of
  // the ways that do not revoke it.
  lemma DefaultStep(s: State, step: Step)
    requires Inv(s) && DefaultCurrent(s) && Enabled(s, step) && Timely(s, step)
    ensures DefaultCurrent(Apply(s, step)) <==> !StrandsDefault(s, step)
  {
    match step
    case BeginRun(t, f, context, isDefault) => BeginRunDefault(s, t, f, context, isDefault);
    case Restore(t, handleOk) => RestoreDefault(s, t, handleOk);
    case Finish(t) => FinishDefault(s, t);
    case AutoRegister(t) => AutoRegisterDefault(s, t);
    case EnlistChild(c, handleOk) => EnlistDefault(s, c, handleOk);
    case InstallChild(c) => InstallDefault(s, c);
    case Destroy(t) => DestroyDefault(s, t);
    case _ => QuietDefault(s, step);
  }

  ghost predicate Strands(s: State, steps: seq<Step>)
    decreases |steps|
  {
    && steps != [] && Enabled(s, steps[0])
    && (StrandsDefault(s, steps[0]) || Strands(Apply(s, steps[0]), steps[1..]))
  }

  lemma {:induction false} DefaultRun(s: State, steps: seq<Step>, s': State)
    requires Inv(s) && DefaultCurrent(s) && Run(s, steps, s') && OrderlyRun(s, steps) && !Strands(s, steps)
    ensures DefaultCurrent(s')
    decreases |steps|
  {
    if steps != [] {
      StepKeeps(s, steps[0]);
      DefaultStep(s, steps[0]);
      DefaultRun(Apply(s, steps[0]), steps[1..], s');
    }
  }

  // `t`, a child of the default-marked filament `g`, is at `control` in a nested run with filament `f`.
  ghost predicate Nested(s: State, t: ThreadId, g: FilamentId, f: FilamentId, control: Control)
  {
    && Inv(s) && In(s, t, control) && s.threads[t].frames == [Frame(f, Some(g))]
    && s.tables.defaultFilament == Some(f)
    && f in s.tables.filaments && s.tables.filaments[f].children == [] && f !in s.locks
    && g in s.tables.filaments && s.tables.filaments[g].isDefault && s.tables.filaments[g].main != t
    && |s.tables.filaments[g].children| < MAX_THREADS && g !in s.locks
  }

  lemma NestedRestore(s: State, t: ThreadId, g: FilamentId, f: FilamentId)
    requires Addressable(s) && In(s, t, Joined) && s.threads[t].frames == [Frame(f, Some(g))] && g !in s.locks
    requires s.tables.defaultFilament == Some(f)
    requires g in s.tables.filaments && s.tables.filaments[g].isDefault && s.tables.filaments[g].main != t
    requires |s.tables.filaments[g].children| < MAX_THREADS
    ensures Enabled(s, Restore(t, true)) && DoRestore(s, t, true).tables.defaultFilament == Some(f)
    ensures StrandsDefault(s, Restore(t, true)) && !Slips(s, Restore(t, true))
  {
  }

  // The ways on from there: out of the nested run, from the join on, and from the beginning
  lemma NestedLeave(s: State, t: ThreadId, g: FilamentId, f: FilamentId) returns (steps: seq<Step>, s': State)
    requires Nested(s, t, g, f, Joined)
    ensures Run(s, steps, s') && s'.tables.defaultFilament == Some(f) && f in s'.destroyed
  {
    InvAddressable(s);
    var s1 := DoRestore(s, t, true);
    NestedRestore(s, t, g, f);
    RestoreKeeps(s, t, true);
    InvAddressable(s1);
    s' := DoDestroy(s1, t);
    RunStep(s1, Destroy(t), [], s');
    RunStep(s, Restore(t, true), [Destroy(t)] + [], s');
    steps := [Restore(t, true)] + ([Destroy(t)] + []);
  }

  lemma NestedJoin(s: State, t: ThreadId, g: FilamentId, f: FilamentId) returns (steps: seq<Step>, s': State)
    requires Nested(s, t, g, f, Joining)
    ensures Run(s, steps, s') && s'.tables.defaultFilament == Some(f) && f in s'.destroyed
  {
    InvAddressable(s);
    var s1 := DoLockJoin(s, t);
    LockJoinKeeps(s, t);
    InvAddressable(s1);
    JoinDoneKeeps(s1, t);
    var rest;
    rest, s' := NestedLeave(DoJoinDone(s1, t), t, g, f);
    RunStep(s1, JoinDone(t), rest, s');
    RunStep(s, LockJoin(t), [JoinDone(t)] + rest, s');
    steps := [LockJoin(t)] + ([JoinDone(t)] + rest);
  }

  lemma NestedEnter(s: State, t: ThreadId, g: FilamentId, f: FilamentId, context: ContextId)
    returns (s': State)
    requires Inv(s) && In(s, t, User) && s.threads[t].frames == [] && Slot(s, t) == Some(g)
    requires s.tables.filaments[g].isDefault && |s.tables.filaments[g].children| < MAX_THREADS
    requires s.tables.defaultFilament == None && g !in s.locks && f !in s.tables.filaments && f !in s.locks
    ensures Enabled(s, BeginRun(t, f, context, true)) && s' == Apply(s, BeginRun(t, f, context, true))
    ensures Nested(s', t, g, f, User)
  {
    assert ThreadOk(s, t);
    InvAddressable(s);
    s' := DoBeginRun(s, t, f, context, true);
    BeginRunMoves(s, t, f, context, true);
    BeginRunKeeps(s, t, f, context, true);
  }

  // A child thread of a filament marked default, whose default was revoked in the meantime, runs a
  // nested routine that provides a default filament of its own: after the nested run the default
  // filament is one that has been destroyed.
  lemma NestedDefaultStranded(s: State, t: ThreadId, g: FilamentId, f: FilamentId, context: ContextId)
    requires Inv(s) && In(s, t, User) && s.threads[t].frames == [] && Slot(s, t) == Some(g)
    requires s.tables.filaments[g].isDefault && |s.tables.filaments[g].children| < MAX_THREADS
    requires s.tables.defaultFilament == None && g !in s.locks && f !in s.tables.filaments && f !in s.locks
    ensures exists steps, s' :: Run(s, steps, s') && s'.tables.defaultFilament == Some(f) && f in s'.destroyed
  {
    var s1 := NestedEnter(s, t, g, f, context);
    InvAddressable(s1);
    EndRoutineKeeps(s1, t);
    var rest, s' := NestedJoin(SetControl(s1, t, Joining), t, g, f);
    RunStep(s1, EndRoutine(t), rest, s');
    RunStep(s, BeginRun(t, f, context, true), [EndRoutine(t)] + rest, s');
  }
}
