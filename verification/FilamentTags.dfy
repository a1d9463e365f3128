/**
 The tag of the slot, which tells threads that were taken into the default filament from threads that
 cfix has started or in which it runs a routine.
 */
module FilamentTags {
  import opened Prelude
  import opened FilamentTables
  import opened FilamentProtocol
  import opened FilamentTheorems

  predicate Tagged(s: State, t: ThreadId)
  {
    t in s.tables.derived
  }

  ghost predicate Changes(s: State, step: Step, t: ThreadId)
    requires Enabled(s, step)
  {
    Slot(Apply(s, step), t) != Slot(s, t)
  }

  /* ---------------------------------------------------------------- who sets the tag */

  // A step that changes the slot of `t` sets the tag if it is a registration and clears it otherwise; no
  // other step touches it.
  ghost predicate TagFollows(s: State, step: Step, t: ThreadId)
    requires Enabled(s, step)
  {
    Tagged(Apply(s, step), t) <==> if Changes(s, step, t) then step == AutoRegister(t) else Tagged(s, t)
  }

  lemma UntaggedWithout(s: State, t: ThreadId)
    requires WellFormed(s.tables)
    ensures Tagged(s, t) ==> Slot(s, t).Some?
  {
  }

  // The slots and tags of all other threads stay.
  lemma OthersFollow(s: State, step: Step, t: ThreadId, u: ThreadId)
    requires Enabled(s, step) && u != t && OnlySlot(s.tables, Apply(s, step).tables, t)
    requires Apply(s, step).tables.derived - {t} == s.tables.derived - {t}
    ensures TagFollows(s, step, u) || step == AutoRegister(u)
  {
    OtherSlots(s.tables, Apply(s, step).tables, t, u);
    assert u in s.tables.derived <==> u in s.tables.derived - {t};
    assert u in Apply(s, step).tables.derived <==> u in Apply(s, step).tables.derived - {t};
  }

  lemma BeginRunFollows(s: State, step: Step, u: ThreadId)
    requires Inv(s) && Enabled(s, step) && step.BeginRun?
    ensures TagFollows(s, step, u)
  {
    var t, f := step.t, step.f;
    if !Refused(s, step.isDefault) {
      var tb := s.tables.(filaments := s.tables.filaments[f := Filament(step.context, t, step.isDefault, [])]);
      var (tb', status) := SetCurrent(tb, t, Some(f), false, true);
      SetCurrentStatus(tb, t, Some(f), false, true);
      SetCurrentEffect(tb, t, Some(f), false, true, tb', status);
      SetCurrentTag(tb, t, Some(f), false, true, tb', status);
      if u != t {
        OthersFollow(s, step, t, u);
      }
    }
  }

  lemma RestoreFollows(s: State, step: Step, u: ThreadId)
    requires Inv(s) && Enabled(s, step) && step.Restore? && !Slips(s, step)
    ensures TagFollows(s, step, u)
  {
    var t, previous := step.t, Top(s, step.t).previous;
    var (tb', status) := SetCurrent(s.tables, t, previous, false, step.handleOk);
    assert ThreadOk(s, t);
    PreviousKnown(s, t, |s.threads[t].frames| - 1);
    TopIsNoPrevious(s, t, |s.threads[t].frames| - 1);
    RestoreStatus(s, t, step.handleOk);
    SetCurrentEffect(s.tables, t, previous, false, step.handleOk, tb', status);
    SetCurrentTag(s.tables, t, previous, false, step.handleOk, tb', status);
    if u != t {
      OthersFollow(s, step, t, u);
    }
  }

  lemma FinishFollows(s: State, step: Step, u: ThreadId)
    requires Inv(s) && Enabled(s, step) && step.Finish?
    ensures TagFollows(s, step, u)
  {
    var t := step.t;
    var (tb', status) := SetCurrent(s.tables, t, None, false, true);
    SetCurrentStatus(s.tables, t, None, false, true);
    SetCurrentEffect(s.tables, t, None, false, true, tb', status);
    SetCurrentTag(s.tables, t, None, false, true, tb', status);
    UntaggedWithout(s, t);
    if u != t {
      OthersFollow(s, step, t, u);
    }
  }

  lemma AutoRegisterFollows(s: State, step: Step, u: ThreadId)
    requires Inv(s) && Enabled(s, step) && step.AutoRegister?
    ensures TagFollows(s, step, u)
  {
    var t, d := step.t, s.tables.defaultFilament;
    var (tb', status) := SetCurrent(s.tables, t, d, true, true);
    SetCurrentEffect(s.tables, t, d, true, true, tb', status);
    SetCurrentTag(s.tables, t, d, true, true, tb', status);
    UntaggedWithout(s, t);
    if u != t {
      OthersFollow(s, step, t, u);
    }
  }

  lemma EnlistFollows(s: State, step: Step, u: ThreadId)
    requires Inv(s) && Enabled(s, step) && step.EnlistChild?
    ensures TagFollows(s, step, u)
  {
    var c, f := step.c, Parameters(s, step.c).filament;
    var (tb', status) := Enlist(s.tables, c, Some(f), step.handleOk);
    EnlistFrame(s.tables, c, Some(f), step.handleOk, tb', status);
    EnlistTag(s.tables, c, Some(f), step.handleOk, tb', status);
    assert ThreadOk(s, c);
    UntaggedWithout(s, c);
    if u != c {
      OthersFollow(s, step, c, u);
    }
  }

  lemma InstallFollows(s: State, step: Step, u: ThreadId)
    requires Inv(s) && Enabled(s, step) && step.InstallChild?
    ensures TagFollows(s, step, u)
  {
    var c, f := step.c, Parameters(s, step.c).filament;
    var (tb', status) := Install(s.tables, c, None, Some(f), false);
    InstallFrame(s.tables, c, None, Some(f), false, tb', status);
    InstallTag(s.tables, c, None, Some(f), false, tb', status);
    assert ThreadOk(s, c);
    if u != c {
      OthersFollow(s, step, c, u);
    }
  }

  lemma TagStep(s: State, step: Step, u: ThreadId)
    requires Inv(s) && Enabled(s, step) && Orderly(s, step)
    ensures TagFollows(s, step, u)
  {
    match step
    case BeginRun(_, _, _, _) => BeginRunFollows(s, step, u);
    case Restore(_, _) => RestoreFollows(s, step, u);
    case Finish(_) => FinishFollows(s, step, u);
    case AutoRegister(_) => AutoRegisterFollows(s, step, u);
    case EnlistChild(_, _) => EnlistFollows(s, step, u);
    case InstallChild(_) => InstallFollows(s, step, u);
    case _ => assert Apply(s, step).tables == s.tables;
  }

  // The last step of a run that changes the slot of `t`
  ghost function LastChange(s: State, steps: seq<Step>, t: ThreadId): Option<Step>
    decreases |steps|
  {
    if steps == [] || !Enabled(s, steps[0]) then None
    else
      var later := LastChange(Apply(s, steps[0]), steps[1..], t);
      if later.Some? then later
      else if Changes(s, steps[0], t) then Some(steps[0])
      else None
  }

  lemma {:induction false} TagRun(s: State, steps: seq<Step>, s': State, t: ThreadId)
    requires Inv(s) && Run(s, steps, s') && OrderlyRun(s, steps)
    ensures Tagged(s', t) <==>
              if LastChange(s, steps, t).Some? then LastChange(s, steps, t) == Some(AutoRegister(t)) else Tagged(s, t)
    decreases |steps|
  {
    if steps != [] {
      TagStep(s, steps[0], t);
      StepKeeps(s, steps[0]);
      TagRun(Apply(s, steps[0]), steps[1..], s', t);
    }
  }

  // The tag of a thread is set if and only if the last step to change its slot was a registration as
  // an anonymous thread.
  lemma TaggedIff(s0: State, steps: seq<Step>, s: State, t: ThreadId)
    requires Init(s0) && Run(s0, steps, s) && OrderlyRun(s0, steps)
    ensures Tagged(s, t) <==> LastChange(s0, steps, t) == Some(AutoRegister(t))
  {
    InitInv(s0);
    TagRun(s0, steps, s, t);
  }

  /* ---------------------------------------------------------------- what the tag tells */

  // `t` is in CfixsRunTestRoutine or CfixsThreadStart, where CfixpExceptionFilter is installed.
  predicate Guarded(s: State, t: ThreadId)
  {
    t in s.threads && (s.threads[t].frames != [] || s.threads[t].copy.Some?)
  }

  predicate RunsUserCode(s: State, t: ThreadId)
  {
    t in s.threads && (s.threads[t].control.User? || s.threads[t].control.Creating?)
  }

  // What CfixPeFail relies on: of the threads in user code that have a filament exactly those without
  // an exception filter are tagged.
  predicate TagTells(s: State, t: ThreadId)
  {
    Tagged(s, t) <==> RunsUserCode(s, t) && Slot(s, t).Some? && !Guarded(s, t)
  }

  // An anonymous thread comes back from a test routine to the default filament, or a child thread that
  // has lost its filament is taken into the default filament.
  predicate Mistags(s: State, step: Step)
  {
    match step
    case Destroy(t) =>
      t in s.threads && |s.threads[t].frames| == 1 && s.threads[t].copy == None && Slot(s, t).Some?
    case AutoRegister(t) =>
      && t in s.threads && s.threads[t].copy.Some?
      && s.tables.defaultFilament.Some? && s.tables.defaultFilament.value in s.tables.filaments
      && var d := s.tables.filaments[s.tables.defaultFilament.value];
         d.main != t && |d.children| < MAX_THREADS
    case _ => false
  }

  // A thread other than the one that takes the step: the slot stays, and so does the way in which it
  // runs, unless it was just created.
  lemma OthersTell(s: State, step: Step, u: ThreadId)
    requires Inv(s) && Enabled(s, step) && Orderly(s, step) && TagTells(s, u) && u != Actor(step)
    requires Slot(Apply(s, step), u) == Slot(s, u)
    ensures TagTells(Apply(s, step), u)
  {
    TagStep(s, step, u);
    OthersRun(s, step, u);
    if step.Create? && step.c == u {
      assert Slot(s, u) == None;
    }
  }

  lemma OthersRun(s: State, step: Step, u: ThreadId)
    requires Enabled(s, step) && u != Actor(step)
    ensures step.Create? && step.c == u ==> !RunsUserCode(Apply(s, step), u) && u !in s.threads
    ensures !(step.Create? && step.c == u) ==>
              && (RunsUserCode(Apply(s, step), u) <==> RunsUserCode(s, u))
              && (Guarded(Apply(s, step), u) <==> Guarded(s, u))
  {
    if HandsOff(step) {
      OthersRunHandOff(s, step, u);
    } else {
      OthersRunElsewhere(s, step, u);
    }
  }

  lemma OthersRunHandOff(s: State, step: Step, u: ThreadId)
    requires Enabled(s, step) && u != Actor(step) && HandsOff(step)
    ensures RunsUserCode(Apply(s, step), u) <==> RunsUserCode(s, u)
    ensures Guarded(Apply(s, step), u) <==> Guarded(s, u)
  {
  }

  lemma OthersRunElsewhere(s: State, step: Step, u: ThreadId)
    requires Enabled(s, step) && u != Actor(step) && !HandsOff(step)
    ensures step.Create? && step.c == u ==> !RunsUserCode(Apply(s, step), u) && u !in s.threads
    ensures !(step.Create? && step.c == u) ==>
              && (RunsUserCode(Apply(s, step), u) <==> RunsUserCode(s, u))
              && (Guarded(Apply(s, step), u) <==> Guarded(s, u))
  {
  }

  lemma OthersKeepSlot(s: State, step: Step, u: ThreadId)
    requires Inv(s) && Enabled(s, step) && u != Actor(step)
    ensures Slot(Apply(s, step), u) == Slot(s, u)
  {
    match step
    case BeginRun(t, f, context, isDefault) =>
      if !Refused(s, isDefault) {
        BeginRunMoves(s, t, f, context, isDefault);
        OtherSlots(s.tables, Apply(s, step).tables, t, u);
      }
    case Restore(t, handleOk) =>
      assert ThreadOk(s, t);
      PreviousKnown(s, t, |s.threads[t].frames| - 1);
      RestoreTables(s, t, handleOk);
      OtherSlots(s.tables, Apply(s, step).tables, t, u);
    case Finish(t) =>
      SetCurrentEffect(s.tables, t, None, false, true, Apply(s, step).tables,
                       SetCurrent(s.tables, t, None, false, true).1);
      OtherSlots(s.tables, Apply(s, step).tables, t, u);
    case AutoRegister(t) =>
      var d := s.tables.defaultFilament;
      SetCurrentEffect(s.tables, t, d, true, true, Apply(s, step).tables, SetCurrent(s.tables, t, d, true, true).1);
      OtherSlots(s.tables, Apply(s, step).tables, t, u);
    case EnlistChild(c, handleOk) =>
      var f := Some(Parameters(s, c).filament);
      EnlistFrame(s.tables, c, f, handleOk, Apply(s, step).tables, Enlist(s.tables, c, f, handleOk).1);
      OtherSlots(s.tables, Apply(s, step).tables, c, u);
    case InstallChild(c) =>
      var f := Some(Parameters(s, c).filament);
      InstallFrame(s.tables, c, None, f, false, Apply(s, step).tables, Install(s.tables, c, None, f, false).1);
      OtherSlots(s.tables, Apply(s, step).tables, c, u);
    case _ => assert Apply(s, step).tables == s.tables;
  }

  lemma RunTells(s: State, step: Step)
    requires Inv(s) && Enabled(s, step) && Orderly(s, step) && Inv(Apply(s, step)) && TagTells(s, Actor(step))
    requires step.BeginRun? || step.EndRoutine? || step.LockJoin? || step.JoinDone? || step.Restore?
    ensures TagTells(Apply(s, step), Actor(step))
  {
    TagStep(s, step, step.t);
  }

  lemma DestroyTells(s: State, t: ThreadId)
    requires Enabled(s, Destroy(t)) && TagTells(s, t)
    ensures TagTells(DoDestroy(s, t), t) <==> !Mistags(s, Destroy(t))
  {
  }

  lemma RegisterTells(s: State, t: ThreadId)
    requires Inv(s) && Enabled(s, AutoRegister(t)) && Orderly(s, AutoRegister(t)) && TagTells(s, t)
    ensures TagTells(DoAutoRegister(s, t), t) <==> !Mistags(s, AutoRegister(t))
  {
    var d := s.tables.defaultFilament;
    TagStep(s, AutoRegister(t), t);
    SetCurrentStatus(s.tables, t, d, true, true);
    SetCurrentEffect(s.tables, t, d, true, true, DoAutoRegister(s, t).tables, SetCurrent(s.tables, t, d, true, true).1);
    assert ThreadOk(s, t);
  }

  lemma HandOffTells(s: State, step: Step)
    requires Inv(s) && Enabled(s, step) && Orderly(s, step) && Inv(Apply(s, step)) && TagTells(s, Actor(step))
    requires !(step.BeginRun? || step.EndRoutine? || step.LockJoin? || step.JoinDone? || step.Restore? || step.Destroy?
               || step.AutoRegister?)
    ensures TagTells(Apply(s, step), Actor(step))
  {
    var c := Actor(step);
    TagStep(s, step, c);
    assert ThreadOk(s, c) && ThreadOk(Apply(s, step), c);
  }

  lemma ActorTells(s: State, step: Step)
    requires Inv(s) && Enabled(s, step) && Orderly(s, step) && TagTells(s, Actor(step))
    ensures TagTells(Apply(s, step), Actor(step)) <==> !Mistags(s, step)
  {
    StepKeeps(s, step);
    if step.BeginRun? || step.EndRoutine? || step.LockJoin? || step.JoinDone? || step.Restore? {
      RunTells(s, step);
    } else if step.Destroy? {
      DestroyTells(s, step.t);
    } else if step.AutoRegister? {
      RegisterTells(s, step.t);
    } else {
      HandOffTells(s, step);
    }
  }

  ghost predicate TagsTell(s: State)
  {
    forall t :: TagTells(s, t)
  }

  // The tag goes on to tell which threads have no exception filter exactly until a thread is left with
  // the wrong one in one of the two ways.
  lemma TagsStep(s: State, step: Step)
    requires Inv(s) && Enabled(s, step) && Orderly(s, step) && TagsTell(s)
    ensures TagsTell(Apply(s, step)) <==> !Mistags(s, step)
  {
    ActorTells(s, step);
    forall u | u != Actor(step)
      ensures TagTells(Apply(s, step), u)
    {
      OthersKeepSlot(s, step, u);
      OthersTell(s, step, u);
    }
  }

  ghost predicate TagsRight(s: State, steps: seq<Step>)
    decreases |steps|
  {
    steps != [] && Enabled(s, steps[0]) ==> !Mistags(s, steps[0]) && TagsRight(Apply(s, steps[0]), steps[1..])
  }

  // In runs without such a step CfixPeFail always takes the right way.
  lemma {:induction false} TagsRun(s: State, steps: seq<Step>, s': State)
    requires Inv(s) && TagsTell(s) && Run(s, steps, s') && OrderlyRun(s, steps) && TagsRight(s, steps)
    ensures TagsTell(s')
    decreases |steps|
  {
    if steps != [] {
      TagsStep(s, steps[0]);
      StepKeeps(s, steps[0]);
      TagsRun(Apply(s, steps[0]), steps[1..], s');
    }
  }

  lemma InitTells(s: State)
    requires Init(s)
    ensures TagsTell(s)
  {
  }
}
