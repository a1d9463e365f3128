/** Reference counts of execution contexts over whole runs. */
module FilamentCounts {
  import opened Prelude
  import opened FilamentTables
  import opened FilamentProtocol

  // `c` has not got its filament yet.
  predicate Blank(s: State, c: ThreadId)
  {
    c in s.threads && s.threads[c].control.Starting? && s.threads[c].control.stage in {Spawned, Copied, Listed, Failed}
  }

  // Threads that have not got their filament yet have an empty slot, as have threads not created yet.
  ghost predicate Blanks(s: State)
  {
    && (forall t :: t in s.tables.tls ==> t in s.threads)
    && (forall c :: Blank(s, c) ==> Slot(s, c) == None)
  }

  // A thread that is starting is not the main thread of anything.
  ghost predicate Mains(s: State)
  {
    forall f :: f in s.tables.filaments ==>
      && s.tables.filaments[f].main in s.threads
      && !s.threads[s.tables.filaments[f].main].control.Starting?
  }

  ghost predicate Counted(s: State)
  {
    Conserved(s.tables) && Blanks(s) && Mains(s)
  }

  lemma NewFilamentConserves(tb: Tables, f: FilamentId, fil: Filament)
    requires WellFormed(tb) && Conserved(tb) && f !in tb.filaments
    ensures WellFormed(tb.(filaments := tb.filaments[f := fil])) && Conserved(tb.(filaments := tb.filaments[f := fil]))
  {
    var tb' := tb.(filaments := tb.filaments[f := fil]);
    forall c
      ensures References(tb', c) == |Holders(tb', c)|
    {
      assert Holders(tb', c) == Holders(tb, c);
    }
  }

  lemma CallConserves(tb: Tables, t: ThreadId, target: Option<FilamentId>, derived: bool, handleOk: bool)
    requires WellFormed(tb) && Conserved(tb) && Known(tb, target) && (target.None? ==> !derived)
    ensures Conserved(SetCurrent(tb, t, target, derived, handleOk).0) <==> !LeaksReference(tb, t, target, handleOk)
    ensures OnlySlot(tb, SetCurrent(tb, t, target, derived, handleOk).0, t)
    ensures SameMains(tb, SetCurrent(tb, t, target, derived, handleOk).0)
  {
    var (tb', status) := SetCurrent(tb, t, target, derived, handleOk);
    SetCurrentEffect(tb, t, target, derived, handleOk, tb', status);
    SetCurrentConserves(tb, t, target, derived, handleOk, tb', status);
  }

  // The steps that leave the counts and the slots out of step
  ghost predicate LeaksStep(s: State, step: Step)
    requires Enabled(s, step)
  {
    match step
    case BeginRun(t, f, context, isDefault) =>
      Refused(s, isDefault) && !(Slot(s, t).Some? && s.tables.filaments[Slot(s, t).value].context == context)
    case Restore(t, handleOk) =>
      Known(s.tables, Top(s, t).previous) && LeaksReference(s.tables, t, Top(s, t).previous, handleOk)
    case AutoRegister(t) =>
      s.tables.filaments[s.tables.defaultFilament.value].main == t
    case _ => false
  }

  // Starting threads stay as blank as they were, and nobody starts over.
  ghost predicate Proceeds(s: State, s': State)
  {
    && (forall t :: t in s.threads ==> t in s'.threads)
    && (forall c :: Blank(s', c) ==> Slot(s', c) == Slot(s, c) && (Blank(s, c) || c !in s.threads))
    && (forall t :: t in s.threads && !s.threads[t].control.Starting? ==> !s'.threads[t].control.Starting?)
    && (forall t :: t in s'.tables.tls ==> t in s.tables.tls || t in s.threads)
  }

  lemma SlotProceeds(s: State, s': State, t: ThreadId)
    requires OnlySlot(s.tables, s'.tables, t) && t in s.threads
    requires forall u :: u in s.threads ==> u in s'.threads
    requires forall u :: u in s.threads && !s.threads[u].control.Starting? ==> !s'.threads[u].control.Starting?
    requires forall c :: Blank(s', c) ==> (Blank(s, c) || c !in s.threads) && (c == t ==> Slot(s', c) == Slot(s, c))
    ensures Proceeds(s, s')
  {
    forall u | u != t
      ensures Slot(s', u) == Slot(s, u)
      ensures u in s'.tables.tls ==> u in s.tables.tls
    {
      OtherSlots(s.tables, s'.tables, t, u);
    }
  }

  lemma ProceedsCounts(s: State, s': State, tb: Tables)
    requires Counted(s) && Proceeds(s, s')
    requires forall f :: f in tb.filaments ==>
               || (f in s.tables.filaments && s.tables.filaments[f].main == tb.filaments[f].main)
               || (tb.filaments[f].main in s.threads && !s.threads[tb.filaments[f].main].control.Starting?)
    requires SameMains(tb, s'.tables)
    ensures Counted(s') <==> Conserved(s'.tables)
  {
  }

  // A refused call leaves slots and filaments as they are, so the filament that was to be installed
  // does not matter for the holders.
  lemma RefusedConserves(s: State, t: ThreadId, f: FilamentId, context: ContextId)
    requires Conserved(s.tables) && Enabled(s, BeginRun(t, f, context, true)) && Refused(s, true)
    ensures Conserved(DoBeginRun(s, t, f, context, true).tables) <==> !LeaksStep(s, BeginRun(t, f, context, true))
  {
    var fil := Filament(context, t, true, []);
    var tb := s.tables.(filaments := s.tables.filaments[f := fil]);
    var (tb', status) := SetCurrent(tb, t, Some(f), false, true);
    var tables := DoBeginRun(s, t, f, context, true).tables;
    NewFilamentConserves(s.tables, f, fil);
    CallConserves(tb, t, Some(f), false, true);
    SetCurrentStatus(tb, t, Some(f), false, true);
    SetCurrentEffect(tb, t, Some(f), false, true, tb', status);
    SameHolders(s.tables, tb', tables, t);
  }

  lemma SameHolders(tb: Tables, tb': Tables, tables: Tables, t: ThreadId)
    requires WellFormed(tb) && OnlySlot(tb, tb', t) && Current(tb', t) == Current(tb, t)
    requires tables == tb.(references := tb'.references)
    requires forall f :: f in tb.filaments ==> f in tb'.filaments && tb'.filaments[f] == tb.filaments[f]
    ensures Conserved(tables) <==> Conserved(tb')
  {
    assert tb'.tls == tb.tls by {
      forall u
        ensures Current(tb', u) == Current(tb, u)
      {
        if u != t { OtherSlots(tb, tb', t, u); }
      }
      assert forall u :: u in tb.tls <==> Current(tb, u).Some?;
      assert forall u :: u in tb'.tls <==> Current(tb', u).Some?;
    }
    forall c
      ensures Holders(tables, c) == Holders(tb', c) && References(tables, c) == References(tb', c)
    {
    }
  }

  lemma BeginRunCounts(s: State, t: ThreadId, f: FilamentId, context: ContextId, isDefault: bool)
    requires Counted(s) && Enabled(s, BeginRun(t, f, context, isDefault))
    ensures Counted(DoBeginRun(s, t, f, context, isDefault)) <==> !LeaksStep(s, BeginRun(t, f, context, isDefault))
  {
    var s' := DoBeginRun(s, t, f, context, isDefault);
    var fil := Filament(context, t, isDefault, []);
    var tb := s.tables.(filaments := s.tables.filaments[f := fil]);
    if Refused(s, isDefault) {
      RefusedConserves(s, t, f, context);
      SlotProceeds(s, s', t);
      ProceedsCounts(s, s', s.tables);
    } else {
      NewFilamentConserves(s.tables, f, fil);
      CallConserves(tb, t, Some(f), false, true);
      assert OnlySlot(s.tables, s'.tables, t);
      SlotProceeds(s, s', t);
      ProceedsCounts(s, s', tb);
    }
  }

  lemma RestoreCounts(s: State, t: ThreadId, handleOk: bool)
    requires Counted(s) && Enabled(s, Restore(t, handleOk)) && Known(s.tables, Top(s, t).previous)
    ensures Counted(DoRestore(s, t, handleOk)) <==> !LeaksStep(s, Restore(t, handleOk))
  {
    CallConserves(s.tables, t, Top(s, t).previous, false, handleOk);
    SlotProceeds(s, DoRestore(s, t, handleOk), t);
    ProceedsCounts(s, DoRestore(s, t, handleOk), s.tables);
  }

  lemma FinishCounts(s: State, t: ThreadId)
    requires Counted(s) && Enabled(s, Finish(t))
    ensures Counted(DoFinish(s, t))
  {
    CallConserves(s.tables, t, None, false, true);
    SlotProceeds(s, DoFinish(s, t), t);
    ProceedsCounts(s, DoFinish(s, t), s.tables);
  }

  lemma AutoRegisterCounts(s: State, t: ThreadId)
    requires Counted(s) && Enabled(s, AutoRegister(t))
    ensures Counted(DoAutoRegister(s, t)) <==> !LeaksStep(s, AutoRegister(t))
  {
    CallConserves(s.tables, t, s.tables.defaultFilament, true, true);
    SlotProceeds(s, DoAutoRegister(s, t), t);
    ProceedsCounts(s, DoAutoRegister(s, t), s.tables);
  }

  // The slot of `c` is filled, or stays empty, and the counts follow.
  lemma SlotConserves(tb: Tables, tb': Tables, c: ThreadId, joined: Option<FilamentId>)
    requires WellFormed(tb) && WellFormed(tb') && Conserved(tb) && Current(tb, c) == None
    requires ListsChild(tb, tb', c, joined) && OnlySlot(tb, tb', c)
    requires forall x :: References(tb', x) == References(tb, x) + One(InContext(tb', Current(tb', c), x))
    ensures Conserved(tb') && SameMains(tb, tb')
  {
    forall x
      ensures References(tb', x) == |Holders(tb', x)|
    {
      HoldersAfterSlotChange(tb, tb', c, x);
    }
  }

  lemma EnlistCounts(s: State, c: ThreadId, handleOk: bool)
    requires Counted(s) && Enabled(s, EnlistChild(c, handleOk))
    ensures Counted(DoEnlistChild(s, c, handleOk))
  {
    var s', f := DoEnlistChild(s, c, handleOk), Parameters(s, c).filament;
    var status := Enlist(s.tables, c, Some(f), handleOk).1;
    EnlistFrame(s.tables, c, Some(f), handleOk, s'.tables, status);
    assert Blank(s, c);
    SlotConserves(s.tables, s'.tables, c, if status == Success then Joins(s.tables, c, Some(f)) else None);
    EnlistProceeds(s, c, handleOk);
    ProceedsCounts(s, s', s.tables);
  }

  lemma EnlistProceeds(s: State, c: ThreadId, handleOk: bool)
    requires Enabled(s, EnlistChild(c, handleOk)) && Slot(s, c) == None
    ensures Proceeds(s, DoEnlistChild(s, c, handleOk))
  {
    var s', f := DoEnlistChild(s, c, handleOk), Parameters(s, c).filament;
    var status := Enlist(s.tables, c, Some(f), handleOk).1;
    EnlistFrame(s.tables, c, Some(f), handleOk, s'.tables, status);
    SlotProceeds(s, s', c);
  }

  lemma InstallCounts(s: State, c: ThreadId)
    requires Counted(s) && Enabled(s, InstallChild(c))
    ensures Counted(DoInstallChild(s, c))
  {
    var s', f := DoInstallChild(s, c), Parameters(s, c).filament;
    var status := Install(s.tables, c, None, Some(f), false).1;
    InstallFrame(s.tables, c, None, Some(f), false, s'.tables, status);
    assert Blank(s, c) && status == Success;
    InstallProceeds(s, c);
    SlotConserves(s.tables, s'.tables, c, None);
    ProceedsCounts(s, s', s.tables);
  }

  lemma InstallProceeds(s: State, c: ThreadId)
    requires Enabled(s, InstallChild(c))
    ensures Proceeds(s, DoInstallChild(s, c))
  {
    var s', f := DoInstallChild(s, c), Parameters(s, c).filament;
    InstallFrame(s.tables, c, None, Some(f), false, s'.tables, Install(s.tables, c, None, Some(f), false).1);
    SlotProceeds(s, s', c);
  }

  // The remaining steps of the hand-off leave the tables alone.
  lemma AdvanceCounts(s: State, c: ThreadId, control: Control, copy: Option<FilamentId>, params: Control)
    requires Counted(s) && HasParameters(s, c) && params.Creating?
    requires control.Starting? && control.stage in {Spawned, Copied, Listed, Failed} ==> Blank(s, c)
    ensures Counted(Advance(s, c, control, copy, params))
  {
    assert Proceeds(s, Advance(s, c, control, copy, params));
    ProceedsCounts(s, Advance(s, c, control, copy, params), s.tables);
  }

  // So do the remaining steps of a run.
  lemma ControlCounts(s: State, t: ThreadId, control: Control)
    requires Counted(s) && t in s.threads && !control.Starting?
    ensures Counted(SetControl(s, t, control))
  {
    assert Proceeds(s, SetControl(s, t, control));
    ProceedsCounts(s, SetControl(s, t, control), s.tables);
  }

  lemma CreateProceeds(s: State, t: ThreadId, c: ThreadId)
    requires In(s, t, User) && Slot(s, t).Some? && c !in s.threads
    ensures Proceeds(s, DoCreate(s, t, c))
  {
  }

  lemma CreateCounts(s: State, t: ThreadId, c: ThreadId)
    requires Counted(s) && In(s, t, User) && Slot(s, t).Some? && c !in s.threads
    ensures Counted(DoCreate(s, t, c))
  {
    CreateProceeds(s, t, c);
    ProceedsCounts(s, DoCreate(s, t, c), s.tables);
  }

  lemma JoinCounts(s: State, step: Step)
    requires Counted(s) && Enabled(s, step)
    requires step.LockJoin? || step.JoinDone? || step.Destroy?
    ensures Counted(Apply(s, step))
  {
    assert Proceeds(s, Apply(s, step));
    ProceedsCounts(s, Apply(s, step), s.tables);
  }

  // Counts and holders stay the same at every step but those that leak, and not at one of these.
  lemma StepCounts(s: State, step: Step)
    requires Counted(s) && Enabled(s, step)
    ensures Counted(Apply(s, step)) <==> !LeaksStep(s, step)
  {
    match step
    case BeginRun(t, f, context, isDefault) => BeginRunCounts(s, t, f, context, isDefault);
    case Restore(t, handleOk) =>
      assert Known(s.tables, s.threads[t].frames[|s.threads[t].frames| - 1].previous);
      RestoreCounts(s, t, handleOk);
    case Finish(t) => FinishCounts(s, t);
    case AutoRegister(t) => AutoRegisterCounts(s, t);
    case EnlistChild(c, handleOk) => EnlistCounts(s, c, handleOk);
    case InstallChild(c) => InstallCounts(s, c);
    case CopyParameters(c) =>
      AdvanceCounts(s, c, s.threads[c].control.(stage := Copied), Some(Parameters(s, c).filament), Parameters(s, c));
    case NotifyStart(c) =>
      AdvanceCounts(s, c, s.threads[c].control.(stage := Notified), s.threads[c].copy, Parameters(s, c));
    case Signal(c) =>
      var params := Parameters(s, c);
      AdvanceCounts(s, c, if InStage(s, c, Failed) then Exiting else User, s.threads[c].copy,
                    params.(signalled := true));
    case LockJoin(_) => JoinCounts(s, step);
    case JoinDone(_) => JoinCounts(s, step);
    case Destroy(_) => JoinCounts(s, step);
    case EndRoutine(t) => ControlCounts(s, t, Joining);
    case Wake(t) => ControlCounts(s, t, User);
    case Exit(t) => ControlCounts(s, t, Ended);
    case Create(t, c) => CreateCounts(s, t, c);
  }

  ghost predicate LeakFree(s: State, steps: seq<Step>)
    decreases |steps|
  {
    steps != [] && Enabled(s, steps[0]) ==> !LeaksStep(s, steps[0]) && LeakFree(Apply(s, steps[0]), steps[1..])
  }

  lemma {:induction false} RunConserves(s: State, steps: seq<Step>, s': State)
    requires Counted(s) && Run(s, steps, s') && LeakFree(s, steps)
    ensures Counted(s')
    decreases |steps|
  {
    if steps != [] {
      StepCounts(s, steps[0]);
      RunConserves(Apply(s, steps[0]), steps[1..], s');
    }
  }

  // In every state of every run without such a step the filament references of an execution context
  // are exactly the threads whose slot holds one of its filaments, nested runs and full child lists
  // included.
  lemma ReferencesConserved(s0: State, steps: seq<Step>, s: State, c: ContextId)
    requires Init(s0) && Run(s0, steps, s) && LeakFree(s0, steps)
    ensures References(s.tables, c) == |Holders(s.tables, c)|
  {
    forall x
      ensures References(s0.tables, x) == |Holders(s0.tables, x)|
    {
      assert Holders(s0.tables, x) == {};
    }
    RunConserves(s0, steps, s);
  }
}
