/** Threads that return to a filament whose main thread is joining them. */
module FilamentDeadlock {
  import opened Prelude
  import opened FilamentTables
  import opened FilamentProtocol
  import opened FilamentTheorems

  // The state in which `m` has not satisfied its join yet
  function Hold(s: State, m: ThreadId): State
    requires m in s.threads
  {
    SetControl(s, m, Joining)
  }

  // `m`, a child of `g`, cannot return to `g`; apart from that all is well.
  ghost predicate Stuck(s: State, m: ThreadId, g: FilamentId)
  {
    && In(s, m, Joined) && |s.threads[m].frames| == 1 && s.threads[m].frames[0].previous == Some(g) && g in s.locks
    && Inv(Hold(s, m))
  }

  // It waits for the lock, unless it gets no handle, and then the return slips.
  lemma StuckWaits(s: State, m: ThreadId, g: FilamentId, handleOk: bool)
    requires Stuck(s, m, g) && Enabled(s, Restore(m, handleOk))
    ensures !handleOk && Slips(s, Restore(m, handleOk))
  {
    assert ThreadOk(Hold(s, m), m);
    assert Foreign(Hold(s, m), m, g);
  }

  ghost predicate Commutes(s: State, m: ThreadId, step: Step)
    requires m in s.threads && Enabled(s, step)
  {
    && Enabled(Hold(s, m), step)
    && m in Apply(s, step).threads && Apply(s, step).threads[m] == s.threads[m]
    && Apply(Hold(s, m), step) == Hold(Apply(s, step), m)
  }

  lemma OthersEnabled(s: State, m: ThreadId, step: Step)
    requires In(s, m, Joined) && Enabled(s, step) && (step.Restore? ==> step.t != m)
    ensures Enabled(Hold(s, m), step) && Actor(step) != m
  {
    AddressableStays(s, Hold(s, m));
  }

  // Two threads change independently of each other.
  lemma UpdatesCommute<K, V>(threads: map<K, V>, m: K, v: V, t: K, w: V)
    requires m != t
    ensures threads[m := v][t := w] == threads[t := w][m := v]
  {
  }

  lemma ControlCommutes(s: State, m: ThreadId, t: ThreadId, control: Control)
    requires m in s.threads && t in s.threads && t != m
    ensures SetControl(Hold(s, m), t, control) == Hold(SetControl(s, t, control), m)
  {
    UpdatesCommute(s.threads, m, s.threads[m].(control := Joining), t, s.threads[t].(control := control));
  }

  lemma AdvanceCommutes(s: State, m: ThreadId, c: ThreadId, control: Control, copy: Option<FilamentId>, params: Control)
    requires In(s, m, Joined) && HasParameters(s, c)
    ensures HasParameters(Hold(s, m), c) && Parameters(Hold(s, m), c) == Parameters(s, c)
    ensures m in Advance(s, c, control, copy, params).threads
    ensures Advance(s, c, control, copy, params).threads[m] == s.threads[m]
    ensures Advance(Hold(s, m), c, control, copy, params) == Hold(Advance(s, c, control, copy, params), m)
  {
    var p, held := s.threads[c].control.creator, s.threads[m].(control := Joining);
    var block, next := s.threads[p].(control := params), Thread(control, s.threads[c].frames, copy);
    UpdatesCommute(s.threads, m, held, p, block);
    UpdatesCommute(s.threads[p := block], m, held, c, next);
  }

  lemma HandOffCommutes(s: State, m: ThreadId, step: Step)
    requires In(s, m, Joined) && Enabled(s, step)
    requires step.CopyParameters? || step.NotifyStart? || step.Signal? || step.InstallChild? || step.EnlistChild?
    ensures Commutes(s, m, step)
  {
    OthersEnabled(s, m, step);
    match step
    case CopyParameters(c) =>
      AdvanceCommutes(s, m, c, s.threads[c].control.(stage := Copied), Some(Parameters(s, c).filament),
                      Parameters(s, c));
    case NotifyStart(c) =>
      AdvanceCommutes(s, m, c, s.threads[c].control.(stage := Notified), s.threads[c].copy, Parameters(s, c));
    case Signal(c) =>
      var params := Parameters(s, c);
      AdvanceCommutes(s, m, c, if InStage(s, c, Failed) then Exiting else User, s.threads[c].copy,
                      params.(signalled := true));
    case EnlistChild(c, handleOk) => EnlistCommutes(s, m, c, handleOk);
    case InstallChild(c) => InstallCommutes(s, m, c);
  }

  lemma EnlistCommutes(s: State, m: ThreadId, c: ThreadId, handleOk: bool)
    requires In(s, m, Joined) && Enabled(s, EnlistChild(c, handleOk)) && Enabled(Hold(s, m), EnlistChild(c, handleOk))
    ensures var s' := DoEnlistChild(s, c, handleOk);
      && m in s'.threads && s'.threads[m] == s.threads[m]
      && DoEnlistChild(Hold(s, m), c, handleOk) == Hold(s', m)
  {
    var params, control := Parameters(s, c), s.threads[c].control;
    var status := Enlist(s.tables, c, Some(params.filament), handleOk).1;
    AdvanceCommutes(s, m, c, control.(stage := Listed), s.threads[c].copy, params);
    AdvanceCommutes(s, m, c, control.(stage := Failed), None, params.(outcome := Some(status)));
  }

  lemma InstallCommutes(s: State, m: ThreadId, c: ThreadId)
    requires In(s, m, Joined) && Enabled(s, InstallChild(c)) && Enabled(Hold(s, m), InstallChild(c))
    ensures var s' := DoInstallChild(s, c);
      && m in s'.threads && s'.threads[m] == s.threads[m] && DoInstallChild(Hold(s, m), c) == Hold(s', m)
  {
    var params := Parameters(s, c);
    var status := Install(s.tables, c, None, Some(params.filament), false).1;
    AdvanceCommutes(s, m, c, s.threads[c].control.(stage := Installed), s.threads[c].copy,
                    params.(outcome := Some(status)));
  }

  lemma RunsCommute(s: State, m: ThreadId, step: Step)
    requires In(s, m, Joined) && Enabled(s, step)
    requires step.EndRoutine? || step.Wake? || step.Exit? || step.LockJoin? || step.JoinDone?
    ensures Commutes(s, m, step)
  {
    OthersEnabled(s, m, step);
    match step
    case EndRoutine(t) => ControlCommutes(s, m, t, Joining);
    case Wake(t) => ControlCommutes(s, m, t, User);
    case Exit(t) => ControlCommutes(s, m, t, Ended);
    case LockJoin(t) => ControlCommutes(s, m, t, Waiting(s.tables.filaments[Top(s, t).filament].children));
    case JoinDone(t) => ControlCommutes(s, m, t, Joined);
  }

  lemma DestroyCommutes(s: State, m: ThreadId, t: ThreadId)
    requires In(s, m, Joined) && Running(s, t) && t != m
    ensures DoDestroy(Hold(s, m), t) == Hold(DoDestroy(s, t), m) && DoDestroy(s, t).threads[m] == s.threads[m]
  {
    UpdatesCommute(s.threads, m, s.threads[m].(control := Joining), t, DoDestroy(s, t).threads[t]);
  }

  lemma RestoreCommutes(s: State, m: ThreadId, t: ThreadId, handleOk: bool)
    requires In(s, m, Joined) && Addressable(s) && Addressable(Hold(s, m)) && Running(s, t) && t != m
    ensures var s' := DoRestore(s, t, handleOk);
      DoRestore(Hold(s, m), t, handleOk) == Hold(s', m) && s'.threads[m] == s.threads[m]
  {
    ControlCommutes(s, m, t, Left);
  }

  lemma CallsCommute(s: State, m: ThreadId, step: Step)
    requires In(s, m, Joined) && Enabled(s, step) && (step.Restore? ==> step.t != m)
    requires step.BeginRun? || step.Restore? || step.Finish? || step.AutoRegister? || step.Create? || step.Destroy?
    ensures Commutes(s, m, step)
  {
    OthersEnabled(s, m, step);
    var held := s.threads[m].(control := Joining);
    match step
    case BeginRun(t, f, context, isDefault) =>
      UpdatesCommute(s.threads, m, held, t, s.threads[t].(frames := s.threads[t].frames + [Frame(f, Slot(s, t))]));
    case Restore(t, handleOk) => RestoreCommutes(s, m, t, handleOk);
    case Destroy(t) => DestroyCommutes(s, m, t);
    case Finish(t) => UpdatesCommute(s.threads, m, held, t, Thread(Exiting, [], None));
    case Create(t, c) => CreateCommutes(s, m, t, c);
    case AutoRegister(_) =>
  }

  lemma CreateCommutes(s: State, m: ThreadId, t: ThreadId, c: ThreadId)
    requires In(s, m, Joined) && In(s, t, User) && Slot(s, t).Some? && c !in s.threads
    ensures var s' := DoCreate(s, t, c);
      DoCreate(Hold(s, m), t, c) == Hold(s', m) && m in s'.threads && s'.threads[m] == s.threads[m]
  {
    var held, child := s.threads[m].(control := Joining), Thread(Starting(Spawned, t), [], None);
    var creator := s.threads[t].(control := Creating(c, false, Slot(s, t).value, None));
    UpdatesCommute(s.threads, m, held, t, creator);
    UpdatesCommute(s.threads[t := creator], m, held, c, child);
  }

  // What the others do does not depend on whether `m` has satisfied its join.
  lemma OthersCommute(s: State, m: ThreadId, step: Step)
    requires In(s, m, Joined) && Enabled(s, step) && (step.Restore? ==> step.t != m)
    ensures Commutes(s, m, step)
  {
    if step.EndRoutine? || step.Wake? || step.Exit? || step.LockJoin? || step.JoinDone? {
      RunsCommute(s, m, step);
    } else if step.CopyParameters? || step.NotifyStart? || step.Signal? || step.InstallChild? || step.EnlistChild? {
      HandOffCommutes(s, m, step);
    } else {
      CallsCommute(s, m, step);
    }
  }

  // Whoever holds the lock waits for `m`.
  lemma LockHeld(s: State, m: ThreadId, g: FilamentId, t: ThreadId)
    requires Stuck(s, m, g) && Enabled(s, JoinDone(t))
    ensures Top(s, t).filament != g
  {
    if Top(s, t).filament == g {
      var h := Hold(s, m);
      assert ThreadOk(h, m) && ThreadOk(h, t);
      TopIsNoPrevious(h, m, |h.threads[m].frames| - 1);
      assert Needs(h, m, g);
    }
  }

  lemma LockStays(s: State, m: ThreadId, g: FilamentId, step: Step)
    requires Stuck(s, m, g) && Enabled(s, step)
    ensures g in Apply(s, step).locks
  {
    if step.JoinDone? {
      LockHeld(s, m, g, step.t);
    }
  }

  lemma StuckStays(s: State, m: ThreadId, g: FilamentId, step: Step)
    requires Stuck(s, m, g) && Enabled(s, step) && Orderly(s, step)
    ensures Stuck(Apply(s, step), m, g)
  {
    if step.Restore? && step.t == m {
      StuckWaits(s, m, g, step.handleOk);
      assert false;
    }
    LockStays(s, m, g, step);
    OthersCommute(s, m, step);
    StepKeeps(Hold(s, m), step);
  }

  lemma {:induction false} StuckForever(s: State, m: ThreadId, g: FilamentId, steps: seq<Step>, s': State)
    requires Stuck(s, m, g) && Run(s, steps, s') && OrderlyRun(s, steps)
    ensures Stuck(s', m, g)
    decreases |steps|
  {
    if steps != [] {
      StuckStays(s, m, g, steps[0]);
      StuckForever(Apply(s, steps[0]), m, g, steps[1..], s');
    }
  }

  // The end of its routine finds `m`, a child of the previous filament, while that is being joined.
  ghost predicate Meets(s: State, m: ThreadId)
    requires Running(s, m)
  {
    Known(s.tables, Top(s, m).previous) && !Admitted(s, m, Top(s, m).previous, true)
  }

  // A routine nested in one of the same thread returns to a filament of that thread.
  lemma NestedReturns(s: State, m: ThreadId)
    requires Running(s, m) && FramesAt(s, m)
    ensures var top := Top(s, m);
      |s.threads[m].frames| > 1 ==> top.previous.Some? && !Foreign(s, m, top.previous.value)
  {
    var frames := s.threads[m].frames;
    if |frames| > 1 {
      assert frames[|frames| - 1].previous == Some(frames[|frames| - 2].filament);
    }
  }

  lemma MeetsSticks(s: State, m: ThreadId)
    requires Inv(s) && In(s, m, Joined) && Running(s, m) && Meets(s, m)
    ensures Stuck(s, m, Top(s, m).previous.value)
  {
    assert ThreadOk(s, m);
    NestedReturns(s, m);
    ControlKeeps(s, m, Joining);
  }

  // In some continuation `m` returns to its previous filament with a handle.
  ghost predicate CanReturn(s: State, m: ThreadId)
  {
    exists steps, s' :: Run(s, steps, s') && OrderlyRun(s, steps) && Enabled(s', Restore(m, true))
  }

  // A thread whose nested routine has ended can return if and only if it does not find its previous
  // filament being joined; in that case it waits for good.
  lemma ReturnsIff(s: State, m: ThreadId)
    requires Inv(s) && In(s, m, Joined) && Running(s, m)
    ensures CanReturn(s, m) <==> !Meets(s, m)
  {
    if Meets(s, m) {
      var g := Top(s, m).previous.value;
      MeetsSticks(s, m);
      forall steps, s' | Run(s, steps, s') && OrderlyRun(s, steps)
        ensures !Enabled(s', Restore(m, true))
      {
        StuckForever(s, m, g, steps, s');
        if Enabled(s', Restore(m, true)) {
          StuckWaits(s', m, g, true);
        }
      }
    } else {
      InvAddressable(s);
      assert ThreadOk(s, m);
      PreviousKnown(s, m, |s.threads[m].frames| - 1);
      assert Run(s, [], s) && OrderlyRun(s, []) && Enabled(s, Restore(m, true));
    }
  }
}
