/** The lifetime of filaments over whole runs, and the two ways in which it goes wrong. */
module FilamentTheorems {
  import opened Prelude
  import opened FilamentTables
  import opened FilamentProtocol

  lemma {:induction false} RunKeeps(s: State, steps: seq<Step>, s': State)
    requires Inv(s) && Run(s, steps, s') && OrderlyRun(s, steps)
    ensures Inv(s')
    decreases |steps|
  {
    if steps != [] {
      StepKeeps(s, steps[0]);
      RunKeeps(Apply(s, steps[0]), steps[1..], s');
    }
  }

  ghost predicate Reachable(s: State)
  {
    exists s0, steps :: Init(s0) && Run(s0, steps, s) && OrderlyRun(s0, steps)
  }

  lemma ReachableInv(s: State)
    requires Reachable(s)
    ensures Inv(s)
  {
    var s0, steps :| Init(s0) && Run(s0, steps, s) && OrderlyRun(s0, steps);
    InitInv(s0);
    RunKeeps(s0, steps, s);
  }

  /* ---------------------------------------------------------------- lifetime of filaments */

  // When a filament is destroyed all its child threads have ended, no live thread has it in its slot
  // or will return to it, and no thread is on its way into it.
  lemma DestroyedUnused(s: State, t: ThreadId, u: ThreadId)
    requires Reachable(s) && Enabled(s, Destroy(t)) && Live(s, u)
    ensures var f := Top(s, t).filament;
      && f in s.tables.filaments
      && (forall c :: c in s.tables.filaments[f].children ==> In(s, c, Ended))
      && Slot(s, u) != Some(f)
      && !Needs(Apply(s, Destroy(t)), u, f)
      && (HasParameters(s, u) ==> Parameters(s, u).filament != f)
  {
    var f := Top(s, t).filament;
    ReachableInv(s);
    assert ThreadOk(s, t) && ThreadOk(s, u) && FilamentOk(s, f);
    TopIsNoPrevious(s, t, |s.threads[t].frames| - 1);
    if u == t {
      DestroyOk(s, t);
    } else {
      PastJoinUnneeded(s, f, u);
      NeedsAfterDestroy(s, t, u, f);
    }
  }

  lemma NeedsAfterDestroy(s: State, t: ThreadId, u: ThreadId, f: FilamentId)
    requires Enabled(s, Destroy(t)) && u != t && !Needs(s, u, f)
    ensures !Needs(DoDestroy(s, t), u, f)
  {
  }

  // At no time does a live thread hold the address of a filament that has been destroyed.
  lemma NoDanglingAddress(s: State, u: ThreadId, f: FilamentId)
    requires Reachable(s) && Needs(s, u, f)
    ensures f in s.tables.filaments && f !in s.destroyed
  {
    ReachableInv(s);
    assert ThreadOk(s, u);
    if Unlisted(s, u) {
      StartingNeeds(s, u, f);
    }
  }

  /* ---------------------------------------------------------------- the Parameters block */

  // The thread whose Parameters block a step reads or writes, if it is a step of CfixsThreadStart
  // before or at the hand-off.
  function Toucher(step: Step): Option<ThreadId>
  {
    match step
    case CopyParameters(c) => Some(c)
    case EnlistChild(c, _) => Some(c)
    case InstallChild(c) => Some(c)
    case NotifyStart(c) => Some(c)
    case Signal(c) => Some(c)
    case _ => None
  }

  // Whoever touches a Parameters block does so while the creator is still blocked in
  // CfixCreateThread2 with the event not signalled, and the filament in it is alive.
  lemma ParametersAlive(s: State, c: ThreadId)
    requires Reachable(s) && c in s.threads && s.threads[c].control.Starting?
    ensures HasParameters(s, c) && !Parameters(s, c).signalled
    ensures Parameters(s, c).filament !in s.destroyed
    ensures !Enabled(s, Wake(s.threads[c].control.creator))
  {
    ReachableInv(s);
    var p := s.threads[c].control.creator;
    assert ThreadOk(s, c);
    assert ThreadOk(s, p);
    assert Needs(s, p, Parameters(s, c).filament);
  }

  // Once it has signalled, a thread never touches the Parameters block of its creator again.
  lemma {:induction false} NoTouchAfterSignal(s: State, steps: seq<Step>, s': State, c: ThreadId, i: nat)
    requires c in s.threads && !s.threads[c].control.Starting?
    requires Run(s, steps, s') && i < |steps|
    ensures Toucher(steps[i]) != Some(c)
    decreases |steps|
  {
    var s1 := Apply(s, steps[0]);
    StaysStarted(s, steps[0], c);
    if i > 0 {
      NoTouchAfterSignal(s1, steps[1..], s', c, i - 1);
    }
  }

  lemma StaysStarted(s: State, step: Step, c: ThreadId)
    requires c in s.threads && !s.threads[c].control.Starting? && Enabled(s, step)
    ensures c in Apply(s, step).threads && !Apply(s, step).threads[c].control.Starting?
    ensures Toucher(step) != Some(c)
  {
  }

  // When CfixCreateThread2 returns, the child has written its result: a child that reported success is
  // on the list of handles that the join will wait for, any other one is on its way out.
  lemma CreatorLearnsOutcome(s: State, t: ThreadId)
    requires Reachable(s) && Enabled(s, Wake(t))
    ensures var params := s.threads[t].control;
      && params.outcome.Some?
      && (params.outcome.value == Success ==> Member(s, params.child, params.filament))
      && (params.outcome.value != Success ==> GivesUp(s, params.child))
  {
    ReachableInv(s);
    ReachableTold(s, t);
    assert ThreadOk(s, t);
  }

  /* ---------------------------------------------------------------- a child that is not registered */

  // `c` is on its way out of CfixsThreadStart, or of its life.
  predicate GivesUp(s: State, c: ThreadId)
  {
    InStage(s, c, Failed) || In(s, c, Exiting) || In(s, c, Ended)
  }

  // The thread that takes a step
  function Actor(step: Step): ThreadId
  {
    match step
    case CopyParameters(c) => c
    case EnlistChild(c, _) => c
    case InstallChild(c) => c
    case NotifyStart(c) => c
    case Signal(c) => c
    case _ => step.t
  }

  // A step of CfixsThreadStart on behalf of a new thread
  predicate HandsOff(step: Step)
  {
    step.CopyParameters? || step.EnlistChild? || step.InstallChild? || step.NotifyStart? || step.Signal?
  }

  lemma GivesUpHandOff(s: State, step: Step, c: ThreadId)
    requires GivesUp(s, c) && Enabled(s, step) && HandsOff(step)
    ensures GivesUp(Apply(s, step), c) && (Actor(step) == c ==> step == Signal(c))
  {
  }

  lemma GivesUpElsewhere(s: State, step: Step, c: ThreadId)
    requires GivesUp(s, c) && Enabled(s, step) && !HandsOff(step)
    ensures GivesUp(Apply(s, step), c) && (Actor(step) == c ==> step == Exit(c))
  {
  }

  lemma GivesUpStays(s: State, step: Step, c: ThreadId)
    requires GivesUp(s, c) && Enabled(s, step)
    ensures GivesUp(Apply(s, step), c)
    ensures Actor(step) == c ==> step == Signal(c) || step == Exit(c)
  {
    if HandsOff(step) {
      GivesUpHandOff(s, step, c);
    } else {
      GivesUpElsewhere(s, step, c);
    }
  }

  // A child thread whose registration failed never gets to its own code: in every continuation it
  // only signals its creator and ends.
  lemma {:induction false} FailedChildNeverRuns(s: State, steps: seq<Step>, s': State, c: ThreadId)
    requires GivesUp(s, c) && Run(s, steps, s')
    ensures GivesUp(s', c)
    ensures forall i :: 0 <= i < |steps| && Actor(steps[i]) == c ==> steps[i] == Signal(c) || steps[i] == Exit(c)
    decreases |steps|
  {
    if steps != [] {
      GivesUpStays(s, steps[0], c);
      FailedChildNeverRuns(Apply(s, steps[0]), steps[1..], s', c);
      forall i | 0 <= i < |steps| && Actor(steps[i]) == c
        ensures steps[i] == Signal(c) || steps[i] == Exit(c)
      {
        if i > 0 {
          assert steps[i] == steps[1..][i - 1];
        }
      }
    }
  }

  // The hand-off lets a child thread run if and only if it was registered and announced.
  lemma SignalStartsIff(s: State, c: ThreadId)
    requires Enabled(s, Signal(c))
    ensures In(Apply(s, Signal(c)), c, User) <==> InStage(s, c, Notified)
    ensures In(Apply(s, Signal(c)), c, Exiting) <==> InStage(s, c, Failed)
  {
  }

  // A child that has reported a failure is on its way out.
  predicate ToldAt(s: State, t: ThreadId)
  {
    t in s.threads && s.threads[t].control.Creating? && s.threads[t].control.signalled ==>
      var params := s.threads[t].control;
      && params.outcome.Some?
      && (params.outcome.value != Success ==> In(s, params.child, Exiting) || In(s, params.child, Ended))
  }

  lemma ToldSignal(s: State, c: ThreadId, t: ThreadId)
    requires Enabled(s, Signal(c)) && StartingAt(s, c) && ToldAt(s, t)
    ensures ToldAt(DoSignal(s, c), t)
  {
  }

  lemma ToldStep(s: State, step: Step, t: ThreadId)
    requires Inv(s) && Enabled(s, step) && ToldAt(s, t)
    ensures ToldAt(Apply(s, step), t)
  {
    if step.Signal? {
      assert ThreadOk(s, step.c);
      ToldSignal(s, step.c, t);
    } else if t in s.threads && s.threads[t].control.Creating? {
      if HandsOff(step) {
        assert ThreadOk(s, Actor(step));
        ToldHandOff(s, step, t);
      } else {
        ToldElsewhere(s, step, t);
      }
    }
  }

  lemma ToldHandOff(s: State, step: Step, t: ThreadId)
    requires Enabled(s, step) && HandsOff(step) && !step.Signal? && ToldAt(s, t)
    requires t in s.threads && s.threads[t].control.Creating? && StartingAt(s, Actor(step))
    ensures ToldAt(Apply(s, step), t)
  {
  }

  lemma ToldElsewhere(s: State, step: Step, t: ThreadId)
    requires Enabled(s, step) && !HandsOff(step) && ToldAt(s, t)
    requires t in s.threads && s.threads[t].control.Creating?
    ensures ToldAt(Apply(s, step), t)
  {
  }

  lemma {:induction false} ToldRun(s: State, steps: seq<Step>, s': State, t: ThreadId)
    requires Inv(s) && Run(s, steps, s') && OrderlyRun(s, steps) && ToldAt(s, t)
    ensures ToldAt(s', t)
    decreases |steps|
  {
    if steps != [] {
      ToldStep(s, steps[0], t);
      StepKeeps(s, steps[0]);
      ToldRun(Apply(s, steps[0]), steps[1..], s', t);
    }
  }

  lemma ReachableTold(s: State, t: ThreadId)
    requires Reachable(s)
    ensures ToldAt(s, t)
  {
    var s0, steps :| Init(s0) && Run(s0, steps, s) && OrderlyRun(s0, steps);
    InitInv(s0);
    ToldRun(s0, steps, s, t);
  }

  /* ---------------------------------------------------------------- a return that slips */

  // A live thread holds the address of a filament that has been destroyed.
  ghost predicate Dangling(s: State)
  {
    exists u, f :: Needs(s, u, f) && f in s.destroyed
  }

  lemma InvNotDangling(s: State)
    requires Inv(s)
    ensures !Dangling(s)
  {
    forall u, f | Needs(s, u, f)
      ensures f !in s.destroyed
    {
      assert ThreadOk(s, u);
    }
  }

  // The end of CfixsRunTestRoutine: it returns to the previous filament and destroys its own one,
  // whatever became of the return.
  function Leave(s: State, t: ThreadId, handleOk: bool): State
    requires Addressable(s) && Running(s, t)
  {
    DoDestroy(DoRestore(s, t, handleOk), t)
  }

  lemma AddressableStays(s: State, s': State)
    requires Addressable(s) && WellFormed(s'.tables) && s'.tables.filaments.Keys == s.tables.filaments.Keys
    requires s'.threads.Keys == s.threads.Keys
    requires forall u :: u in s.threads ==> s'.threads[u].frames == s.threads[u].frames
    requires forall u :: u in s.threads && s'.threads[u].control.Creating? ==> s'.threads[u] == s.threads[u]
    ensures Addressable(s')
  {
    forall u, i | u in s'.threads && 0 <= i < |s'.threads[u].frames|
      ensures Known(s'.tables, s'.threads[u].frames[i].previous)
    {
      assert Known(s.tables, s.threads[u].frames[i].previous);
    }
  }

  lemma RestoreTables(s: State, t: ThreadId, handleOk: bool)
    requires Enabled(s, Restore(t, handleOk)) && Known(s.tables, Top(s, t).previous)
    ensures Addressable(DoRestore(s, t, handleOk)) && OnlySlot(s.tables, DoRestore(s, t, handleOk).tables, t)
    ensures Slips(s, Restore(t, handleOk)) ==> Slot(DoRestore(s, t, handleOk), t) == Slot(s, t)
  {
    var s', previous := DoRestore(s, t, handleOk), Top(s, t).previous;
    SetCurrentStatus(s.tables, t, previous, false, handleOk);
    SetCurrentEffect(s.tables, t, previous, false, handleOk, s'.tables,
                     SetCurrent(s.tables, t, previous, false, handleOk).1);
    AddressableStays(s, s');
  }

  lemma LeaveRun(s: State, t: ThreadId, handleOk: bool)
    requires Enabled(s, Restore(t, handleOk)) && Addressable(DoRestore(s, t, handleOk))
    ensures Run(s, [Restore(t, handleOk), Destroy(t)], Leave(s, t, handleOk))
  {
    RunStep(DoRestore(s, t, handleOk), Destroy(t), [], Leave(s, t, handleOk));
    RunStep(s, Restore(t, handleOk), [Destroy(t)] + [], Leave(s, t, handleOk));
    assert [Restore(t, handleOk)] + ([Destroy(t)] + []) == [Restore(t, handleOk), Destroy(t)];
  }

  lemma RunStep(s: State, step: Step, steps: seq<Step>, s': State)
    requires Enabled(s, step) && Run(Apply(s, step), steps, s')
    ensures Run(s, [step] + steps, s')
  {
    assert ([step] + steps)[1..] == steps;
  }

  lemma SlipDangles(s: State, t: ThreadId, handleOk: bool)
    requires Inv(s) && Enabled(s, Restore(t, handleOk)) && Slips(s, Restore(t, handleOk))
    ensures var f, s' := Top(s, t).filament, Leave(s, t, handleOk);
      Live(s', t) && Slot(s', t) == Some(f) && f in s'.destroyed && Needs(s', t, f)
  {
    assert ThreadOk(s, t);
    RestoreTables(s, t, handleOk);
  }

  // When a test routine ends, its own main thread is left with the address of the destroyed filament
  // in its slot if and only if the return slips.
  lemma SlipDanglesIff(s: State, t: ThreadId, handleOk: bool)
    requires Inv(s) && Enabled(s, Restore(t, handleOk))
    ensures var f, s' := Top(s, t).filament, Leave(s, t, handleOk);
      && Run(s, [Restore(t, handleOk), Destroy(t)], s')
      && (Dangling(s') <==> Slips(s, Restore(t, handleOk)))
      && (Dangling(s') ==> Live(s', t) && Slot(s', t) == Some(f) && f in s'.destroyed)
  {
    assert ThreadOk(s, t);
    PreviousKnown(s, t, |s.threads[t].frames| - 1);
    RestoreTables(s, t, handleOk);
    LeaveRun(s, t, handleOk);
    if Slips(s, Restore(t, handleOk)) {
      SlipDangles(s, t, handleOk);
    } else {
      RestoreKeeps(s, t, handleOk);
      DestroyKeeps(DoRestore(s, t, handleOk), t);
      InvNotDangling(Leave(s, t, handleOk));
    }
  }

  // A live thread holds the address of a destroyed filament of another thread.
  ghost predicate Stray(s: State)
  {
    exists u, f :: Needs(s, u, f) && f in s.destroyed && Foreign(s, u, f)
  }

  // `t` has left its routine: its slot is as before, given back, or that of the previous filament.
  ghost predicate HasLeft(s: State, s': State, t: ThreadId)
  {
    && Running(s, t) && t in s'.threads
    && s'.threads == s.threads[t := s'.threads[t]] && s'.threads[t].copy == s.threads[t].copy
    && s'.threads[t].frames == s.threads[t].frames[..|s.threads[t].frames| - 1]
    && s'.destroyed == s.destroyed + {Top(s, t).filament}
    && OnlySlot(s.tables, s'.tables, t) && SameMains(s.tables, s'.tables)
    && Slot(s', t) in {Slot(s, t), Top(s, t).previous, None}
  }

  lemma LeaveLeft(s: State, t: ThreadId, handleOk: bool)
    requires Enabled(s, Restore(t, handleOk)) && Known(s.tables, Top(s, t).previous)
    ensures HasLeft(s, Leave(s, t, handleOk), t)
  {
    SetCurrentEffect(s.tables, t, Top(s, t).previous, false, handleOk, Leave(s, t, handleOk).tables,
                     SetCurrent(s.tables, t, Top(s, t).previous, false, handleOk).1);
  }

  // At worst it is the thread's own filament: no other thread's address dangles.
  lemma LeaveOthers(s: State, t: ThreadId, handleOk: bool)
    requires Inv(s) && Enabled(s, Restore(t, handleOk))
    ensures !Stray(Leave(s, t, handleOk))
  {
    var s' := Leave(s, t, handleOk);
    assert ThreadOk(s, t);
    PreviousKnown(s, t, |s.threads[t].frames| - 1);
    LeaveLeft(s, t, handleOk);
    forall u, f | Needs(s', u, f) && Foreign(s', u, f)
      ensures f !in s'.destroyed
    {
      if u == t {
        OwnAddresses(s, s', t, f);
      } else {
        OtherAddresses(s, s', t, u, f);
      }
    }
  }

  lemma OtherAddresses(s: State, s': State, t: ThreadId, u: ThreadId, f: FilamentId)
    requires Inv(s) && HasLeft(s, s', t) && PastJoin(s, Top(s, t).filament) && u != t
    requires s.tables.filaments[Top(s, t).filament].main == t
    requires Needs(s', u, f)
    ensures f !in s'.destroyed
  {
    OtherSlots(s.tables, s'.tables, t, u);
    assert Needs(s, u, f);
    assert ThreadOk(s, u);
    PastJoinUnneeded(s, Top(s, t).filament, u);
  }

  lemma OwnAddresses(s: State, s': State, t: ThreadId, f: FilamentId)
    requires HasLeft(s, s', t) && ThreadOk(s, t) && Live(s, t) && Foreign(s', t, f)
    requires Slot(s, t) == Some(Top(s, t).filament)
    requires Needs(s', t, f)
    ensures f !in s'.destroyed
  {
    assert s.tables.filaments[Top(s, t).filament].main == t;
    assert Needs(s, t, f);
  }
}
