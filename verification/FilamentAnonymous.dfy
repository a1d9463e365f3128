/** Anonymous threads that are taken into the default filament after its join. */
module FilamentAnonymous {
  import opened Prelude
  import opened FilamentTables
  import opened FilamentProtocol
  import opened FilamentTheorems
  import opened FilamentDeadlock

  // After an orderly run, at once or when one more test routine ends, a thread holds the address of a
  // destroyed filament of another thread.  If `failing`, no handle may be available at that end.
  ghost predicate CanStray(s: State, failing: bool)
  {
    exists steps, s' :: Run(s, steps, s') && OrderlyRun(s, steps) && (Stray(s') || EndsStray(s', failing))
  }

  ghost predicate EndsStray(s: State, failing: bool)
  {
    exists m, handleOk :: (handleOk || failing) && Enabled(s, Restore(m, handleOk)) && Stray(Leave(s, m, handleOk))
  }

  ghost predicate Doomed(s: State, step: Step, failing: bool)
  {
    Enabled(s, step) && CanStray(Apply(s, step), failing)
  }

  // `t` becomes a child of the default filament, although the main thread of that is past its join.
  ghost predicate TooLate(s: State, t: ThreadId)
  {
    && s.tables.defaultFilament.Some? && s.tables.defaultFilament.value in s.tables.filaments
    && var d := s.tables.defaultFilament.value;
       && (PastJoin(s, d) || d in s.destroyed)
       && s.tables.filaments[d].main != t && |s.tables.filaments[d].children| < MAX_THREADS
  }

  // The main thread of `d` is about to return from `d` to a filament that is being joined.
  ghost predicate Deadlocked(s: State, d: FilamentId)
  {
    && d in s.tables.filaments
    && var m := s.tables.filaments[d].main;
       In(s, m, Joined) && Running(s, m) && Top(s, m).filament == d && Meets(s, m)
  }

  // Taking an anonymous thread into the default filament can end with a live thread on a destroyed
  // filament if and only if it comes too late and, unless calls can fail, the main thread is not
  // caught in a deadlock.
  lemma AutoRegisterDanglesIff(s: State, t: ThreadId, failing: bool)
    requires Inv(s) && Enabled(s, AutoRegister(t))
    ensures Doomed(s, AutoRegister(t), failing) <==>
              TooLate(s, t) && (failing || !Deadlocked(s, s.tables.defaultFilament.value))
  {
    var d := s.tables.defaultFilament.value;
    if !TooLate(s, t) {
      InTimeKeeps(s, t);
      SafeFromNowOn(Apply(s, AutoRegister(t)), failing);
    } else if Deadlocked(s, d) && !failing {
      DeadlockSafe(s, t);
    } else {
      LateRegistration(s, t);
      if d in s.destroyed {
        assert Needs(DoAutoRegister(s, t), t, d);
        StraysNow(DoAutoRegister(s, t), failing);
      } else {
        LateDestruction(s, t, failing);
      }
    }
  }

  lemma StraysNow(s: State, failing: bool)
    requires Stray(s) || EndsStray(s, failing)
    ensures CanStray(s, failing)
  {
    assert Run(s, [], s) && OrderlyRun(s, []);
  }

  lemma SafeFromNowOn(s: State, failing: bool)
    requires Inv(s)
    ensures !CanStray(s, failing)
  {
    forall steps, s' | Run(s, steps, s') && OrderlyRun(s, steps)
      ensures !Stray(s') && !EndsStray(s', failing)
    {
      RunKeeps(s, steps, s');
      NoneStrays(s', failing);
    }
  }

  lemma NoneStrays(s: State, failing: bool)
    requires Inv(s)
    ensures !Stray(s) && !EndsStray(s, failing)
  {
    InvNotDangling(s);
    forall m, handleOk | Enabled(s, Restore(m, handleOk))
      ensures !Stray(Leave(s, m, handleOk))
    {
      LeaveOthers(s, m, handleOk);
    }
  }

  // A registration that is in time, or does not take place
  lemma InTimeKeeps(s: State, t: ThreadId)
    requires Inv(s) && Enabled(s, AutoRegister(t)) && !TooLate(s, t)
    ensures Inv(Apply(s, AutoRegister(t)))
  {
    var s', d := DoAutoRegister(s, t), s.tables.defaultFilament.value;
    if Timely(s, AutoRegister(t)) {
      AutoRegisterKeeps(s, t);
    } else {
      SetCurrentStatus(s.tables, t, Some(d), true, true);
      SetCurrentEffect(s.tables, t, Some(d), true, true, s'.tables, SetCurrent(s.tables, t, Some(d), true, true).1);
      assert ThreadOk(s, t);
      Untouched(s, s', t, t, None);
      MovesAloneKeeps(s, s', t, None);
    }
  }

  // The thread joins the filament; nothing else changes.
  lemma LateRegistration(s: State, t: ThreadId)
    requires Inv(s) && Enabled(s, AutoRegister(t)) && TooLate(s, t)
    ensures var s1, d := DoAutoRegister(s, t), s.tables.defaultFilament.value;
      && Slot(s1, t) == Some(d) && Live(s1, t)
      && s1 == s.(tables := s1.tables)
      && WellFormed(s1.tables) && OnlySlot(s.tables, s1.tables, t) && ListsChild(s.tables, s1.tables, t, Some(d))
  {
    var d := s.tables.defaultFilament.value;
    SetCurrentStatus(s.tables, t, Some(d), true, true);
    SetCurrentEffect(s.tables, t, Some(d), true, true, DoAutoRegister(s, t).tables,
                     SetCurrent(s.tables, t, Some(d), true, true).1);
  }

  // The main thread destroys the filament, and the late thread is still there.
  lemma DestroyStrays(s: State, m: ThreadId, t: ThreadId, d: FilamentId, failing: bool)
    requires Addressable(s) && In(s, m, Left) && Running(s, m) && Top(s, m).filament == d
    requires t != m && Live(s, t) && Slot(s, t) == Some(d) && Foreign(s, t, d)
    ensures CanStray(s, failing)
  {
    var steps, s' := [Destroy(m)], DoDestroy(s, m);
    assert steps[1..] == [];
    assert Run(s', [], s') && OrderlyRun(s', []);
    assert Needs(s', t, d);
    assert Run(s, steps, s') && OrderlyRun(s, steps);
  }

  lemma RestoreStrays(s: State, m: ThreadId, t: ThreadId, d: FilamentId, handleOk: bool)
    requires Enabled(s, Restore(m, handleOk)) && Top(s, m).filament == d
    requires t != m && Live(s, t) && Slot(s, t) == Some(d) && Foreign(s, t, d)
    ensures Stray(Leave(s, m, handleOk))
  {
    var s' := Leave(s, m, handleOk);
    assert Known(s.tables, s.threads[m].frames[|s.threads[m].frames| - 1].previous);
    RestoreTables(s, m, handleOk);
    SetCurrentEffect(s.tables, m, Top(s, m).previous, false, handleOk, s'.tables,
                     SetCurrent(s.tables, m, Top(s, m).previous, false, handleOk).1);
    OtherSlots(s.tables, s'.tables, m, t);
    assert Needs(s', t, d);
  }

  // With a handle if need be, the main thread can still return when the late thread has registered.
  lemma RestoreLater(s: State, s1: State, m: ThreadId, t: ThreadId, d: FilamentId)
    requires Inv(s) && In(s, m, Joined) && Running(s, m)
    requires s1 == s.(tables := s1.tables) && WellFormed(s1.tables) && ListsChild(s.tables, s1.tables, t, Some(d))
    ensures Enabled(s1, Restore(m, !Meets(s, m)))
  {
    InvAddressable(s);
    AddressableStays(s, s1);
    assert ThreadOk(s, m);
    PreviousKnown(s, m, |s.threads[m].frames| - 1);
  }

  lemma LateDestruction(s: State, t: ThreadId, failing: bool)
    requires Inv(s) && Enabled(s, AutoRegister(t)) && TooLate(s, t)
    requires s.tables.defaultFilament.value !in s.destroyed
    requires failing || !Deadlocked(s, s.tables.defaultFilament.value)
    ensures CanStray(DoAutoRegister(s, t), failing)
  {
    var d := s.tables.defaultFilament.value;
    var m := s.tables.filaments[d].main;
    var s1 := DoAutoRegister(s, t);
    LateRegistration(s, t);
    InvAddressable(s);
    AddressableStays(s, s1);
    if In(s, m, Left) {
      DestroyStrays(s1, m, t, d, failing);
    } else {
      RestoreLater(s, s1, m, t, d);
      RestoreStrays(s1, m, t, d, !Meets(s, m));
      StraysNow(s1, failing);
    }
  }

  // In particular if the main thread runs its outermost routine: it goes on, and the thread is left
  // with a destroyed filament.
  lemma LateThreadDangles(s: State, t: ThreadId)
    requires Inv(s) && Enabled(s, AutoRegister(t)) && TooLate(s, t)
    requires var d := s.tables.defaultFilament.value;
      var m := s.tables.filaments[d].main;
      In(s, m, Joined) && Running(s, m) && Top(s, m) == Frame(d, None)
    ensures Doomed(s, AutoRegister(t), false)
  {
    AutoRegisterDanglesIff(s, t, false);
  }

  // In terms of the invariant: it survives if and only if the registration does not come too late.
  lemma AutoRegisterSafeIff(s: State, t: ThreadId)
    requires Inv(s) && Enabled(s, AutoRegister(t))
    ensures Inv(Apply(s, AutoRegister(t))) <==> !TooLate(s, t)
  {
    var d := s.tables.defaultFilament.value;
    var s' := DoAutoRegister(s, t);
    if TooLate(s, t) {
      LateRegistration(s, t);
      LateArrivalBreaks(s, s', t, d);
      InvParts(s', t, d);
    } else {
      InTimeKeeps(s, t);
    }
  }

  lemma InvParts(s: State, t: ThreadId, f: FilamentId)
    requires t in s.threads && f in s.tables.filaments
    ensures Inv(s) ==> ThreadOk(s, t) && FilamentOk(s, f)
  {
  }

  // A live thread has become a child of a filament that is past its join or gone.
  lemma LateArrivalBreaks(s: State, s': State, t: ThreadId, d: FilamentId)
    requires s'.threads == s.threads && s'.destroyed == s.destroyed
    requires Live(s, t) && d in s.tables.filaments && d in s'.tables.filaments
    requires PastJoin(s, d) || d in s.destroyed
    requires s'.tables.filaments[d].main == s.tables.filaments[d].main
    requires Slot(s', t) == Some(d) && s.tables.filaments[d].main != t
    requires t in s'.tables.filaments[d].children
    ensures !(ThreadOk(s', t) && FilamentOk(s', d))
  {
    assert Needs(s', t, d);
  }

  /* ---------------------------------------------------------------- a main thread in a deadlock */

  lemma StuckSafe(s: State, m: ThreadId, g: FilamentId)
    requires Stuck(s, m, g)
    ensures !Stray(s) && !EndsStray(s, false)
  {
    var h := Hold(s, m);
    NoneStrays(h, false);
    forall u, f | Needs(s, u, f) && Foreign(s, u, f)
      ensures f !in s.destroyed
    {
      assert Needs(h, u, f) && Foreign(h, u, f);
    }
    forall w | Enabled(s, Restore(w, true))
      ensures !Stray(Leave(s, w, true))
    {
      if w == m {
        StuckWaits(s, m, g, true);
      }
      LeaveCommutes(s, m, w);
      HoldStrays(Leave(s, w, true), m);
    }
  }

  lemma LeaveCommutes(s: State, m: ThreadId, w: ThreadId)
    requires In(s, m, Joined) && Running(s, m) && Enabled(s, Restore(w, true)) && w != m
    ensures Enabled(Hold(s, m), Restore(w, true)) && In(Leave(s, w, true), m, Joined)
    ensures Leave(Hold(s, m), w, true) == Hold(Leave(s, w, true), m)
  {
    AddressableStays(s, Hold(s, m));
    RestoreCommutes(s, m, w, true);
    DestroyCommutes(DoRestore(s, w, true), m, w);
  }

  lemma HoldStrays(s: State, m: ThreadId)
    requires In(s, m, Joined)
    ensures Stray(s) ==> Stray(Hold(s, m))
  {
    if u, f :| Needs(s, u, f) && f in s.destroyed && Foreign(s, u, f) {
      assert Needs(Hold(s, m), u, f) && Foreign(Hold(s, m), u, f);
    }
  }

  lemma DeadlockSticks(s: State, t: ThreadId, m: ThreadId, g: FilamentId)
    requires Inv(s) && Enabled(s, AutoRegister(t)) && Stuck(s, m, g) && TopIsDefault(s, m)
    ensures Stuck(DoAutoRegister(s, t), m, g)
  {
    OthersCommute(s, m, AutoRegister(t));
    AutoRegisterKeeps(Hold(s, m), t);
  }

  predicate TopIsDefault(s: State, m: ThreadId)
  {
    && Running(s, m) && s.tables.defaultFilament == Some(Top(s, m).filament)
    && Top(s, m).filament in s.tables.filaments && s.tables.filaments[Top(s, m).filament].main == m
    && Top(s, m).filament !in s.destroyed
  }

  lemma DeadlockSafe(s: State, t: ThreadId)
    requires Inv(s) && Enabled(s, AutoRegister(t)) && Deadlocked(s, s.tables.defaultFilament.value)
    ensures !CanStray(DoAutoRegister(s, t), false)
  {
    var d := s.tables.defaultFilament.value;
    var m := s.tables.filaments[d].main;
    var g := Top(s, m).previous.value;
    var s1 := DoAutoRegister(s, t);
    assert ThreadOk(s, m);
    MeetsSticks(s, m);
    DeadlockSticks(s, t, m, g);
    forall steps, s' | Run(s1, steps, s') && OrderlyRun(s1, steps)
      ensures !Stray(s') && !EndsStray(s', false)
    {
      StuckForever(s1, m, g, steps, s');
      StuckSafe(s', m, g);
    }
  }
}
