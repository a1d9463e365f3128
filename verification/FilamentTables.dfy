/**
 The tables behind cfix/cfix/filament.c: the filament records, the TLS slot of every thread, the
 process-wide default filament and the reference counts of the execution contexts.

 `SetCurrent` is the meaning of CfixsSetCurrentFilament, cut at the points where other threads can
 observe it (`Release`, `Enlist`, `Install`).  The class `Process` below holds the same tables in
 mutable fields and updates them in the order of the C code; its methods are proved to compute these
 functions.
 */
module FilamentTables {
  import opened Prelude

  type ThreadId = nat
  type FilamentId = nat
  type ContextId = nat

  // CFIX_MAX_THREADS, that is MAXIMUM_WAIT_OBJECTS
  const MAX_THREADS: nat := 64

  datatype Status =
    | Success
    | TooManyChildThreads
    | DefaultFilamentConflict
    | DuplicateHandleFailed
    | UnknownThread

  // CFIXP_FILAMENT; `children` are the threads whose handles were added to ChildThreads.Threads
  datatype Filament = Filament(context: ContextId, main: ThreadId, isDefault: bool, children: seq<ThreadId>)

  // A thread absent from `tls` has an empty slot; `derived` holds the threads whose tag bit is set.
  datatype Tables = Tables(
    filaments: map<FilamentId, Filament>,
    tls: map<ThreadId, FilamentId>,
    derived: set<ThreadId>,
    defaultFilament: Option<FilamentId>,
    references: map<ContextId, int>)

  // Every slot names a known filament, and the default filament was set up as one.
  ghost predicate WellFormed(tb: Tables)
  {
    && (forall t :: t in tb.tls ==> tb.tls[t] in tb.filaments)
    && (tb.defaultFilament.Some? ==>
          && tb.defaultFilament.value in tb.filaments
          && tb.filaments[tb.defaultFilament.value].isDefault)
    && tb.derived <= tb.tls.Keys
  }

  ghost predicate Known(tb: Tables, f: Option<FilamentId>)
  {
    f.Some? ==> f.value in tb.filaments
  }

  function Current(tb: Tables, t: ThreadId): Option<FilamentId>
  {
    if t in tb.tls then Some(tb.tls[t]) else None
  }

  function References(tb: Tables, c: ContextId): int
  {
    if c in tb.references then tb.references[c] else 0
  }

  function Adjust(tb: Tables, c: ContextId, delta: int): Tables
  {
    tb.(references := tb.references[c := References(tb, c) + delta])
  }

  function SetSlot(tb: Tables, t: ThreadId, f: Option<FilamentId>, derived: bool): Tables
  {
    match f
    case None => tb.(tls := tb.tls - {t}, derived := tb.derived - {t})
    case Some(id) =>
      tb.(tls := tb.tls[t := id], derived := if derived then tb.derived + {t} else tb.derived - {t})
  }

  // Drops the reference held through the old slot value.
  function Release(tb: Tables, t: ThreadId): Tables
    requires Known(tb, Current(tb, t))
  {
    match Current(tb, t)
    case None => tb
    case Some(was) => Adjust(tb, tb.filaments[was].context, -1)
  }

  // CfixsRegisterChildThreadFilament
  function RegisterChild(tb: Tables, t: ThreadId, f: FilamentId): (r: (Tables, Status))
    requires f in tb.filaments
  {
    var fil := tb.filaments[f];
    if |fil.children| >= MAX_THREADS then (tb, TooManyChildThreads)
    else (tb.(filaments := tb.filaments[f := fil.(children := fil.children + [t])]), Success)
  }

  // Obtains a real handle for `t` and registers it; nothing to do for the main thread or for NULL.
  function Enlist(tb: Tables, t: ThreadId, target: Option<FilamentId>, handleOk: bool): (r: (Tables, Status))
    requires Known(tb, target)
  {
    if target.None? || tb.filaments[target.value].main == t then (tb, Success)
    else if !handleOk then (tb, DuplicateHandleFailed)
    else
      var (tb', status) := RegisterChild(tb, t, target.value);
      if status == Success then (tb', Success) else (SetSlot(tb', t, None, false), status)
  }

  // CfixsSetDefaultFilament
  function SetDefault(tb: Tables, f: Option<FilamentId>): (r: (Tables, Status))
  {
    if tb.defaultFilament.Some? && f.Some? then (tb, DefaultFilamentConflict)
    else (tb.(defaultFilament := f), Success)
  }

  // Takes the new reference, maintains the default filament and sets the slot.
  function Install(tb: Tables, t: ThreadId, before: Option<FilamentId>, target: Option<FilamentId>, derived: bool)
    : (r: (Tables, Status))
    requires Known(tb, before) && Known(tb, target)
  {
    if target.Some? then
      var fil := tb.filaments[target.value];
      var tb1 := Adjust(tb, fil.context, 1);
      if !fil.isDefault then
        (SetSlot(SetDefault(tb1, None).0, t, target, derived), Success)
      else if fil.main == t then
        var (tb2, status) := SetDefault(tb1, target);
        if status != Success then (tb2, status) else (SetSlot(tb2, t, target, derived), Success)
      else
        (SetSlot(tb1, t, target, derived), Success)
    else if before.Some? && tb.filaments[before.value].main == t && tb.filaments[before.value].isDefault then
      (SetSlot(SetDefault(tb, None).0, t, None, derived), Success)
    else
      (SetSlot(tb, t, None, derived), Success)
  }

  // CfixsSetCurrentFilament; `handleOk` is the outcome of DuplicateHandle
  function SetCurrent(tb: Tables, t: ThreadId, target: Option<FilamentId>, derived: bool, handleOk: bool)
    : (r: (Tables, Status))
    requires WellFormed(tb) && Known(tb, target)
  {
    var before := Current(tb, t);
    var (tb1, status) := Enlist(Release(tb, t), t, target, handleOk);
    if status != Success then (tb1, status) else Install(tb1, t, before, target, derived)
  }

  /* ---------------------------------------------------------------- reference conservation */

  // The threads whose slot holds a filament of context `c`.
  function Holders(tb: Tables, c: ContextId): set<ThreadId>
  {
    set t | t in tb.tls && tb.tls[t] in tb.filaments && tb.filaments[tb.tls[t]].context == c
  }

  // The filament references of every context are exactly the slots that hold one of its filaments.
  ghost predicate Conserved(tb: Tables)
  {
    forall c :: References(tb, c) == |Holders(tb, c)|
  }

  function One(b: bool): int { if b then 1 else 0 }

  predicate InContext(tb: Tables, f: Option<FilamentId>, c: ContextId)
    requires Known(tb, f)
  {
    f.Some? && tb.filaments[f.value].context == c
  }

  // Two tables that differ only in the slot of `t` and in child lists have holders that differ by `t`.
  lemma HoldersAfterSlotChange(tb: Tables, tb': Tables, t: ThreadId, c: ContextId)
    requires WellFormed(tb) && WellFormed(tb')
    requires tb.filaments.Keys == tb'.filaments.Keys
    requires forall f :: f in tb.filaments ==> tb.filaments[f].context == tb'.filaments[f].context
    requires OnlySlot(tb, tb', t)
    ensures |Holders(tb', c)| ==
            |Holders(tb, c)| - One(InContext(tb, Current(tb, t), c)) + One(InContext(tb', Current(tb', t), c))
  {
    var before, after := Holders(tb, c), Holders(tb', c);
    forall u | u != t
      ensures u in before <==> u in after
    {
      OtherSlots(tb, tb', t, u);
    }
    assert before - {t} == after - {t};
    assert |before| == |before - {t}| + One(t in before);
    assert |after| == |after - {t}| + One(t in after);
  }

  // The filament that `t` joins as a child thread when `target` becomes its current filament.
  function Joins(tb: Tables, t: ThreadId, target: Option<FilamentId>): Option<FilamentId>
    requires Known(tb, target)
  {
    if target.Some? && tb.filaments[target.value].main != t then target else None
  }

  // `tb'` has the filaments of `tb`, except that `t` was appended to the children of `joined`.
  ghost predicate ListsChild(tb: Tables, tb': Tables, t: ThreadId, joined: Option<FilamentId>)
  {
    && tb'.filaments.Keys == tb.filaments.Keys
    && (forall f :: f in tb.filaments ==>
          tb'.filaments[f] ==
          if joined == Some(f) then tb.filaments[f].(children := tb.filaments[f].children + [t])
          else tb.filaments[f])
  }

  // No main thread changed.
  ghost predicate SameMains(tb: Tables, tb': Tables)
  {
    && tb'.filaments.Keys == tb.filaments.Keys
    && forall f :: f in tb.filaments ==> tb'.filaments[f].main == tb.filaments[f].main
  }

  // No slot but that of `t` changed.
  ghost predicate OnlySlot(tb: Tables, tb': Tables, t: ThreadId)
  {
    tb'.tls - {t} == tb.tls - {t}
  }

  lemma OtherSlots(tb: Tables, tb': Tables, t: ThreadId, u: ThreadId)
    requires OnlySlot(tb, tb', t) && u != t
    ensures Current(tb', u) == Current(tb, u)
  {
    assert u in tb.tls <==> u in tb.tls - {t};
    assert u in tb'.tls <==> u in tb'.tls - {t};
    if u in tb.tls {
      assert tb.tls[u] == (tb.tls - {t})[u] == (tb'.tls - {t})[u];
    }
  }

  lemma SetSlotFrame(tb: Tables, t: ThreadId, target: Option<FilamentId>, derived: bool)
    requires WellFormed(tb) && Known(tb, target) && (target.None? ==> !derived)
    ensures WellFormed(SetSlot(tb, t, target, derived)) && OnlySlot(tb, SetSlot(tb, t, target, derived), t)
    ensures Current(SetSlot(tb, t, target, derived), t) == target
  {
  }

  lemma EnlistFrame(tb: Tables, t: ThreadId, target: Option<FilamentId>, handleOk: bool,
                    tb': Tables, status: Status)
    requires WellFormed(tb) && Known(tb, target)
    requires (tb', status) == Enlist(tb, t, target, handleOk)
    ensures WellFormed(tb') && OnlySlot(tb, tb', t)
    ensures ListsChild(tb, tb', t, if status == Success then Joins(tb, t, target) else None)
    ensures tb'.references == tb.references && tb'.defaultFilament == tb.defaultFilament
    ensures status in {Success, TooManyChildThreads, DuplicateHandleFailed}
    ensures Current(tb', t) == if status == TooManyChildThreads then None else Current(tb, t)
  {
    if status == TooManyChildThreads {
      SetSlotFrame(tb, t, None, false);
    }
  }

  lemma {:induction false} InstallFrame(tb: Tables, t: ThreadId, before: Option<FilamentId>,
                                        target: Option<FilamentId>, derived: bool, tb': Tables, status: Status)
    requires WellFormed(tb) && Known(tb, before) && Known(tb, target) && (target.None? ==> !derived)
    requires (tb', status) == Install(tb, t, before, target, derived)
    ensures WellFormed(tb') && OnlySlot(tb, tb', t) && tb'.filaments == tb.filaments
    ensures status in {Success, DefaultFilamentConflict}
    ensures Current(tb', t) == if status == Success then target else Current(tb, t)
    ensures forall c :: References(tb', c) == References(tb, c) + One(InContext(tb, target, c))
  {
    var counted := if target.Some? then Adjust(tb, tb.filaments[target.value].context, 1) else tb;
    assert tb'.references == counted.references && tb'.filaments == tb.filaments;
    var switched := counted.(defaultFilament := tb'.defaultFilament);
    if status == Success {
      assert tb' == SetSlot(switched, t, target, derived);
      SetSlotFrame(switched, t, target, derived);
    } else {
      assert tb' == switched;
    }
  }

  lemma ReleaseFrame(tb: Tables, t: ThreadId)
    requires WellFormed(tb)
    ensures WellFormed(Release(tb, t)) && OnlySlot(tb, Release(tb, t), t) && Release(tb, t).filaments == tb.filaments
    ensures Current(Release(tb, t), t) == Current(tb, t)
    ensures forall c :: References(Release(tb, t), c) == References(tb, c) - One(InContext(tb, Current(tb, t), c))
  {
  }

  // The counts after a call of CfixsSetCurrentFilament
  lemma SetCurrentReferences(tb: Tables, t: ThreadId, target: Option<FilamentId>, derived: bool, handleOk: bool,
                             tb': Tables, status: Status, c: ContextId)
    requires WellFormed(tb) && Known(tb, target) && (target.None? ==> !derived)
    requires (tb', status) == SetCurrent(tb, t, target, derived, handleOk)
    ensures References(tb', c) == References(tb, c) - One(InContext(tb, Current(tb, t), c))
              + One(status in {Success, DefaultFilamentConflict} && InContext(tb, target, c))
  {
    var released := Release(tb, t);
    ReleaseFrame(tb, t);
    var (enlisted, status1) := Enlist(released, t, target, handleOk);
    EnlistFrame(released, t, target, handleOk, enlisted, status1);
    assert References(enlisted, c) == References(released, c);
    if status1 == Success {
      InstallFrame(enlisted, t, Current(tb, t), target, derived, tb', status);
      assert InContext(enlisted, target, c) == InContext(tb, target, c);
    }
  }

  // One call of CfixsSetCurrentFilament: what it leaves alone, where the slot ends up and by how much
  // every reference count moves, on each of its paths.
  lemma {:induction false} SetCurrentEffect(tb: Tables, t: ThreadId, target: Option<FilamentId>, derived: bool,
                                            handleOk: bool, tb': Tables, status: Status)
    requires WellFormed(tb) && Known(tb, target) && (target.None? ==> !derived)
    requires (tb', status) == SetCurrent(tb, t, target, derived, handleOk)
    ensures WellFormed(tb') && OnlySlot(tb, tb', t)
    ensures ListsChild(tb, tb', t, if status == Success then Joins(tb, t, target) else None)
    ensures status == Success ==> Current(tb', t) == target
    ensures status == TooManyChildThreads ==> Current(tb', t) == None
    ensures status in {DuplicateHandleFailed, DefaultFilamentConflict} ==> Current(tb', t) == Current(tb, t)
    ensures status in {Success, TooManyChildThreads, DuplicateHandleFailed, DefaultFilamentConflict}
    ensures forall c :: (References(tb', c) == References(tb, c) - One(InContext(tb, Current(tb, t), c))
              + One(status in {Success, DefaultFilamentConflict} && InContext(tb, target, c)))
  {
    var released := Release(tb, t);
    ReleaseFrame(tb, t);
    var (enlisted, status1) := Enlist(released, t, target, handleOk);
    EnlistFrame(released, t, target, handleOk, enlisted, status1);
    if status1 == Success {
      InstallFrame(enlisted, t, Current(tb, t), target, derived, tb', status);
    }
    forall c
      ensures References(tb', c) == References(tb, c) - One(InContext(tb, Current(tb, t), c))
                + One(status in {Success, DefaultFilamentConflict} && InContext(tb, target, c))
    {
      SetCurrentReferences(tb, t, target, derived, handleOk, tb', status, c);
    }
  }

  lemma EnlistTag(tb: Tables, t: ThreadId, target: Option<FilamentId>, handleOk: bool, tb': Tables, status: Status)
    requires Known(tb, target) && (tb', status) == Enlist(tb, t, target, handleOk)
    ensures t in tb'.derived <==> status != TooManyChildThreads && t in tb.derived
    ensures tb'.derived - {t} == tb.derived - {t}
  {
  }

  lemma InstallTag(tb: Tables, t: ThreadId, before: Option<FilamentId>, target: Option<FilamentId>, derived: bool,
                   tb': Tables, status: Status)
    requires Known(tb, before) && Known(tb, target) && (target.None? ==> !derived)
    requires (tb', status) == Install(tb, t, before, target, derived)
    ensures t in tb'.derived <==> if status == Success then derived else t in tb.derived
    ensures tb'.derived - {t} == tb.derived - {t}
  {
  }

  // The tag of a slot: it comes with a filament that was set with it, goes with every other one and
  // with the filament, and is left alone with the slot.
  lemma {:induction false} SetCurrentTag(tb: Tables, t: ThreadId, target: Option<FilamentId>, derived: bool,
                                         handleOk: bool, tb': Tables, status: Status)
    requires WellFormed(tb) && Known(tb, target) && (target.None? ==> !derived)
    requires (tb', status) == SetCurrent(tb, t, target, derived, handleOk)
    ensures t in tb'.derived <==>
              if status == Success then derived else status != TooManyChildThreads && t in tb.derived
    ensures tb'.derived - {t} == tb.derived - {t}
  {
    var released := Release(tb, t);
    var (enlisted, status1) := Enlist(released, t, target, handleOk);
    ReleaseFrame(tb, t);
    EnlistFrame(released, t, target, handleOk, enlisted, status1);
    EnlistTag(released, t, target, handleOk, enlisted, status1);
    if status1 == Success {
      InstallTag(enlisted, t, Current(tb, t), target, derived, tb', status);
    }
  }

  // `t` wants to become a child of `target`.
  predicate WantsChild(tb: Tables, t: ThreadId, target: Option<FilamentId>)
    requires Known(tb, target)
  {
    Joins(tb, t, target).Some?
  }

  // `t` is the main thread of `target`, which is marked default, while a default filament is in place.
  predicate MeetsDefault(tb: Tables, t: ThreadId, target: Option<FilamentId>)
    requires Known(tb, target)
  {
    && target.Some? && tb.filaments[target.value].main == t
    && tb.filaments[target.value].isDefault && tb.defaultFilament.Some?
  }

  // Which way out a call takes is decided by the filament it is to install, by the handle and by the
  // default filament.
  lemma SetCurrentStatus(tb: Tables, t: ThreadId, target: Option<FilamentId>, derived: bool, handleOk: bool)
    requires WellFormed(tb) && Known(tb, target)
    ensures SetCurrent(tb, t, target, derived, handleOk).1 ==
              if WantsChild(tb, t, target) then
                if !handleOk then DuplicateHandleFailed
                else if |tb.filaments[target.value].children| >= 64 then TooManyChildThreads
                else Success
              else if MeetsDefault(tb, t, target) then DefaultFilamentConflict
              else Success
  {
  }

  // The two ways out that leave the counts and the slots out of step: a thread with a filament wants
  // to become a child of another one and gets no handle, or a default filament is refused to a thread
  // that has no filament of the same context.
  predicate LeaksReference(tb: Tables, t: ThreadId, target: Option<FilamentId>, handleOk: bool)
    requires WellFormed(tb) && Known(tb, target)
  {
    var before := Current(tb, t);
    || (WantsChild(tb, t, target) && !handleOk && before.Some?)
    || (MeetsDefault(tb, t, target) &&
        !(before.Some? && tb.filaments[before.value].context == tb.filaments[target.value].context))
  }

  // By how much the count of a context differs from its holders after a call
  lemma SetCurrentGap(tb: Tables, t: ThreadId, target: Option<FilamentId>, derived: bool, handleOk: bool,
                      tb': Tables, status: Status, c: ContextId)
    requires WellFormed(tb) && Known(tb, target) && (target.None? ==> !derived)
    requires References(tb, c) == |Holders(tb, c)|
    requires (tb', status) == SetCurrent(tb, t, target, derived, handleOk)
    ensures Known(tb', Current(tb', t))
    ensures References(tb', c) - |Holders(tb', c)|
         == One(status in {Success, DefaultFilamentConflict} && InContext(tb, target, c))
            - One(InContext(tb', Current(tb', t), c))
  {
    SetCurrentEffect(tb, t, target, derived, handleOk, tb', status);
    HoldersAfterSlotChange(tb, tb', t, c);
  }

  lemma NoLeakConserves(tb: Tables, t: ThreadId, target: Option<FilamentId>, derived: bool, handleOk: bool,
                        tb': Tables, status: Status, c: ContextId)
    requires WellFormed(tb) && Known(tb, target) && (target.None? ==> !derived)
    requires References(tb, c) == |Holders(tb, c)|
    requires (tb', status) == SetCurrent(tb, t, target, derived, handleOk)
    requires !LeaksReference(tb, t, target, handleOk)
    ensures References(tb', c) == |Holders(tb', c)|
  {
    SetCurrentStatus(tb, t, target, derived, handleOk);
    SetCurrentEffect(tb, t, target, derived, handleOk, tb', status);
    SetCurrentGap(tb, t, target, derived, handleOk, tb', status, c);
  }

  lemma LeakShows(tb: Tables, t: ThreadId, target: Option<FilamentId>, derived: bool, handleOk: bool,
                  tb': Tables, status: Status)
    returns (c: ContextId)
    requires WellFormed(tb) && Known(tb, target) && (target.None? ==> !derived) && Conserved(tb)
    requires (tb', status) == SetCurrent(tb, t, target, derived, handleOk)
    requires LeaksReference(tb, t, target, handleOk)
    ensures References(tb', c) != |Holders(tb', c)|
  {
    SetCurrentStatus(tb, t, target, derived, handleOk);
    SetCurrentEffect(tb, t, target, derived, handleOk, tb', status);
    c := if status == DuplicateHandleFailed then tb.filaments[Current(tb, t).value].context
         else tb.filaments[target.value].context;
    SetCurrentGap(tb, t, target, derived, handleOk, tb', status, c);
  }

  // Conservation survives a call exactly when the call does not leave by one of those two ways.
  lemma SetCurrentConserves(tb: Tables, t: ThreadId, target: Option<FilamentId>, derived: bool, handleOk: bool,
                            tb': Tables, status: Status)
    requires WellFormed(tb) && Known(tb, target) && (target.None? ==> !derived)
    requires Conserved(tb)
    requires (tb', status) == SetCurrent(tb, t, target, derived, handleOk)
    ensures Conserved(tb') <==> !LeaksReference(tb, t, target, handleOk)
  {
    if LeaksReference(tb, t, target, handleOk) {
      var c := LeakShows(tb, t, target, derived, handleOk, tb', status);
    } else {
      forall c
        ensures References(tb', c) == |Holders(tb', c)|
      {
        NoLeakConserves(tb, t, target, derived, handleOk, tb', status, c);
      }
    }
  }

  // Thread 0 holds filament 0 and, with it, one reference to context 0.
  const Holding: Tables :=
    Tables(map[0 := Filament(0, 0, false, []), 1 := Filament(1, 1, false, [])], map[0 := 0], {}, None, map[0 := 1])

  lemma HoldingConserved()
    ensures WellFormed(Holding) && Conserved(Holding)
  {
    forall c
      ensures References(Holding, c) == |Holders(Holding, c)|
    {
      assert Holders(Holding, c) == if c == 0 then {0} else {};
    }
  }

  // It is to become a child of filament 1, but its handle cannot be duplicated: the reference is gone,
  // filament 0 is still current.
  lemma LeakExample(tb: Tables)
    requires tb == SetCurrent(Holding, 0, Some(1), false, false).0
    ensures Current(tb, 0) == Some(0) && References(tb, 0) == 0 && !Conserved(tb)
  {
    HoldingConserved();
    SetCurrentConserves(Holding, 0, Some(1), false, false, tb, DuplicateHandleFailed);
  }

  // A default filament of another context is refused: its reference is taken, filament 0 is still
  // current.
  const Occupied: Tables :=
    Tables(map[0 := Filament(0, 0, true, []), 1 := Filament(1, 0, true, [])], map[0 := 0], {}, Some(0), map[0 := 1])

  lemma OccupiedConserved()
    ensures WellFormed(Occupied) && Conserved(Occupied)
  {
    forall c
      ensures References(Occupied, c) == |Holders(Occupied, c)|
    {
      assert Holders(Occupied, c) == if c == 0 then {0} else {};
    }
  }

  lemma RefusedLeakExample(tb: Tables)
    requires tb == SetCurrent(Occupied, 0, Some(1), false, true).0
    ensures Current(tb, 0) == Some(0) && References(tb, 1) == 1 && !Conserved(tb)
  {
    OccupiedConserved();
    SetCurrentConserves(Occupied, 0, Some(1), false, true, tb, DefaultFilamentConflict);
  }

  /* ---------------------------------------------------------------- the imperative code */

  // How often the lock of the default filament is left taken by a call with this result
  function Kept(status: Status): nat { if status == DefaultFilamentConflict then 1 else 0 }

  class Process {
    var filaments: map<FilamentId, Filament>
    var tls: map<ThreadId, FilamentId>
    var derived: set<ThreadId>
    var defaultFilament: Option<FilamentId>
    var references: map<ContextId, int>
    // how often CfixsDefaultFilament.Lock was entered and never left
    var lockDepth: nat

    ghost function View(): Tables
      reads this
    {
      Tables(filaments, tls, derived, defaultFilament, references)
    }

    method AdjustReferences(c: ContextId, delta: int)
      modifies this`references
      ensures View() == Adjust(old(View()), c, delta)
    {
      var count := if c in references then references[c] else 0;
      references := references[c := count + delta];
    }

    method RegisterChildThread(t: ThreadId, f: FilamentId) returns (status: Status)
      requires f in filaments
      modifies this`filaments
      ensures (View(), status) == RegisterChild(old(View()), t, f)
      ensures status == Success <==> |old(filaments)[f].children| < 64
    {
      var fil := filaments[f];
      if |fil.children| >= MAX_THREADS {
        return TooManyChildThreads;
      }
      filaments := filaments[f := fil.(children := fil.children + [t])];
      status := Success;
    }

    method SetDefaultFilament(f: Option<FilamentId>) returns (status: Status)
      modifies this`defaultFilament, this`lockDepth
      ensures (View(), status) == SetDefault(old(View()), f)
      ensures lockDepth == old(lockDepth) + Kept(status)
    {
      lockDepth := lockDepth + 1;
      if defaultFilament.Some? && f.Some? {
        return DefaultFilamentConflict;
      } else if defaultFilament.None? && f.None? {
        status := Success;
      } else {
        defaultFilament := f;
        status := Success;
      }
      lockDepth := lockDepth - 1;
    }

    method SetTlsFilament(t: ThreadId, f: Option<FilamentId>, tag: bool)
      modifies this`tls, this`derived
      ensures View() == SetSlot(old(View()), t, f, tag)
    {
      if f.Some? {
        tls := tls[t := f.value];
        derived := if tag then derived + {t} else derived - {t};
      } else {
        tls := tls - {t};
        derived := derived - {t};
      }
    }

    method SetCurrentFilament(t: ThreadId, target: Option<FilamentId>, tag: bool, handleOk: bool)
      returns (status: Status, previous: Option<FilamentId>)
      requires WellFormed(View()) && Known(View(), target)
      modifies this
      ensures (View(), status) == SetCurrent(old(View()), t, target, tag, handleOk)
      ensures status == Success ==> previous == old(Current(View(), t))
      ensures status != Success ==> previous == None
      ensures lockDepth == old(lockDepth) + Kept(status)
    {
      previous := None;
      var oldFilament := if t in tls then Some(tls[t]) else None;
      if oldFilament.Some? {
        AdjustReferences(filaments[oldFilament.value].context, -1);
      }
      if target.Some? && t != filaments[target.value].main {
        if !handleOk {
          return DuplicateHandleFailed, None;
        }
        status := RegisterChildThread(t, target.value);
        if status != Success {
          SetTlsFilament(t, None, false);
          return;
        }
      }
      if target.Some? {
        AdjustReferences(filaments[target.value].context, 1);
        if !filaments[target.value].isDefault {
          status := SetDefaultFilament(None);
        } else if t == filaments[target.value].main {
          status := SetDefaultFilament(target);
          if status != Success {
            return;
          }
        }
      } else if oldFilament.Some? {
        if t == filaments[oldFilament.value].main && filaments[oldFilament.value].isDefault {
          status := SetDefaultFilament(None);
        }
      }
      SetTlsFilament(t, target, tag);
      status := Success;
      previous := oldFilament;
    }

    // CfixsGetCurrentFilament: the slot, or else the default filament taken over as a child thread.
    method GetCurrentFilament(t: ThreadId, derive: bool, handleOk: bool)
      returns (status: Status, filament: Option<FilamentId>)
      requires WellFormed(View())
      modifies this
      ensures old(Current(View(), t)).Some? ==>
                status == Success && filament == old(Current(View(), t)) && View() == old(View())
      ensures old(Current(View(), t)).None? && !(derive && old(defaultFilament).Some?) ==>
                status == UnknownThread && View() == old(View())
      ensures old(Current(View(), t)).None? && derive && old(defaultFilament).Some? ==>
                (View(), status) == SetCurrent(old(View()), t, old(defaultFilament), true, handleOk)
      ensures status == Success ==> filament.Some? && filament == Current(View(), t)
      ensures status != Success ==> filament == None
      ensures lockDepth == old(lockDepth) + Kept(status)
    {
      filament := if t in tls then Some(tls[t]) else None;
      if filament.Some? {
        return Success, filament;
      }
      if derive && defaultFilament.Some? {
        ghost var start := View();
        ghost var fallback := defaultFilament;
        var previous;
        lockDepth := lockDepth + 1;
        status, previous := SetCurrentFilament(t, defaultFilament, true, handleOk);
        SetCurrentEffect(start, t, fallback, true, handleOk, View(), status);
        if status == Success {
          filament := if t in tls then Some(tls[t]) else None;
        }
        lockDepth := lockDepth - 1;
        return;
      }
      status := UnknownThread;
    }
  }
}
