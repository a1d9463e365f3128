# A verified model of the cfix run-time

cfix is an xUnit framework for C and C++ on Windows. This project models the parts of it that carry
real logic, in Dafny, and proves what they promise: for every input, every outcome of the routines
and callbacks involved, and, for the filament protocol, every interleaving of the threads.

`dafny verify dfyconfig.toml` checks everything.

| module | what it models |
|---|---|
| `FilamentTables` | the tables of `filament.c` as pure functions, and a class that updates them in the order of the C code |
| `FilamentProtocol` | test routines, child threads, hand-off, join and destruction as a transition system, with its inductive invariant |
| `FilamentTheorems` | lifetime and hand-off over whole runs, and returns that slip |
| `FilamentProgress` | who can go on, and what the others wait for |
| `FilamentTags` | the tag of the slot, which tells threads without exception filter |
| `FilamentDeadlock` | threads that return to a filament while it is being joined |
| `FilamentAnonymous` | anonymous threads that join the default filament too late |
| `FilamentCounts`, `FilamentDefault` | reference counts and the default filament over whole runs |
| `FilamentExamples` | runs of the protocol, from the beginning, that end badly |
| `WireLayout`, `WireWriter`, `WireReader`, `WireRoundTrip` | the binary description of a driver's fixtures: layout, the in-place writer, the parser, and their agreement |
| `Loaders`, `LoaderPhases` | the user-mode loader against the kernel-mode pipeline; entry types, phases and accepted exports by their numbers |
| `Execution`, `ExecutionGrammar`, `ExecutionFlags`, `ExecutionTrees` | running fixtures and sequences: the code, the order of calls, the flags, nesting |
| `EventLabels` | the proxy that labels events with the phase that raised them |
| `TestStorage` | the storage that routines pass to each other |
| `SequenceList` | the circular list of a sequence action, and running its members |
| `Formatter` | the template scanner of `formatstr.c` against its grammar |
| `Ulp` | floating point comparison by units in the last place |
| `PeImage` | looking for fixture exports in a file against walking the loaded image |
| `CommandLine`, `CommandErrors` | the command-line parser and a printer; refusals and meaning argument by argument |
| `Search`, `SearchFailures`, `SearchCodes` | directory traversal: order and completeness, which failures are lost, and which result is returned |
| `Prelude` | stock datatypes |

## How the model is built

* Code that changes state step by step is a method, proved against a specification function or
  predicate. The main results are lemmas about these specifications.
* What a routine, a callback or the operating system answers is a parameter: a function of the
  position of the call in the run (`Oracle`), or a value in the input (`handleOk`, `refusal`,
  `tooLong`, `Inaccessible`). The main results hold for all of them.
* ULONG, USHORT, LONG and LONGLONG arithmetic is written out where it can wrap.
* A trace is the sequence of calls made so far. It exists in the model only.

## Where the code differs from what one would expect

For each of these there is an exact condition, proved for all inputs, and a concrete witness.

* When a test routine ends, the return to the previous filament can slip: that one is a default
  filament of the same thread while a default filament is in place, or the thread is to become its
  child and gets no handle. `pe.c` only asserts that this does not happen and destroys the filament
  that is still current (`SlipDanglesIff`; in `RefusedReturnExample`, reached from the first use of
  cfix without anonymous threads or failing calls, it remains the default filament as well).
* A default filament can outlive its test routine in that way, and also if a child thread of a
  filament that is marked default runs a nested routine with a default filament of its own
  (`DefaultStep`, `NestedDefaultStranded`; `StrandedReachable` starts from the first use of cfix).
* The join waits under the child-list lock. A child thread whose nested routine ends meanwhile needs
  that lock to return, and both wait for good (`ReturnsIff`, `DeadlockExample`).
* Two exits of `CfixsSetCurrentFilament` leave the reference counts out of step
  (`SetCurrentConserves`, `LeakExample`, `RefusedLeakExample`).
* An anonymous thread can join the default filament after the join of its main thread, and is then
  left with the address of a destroyed filament (`AutoRegisterDanglesIff`, `LateThreadExample`).
* An anonymous thread that comes back from a test routine to the default filament loses its tag, so a
  failing assertion raises an exception there that no filter catches (`TagsStep`, `LostTagExample`).
* The user-mode loader takes a null Setup routine for none and accepts a second one; the kernel-mode
  pipeline does not (`LoadersAgreeIff`, `NullSetupExample`, `RejectedDifferentlyExample`).
* The comment on the Before wrapper says that nothing set by Setup is visible later. That holds if and
  only if there is a Before routine (`HiddenIffBefore`, `SetupLeftoverExample`).
* Events raised by Teardown bear the wrong label if no test case was started or
  `BeforeTestCaseStart` failed (`LabelsExact`, `MislabelledTeardownExamples`).
* The two zeros of type double are not almost equal, while some doubles of opposite sign and absolute
  value above 2 are, since the constant folds 32-bit patterns (`MixedSign`, `MixedSignExamples`).
* The assertions in `tsexecaction.c` on the result of a phase fail if the fixture uses anonymous
  threads while a default filament is in place (`PhaseAsExpected`, `NestedRefusedExample`).
* Empty arguments at the end hide a missing value (`MissingValueHiddenIff`, `EmptyLastArgument`).
* Below the top directory `E_ACCESSDENIED` is ignored wherever it comes from, and so is a failure to
  leave a directory that was given up for it (`SucceedsIff`, `DeniedFileExample`).

## Model

| member | source | states |
|---|---|---|
| `FilamentTables.Process.RegisterChildThread` | cfix/cfix/filament.c:87-111 | the child list grows by exactly the new thread, or stays as it is if it holds 64 |
| `FilamentTables.Process.SetDefaultFilament` | cfix/cfix/filament.c:115-140 | a second default filament is refused and the lock stays taken; everything else replaces the default filament and leaves the lock as it was |
| `FilamentTables.Process.SetTlsFilament` | cfix/cfix/filament.c:153-165 | slot and tag bit change together, for this thread only |
| `FilamentTables.Process.AdjustReferences` | cfix/cfix/filament.c:254-295 | the count of one execution context moves by one, no other |
| `FilamentTables.Process.SetCurrentFilament` | cfix/cfix/filament.c:241-342 | the mutable tables end up as the function `SetCurrent` says on each of the five ways out, with the previous filament returned on success only; the lock of the default filament stays taken on a conflict only |
| `FilamentTables.Process.GetCurrentFilament` | cfix/cfix/filament.c:167-239 | an occupied slot is returned and nothing changes; an empty one takes the default filament over as a child, or the thread is unknown |
| `FilamentTables.SetCurrentEffect` | cfix/cfix/filament.c:241-342 | for every way out: no other slot changes, only the joined filament gets the thread as a child, where the slot ends up, and by how much every reference count moves |
| `FilamentTables.SetCurrentTag` | cfix/cfix/filament.c:153-165 | on success the tag is the one asked for, a full list clears it, the other exits leave it alone, and no other thread's tag changes |
| `FilamentTables.SetCurrentStatus` | cfix/cfix/filament.c:257-320 | which way out a call takes, decided by the filament to install, the handle, the child list and the default filament |
| `FilamentTables.SetCurrentConserves` | cfix/cfix/filament.c:241-342 | counts equal holders after the call if and only if it is neither that a thread with a filament gets no handle to become a child of another one, nor that a default filament is refused to a thread without a filament of the same context |
| `FilamentTables.LeakExample` | cfix/cfix/filament.c:252-270 | a thread whose handle cannot be duplicated keeps its filament and loses its reference |
| `FilamentTables.RefusedLeakExample` | cfix/cfix/filament.c:293-319 | a default filament of another context is refused: its reference is taken although it does not become current |
| `FilamentTables.EnlistFrame` | cfix/cfix/filament.c:257-285 | registering appends the thread to at most one child list and touches neither counts nor default filament |
| `FilamentTables.InstallFrame` | cfix/cfix/filament.c:293-341 | installing takes exactly one reference and sets the slot unless the default filament conflicts |
| `FilamentTables.HoldersAfterSlotChange` | cfix/cfix/filament.c:153-165 | the set of threads that hold a filament of a context changes by the one thread whose slot changed |
| `FilamentProtocol.InitInv` | cfix/cfix/filament.c:350-362 | the invariant holds before any thread uses cfix |
| `FilamentProtocol.BeginRunKeeps` | cfix/cfix/pe.c:524-538 | setting up and installing a filament keeps the invariant, nested or not, and also when a second default filament is refused |
| `FilamentProtocol.EndRoutineKeeps` | cfix/cfix/pe.c:540-558 | so does the end of the routine |
| `FilamentProtocol.LockJoinKeeps` | cfix/cfix/filament.c:447-455 | taking the child-list lock fixes the handles to wait for, and no child is added under the wait |
| `FilamentProtocol.JoinDoneKeeps` | cfix/cfix/filament.c:451-464 | once the wait is satisfied all listed children have ended, and the invariant holds |
| `FilamentProtocol.RestoreKeeps` | cfix/cfix/pe.c:571-573 | returning to the previous filament keeps the invariant if the call succeeds or finds the child list full |
| `FilamentProtocol.DestroyKeeps` | cfix/cfix/pe.c:575-575 | destroying the filament keeps the invariant: nobody needs its address |
| `FilamentProtocol.CreateKeeps` | cfix/cfix/thread.c:126-229 | creating a child and blocking on the hand-off keeps the invariant |
| `FilamentProtocol.CopyParametersKeeps` | cfix/cfix/thread.c:60-68 | so does the copy of the Parameters block |
| `FilamentProtocol.EnlistChildKeeps` | cfix/cfix/thread.c:76-83 | so does registration of the child, whether it succeeds, finds the list full or gets no handle |
| `FilamentProtocol.InstallChildKeeps` | cfix/cfix/thread.c:76-78 | so does the rest of that call |
| `FilamentProtocol.NotifyStartKeeps` | cfix/cfix/thread.c:88-91 | so does the announcement to the execution context |
| `FilamentProtocol.SignalKeeps` | cfix/cfix/thread.c:79-93 | so does the hand-off, after success or failure |
| `FilamentProtocol.WakeKeeps` | cfix/cfix/thread.c:227-241 | so does the creator's return |
| `FilamentProtocol.FinishKeeps` | cfix/cfix/thread.c:119-123 | so does giving the slot back |
| `FilamentProtocol.ExitKeeps` | cfix/cfix/thread.c:123-124 | so does the end of the thread |
| `FilamentProtocol.AutoRegisterKeeps` | cfix/cfix/filament.c:191-236 | so does taking an anonymous thread into the default filament before the join |
| `FilamentProtocol.PastJoinUnneeded` | cfix/cfix/filament.c:439-465 | past the join of a filament no other live thread holds its address or is being started for it |
| `FilamentProtocol.StepKeeps` | cfix/cfix/pe.c:524-575 | every step of every thread keeps the invariant, except registrations that come too late and returns that slip |
| `FilamentTheorems.ReachableInv` | cfix/cfix/pe.c:524-575 | the invariant holds in every state reached without such steps |
| `FilamentTheorems.DestroyedUnused` | cfix/cfix/pe.c:560-575 | when a filament is destroyed in such a state all its children have ended, no live thread has it in its slot or will return to it, and none is being started for it |
| `FilamentTheorems.NoDanglingAddress` | cfix/cfix/filament.c:400-421 | in no such state does a live thread hold the address of a destroyed filament |
| `FilamentTheorems.ParametersAlive` | cfix/cfix/thread.c:47-98 | whoever uses a Parameters block does so while its creator is still blocked and the filament in it alive |
| `FilamentTheorems.NoTouchAfterSignal` | cfix/cfix/thread.c:93-98 | in no continuation of a run does a thread touch the block after it has signalled |
| `FilamentTheorems.CreatorLearnsOutcome` | cfix/cfix/thread.c:217-241 | when the creator goes on the result is there: a child that came up is on the list the join waits for, any other one is on its way out |
| `FilamentTheorems.FailedChildNeverRuns` | cfix/cfix/thread.c:76-83 | in no continuation does a child whose registration failed get to its own code: it only signals and ends |
| `FilamentTheorems.SignalStartsIff` | cfix/cfix/thread.c:76-105 | after the hand-off a child is in its own code if and only if it was registered and announced |
| `FilamentProgress.WaitsIff` | cfix/cfix/filament.c:439-465 | in every reachable state a thread can go on without a failing call if and only if it waits neither for a hand-off nor for the end of its children nor for a child-list lock |
| `FilamentProgress.LockTakenIff` | cfix/cfix/filament.c:447-464 | in every reachable state a child-list lock is taken if and only if some thread waits for the children of that filament |
| `FilamentProgress.UserChoices` | cfix/cfix/filament.c:191-236 | what a thread in user code may do next, and under which condition |
| `FilamentProgress.HandOffGoesOn` | cfix/cfix/thread.c:217-230 | the child that a blocked creator waits for can go on unless it waits for the lock of the filament |
| `FilamentTheorems.SlipDanglesIff` | cfix/cfix/pe.c:567-575 | after the end of a test routine an address dangles if and only if the return slipped, and then the destroyed filament is still current for its main thread |
| `FilamentTheorems.LeaveOthers` | cfix/cfix/pe.c:567-575 | slip or not, no other thread is left with the address of a destroyed filament of somebody else |
| `FilamentExamples.RefusedReturnExample` | cfix/cfix/filament.c:306-320 | a run from the first use of cfix ends with a destroyed filament that is both the current one of its thread and the default one |
| `FilamentAnonymous.AutoRegisterDanglesIff` | cfix/cfix/filament.c:196-233 | registering an anonymous thread can end with a thread on a destroyed filament of another one if and only if the main thread is past its join and the child list is not full; if no call may fail, if and only if in addition the main thread is not in the deadlock below |
| `FilamentAnonymous.LateThreadDangles` | cfix/cfix/pe.c:563-575 | in particular it does if the main thread is about to leave its outermost routine |
| `FilamentAnonymous.AutoRegisterSafeIff` | cfix/cfix/filament.c:196-233 | the same condition decides whether the invariant survives |
| `FilamentExamples.LateThreadExample` | cfix/cfix/filament.c:196-233 | a state reached from the first use of cfix in which that happens |
| `FilamentDeadlock.ReturnsIff` | cfix/cfix/filament.c:447-464 | a thread that gets its handle can return in some continuation if and only if it is not the case that it must join its previous filament again while that one is being joined |
| `FilamentExamples.DeadlockExample` | cfix/cfix/filament.c:447-464 | a state reached from the first use of cfix in which a child can never return |
| `FilamentTags.TaggedIff` | cfix/cfix/filament.c:191-236 | in every orderly run the tag of a thread is set if and only if the last step to change its slot took it into the default filament |
| `FilamentTags.TagsStep` | cfix/cfix/rptstubs.c:138-163 | the tag keeps telling the threads without exception filter until an anonymous thread comes back from a routine or a child without filament is taken into the default one, and exactly until then |
| `FilamentTags.TagsRun` | cfix/cfix/rptstubs.c:138-163 | runs without such steps keep it in all their states |
| `FilamentExamples.LostTagExample` | cfix/cfix/filament.c:425-429 | a state reached from the first use of cfix with a thread that has a filament but neither tag nor filter |
| `FilamentCounts.ReferencesConserved` | cfix/cfix/filament.c:241-342 | in every state of every run without leaking steps the references of a context are the threads whose slot holds one of its filaments |
| `FilamentCounts.StepCounts` | cfix/cfix/filament.c:241-342 | a step puts counts and holders out of step if and only if it is one of the calls of the two leaking kinds |
| `FilamentDefault.DefaultStep` | cfix/cfix/filament.c:257-332 | a step keeps the default filament alive, current and not about to be destroyed if and only if it is not a return that leaves it without revoking it: to another default filament, or to a filament joined as a child that has a full list or cannot be joined |
| `FilamentDefault.DefaultRun` | cfix/cfix/filament.c:293-332 | runs without such returns, slips and late registrations keep it in all their states |
| `FilamentDefault.NestedDefaultStranded` | cfix/cfix/filament.c:293-336 | from every state of a certain kind there is a run after which the default filament is a destroyed one |
| `FilamentExamples.RevokedReachable` | cfix/cfix/filament.c:293-305 | fourteen steps from the first use of cfix lead to such a state: a child is created, registers, and its nested routine revokes the default |
| `FilamentExamples.StrandedReachable` | cfix/cfix/filament.c:293-336 | so a state with a destroyed default filament is reached from the first use |
| `WireLayout.LayoutAligned` | cfixkern/cfixkr/drvtestadp.c:557-567 | every record is 4-aligned, every string 2-aligned |
| `WireLayout.LayoutNested` | cfixkern/cfixkr/drvtestadp.c:557-644 | records and strings lie in two disjoint areas inside the buffer, each behind the previous one |
| `WireLayout.OffsetsStep` | cfixkern/cfixkr/drvtestadp.c:600-640 | consecutive fixtures occupy consecutive ranges, and the last one ends with its area |
| `WireWriter.StringCbLength` | cfixkern/cfixkr/drvtestadp.c:413-420 | names of up to 62 characters are measured, longer ones refused |
| `WireWriter.AddEntryNames` | cfixkern/cfixkr/drvtestadp.c:410-424 | the sum of the name lengths modulo 2^32, or failure if and only if a name is too long |
| `WireWriter.ThroughModule` | cfixkern/cfixkr/drvtestadp.c:389-391 | the size macro with index n - 1 gives the header alone for n = 0 |
| `WireWriter.ThroughFixture` | cfixkern/cfixkr/drvtestadp.c:402-404 | the same for a fixture without entries |
| `WireWriter.CalculateBufferSize` | cfixkern/cfixkr/drvtestadp.c:370-431 | both areas' sizes modulo 2^32, for any adapter, or failure if and only if a name is too long |
| `WireWriter.WriteFixture` | cfixkern/cfixkr/drvtestadp.c:591-641 | writes one fixture with its strings between the two cursors and nothing else, and moves the cursors to the next one |
| `WireWriter.QueryModule` | cfixkern/cfixkr/drvtestadp.c:515-647 | the status in each case; on success the buffer describes the whole adapter, bytes behind it are untouched and both cursors are at their ends; otherwise the buffer is unchanged |
| `WireReader.CountTests` | cfixkern/cfixkl/module.c:183-191 | the number of test cases and of characters to reserve |
| `WireReader.FixtureRecord.StoreTest` | cfixkern/cfixkl/module.c:251-278 | a test case is added with its own copy of the name, earlier names stay intact |
| `WireReader.StoreRoutine` | cfixkern/cfixkl/module.c:280-346 | a special routine is tagged, or reported as a duplicate or as an invalid response |
| `WireReader.TagBits` | cfixkern/cfixkl/module.c:36-36 | the presence bit is bit 31 and the key is in the low 16 bits |
| `WireReader.CreateFixture` | cfixkern/cfixkl/module.c:153-372 | the fixture shows what the bytes decode to, or the same error; both final assertions hold |
| `WireRoundTrip.InitializeModule` | cfixkern/cfixkl/module.c:442-458 | all fixtures of the response in order, or the error of the first that cannot be rebuilt |
| `WireRoundTrip.FixtureRoundTrip` | cfixkern/cfixkl/module.c:153-372 | what is read at the offset of a fixture is that fixture |
| `WireRoundTrip.ModuleRoundTrip` | cfixkern/cfixkr/drvtestadp.c:515-647 | any buffer that describes an adapter can be read within its bounds and yields its fixtures |
| `WireRoundTrip.DescriptionExample` | include/cfixkrio.h:65-111 | the forty bytes of a fixture with one test case |
| `WireRoundTrip.LongNameRefused` | cfixkern/cfixkl/module.c:212-232 | the buffer of a name overflows if and only if it has more than 127 characters |
| `WireRoundTrip.ExpectedShape` | cfixkern/cfixkl/module.c:241-353 | a fixture is accepted if and only if all types are known and only test cases repeat; it then has the names, the test order and the special routines of its definition |
| `Loaders.UnmangleInPlace` | cfix/cfix/pe.c:58-75 | the C string is cut at the first at-sign, in place |
| `Loaders.UnicodeString.Unmangle` | cfixkern/cfixkr/drvtestadp.c:93-111 | the counted string is cut at the same place by its length alone |
| `Loaders.UnmangledAt` | cfix/cfix/pe.c:58-75 | a name is cut exactly if it contains an at-sign, and before the first one |
| `Loaders.PeRecord.Add` | cfix/cfix/pe.c:178-246 | one entry fills its slot, is appended as a test case, or is reported |
| `Loaders.CreatePeFixture` | cfix/cfix/pe.c:77-262 | the fixture a definition amounts to, or the first error in the order in which the code looks for them |
| `Loaders.LoadFixtures` | cfix/cfix/pe.c:332-405 | the fixtures of all exports in order, or the error of the first that fails |
| `Loaders.RegisterFixture` | cfixkern/cfixkr/drvtestadp.c:113-184 | what the driver keeps of an export, or its refusal |
| `Loaders.RegisterFixtures` | cfixkern/cfixkr/drvtestadp.c:228-292 | the adapter of all exports in order, or the first refusal |
| `Loaders.DirectAccepts` | cfix/cfix/pe.c:176-247 | user mode accepts a definition if and only if all types are known and no non-null special routine is followed by another of its type |
| `LoaderPhases.DirectPhases` | include/cfixpe.h:273-281 | in every accepted definition Setup, Teardown, Before and After call the non-null routine of the entry of type 1, 2, 4 and 5, or none |
| `LoaderPhases.DirectTests` | cfix/cfix/pe.c:232-240 | its test cases are the entries of type 3, in order, with their names and routines |
| `LoaderPhases.DriverPhases` | cfixkern/cfixkl/module.c:241-353 | the same for the phases of every fixture that the kernel-mode pipeline rebuilds |
| `LoaderPhases.DriverTests` | cfixkern/cfixkl/module.c:251-278 | and for its test cases |
| `LoaderPhases.DirectErrors` | cfix/cfix/pe.c:180-246 | the type of the entry at which user mode gives up decides the error |
| `LoaderPhases.DriverErrors` | cfixkern/cfixkl/module.c:280-346 | the same for the kernel-mode pipeline |
| `LoaderPhases.LoadAcceptsIff` | cfix/cfix/pe.c:98-176 | which exports user mode accepts: API type 1 to 4, revision 0, at most the flag for anonymous threads, a name of at most 127 characters, entries in order |
| `LoaderPhases.LoadRefuses` | cfix/cfix/pe.c:98-176 | which of these conditions is reported |
| `LoaderPhases.RegisterAcceptsIff` | cfixkern/cfixkr/drvtestadp.c:113-184 | which exports the driver registers, and as what |
| `Loaders.DriverAcceptsLess` | cfixkern/cfixkl/module.c:241-353 | whatever the kernel-mode pipeline accepts, user mode accepts |
| `Loaders.EntriesAgree` | cfix/cfix/pe.c:176-247 | entry by entry both loaders build matching fixtures or fail with the same error |
| `Loaders.MatchingFixturesAgree` | cfixkern/cfixkr/drvtestadp.c:485-513 | in every phase the keys sent for a matching fixture select exactly the routine user mode calls, or both call none |
| `Loaders.PresentAgrees` | cfixkern/cfixkl/module.c:612-624 | testing the whole tag and testing the presence bit come to the same, and the low 16 bits are the key |
| `Loaders.RejectionsAgreeIff` | cfixkern/cfixkl/module.c:241-353 | if user mode rejects a definition kernel mode gives up no later, and the errors are the same if and only if both give up at entries of the same type |
| `Loaders.LoadersAgreeIff` | cfix/cfix/pe.c:176-247 | for every definition: if all types are known and no non-null special routine is followed by another of its type, both loaders agree if and only if no special routine is null, otherwise if and only if both give up at entries of the same type |
| `Loaders.NullSetupExample` | cfix/cfix/pe.c:180-190 | null Setup followed by Setup: accepted here, a duplicate there |
| `Loaders.RejectedDifferentlyExample` | cfix/cfix/pe.c:180-245 | two null Setups and an unknown type: an unknown type here, a duplicate there |
| `Loaders.LoadersAgree` | cfixkern/cfixkl/module.c:382-484 | from the exports of an image over the wire and back: the rebuilt fixtures and the directly loaded ones have the same names and tests and call the same routines, and errors are the same |
| `Execution.Context.RunTestCase` | cfix/cfix/tsexecaction.c:141-209 | the calls for one test case and the failure that counts when several fail |
| `Execution.Context.RunSelected` | cfix/cfix/tsexecaction.c:321-396 | the effect of one test case on Hr, on the short circuit and on the calls, for all flags |
| `Execution.Context.RunTests` | cfix/cfix/tsexecaction.c:306-397 | the loop over the test cases |
| `Execution.Context.Run` | cfix/cfix/tsexecaction.c:211-437 | calls and result of a fixture action, for any outcomes, flags and selection |
| `Execution.Context.RunAll` | cfix/cfix/sequenceaction.c:205-226 | calls and result of a sequence of fixture actions |
| `Execution.SequenceStays` | cfix/cfix/sequenceaction.c:208-215 | after the first failure nothing else is run |
| `ExecutionFlags.ResultIsLastSevere` | cfix/cfix/tsexecaction.c:192-434 | a run returns the result of its last severe call: of the first failing call of its last test case, or of Teardown if failures are escalated |
| `ExecutionFlags.SevereHalts` | cfix/cfix/tsexecaction.c:306-437 | after a severe call neither a test case nor a fixture is started |
| `ExecutionFlags.AbortEndsRun` | cfix/cfix/tsexecaction.c:370-376 | whatever the flags, an abort by Before, by a test case, or by After of a test case that has not failed makes the run fail, and nothing is started after it |
| `ExecutionFlags.CutHalts` | cfix/cfix/tsexecaction.c:306-376 | the call that ends the loop over the test cases is followed by no other test case |
| `ExecutionGrammar.FixtureGrammar` | cfix/cfix/tsexecaction.c:211-437 | a fixture action keeps the documented order and is cut off if and only if a call was deadly |
| `ExecutionGrammar.SequenceGrammar` | include/cfixevnt.h:55-85 | every run of a sequence keeps the documented order; its last fixture is finished if and only if no call was deadly; a run that succeeds has run all fixtures |
| `ExecutionGrammar.Completable` | include/cfixevnt.h:59-82 | the calls of a run that was cut off are always the beginning of a complete word of the grammar |
| `ExecutionGrammar.LeftOutIff` | cfix/cfix/tsexecaction.c:141-437 | without deadly calls, for every fixture and test case: Test and After are called if and only if Before succeeds, Before if and only if BeforeTestCaseStart does, Teardown if and only if Setup does |
| `ExecutionFlags.FailsIff` | cfix/cfix/tsexecaction.c:264-436 | for any flags a run fails if and only if a call was made that is severe under them |
| `ExecutionFlags.RunOnFailureIff` | include/cfixapi.h:560-568 | under SHORTCIRCUIT_RUN_ON_FAILURE a run fails if and only if any routine or callback called failed |
| `ExecutionFlags.NoLaterFixture` | cfix/cfix/sequenceaction.c:208-215 | once an action has failed no call is made for a later fixture |
| `ExecutionFlags.ShortFixturePrefix` | cfix/cfix/tsexecaction.c:348-376 | with SHORTCIRCUIT_FIXTURE_ON_FAILURE the calls for test cases are a prefix of those without it, and the same as long as nothing cuts the loop |
| `ExecutionFlags.RanToCompletionIff` | cfix/cfix/tsexecaction.c:399-434 | completion is reported if and only if Setup and Teardown succeeded and no call cut the loop |
| `ExecutionFlags.StartsSelected` | cfix/cfix/tsexecaction.c:306-329 | only test cases that TestCaseIndex selects are started, all if it is -1, and all of them unless the loop is cut |
| `ExecutionTrees.NestingIsTransparent` | cfix/cfix/sequenceaction.c:205-215 | a tree of sequences makes the calls and has the result of its fixtures in one flat sequence |
| `EventLabels.EventEmittingProxy.BeforeFixture` | cfix/cfix/eventemitter.c:135-157 | the proxy remembers the fixture and forgets that a test case has begun, but not the current one |
| `EventLabels.EventEmittingProxy.BeforeTestCase` | cfix/cfix/eventemitter.c:159-182 | the proxy remembers the test case |
| `EventLabels.EventEmittingProxy.AfterTestCase` | cfix/cfix/eventemitter.c:214-239 | the proxy forgets the test case |
| `EventLabels.EventEmittingProxy.AfterFixture` | cfix/cfix/eventemitter.c:187-211 | the proxy forgets the fixture only |
| `EventLabels.EventEmittingProxy.ReportEvent` | cfix/cfix/eventemitter.c:88-133 | the fixture and the label passed to the sink |
| `EventLabels.LabelsExact` | cfix/cfix/eventemitter.c:88-239 | in every run of a sequence the fixture is right, hence never null, and the label is that of the phase if and only if it is not a Teardown without a started test case or after a refused one |
| `EventLabels.NoFixtureBetween` | cfix/cfix/eventemitter.c:187-211 | before a fixture starts the proxy has none |
| `EventLabels.MislabelledTeardownExamples` | cfix/cfix/eventemitter.c:101-119 | a run of each kind |
| `TestStorage.MainThread.SetValue` | cfix/cfix/tls.c:35-65 | exactly the tagged slot of the current filament changes; other tags, and calls without a filament, are ignored |
| `TestStorage.MainThread.GetValue` | cfix/cfix/tls.c:67-95 | the tagged slot, or null for other tags and without a filament |
| `TestStorage.MainThread.CreateFilament` | cfix/cfix/filament.c:374-398 | a new filament starts with the saved storage or empty |
| `TestStorage.MainThread.DestroyFilament` | cfix/cfix/filament.c:400-421 | its storage is saved |
| `TestStorage.MainThread.RunTestRoutine` | cfix/cfix/pe.c:482-589 | the saved storage afterwards is what the routine itself left, whatever nested routines did |
| `TestStorage.MainThread.RunPhase` | cfix/cfix/pe.c:591-780 | result and storage of the five wrappers, with missing routines and refused filaments |
| `TestStorage.PhaseFailsIff` | cfix/cfix/pe.c:577-589 | a phase whose routine is run fails if and only if the routine does not return normally, with an abort passed on and the code of the phase otherwise |
| `TestStorage.PhaseNotRun` | cfix/cfix/pe.c:591-610 | a missing routine fails a test case only, a refused filament fails every phase with its reason |
| `TestStorage.RunFailsIff` | include/cfixapi.h:560-568 | under SHORTCIRCUIT_RUN_ON_FAILURE a run in which nothing else can fail fails if and only if some routine called does not return normally |
| `TestStorage.FailuresGoOn` | cfix/cfix/tsexecaction.c:340-366 | without flags a run with ordinary failures only succeeds and runs all its fixtures |
| `TestStorage.ReadsLastStored` | cfix/cfix/tls.c:35-95 | reading a tag gives what was stored under it last; storing leaves the other slot alone; unknown tags cannot be stored |
| `TestStorage.NextReadSees` | cfix/cfix/tls.c:67-95 | within a routine the next read sees the last value, whatever is stored under other tags and by nested routines in between |
| `TestStorage.StorageVisibility` | cfix/cfix/pe.c:591-780 | in every run, whatever was stored before and whatever all other routines do: Setup, Before and Teardown start empty, a test case with what the body of Before makes of empty storage, After with what the body of the test case makes of that |
| `TestStorage.HiddenIffBefore` | cfix/cfix/pe.c:716-726 | in every run, among all routines with the results of that run, the storage a test case starts with is independent of all but its Before if and only if there is a Before routine |
| `TestStorage.SetupLeftoverExample` | cfix/cfix/pe.c:716-726 | a run of a fixture without Before whose test case sees what Setup left |
| `TestStorage.Replay` | cfix/cfix/pe.c:482-780 | running the routines of a whole trace one after the other gives exactly these storages and results |
| `TestStorage.InstallRefusedIff` | cfix/cfix/filament.c:306-320 | a main thread gets no filament if and only if the fixture uses anonymous threads while a default filament is in place |
| `TestStorage.PhaseAsExpected` | cfix/cfix/tsexecaction.c:158-190 | the result of a phase is one the assertions allow if and only if a test case has a routine and it is not the case that the fixture uses anonymous threads while a default filament is in place |
| `TestStorage.NestedRefusedExample` | cfix/cfix/tsexecaction.c:158-160 | such a fixture run from a routine of another one, and the code it gets |
| `TestStorage.ExpectedRunsComplete` | cfix/cfix/tsexecaction.c:260-397 | with such results every run that is not refused by BeforeFixtureStart finishes its fixtures |
| `SequenceList.InsertTailList` | cfix/cfix/list.h:47-58 | the ring with the entry behind the last one |
| `SequenceList.RemoveEntryList` | cfix/cfix/list.h:93-105 | the ring without the entry, and whether at most the other one is left |
| `SequenceList.SequenceAction.constructor` | cfix/cfix/sequenceaction.c:255-265 | an empty ring |
| `SequenceList.SequenceAction.AddEntry` | cfix/cfix/sequenceaction.c:279-321 | the list represents the members in order of insertion, Count is their number, the new one has one reference more |
| `SequenceList.SequenceAction.Collect` | cfix/cfix/sequenceaction.c:148-198 | the snapshot is the list of members, each referenced once per occurrence |
| `SequenceList.SequenceAction.Run` | cfix/cfix/sequenceaction.c:124-227 | exactly the members present at the start are run, up to the first failure, even if members are added meanwhile; apart from those additions all reference counts are as before |
| `SequenceList.ExecutedUpToFailure` | cfix/cfix/sequenceaction.c:208-215 | all members run before the last one succeeded, and if any is left the last one failed |
| `SequenceList.SequenceAction.Delete` | cfix/cfix/sequenceaction.c:66-91 | every entry is freed once and none read afterwards; every member loses one reference per occurrence |
| `Formatter.CompareString` | cdiag/cdiag/formatstr.c:32-52 | equality means that the name is a prefix up to case; with length zero the comparison never succeeds at a place where no name starts |
| `Formatter.GetBindingIndex` | cdiag/cdiag/formatstr.c:59-82 | the first variable that matches |
| `Formatter.LookupIff` | cdiag/cdiag/formatstr.c:59-82 | variable k is found if and only if its name begins with the characters up to case and that of no earlier one does |
| `Formatter.HandleVariable` | cdiag/cdiag/formatstr.c:91-138 | its value is appended, or the call fails if and only if it does not fit; the rest of the buffer stays |
| `Formatter.ScanChar` | cdiag/cdiag/formatstr.c:180-247 | one character of the template advances the scanner as specified, the stale pointer included |
| `Formatter.StaleFindsNone` | cdiag/cdiag/formatstr.c:189-215 | the pointer left behind by a double percent sign never finds a variable |
| `Formatter.ScannerRenders` | cdiag/cdiag/formatstr.c:180-265 | what the scanner writes is the rendering of the grammar, for every template and table |
| `Formatter.RenderPieces` | cdiag/cdiag/formatstr.c:180-265 | text renders to itself, a double percent sign to one, a variable to its value, in any combination |
| `Formatter.EscapedRenders` | cdiag/cdiag/formatstr.c:189-197 | doubling the percent signs of any text makes a template that renders to the text |
| `Formatter.FormatString` | cdiag/cdiag/formatstr.c:143-275 | on success the buffer holds the terminated rendering; success if and only if the size exceeds the rendering and the output before the last template character by the stated amounts, so that rendering plus two always suffices; nothing behind the buffer is written |
| `Ulp.KeyOrder` | include/cfixcc.h:190-200 | the folded pattern orders floats like their values, and both zeros share a key (section 3.4 of IEEE 754-2008) |
| `Ulp.EveryKeyIsUsed` | include/cfixcc.h:190-200 | every key between the infinities belongs to a float, so key distances count floats |
| `Ulp.RelateFloatsIff` | include/cfixcc.h:216-224 | two floats are related if and only if they are at most ten apart, counted over both signs with one zero |
| `Ulp.FloatExamples` | include/cfixcc.h:190-190 | the patterns of 1 and 2 and of all subnormal numbers have their values |
| `Ulp.ScaledStrict` | include/cfixcc.h:175-179 | larger patterns stand for larger absolute values, across subnormal and normal numbers |
| `Ulp.WrapIsHarmless` | include/cfixcc.h:181-203 | for every bound below 2^24 the wrapped comparison of two numbers decides their true distance |
| `Ulp.BoundIsSharp` | include/cfixcc.h:202-202 | with 2^24 the two infinities compare equal |
| `Ulp.Symmetric` | include/cfixcc.h:181-203 | the comparison is symmetric |
| `Ulp.RelatedIsConvex` | include/cfixcc.h:216-224 | numbers between two related ones are related to both |
| `Ulp.SameSign` | include/cfixcc.h:226-234 | doubles of the same sign are compared by their true distance |
| `Ulp.MixedSign` | include/cfixcc.h:193-202 | doubles of different sign compare equal if and only if their magnitudes add up to 2^31 or to almost 2^63 + 2^31 |
| `Ulp.RelateDoublesIff` | include/cfixcc.h:226-234 | the same for doubles, with the sums that mixed signs relate |
| `Ulp.MixedSignExamples` | include/cfixcc.h:193-202 | both kinds of surprise, concretely |
| `PeImage.PtrFromVa` | cfix/cfix/pequery.c:28-57 | the file position in the first section that covers the address |
| `PeImage.ResolveIff` | cfix/cfix/pequery.c:28-57 | that section is the first whose range of virtual addresses contains the address |
| `PeImage.ResolveReads` | cfix/cfix/pequery.c:28-57 | bytes that the loader takes from the file are found at that position |
| `PeImage.QueryExports` | cfix/cfix/pequery.c:133-179 | reading the file only, the query finds a fixture export if and only if the loaded image has a matching name |
| `PeImage.ExportPrefixes` | cfix/cfix/pe.c:787-820 | the prefixes byte by byte, with one more underscore for 32-bit images |
| `PeImage.DirectoryRead` | cfix/cfix/pequery.c:127-149 | a directory laid out as in the PE format is read back |
| `PeImage.FunctionIndexIs` | cfix/cfix/pe.c:346-354 | the index is the ordinal if and only if base and ordinal fit a WORD or wrap a DWORD |
| `PeImage.WalkExports` | cfix/cfix/pe.c:330-401 | the exports that become fixtures, in order |
| `PeImage.FixtureExportsAre` | cfix/cfix/pe.c:351-399 | they are exactly those with a matching name that are not forwarders |
| `PeImage.WalkedIff` | cfix/cfix/pe.c:336-367 | in terms of the tables: the name has the prefix and the function at its ordinal lies outside the export directory |
| `PeImage.FixtureExportsOrdered` | cfix/cfix/pe.c:332-399 | in the order of the table, each once |
| `PeImage.QueryAgreesWithWalk` | cfix/cfix/pequery.c:156-179 | the query finds a fixture export if and only if the walk finds one or a matching export is a forwarder |
| `CommandLine.OptionsRecord.ParseOne` | cfix/cfixrun/cmdline.c:88-269 | the effect of one argument in each state |
| `CommandLine.OptionsRecord.ParseCommandLine` | cfix/cfixrun/cmdline.c:60-297 | the options a command line stands for, or the first error, with the checks for -exe |
| `CommandLine.PrintedIsParsed` | cfix/cfixrun/cmdline.c:88-269 | whatever is printed is read back, with either flag character, ignored pairs and empty arguments |
| `CommandLine.RoundTrip` | cfix/cfixrun/cmdline.c:60-297 | printing admissible options in any order and parsing the result returns them |
| `CommandLine.LastIsAlwaysTheFile` | cfix/cfixrun/cmdline.c:96-111 | in every command line that is accepted the last argument is the input file, whatever it looks like, unless it is empty; then there is none |
| `CommandLine.PendingIff` | cfix/cfixrun/cmdline.c:88-269 | a value is pending if and only if only empty arguments follow a flag that needs one |
| `CommandLine.MissingValueHiddenIff` | cfix/cfixrun/cmdline.c:90-108 | a command line is accepted with a value missing if and only if it ends with such a flag followed by empty arguments, what precedes the flag is in order and -exe is not given; the options are those before the flag |
| `CommandLine.EmptyLastArgument` | cfix/cfixrun/cmdline.c:90-94 | the shortest such command line |
| `CommandErrors.FitsIff` | cfix/cfixrun/cmdline.c:88-269 | the arguments are accepted if and only if each fits where it stands |
| `CommandErrors.MisfitRefused` | cfix/cfixrun/cmdline.c:96-268 | otherwise the first one that does not is reported as a missing value, an unknown flag or an unexpected value |
| `CommandErrors.ExeRefusals` | cfix/cfixrun/cmdline.c:271-297 | a command line whose arguments fit is refused only with -exe, and for which reason |
| `CommandErrors.AcceptedMeans` | cfix/cfixrun/cmdline.c:88-269 | the switches given, the last value of every field and the last argument are the options |
| `CommandErrors.FlagNames` | cfix/cfixrun/cmdline.c:129-249 | exactly these names are flags, and exactly these take a value |
| `Search.Visitor.VisitEntry` | cfix/cfixutil/search.c:133-176 | the effect of one directory entry |
| `Search.Visitor.TraverseDirectory` | cfix/cfixutil/search.c:114-189 | calls and result of a traversal for any tree and any answers of the visitor |
| `Search.SearchNests` | cfix/cfixutil/search.c:128-185 | whatever fails, every directory entered is left exactly once, properly nested |
| `Search.EveryFileOnce` | cfix/cfixutil/search.c:128-189 | no file is visited twice and nothing but files is visited; without errors every file searched for is visited exactly once and the search succeeds |
| `SearchFailures.SucceedsIff` | cfix/cfixutil/search.c:114-189 | for any tree and any visitor the search succeeds if and only if every call that failed is lost: overwritten, or below the top directory and either a denial of access or the Leave of a directory given up for one |
| `SearchCodes.ResultIsFirstCounting` | cfix/cfixutil/search.c:114-189 | the search returns the result of the first call that fails without being lost, and success if there is none |
| `SearchFailures.NothingLost` | cfix/cfixutil/search.c:128-189 | if all directories can be searched, all paths fit and the visitor never denies access, the search fails if and only if the visitor failed |
| `SearchFailures.DeniedFileExample` | cfix/cfixutil/search.c:157-184 | a denied file in a subdirectory, and a different failure to leave that directory: the search succeeds |

## Left out

- Windows itself: threads, locks, events, TLS, SEH, files, the registry, IOCTL transport, allocation. They are atomic steps or parameters; allocation never fails.
- Liveness. That a join ends is not claimed: only what each thread waits for (`WaitsIff`), what holds when a join ends, and `ReturnsIff` for one way in which it never does.
- The lock of the default filament stays taken after a conflict (`SetDefaultFilament` says so). Runs do not wait for it: the transition system lets other threads go on after a conflict, which only adds behaviour, and none of the example runs goes on after one.
- FilamentProtocol.RestoreKeeps: returning to the previous filament, with the release of the reference, registration and revocation of the default, is one step, taken where the child-list lock is acquired if the call needs it. Returns that slip break the invariant; `SlipDanglesIff` says exactly what they leave behind. Threads end by returning.
- FilamentProtocol.CreateKeeps: not the exits of `CfixCreateThread2` on which no thread is created (no filament, event, callback or thread); they touch nothing shared.
- Filaments are numbered and a number is not used twice, so the reuse of a stack address after destruction is not modelled.
- FilamentTheorems.DestroyedUnused: runs without late registrations and slips, and so are NoDanglingAddress and DefaultRun; `AutoRegisterDanglesIff` and `SlipDanglesIff` say exactly what happens at such a step.
- FilamentCounts.ReferencesConserved: runs without the two leaking exits, which are exactly the steps that `StepCounts` names.
- An anonymous thread for which `DuplicateHandle` fails stays unknown and changes nothing; this is not a step of its own.
- WireWriter.QueryModule: at most 65535 fixtures and entries and a total below 2^32. With more, the USHORT loop counters of the C code never reach the end or the sizes wrap.
- The writer checks the name lengths in its first pass; the second check of the same immutable names is not repeated. The two padding bytes of a fixture record are unspecified.
- The reader trusts the offsets of the response, as the C code does. Responses that point outside themselves are excluded.
- Loaders.LoadersAgree: entry types below 65536; the USHORT of the wire format cuts off larger ones.
- ANSI fixture names are taken to convert to one UTF-16 unit per byte. Entry names are not null.
- Success codes other than S_OK are not told apart, and neither are the causes of a fatal error in the control flow.
- Events raised by child threads after their routine, and the sink's own behaviour.
- Kernel-mode storage (module.c keeps one TLS value per fixture run) and stack trace flags.
- Formatter.FormatString: takes the output of `_snwprintf` and the classes of characters as given. Variable names are non-empty and alphanumeric, on which the C code relies: an empty name would match at the end of the template.
- Comparing a float with a double, and NaN operands.
- Image headers: the section table and the export entry of the data directory are inputs, and the sizes in them do not wrap. An image without export directory is not compared.
- The messages of the command-line parser, and reading a null input file with -exe, which the model reports as an error of its own.
- Converting and combining paths; a path that becomes too long is an input of the directory search.
- cfixkr's connection registry, the registry store, statistics, message lookup, C++ test classes and the remaining actions would add thin state only.
