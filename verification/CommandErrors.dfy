/** Which command lines are refused and why, and what the accepted ones mean, argument by argument. */
module CommandErrors {
  import opened Prelude
  import opened CommandLine

  /* ---------------------------------------------------------------- the flags */

  // The names of the flags that take a value, and of those that do not
  predicate ValueName(name: string) { name in {"n", "p", "out", "log", "eventdll", "eventdlloptions"} }

  predicate SwitchName(name: string)
  {
    name in {"r", "f", "u", "b", "d", "z", "y", "Y", "kern", "exe", "fsf", "fsr", "fss", "nologo", "ts", "td"}
  }

  lemma FlagNames(name: string)
    ensures FlagOf(name) == None <==> !ValueName(name) && !SwitchName(name)
    ensures FlagOf(name).Some? ==> (FlagOf(name).value.Takes? <==> ValueName(name))
  {
  }

  // The field that each of them sets
  lemma SearchSwitches()
    ensures FlagOf("r") == Some(Sets(RecursiveSearch)) && FlagOf("kern") == Some(Sets(EnableKernelFeatures))
    ensures FlagOf("exe") == Some(Sets(Exe)) && FlagOf("d") == Some(Sets(DisplayOnly))
  {
  }

  lemma FailureSwitches()
    ensures FlagOf("f") == Some(Sets(AbortOnFirstFailure)) && FlagOf("fsf") == Some(Sets(ShortCircuitFixtureOnFailure))
    ensures FlagOf("fsr") == Some(Sets(ShortCircuitRunOnFailure))
    ensures FlagOf("fss") == Some(Sets(ShortCircuitRunOnSetupFailure))
  {
  }

  lemma DebugSwitches()
    ensures FlagOf("u") == Some(Sets(DoNotCatchUnhandledExceptions)) && FlagOf("b") == Some(Sets(AlwaysBreakOnFailure))
    ensures FlagOf("y") == Some(Sets(PauseAtEnd)) && FlagOf("Y") == Some(Sets(PauseAtBeginning))
  {
  }

  lemma OutputSwitches()
    ensures FlagOf("z") == Some(Sets(Summary)) && FlagOf("nologo") == Some(Sets(NoLogo))
    ensures FlagOf("ts") == Some(Sets(OmitSourceInfo)) && FlagOf("td") == Some(Sets(DisableStackTraces))
  {
  }

  lemma ValueTable()
    ensures FlagOf("n") == Some(Takes(Fixture)) && FlagOf("p") == Some(Takes(FixturePrefix))
    ensures FlagOf("eventdll") == Some(Takes(EventDll)) && FlagOf("eventdlloptions") == Some(Takes(EventDllOptions))
    ensures FlagOf("out") == FlagOf("log") == Some(Takes(Trash))
  {
  }

  /* ---------------------------------------------------------------- the first phase */

  // What may stand at position `k`: a flag or the last argument if no value is expected there, a value
  // if one is; empty arguments anywhere.
  ghost predicate Fits(args: seq<string>, k: nat)
    requires k < |args|
  {
    || args[k] == ""
    || (k == |args| - 1 && !AnyDangling(args, k))
    || (&& k < |args| - 1 && IsFlag(args[k]) && !AnyDangling(args, k)
        && (ValueName(args[k][1..]) || SwitchName(args[k][1..])))
    || (k < |args| - 1 && !IsFlag(args[k]) && AnyDangling(args, k))
  }

  // Why something else is refused there
  ghost function Reason(args: seq<string>, k: nat): Error
    requires k < |args|
  {
    if AnyDangling(args, k) then MissingValue
    else if IsFlag(args[k]) then UnknownFlag
    else UnexpectedValue
  }

  lemma OneFits(args: seq<string>, n: nat)
    requires n < |args| && ParseTo(args, n).Ok?
    ensures ParseTo(args, n + 1).Ok? <==> Fits(args, n)
    ensures !Fits(args, n) ==> ParseTo(args, n + 1) == Err(Reason(args, n))
  {
    PendingIff(args, n);
    assert ParseTo(args, n + 1) == ParseArg(ParseTo(args, n).value, args[n], n + 1 == |args|);
    if IsFlag(args[n]) {
      FlagNames(args[n][1..]);
    }
  }

  // The arguments are accepted if and only if each of them fits; otherwise the first one that does not
  // is the reason.
  lemma {:induction false} FitsIff(args: seq<string>, n: nat)
    requires n <= |args|
    ensures ParseTo(args, n).Ok? <==> forall k :: 0 <= k < n ==> Fits(args, k)
    ensures forall k :: 0 <= k < n && !Fits(args, k) && (forall j :: 0 <= j < k ==> Fits(args, j)) ==>
              ParseTo(args, n) == Err(Reason(args, k))
  {
    if n > 0 {
      FitsIff(args, n - 1);
      if ParseTo(args, n - 1).Ok? {
        OneFits(args, n - 1);
      }
    }
  }

  /* ---------------------------------------------------------------- the fields */

  // The switch is given among the first `n` arguments.
  ghost predicate Given(args: seq<string>, n: nat, s: Switch)
    requires n <= |args|
  {
    exists k :: 0 <= k < n && k < |args| - 1 && IsFlag(args[k]) && FlagOf(args[k][1..]) == Some(Sets(s))
  }

  lemma GivenStep(args: seq<string>, n: nat, s: Switch)
    requires n < |args|
    ensures Given(args, n + 1, s) <==>
              || Given(args, n, s)
              || (n < |args| - 1 && IsFlag(args[n]) && FlagOf(args[n][1..]) == Some(Sets(s)))
  {
  }

  // Exactly the switches that are given are set.
  lemma {:induction false} SwitchesAre(args: seq<string>, n: nat, s: Switch)
    requires n <= |args| && ParseTo(args, n).Ok?
    ensures s in ParseTo(args, n).value.options.switches <==> Given(args, n, s)
  {
    if n > 0 {
      SwitchesAre(args, n - 1, s);
      GivenStep(args, n - 1, s);
      assert ParseTo(args, n) == ParseArg(ParseTo(args, n - 1).value, args[n - 1], n == |args|);
    }
  }

  // The value that is expected next is for `slot`.
  ghost predicate Awaits(args: seq<string>, n: nat, slot: Slot)
    requires n <= |args|
  {
    exists k: nat :: Dangling(args, k, n) && FlagOf(args[k][1..]) == Some(Takes(slot))
  }

  lemma AwaitsEmpty(args: seq<string>, n: nat, slot: Slot)
    requires n < |args| && args[n] == ""
    ensures Awaits(args, n + 1, slot) <==> Awaits(args, n, slot)
  {
    forall k: nat
      ensures Dangling(args, k, n + 1) <==> Dangling(args, k, n)
    {
      DanglingEmpty(args, k, n);
    }
  }

  lemma AwaitsFlag(args: seq<string>, n: nat, slot: Slot)
    requires n < |args| - 1 && args[n] != ""
    ensures Awaits(args, n + 1, slot) <==> IsFlag(args[n]) && FlagOf(args[n][1..]) == Some(Takes(slot))
  {
    if IsFlag(args[n]) && FlagOf(args[n][1..]) == Some(Takes(slot)) {
      assert Dangling(args, n, n + 1);
    }
  }

  lemma {:induction false} AwaitsIff(args: seq<string>, n: nat, slot: Slot)
    requires n < |args| && ParseTo(args, n).Ok?
    ensures ParseTo(args, n).value.pending == Some(slot) <==> Awaits(args, n, slot)
  {
    if n > 0 {
      AwaitsIff(args, n - 1, slot);
      assert ParseTo(args, n) == ParseArg(ParseTo(args, n - 1).value, args[n - 1], false);
      if args[n - 1] == "" {
        AwaitsEmpty(args, n - 1, slot);
      } else {
        AwaitsFlag(args, n - 1, slot);
      }
    }
  }

  // Argument `k` is a value for `slot`.
  ghost predicate Fills(args: seq<string>, k: nat, slot: Slot)
  {
    k < |args| - 1 && args[k] != "" && !IsFlag(args[k]) && Awaits(args, k, slot)
  }

  // Of the first `n` arguments number `k` is the last value for `slot`.
  ghost predicate LastFill(args: seq<string>, k: nat, n: nat, slot: Slot)
    requires n <= |args|
  {
    k < n && Fills(args, k, slot) && forall j :: k < j < n ==> !Fills(args, j, slot)
  }

  lemma LastFillStep(args: seq<string>, k: nat, n: nat, slot: Slot)
    requires n < |args|
    ensures LastFill(args, k, n + 1, slot) <==> if Fills(args, n, slot) then k == n else LastFill(args, k, n, slot)
  {
  }

  ghost predicate LastValue(args: seq<string>, n: nat, slot: Slot, v: string)
    requires n <= |args|
  {
    exists k: nat :: LastFill(args, k, n, slot) && args[k] == v
  }

  lemma LastValueStep(args: seq<string>, n: nat, slot: Slot, v: string)
    requires n < |args|
    ensures LastValue(args, n + 1, slot, v) <==>
              if Fills(args, n, slot) then args[n] == v else LastValue(args, n, slot, v)
  {
    var n' := n + 1;
    forall k: nat
      ensures LastFill(args, k, n', slot) <==> if Fills(args, n, slot) then k == n else LastFill(args, k, n, slot)
    {
      LastFillStep(args, k, n, slot);
    }
  }

  ghost predicate Holds(o: Options, slot: Slot, v: string)
  {
    slot in o.values && o.values[slot] == v
  }

  // A field holds the last value that is given for it; the values of ignored flags are not kept.
  lemma {:induction false} ValuesAre(args: seq<string>, n: nat, slot: Slot, v: string)
    requires n <= |args| && ParseTo(args, n).Ok? && slot != Trash
    ensures Holds(ParseTo(args, n).value.options, slot, v) <==> LastValue(args, n, slot, v)
  {
    if n > 0 {
      ValuesAre(args, n - 1, slot, v);
      LastValueStep(args, n - 1, slot, v);
      AwaitsIff(args, n - 1, slot);
      assert ParseTo(args, n) == ParseArg(ParseTo(args, n - 1).value, args[n - 1], n == |args|);
    }
  }

  /* ---------------------------------------------------------------- whole command lines */

  ghost predicate AllFit(args: seq<string>)
  {
    forall k :: 0 <= k < |args| ==> Fits(args, k)
  }

  function Lower(c: char): char
  {
    if 'A' <= c <= 'Z' then (c as int + 32) as char else c
  }

  // The name ends in ".exe", in upper or lower case, with something before it.
  predicate NamesExe(path: string)
  {
    && |path| > 4
    && [Lower(path[|path| - 4]), Lower(path[|path| - 3]), Lower(path[|path| - 2]), Lower(path[|path| - 1])] == ".exe"
  }

  lemma IsExeIff(path: string)
    ensures IsExe(path) <==> NamesExe(path)
  {
    if |path| > 4 {
      var s := path[|path| - 4..];
      assert s[0] == path[|path| - 4] && s[1] == path[|path| - 3] && s[2] == path[|path| - 2] && s[3] == path[|path| - 1];
      LowerIs(s[0]);
      LowerIs(s[1]);
      LowerIs(s[2]);
      LowerIs(s[3]);
      var l := [Lower(s[0]), Lower(s[1]), Lower(s[2]), Lower(s[3])];
      assert l == ".exe" <==> l[0] == '.' && l[1] == 'e' && l[2] == 'x' && l[3] == 'e';
    }
  }

  lemma LowerIs(c: char)
    ensures Lower(c) == 'e' <==> c in "eE"
    ensures Lower(c) == 'x' <==> c in "xX"
    ensures Lower(c) == '.' <==> c == '.'
  {
  }

  // The input file, if there is one
  function LastOf(args: seq<string>): string
  {
    if args == [] then "" else args[|args| - 1]
  }

  // A command line whose arguments fit is refused only if -exe is given: together with -kern, otherwise
  // with -r, otherwise with -y or -Y, otherwise for an input file that is missing or is not an executable.
  lemma ExeRefusals(args: seq<string>)
    requires AllFit(args)
    ensures var n := |args|; var exe := Given(args, n, Exe);
      && (Parse(args) == Err(KernWithExe) <==> exe && Given(args, n, EnableKernelFeatures))
      && (Parse(args) == Err(RecursiveWithExe) <==>
            exe && !Given(args, n, EnableKernelFeatures) && Given(args, n, RecursiveSearch))
      && (Parse(args) == Err(PauseWithExe) <==>
            && exe && !Given(args, n, EnableKernelFeatures) && !Given(args, n, RecursiveSearch)
            && (Given(args, n, PauseAtEnd) || Given(args, n, PauseAtBeginning)))
      && (Parse(args).Ok? <==>
            exe ==> && !Given(args, n, EnableKernelFeatures) && !Given(args, n, RecursiveSearch)
                    && !Given(args, n, PauseAtEnd) && !Given(args, n, PauseAtBeginning)
                    && NamesExe(LastOf(args)))
  {
    var n := |args|;
    FitsIff(args, n);
    SwitchesAre(args, n, Exe);
    SwitchesAre(args, n, EnableKernelFeatures);
    SwitchesAre(args, n, RecursiveSearch);
    SwitchesAre(args, n, PauseAtEnd);
    SwitchesAre(args, n, PauseAtBeginning);
    if args != [] {
      NoFileBefore(args, n - 1);
      assert ParseTo(args, n) == ParseArg(ParseTo(args, n - 1).value, args[n - 1], true);
    }
    IsExeIff(LastOf(args));
  }

  // Otherwise the first argument that does not fit is the reason.
  lemma MisfitRefused(args: seq<string>, k: nat)
    requires k < |args| && !Fits(args, k) && forall j :: 0 <= j < k ==> Fits(args, j)
    ensures Parse(args) == Err(Reason(args, k))
  {
    FitsIff(args, |args|);
  }

  // What an accepted command line means: its switches, the last value of every field, and its last
  // argument.
  lemma AcceptedMeans(args: seq<string>, o: Options)
    requires Parse(args) == Ok(o)
    ensures forall s :: s in o.switches <==> Given(args, |args|, s)
    ensures forall slot, v :: slot != Trash ==> (Holds(o, slot, v) <==> LastValue(args, |args|, slot, v))
    ensures o.inputFile == if LastOf(args) == "" then None else Some(LastOf(args))
  {
    forall s
      ensures s in o.switches <==> Given(args, |args|, s)
    {
      SwitchesAre(args, |args|, s);
    }
    forall slot, v | slot != Trash
      ensures Holds(o, slot, v) <==> LastValue(args, |args|, slot, v)
    {
      ValuesAre(args, |args|, slot, v);
    }
    if args != [] {
      LastIsAlwaysTheFile(args);
    }
  }
}
