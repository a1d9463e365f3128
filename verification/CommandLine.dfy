/** cfix/cfixrun/cmdline.c: the command-line parser, and a printer whose output it reads back. */
module CommandLine {
  import opened Prelude

  // The BOOL fields of CFIXRUN_OPTIONS; Exe stands for InputFileType
  datatype Switch =
    | RecursiveSearch | AbortOnFirstFailure | DoNotCatchUnhandledExceptions | AlwaysBreakOnFailure
    | DisplayOnly | Summary | PauseAtEnd | PauseAtBeginning | EnableKernelFeatures | Exe
    | ShortCircuitFixtureOnFailure | ShortCircuitRunOnFailure | ShortCircuitRunOnSetupFailure
    | NoLogo | OmitSourceInfo | DisableStackTraces

  // The string fields that a flag fills, and the variable that takes ignored values
  datatype Slot = Fixture | FixturePrefix | EventDll | EventDllOptions | Trash

  datatype Flag = Sets(s: Switch) | Takes(slot: Slot)

  // The flag that a name stands for
  function FlagOf(name: string): Option<Flag>
  {
    if name == "r" then Some(Sets(RecursiveSearch))
    else if name == "n" then Some(Takes(Fixture))
    else if name == "p" then Some(Takes(FixturePrefix))
    else if name == "f" then Some(Sets(AbortOnFirstFailure))
    else if name == "u" then Some(Sets(DoNotCatchUnhandledExceptions))
    else if name == "b" then Some(Sets(AlwaysBreakOnFailure))
    else if name == "d" then Some(Sets(DisplayOnly))
    else if name == "z" then Some(Sets(Summary))
    else if name == "y" then Some(Sets(PauseAtEnd))
    else if name == "Y" then Some(Sets(PauseAtBeginning))
    else if name == "kern" then Some(Sets(EnableKernelFeatures))
    else if name == "exe" then Some(Sets(Exe))
    else if name == "fsf" then Some(Sets(ShortCircuitFixtureOnFailure))
    else if name == "fsr" then Some(Sets(ShortCircuitRunOnFailure))
    else if name == "fss" then Some(Sets(ShortCircuitRunOnSetupFailure))
    else if name == "out" then Some(Takes(Trash))
    else if name == "log" then Some(Takes(Trash))
    else if name == "eventdll" then Some(Takes(EventDll))
    else if name == "eventdlloptions" then Some(Takes(EventDllOptions))
    else if name == "nologo" then Some(Sets(NoLogo))
    else if name == "ts" then Some(Sets(OmitSourceInfo))
    else if name == "td" then Some(Sets(DisableStackTraces))
    else None
  }

  datatype Options = Options(switches: set<Switch>, values: map<Slot, string>, inputFile: Option<string>)

  const Defaults := Options({}, map[], None)

  datatype Error =
    | MissingValue | UnknownFlag | UnexpectedValue
    | KernWithExe | RecursiveWithExe | PauseWithExe | NotAnExe
    | NullInputFile   // the C code reads through a null pointer here

  /* ---------------------------------------------------------------- specification */

  // The options so far, and the slot for which a value is expected
  datatype Parsed = Parsed(options: Options, pending: Option<Slot>)

  predicate IsFlag(arg: string) { arg != "" && (arg[0] == '-' || arg[0] == '/') }

  function Store(o: Options, slot: Slot, v: string): Options
  {
    if slot == Trash then o else o.(values := o.values[slot := v])
  }

  function ParseArg(p: Parsed, arg: string, last: bool): Result<Parsed, Error>
  {
    if arg == "" then Ok(p)
    else if last then
      if p.pending.Some? then Err(MissingValue) else Ok(p.(options := p.options.(inputFile := Some(arg))))
    else if IsFlag(arg) then
      if p.pending.Some? then Err(MissingValue)
      else
        match FlagOf(arg[1..])
        case None => Err(UnknownFlag)
        case Some(Sets(s)) => Ok(p.(options := p.options.(switches := p.options.switches + {s})))
        case Some(Takes(slot)) => Ok(p.(pending := Some(slot)))
    else
      match p.pending
      case None => Err(UnexpectedValue)
      case Some(slot) => Ok(Parsed(Store(p.options, slot, arg), None))
  }

  // After the first `n` arguments
  function ParseTo(args: seq<string>, n: nat): Result<Parsed, Error>
    requires n <= |args|
  {
    if n == 0 then Ok(Parsed(Defaults, None))
    else
      match ParseTo(args, n - 1)
      case Err(e) => Err(e)
      case Ok(p) => ParseArg(p, args[n - 1], n == |args|)
  }

  // _wcsicmp with ".exe"
  predicate EqualsExe(s: string)
  {
    |s| == 4 && s[0] == '.' && s[1] in "eE" && s[2] in "xX" && s[3] in "eE"
  }

  // CfixrunpIsExe
  predicate IsExe(path: string)
  {
    |path| > 4 && EqualsExe(path[|path| - 4..])
  }

  function CheckExe(o: Options): Result<Options, Error>
  {
    if Exe !in o.switches then Ok(o)
    else if EnableKernelFeatures in o.switches then Err(KernWithExe)
    else if RecursiveSearch in o.switches then Err(RecursiveWithExe)
    else if PauseAtBeginning in o.switches || PauseAtEnd in o.switches then Err(PauseWithExe)
    else if o.inputFile.None? then Err(NullInputFile)
    else if !IsExe(o.inputFile.value) then Err(NotAnExe)
    else Ok(o)
  }

  // `args` without the name of the program
  function Parse(args: seq<string>): Result<Options, Error>
  {
    match ParseTo(args, |args|)
    case Err(e) => Err(e)
    case Ok(p) => CheckExe(p.options)
  }

  /* ---------------------------------------------------------------- the code */

  datatype State = ExpectValue | ExpectAny

  class OptionsRecord {
    var switches: set<Switch>
    var values: map<Slot, string>
    var inputFile: Option<string>

    constructor ()
      ensures Value() == Defaults
    {
      switches, values, inputFile := {}, map[], None;
    }

    ghost function Value(): Options
      reads this
    {
      Options(switches, values, inputFile)
    }

    // The loop body of CfixrunParseCommandLine; `value` is where the next value goes.
    method ParseOne(arg: string, last: bool, state: State, value: Slot)
      returns (error: Option<Error>, state': State, value': Slot)
      modifies this
      ensures var before := Parsed(old(Value()), if state == ExpectValue then Some(value) else None);
        match ParseArg(before, arg, last)
        case Err(e) => error == Some(e)
        case Ok(p) => error == None && p == Parsed(Value(), if state' == ExpectValue then Some(value') else None)
    {
      error, state', value' := None, state, value;
      if |arg| == 0 {
        return;
      }
      if last {
        if state == ExpectValue {
          error := Some(MissingValue);
          return;
        }
        inputFile := Some(arg);
      } else if arg[0] == '-' || arg[0] == '/' {
        if state == ExpectValue {
          error := Some(MissingValue);
          return;
        }
        match FlagOf(arg[1..])
        case None =>
          error := Some(UnknownFlag);
        case Some(Sets(s)) =>
          switches := switches + {s};
          state' := ExpectAny;
        case Some(Takes(slot)) =>
          value' := slot;
          state' := ExpectValue;
      } else {
        if state != ExpectValue {
          error := Some(UnexpectedValue);
          return;
        }
        if value != Trash {
          values := values[value := arg];
        }
        state' := ExpectAny;
      }
    }

    // CfixrunParseCommandLine
    method ParseCommandLine(args: seq<string>) returns (error: Option<Error>)
      requires Value() == Defaults
      modifies this
      ensures match Parse(args)
              case Err(e) => error == Some(e)
              case Ok(o) => error == None && Value() == o
    {
      error := None;
      var state, value := ExpectAny, Trash;
      var index := 0;
      while index < |args|
        invariant 0 <= index <= |args| && error == None
        invariant ParseTo(args, index) == Ok(Parsed(Value(), if state == ExpectValue then Some(value) else None))
      {
        error, state, value := ParseOne(args[index], index == |args| - 1, state, value);
        index := index + 1;
        if error.Some? {
          ErrorStays(args, index, |args|);
          return;
        }
      }
      if Exe in switches {
        if EnableKernelFeatures in switches {
          error := Some(KernWithExe);
        } else if RecursiveSearch in switches {
          error := Some(RecursiveWithExe);
        } else if PauseAtBeginning in switches || PauseAtEnd in switches {
          error := Some(PauseWithExe);
        } else if inputFile.None? {
          error := Some(NullInputFile);
        } else if !IsExe(inputFile.value) {
          error := Some(NotAnExe);
        }
      }
    }
  }

  lemma {:induction false} ErrorStays(args: seq<string>, m: nat, n: nat)
    requires m <= n <= |args| && ParseTo(args, m).Err?
    ensures ParseTo(args, n) == ParseTo(args, m)
  {
    if m < n {
      ErrorStays(args, m, n - 1);
    }
  }

  /* ---------------------------------------------------------------- the printer */

  // A part of a command line: a switch, a value with its flag, an ignored pair, or an empty argument.
  // Flags may be introduced by either character.
  datatype Item =
    | PrintSwitch(s: Switch, slash: bool)
    | PrintValue(slot: Slot, v: string, slash: bool)
    | PrintIgnored(log: bool, v: string, slash: bool)
    | PrintEmpty

  function NameOf(s: Switch): string
  {
    match s
    case RecursiveSearch => "r"
    case AbortOnFirstFailure => "f"
    case DoNotCatchUnhandledExceptions => "u"
    case AlwaysBreakOnFailure => "b"
    case DisplayOnly => "d"
    case Summary => "z"
    case PauseAtEnd => "y"
    case PauseAtBeginning => "Y"
    case EnableKernelFeatures => "kern"
    case Exe => "exe"
    case ShortCircuitFixtureOnFailure => "fsf"
    case ShortCircuitRunOnFailure => "fsr"
    case ShortCircuitRunOnSetupFailure => "fss"
    case NoLogo => "nologo"
    case OmitSourceInfo => "ts"
    case DisableStackTraces => "td"
  }

  function SlotName(slot: Slot): string
  {
    match slot
    case Fixture => "n"
    case FixturePrefix => "p"
    case EventDll => "eventdll"
    case EventDllOptions => "eventdlloptions"
    case Trash => "out"
  }

  function Prefixed(slash: bool, name: string): string
  {
    [if slash then '/' else '-'] + name
  }

  function Words(i: Item): seq<string>
  {
    match i
    case PrintSwitch(s, slash) => [Prefixed(slash, NameOf(s))]
    case PrintValue(slot, v, slash) => [Prefixed(slash, SlotName(slot)), v]
    case PrintIgnored(log, v, slash) => [Prefixed(slash, if log then "log" else "out"), v]
    case PrintEmpty => [""]
  }

  function PrintTo(items: seq<Item>, n: nat): seq<string>
    requires n <= |items|
  {
    if n == 0 then [] else PrintTo(items, n - 1) + Words(items[n - 1])
  }

  function Print(items: seq<Item>, file: string): seq<string>
  {
    PrintTo(items, |items|) + [file]
  }

  // A value that is not taken for a flag
  predicate PlainValue(v: string) { v != "" && !IsFlag(v) }

  predicate Printable(i: Item)
  {
    match i
    case PrintValue(slot, v, _) => slot != Trash && PlainValue(v)
    case PrintIgnored(_, v, _) => PlainValue(v)
    case _ => true
  }

  // The items name the switches and the values of the record, in any order and number.
  ghost predicate Lists(items: seq<Item>, o: Options)
  {
    && (forall i :: 0 <= i < |items| ==> Printable(items[i]) && Belongs(items[i], o))
    && (forall s :: s in o.switches ==> exists i :: 0 <= i < |items| && items[i].PrintSwitch? && items[i].s == s)
    && (forall x :: x in o.values ==> exists i :: 0 <= i < |items| && items[i].PrintValue? && items[i].slot == x)
  }

  predicate Belongs(i: Item, o: Options)
  {
    match i
    case PrintSwitch(s, _) => s in o.switches
    case PrintValue(slot, v, _) => slot in o.values && o.values[slot] == v
    case _ => true
  }

  function Apply(o: Options, i: Item): Options
  {
    match i
    case PrintSwitch(s, _) => o.(switches := o.switches + {s})
    case PrintValue(slot, v, _) => o.(values := o.values[slot := v])
    case _ => o
  }

  function ApplyTo(items: seq<Item>, n: nat): Options
    requires n <= |items|
  {
    if n == 0 then Defaults else Apply(ApplyTo(items, n - 1), items[n - 1])
  }

  lemma SwitchNames(s: Switch)
    ensures FlagOf(NameOf(s)) == Some(Sets(s))
  {
  }

  lemma SlotNames(slot: Slot)
    ensures FlagOf(SlotName(slot)) == Some(Takes(slot)) && FlagOf("log") == Some(Takes(Trash))
  {
  }

  // Parsing the words of an item, with more to follow
  lemma ParseItem(p: Parsed, i: Item)
    requires Printable(i) && p.pending == None
    ensures var w := Words(i);
      && ParseArg(p, w[0], false).Ok?
      && (|w| == 1 ==> ParseArg(p, w[0], false).value == Parsed(Apply(p.options, i), None))
      && (|w| == 2 ==> ParseArg(ParseArg(p, w[0], false).value, w[1], false) == Ok(Parsed(Apply(p.options, i), None)))
      && 1 <= |w| <= 2
  {
    match i
    case PrintSwitch(s, slash) =>
      SwitchNames(s);
      assert Prefixed(slash, NameOf(s))[1..] == NameOf(s);
    case PrintValue(slot, v, slash) =>
      SlotNames(slot);
      assert Prefixed(slash, SlotName(slot))[1..] == SlotName(slot);
    case PrintIgnored(log, v, slash) =>
      SlotNames(Trash);
      var name := if log then "log" else "out";
      assert Prefixed(slash, name)[1..] == name;
    case PrintEmpty =>
  }

  lemma WordsParsed(args: seq<string>, m: nat, o: Options, i: Item)
    requires Printable(i) && m + |Words(i)| < |args| && ParseTo(args, m) == Ok(Parsed(o, None))
    requires forall k :: 0 <= k < |Words(i)| ==> args[m + k] == Words(i)[k]
    ensures ParseTo(args, m + |Words(i)|) == Ok(Parsed(Apply(o, i), None))
  {
    ParseItem(Parsed(o, None), i);
    var w := Words(i);
    assert args[m + 0] == w[0];
    assert ParseTo(args, m + 1) == ParseArg(Parsed(o, None), w[0], false);
    if |w| == 2 {
      assert args[m + 1] == w[1];
      assert ParseTo(args, m + 2) == ParseArg(ParseTo(args, m + 1).value, w[1], false);
    }
  }

  ghost predicate Begins(args: seq<string>, w: seq<string>)
  {
    |w| < |args| && forall i :: 0 <= i < |w| ==> args[i] == w[i]
  }

  lemma BeginsParts(args: seq<string>, v: seq<string>, w: seq<string>)
    requires Begins(args, v + w)
    ensures Begins(args, v) && |v| + |w| < |args| && forall k :: 0 <= k < |w| ==> args[|v| + k] == w[k]
  {
    assert forall i :: 0 <= i < |v| ==> (v + w)[i] == v[i];
    forall k | 0 <= k < |w|
      ensures args[|v| + k] == w[k]
    {
      assert (v + w)[|v| + k] == w[k];
    }
  }

  lemma {:induction false} ItemParsed(args: seq<string>, before: seq<string>, o: Options, i: Item)
    requires Printable(i) && Begins(args, before + Words(i)) && ParseTo(args, |before|) == Ok(Parsed(o, None))
    ensures ParseTo(args, |before + Words(i)|) == Ok(Parsed(Apply(o, i), None))
  {
    BeginsParts(args, before, Words(i));
    WordsParsed(args, |before|, o, i);
  }

  lemma {:induction false} ItemsParsed(args: seq<string>, items: seq<Item>, n: nat)
    requires n <= |items| && forall i :: 0 <= i < |items| ==> Printable(items[i])
    requires Begins(args, PrintTo(items, n))
    ensures ParseTo(args, |PrintTo(items, n)|) == Ok(Parsed(ApplyTo(items, n), None))
  {
    if n > 0 {
      BeginsParts(args, PrintTo(items, n - 1), Words(items[n - 1]));
      ItemsParsed(args, items, n - 1);
      ItemParsed(args, PrintTo(items, n - 1), ApplyTo(items, n - 1), items[n - 1]);
    }
  }

  // Whatever is printed is read back: switches in any order, values, ignored pairs and empty arguments.
  lemma {:induction false} PrintedIsParsed(items: seq<Item>, file: string)
    requires file != "" && forall i :: 0 <= i < |items| ==> Printable(items[i])
    ensures Parse(Print(items, file)) == CheckExe(ApplyTo(items, |items|).(inputFile := Some(file)))
  {
    var args := Print(items, file);
    ItemsParsed(args, items, |items|);
    assert args[|args| - 1] == file;
    assert ParseTo(args, |args|) ==
      ParseArg(ParseTo(args, |args| - 1).value, file, true);
  }

  lemma {:induction false} ApplyLists(items: seq<Item>, o: Options, n: nat)
    requires n <= |items| && forall i :: 0 <= i < |items| ==> Printable(items[i]) && Belongs(items[i], o)
    ensures var a := ApplyTo(items, n);
      && a.inputFile == None
      && (forall s :: s in a.switches <==> exists i :: 0 <= i < n && items[i].PrintSwitch? && items[i].s == s)
      && (forall x :: x in a.values <==> exists i :: 0 <= i < n && items[i].PrintValue? && items[i].slot == x)
      && (forall x :: x in a.values ==> x in o.values && a.values[x] == o.values[x])
  {
    if n > 0 {
      ApplyLists(items, o, n - 1);
      assert Belongs(items[n - 1], o);
    }
  }

  // Options that can be given on a command line
  predicate Admissible(o: Options)
  {
    o.inputFile.Some? && o.inputFile.value != "" && CheckExe(o) == Ok(o)
  }

  // Printing admissible options and parsing the result returns them, in whatever order their
  // switches and values are printed and whatever ignored pairs are put between them.
  lemma RoundTrip(items: seq<Item>, o: Options)
    requires Admissible(o) && Lists(items, o)
    ensures Parse(Print(items, o.inputFile.value)) == Ok(o)
  {
    PrintedIsParsed(items, o.inputFile.value);
    ApplyLists(items, o, |items|);
    var a := ApplyTo(items, |items|);
    assert a.switches == o.switches;
    assert a.values == o.values;
  }

  /* ---------------------------------------------------------------- the last argument */

  // Before the last argument there is no input file yet.
  lemma {:induction false} NoFileBefore(args: seq<string>, n: nat)
    requires n < |args| && ParseTo(args, n).Ok?
    ensures ParseTo(args, n).value.options.inputFile == None
  {
    if n > 0 {
      NoFileBefore(args, n - 1);
    }
  }

  // The last argument is the input file, even if it looks like a flag, unless it is empty; then
  // there is none.
  lemma {:induction false} LastIsAlwaysTheFile(args: seq<string>)
    requires args != [] && Parse(args).Ok?
    ensures Parse(args).value.inputFile == if args[|args| - 1] == "" then None else Some(args[|args| - 1])
  {
    NoFileBefore(args, |args| - 1);
    assert ParseTo(args, |args|) == ParseArg(ParseTo(args, |args| - 1).value, args[|args| - 1], true);
  }

  /* ---------------------------------------------------------------- missing values */

  // A flag that needs a value
  predicate TakesValue(arg: string)
  {
    IsFlag(arg) && FlagOf(arg[1..]).Some? && FlagOf(arg[1..]).value.Takes?
  }

  // Argument `k` is such a flag, and what follows it up to `n` is empty; the last argument is no flag.
  ghost predicate Dangling(args: seq<string>, k: nat, n: nat)
    requires n <= |args|
  {
    k < n && k < |args| - 1 && TakesValue(args[k]) && forall j :: k < j < n ==> args[j] == ""
  }

  ghost predicate AnyDangling(args: seq<string>, n: nat)
    requires n <= |args|
  {
    exists k :: Dangling(args, k, n)
  }

  lemma DanglingEmpty(args: seq<string>, k: nat, n: nat)
    requires n < |args| && args[n] == ""
    ensures Dangling(args, k, n + 1) <==> Dangling(args, k, n)
  {
    if Dangling(args, k, n + 1) {
      assert args[k] != "";
    }
  }

  // A value is pending exactly if only empty arguments follow the flag that needs it.
  lemma {:induction false} PendingIff(args: seq<string>, n: nat)
    requires n <= |args| && ParseTo(args, n).Ok?
    ensures ParseTo(args, n).value.pending.Some? <==> AnyDangling(args, n)
  {
    if n > 0 {
      PendingIff(args, n - 1);
      PendingStep(args, n - 1);
    }
  }

  lemma PendingStep(args: seq<string>, n: nat)
    requires n < |args| && ParseTo(args, n).Ok? && ParseTo(args, n + 1).Ok?
    requires ParseTo(args, n).value.pending.Some? <==> AnyDangling(args, n)
    ensures ParseTo(args, n + 1).value.pending.Some? <==> AnyDangling(args, n + 1)
  {
    var p, arg := ParseTo(args, n).value, args[n];
    assert ParseTo(args, n + 1) == ParseArg(p, arg, n + 1 == |args|);
    if arg == "" {
      if k :| Dangling(args, k, n) {
        DanglingEmpty(args, k, n);
      }
      var n' := n + 1;
      if k :| Dangling(args, k, n') {
        DanglingEmpty(args, k, n);
      }
    } else if n + 1 < |args| && TakesValue(arg) {
      assert Dangling(args, n, n + 1);
    }
  }

  lemma {:induction false} EmptyArgumentsSkipped(args: seq<string>, m: nat, n: nat)
    requires m <= n <= |args| && forall j :: m <= j < n ==> args[j] == ""
    ensures ParseTo(args, n) == ParseTo(args, m)
  {
    if m < n {
      EmptyArgumentsSkipped(args, m, n - 1);
    }
  }

  // The command line is accepted with a flag that never got its value.
  predicate AcceptedWithoutValue(args: seq<string>)
  {
    Parse(args).Ok? && ParseTo(args, |args|).value.pending.Some?
  }

  // Only empty arguments, and at least one, follow a flag that needs a value, and what precedes the
  // flag is in order and does not ask for an executable.
  ghost predicate Unfinished(args: seq<string>, k: nat)
  {
    && Dangling(args, k, |args|)
    && ParseTo(args, k).Ok? && ParseTo(args, k).value.pending.None?
    && Exe !in ParseTo(args, k).value.options.switches
  }

  // Exactly then a missing value goes unnoticed, and the options are those before the flag.
  lemma {:induction false} MissingValueHiddenIff(args: seq<string>)
    ensures AcceptedWithoutValue(args) <==> exists k :: Unfinished(args, k)
    ensures forall k :: Unfinished(args, k) ==> Parse(args) == Ok(ParseTo(args, k).value.options)
  {
    forall k | Unfinished(args, k)
      ensures AcceptedWithoutValue(args) && Parse(args) == Ok(ParseTo(args, k).value.options)
    {
      UnfinishedParsed(args, k);
    }
    if AcceptedWithoutValue(args) {
      PendingIff(args, |args|);
      var k :| Dangling(args, k, |args|);
      DanglingUnfinished(args, k);
    }
  }

  lemma UnfinishedParsed(args: seq<string>, k: nat)
    requires Unfinished(args, k)
    ensures AcceptedWithoutValue(args) && Parse(args) == Ok(ParseTo(args, k).value.options)
  {
    assert ParseTo(args, k + 1) == ParseArg(ParseTo(args, k).value, args[k], false);
    EmptyArgumentsSkipped(args, k + 1, |args|);
  }

  lemma DanglingUnfinished(args: seq<string>, k: nat)
    requires Dangling(args, k, |args|) && Parse(args).Ok?
    ensures Unfinished(args, k)
  {
    EmptyArgumentsSkipped(args, k + 1, |args|);
    assert ParseTo(args, k + 1).Ok?;
    assert ParseTo(args, k + 1) == ParseArg(ParseTo(args, k).value, args[k], false);
    NoFileBefore(args, k + 1);
  }

  // The shortest such command line
  lemma EmptyLastArgument()
    ensures Parse(["-n", ""]) == Ok(Defaults) && AcceptedWithoutValue(["-n", ""])
  {
    var args := ["-n", ""];
    SlotNames(Fixture);
    assert "-n"[1..] == "n";
    assert Dangling(args, 0, 2);
    UnfinishedParsed(args, 0);
  }
}
