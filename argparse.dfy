/**
 * The command-line parser: options described by an option set are matched
 * against the argument vector, each matched option takes its arguments and
 * runs its action, and the actions store what they get in the
 * configuration. Non-option arguments are passed over.
 */
module ArgParse {
  import opened Wrappers
  import opened Numerals
  import opened Configs

  /** `ActionResult`. */
  datatype ActionResult = Success | InvalidArg | MissingArg | TooManyArgs

  /** `ArgParseResult`. */
  datatype ArgParseResult = ParseSuccess | SuccessAndExit | InvalidOption

  /** The actions the parser provides. */
  datatype Action = Append | Count | StoreInt | StoreString | StoreTrue | StoreFalse | Version

  /** `Option`: how one command-line option is recognised and what it does. */
  datatype Option = Option(name: string, shortOption: char, numArgs: int, action: Action, configKey: string, description: string)

  /** What an action leaves: its result, or the `logic_error` that escapes it, and the tables either way. */
  datatype Outcome = Outcome(result: Result<ActionResult, ConfigError>, tables: Tables)

  // ---- std::stoi ----

  /** The end of the run of whitespace that starts at p. */
  function SpaceEnd(s: string, p: nat): (e: nat)
    requires p <= |s|
    ensures p <= e <= |s|
    ensures forall i | p <= i < e :: IsSpace(s[i])
    ensures e < |s| ==> !IsSpace(s[e])
    decreases |s| - p
  {
    if p < |s| && IsSpace(s[p]) then SpaceEnd(s, p + 1) else p
  }

  /**
   * `std::stoi(s)`: leading whitespace, an optional sign and at least one
   * decimal digit, whatever follows; None where it throws (no digits, or a
   * value outside `int`).
   */
  function Stoi(s: string): Wrappers.Option<i32>
  {
    match ScanNumeral(s, SpaceEnd(s, 0))
    case None => None
    case Some(n) => if INT_MIN <= Numerals.Value(n) <= INT_MAX then Some(Numerals.Value(n)) else None
  }

  /** stoi reads back what `ostream << v` writes, and whitespace before it or text after a non-digit do not matter. */
  lemma StoiOfIntText(v: i32, lead: string, tail: string)
    requires forall i | 0 <= i < |lead| :: IsSpace(lead[i])
    requires tail == "" || !IsDigit(tail[0])
    ensures Stoi(lead + IntText(v) + tail) == Some(v)
  {
    var s := lead + IntText(v) + tail;
    var p := |lead|;
    var m: nat := if v < 0 then -(v as int) else v;
    NatTextDigits(m);
    assert s[p..p + |IntText(v)|] == IntText(v);
    assert s[p] == IntText(v)[0];
    SpaceEndIs(s, 0, p);
    ScanIntText(s, p, v);
  }

  lemma SpaceEndIs(s: string, p: nat, e: nat)
    requires p <= e <= |s|
    requires forall i | p <= i < e :: IsSpace(s[i])
    requires e < |s| ==> !IsSpace(s[e])
    ensures SpaceEnd(s, p) == e
  {
  }

  /** Text with no digit after the leading whitespace and the optional sign does not convert. */
  lemma StoiRejectsNonNumbers(s: string)
    ensures var p := SpaceEnd(s, 0);
            var d := if p < |s| && (s[p] == '+' || s[p] == '-') then p + 1 else p;
            d == |s| || !IsDigit(s[d]) ==> Stoi(s) == None
  {
    ScanNumeralStops(s, SpaceEnd(s, 0));
  }

  // ---- The actions ----

  /** The strings concatenated in order. */
  function Concat(args: seq<string>): string
  {
    if |args| == 0 then "" else Concat(args[..|args| - 1]) + args[|args| - 1]
  }

  /** What running action a under key name with arguments args does to tables t. */
  function Act(a: Action, name: string, args: seq<string>, t: Tables): Outcome
  {
    match a
    case Append =>
      if |args| < 1 then Outcome(Ok(MissingArg), t)
      else
        var d := StringListValue([]);
        var t1 := Inserted(t, name, d);
        var list := LookupOr(t, name, d);
        StoreIn(t1, name, StringListValue(list.l + args))
    case Count =>
      if |args| > 0 then Outcome(Ok(TooManyArgs), t)
      else
        var d := IntValue(0);
        var t1 := Inserted(t, name, d);
        var n := LookupOr(t, name, d);
        StoreIn(t1, name, IntValue(n.i + 1))
    case StoreInt =>
      if |args| < 1 then Outcome(Ok(MissingArg), t)
      else if |args| > 1 then Outcome(Ok(TooManyArgs), t)
      else (match Stoi(args[0])
            case None => Outcome(Ok(InvalidArg), t)
            case Some(v) =>
              var r := Stored(t, name, IntValue(v));
              if r.Ok? then Outcome(Ok(Success), r.value) else Outcome(Ok(InvalidArg), t))
    case StoreString =>
      if |args| < 1 then Outcome(Ok(MissingArg), t)
      else StoreIn(t, name, StringValue(Concat(args)))
    case StoreTrue =>
      if |args| > 0 then Outcome(Ok(TooManyArgs), t) else StoreIn(t, name, IntValue(1))
    case StoreFalse =>
      if |args| > 0 then Outcome(Ok(TooManyArgs), t) else StoreIn(t, name, IntValue(0))
    case Version =>
      Outcome(Ok(InvalidArg), t)
  }

  /** `set<T>(name, v)` followed by `return SUCCESS`; its `logic_error` escapes the action. */
  function StoreIn(t: Tables, name: string, v: Value): Outcome
  {
    match Stored(t, name, v)
    case Ok(t') => Outcome(Ok(Success), t')
    case Err(e) => Outcome(Err(e), t)
  }

  /** `store_int` refuses a missing, a second or an unreadable argument, and any type clash, with tables unchanged. */
  lemma StoreIntResults(name: string, args: seq<string>, t: Tables)
    ensures var o := Act(StoreInt, name, args, t);
            o.result.Ok? &&
            (|args| == 0 ==> o.result.value == MissingArg) &&
            (|args| > 1 ==> o.result.value == TooManyArgs) &&
            (|args| == 1 && Stoi(args[0]).None? ==> o.result.value == InvalidArg) &&
            (o.result.value != Success ==> o.tables == t) &&
            (o.result.value == Success <==> |args| == 1 && Stoi(args[0]).Some? && !InOtherTable(t, IntKind, name))
  {
  }

  /** A stored int is found again under its key. */
  lemma StoreIntStores(name: string, v: i32, t: Tables)
    requires !InOtherTable(t, IntKind, name)
    ensures var o := Act(StoreInt, name, [IntText(v)], t);
            o.result == Ok(Success) && Lookup(o.tables, IntKind, name) == Ok(IntValue(v))
  {
    StoiOfIntText(v, "", "");
    assert "" + IntText(v) + "" == IntText(v);
  }

  /** `count` with no argument increments the stored int, starting from 0. */
  lemma CountIncrements(name: string, t: Tables)
    requires !InOtherTable(t, IntKind, name)
    ensures var o := Act(Count, name, [], t);
            var before := if name in t.ints then t.ints[name] else 0;
            o.result == Ok(Success) && Lookup(o.tables, IntKind, name) == Ok(IntValue(before + 1))
  {
  }

  /** `store_true`, `store_false` and `count` refuse any argument and change nothing. */
  lemma FlagsTakeNoArguments(a: Action, name: string, args: seq<string>, t: Tables)
    requires a == StoreTrue || a == StoreFalse || a == Count
    requires |args| > 0
    ensures Act(a, name, args, t) == Outcome(Ok(TooManyArgs), t)
  {
  }

  /** `store_true` and `store_false` store 1 and 0. */
  lemma FlagsStoreOneAndZero(name: string, t: Tables)
    requires !InOtherTable(t, IntKind, name)
    ensures Lookup(Act(StoreTrue, name, [], t).tables, IntKind, name) == Ok(IntValue(1))
    ensures Lookup(Act(StoreFalse, name, [], t).tables, IntKind, name) == Ok(IntValue(0))
  {
  }

  /** `append` adds its arguments, in order, after the list already stored (or after nothing). */
  lemma AppendExtends(name: string, args: seq<string>, t: Tables)
    requires |args| > 0 && !InOtherTable(t, StringListKind, name)
    ensures var o := Act(Append, name, args, t);
            var before := if name in t.lists then t.lists[name] else [];
            o.result == Ok(Success) && Lookup(o.tables, StringListKind, name) == Ok(StringListValue(before + args))
  {
    var d := StringListValue([]);
    assert !InOtherTable(Inserted(t, name, d), StringListKind, name) by {
      assert forall k | k != StringListKind :: Find(Inserted(t, name, d), k, name) == Find(t, k, name);
    }
  }

  /**
   * `append` under a key another table holds: the default list is inserted
   * before `set` throws, so the key ends up in two tables.
   */
  lemma AppendClashLeavesDefault(name: string, args: seq<string>, t: Tables)
    requires |args| > 0 && InOtherTable(t, StringListKind, name)
    ensures var o := Act(Append, name, args, t);
            o.result == Err(LogicError(StringListKind)) && o.tables == Inserted(t, name, StringListValue([])) &&
            Has(o.tables, StringListKind, name) && InOtherTable(o.tables, StringListKind, name) && !Exclusive(o.tables)
  {
    var d := StringListValue([]);
    assert InOtherTable(Inserted(t, name, d), StringListKind, name) by {
      assert forall k | k != StringListKind :: Find(Inserted(t, name, d), k, name) == Find(t, k, name);
    }
  }

  /** Concatenating two runs of strings is concatenating what each run gives. */
  lemma {:induction false} ConcatAppend(a: seq<string>, b: seq<string>)
    ensures Concat(a + b) == Concat(a) + Concat(b)
    decreases |b|
  {
    if |b| == 0 {
      assert a + b == a;
    } else {
      var b' := b[..|b| - 1];
      assert (a + b)[..|a + b| - 1] == a + b';
      ConcatAppend(a, b');
    }
  }

  /** `store_string` stores all its arguments concatenated, in order. */
  lemma StoreStringConcatenates(name: string, args: seq<string>, t: Tables)
    requires |args| >= 1 && !InOtherTable(t, StringKind, name)
    ensures var o := Act(StoreString, name, args, t);
            o.result == Ok(Success) && Lookup(o.tables, StringKind, name) == Ok(StringValue(Concat(args)))
  {
  }

  /** The action methods run on a configuration object; each ends as Act says. */
  method Run(a: Action, name: string, args: seq<string>, config: Config) returns (r: Result<ActionResult, ConfigError>)
    modifies config
    ensures Outcome(r, config.Contents()) == Act(a, name, args, old(config.Contents()))
  {
    match a {
      case Append => r := AppendAction(name, args, config);
      case Count => r := CountAction(name, args, config);
      case StoreInt => r := StoreIntAction(name, args, config);
      case StoreString => r := StoreStringAction(name, args, config);
      case StoreTrue => r := StoreTrueAction(name, args, config);
      case StoreFalse => r := StoreFalseAction(name, args, config);
      case Version => r := Ok(InvalidArg);
    }
  }

  /** `append`: reads the list (inserting an empty one), pushes each argument, stores it back. */
  method AppendAction(name: string, args: seq<string>, config: Config) returns (r: Result<ActionResult, ConfigError>)
    modifies config
    ensures Outcome(r, config.Contents()) == Act(Append, name, args, old(config.Contents()))
  {
    if |args| < 1 {
      return Ok(MissingArg);
    }
    var v := config.GetOrInsert(name, StringListValue([]));
    var list := v.l;
    var i := 0;
    while i < |args|
      invariant i <= |args|
      invariant list == v.l + args[..i]
    {
      list := list + [args[i]];
      i := i + 1;
      assert args[..i] == args[..i - 1] + [args[i - 1]];
    }
    assert args[..i] == args;
    var stored := config.Set(name, StringListValue(list));
    if stored.Err? {
      return Err(stored.error);
    }
    return Ok(Success);
  }

  /** `count`: reads the int (inserting 0) and stores it plus one. */
  method CountAction(name: string, args: seq<string>, config: Config) returns (r: Result<ActionResult, ConfigError>)
    modifies config
    ensures Outcome(r, config.Contents()) == Act(Count, name, args, old(config.Contents()))
  {
    if |args| > 0 {
      return Ok(TooManyArgs);
    }
    var n := config.GetOrInsert(name, IntValue(0));
    var stored := config.Set(name, IntValue(n.i + 1));
    if stored.Err? {
      return Err(stored.error);
    }
    return Ok(Success);
  }

  /** `store_int`: exactly one argument, converted by `std::stoi`; a conversion failure or a type clash is caught. */
  method StoreIntAction(name: string, args: seq<string>, config: Config) returns (r: Result<ActionResult, ConfigError>)
    modifies config
    ensures Outcome(r, config.Contents()) == Act(StoreInt, name, args, old(config.Contents()))
  {
    if |args| < 1 {
      return Ok(MissingArg);
    }
    if |args| > 1 {
      return Ok(TooManyArgs);
    }
    var v := Stoi(args[0]);
    if v.None? {
      return Ok(InvalidArg);
    }
    var stored := config.Set(name, IntValue(v.value));
    if stored.Err? {
      return Ok(InvalidArg);
    }
    return Ok(Success);
  }

  /** `store_string`: the arguments concatenated, then stored. */
  method StoreStringAction(name: string, args: seq<string>, config: Config) returns (r: Result<ActionResult, ConfigError>)
    modifies config
    ensures Outcome(r, config.Contents()) == Act(StoreString, name, args, old(config.Contents()))
  {
    if |args| < 1 {
      return Ok(MissingArg);
    }
    var s := "";
    var i := 0;
    while i < |args|
      invariant i <= |args|
      invariant s == Concat(args[..i])
    {
      assert args[..i + 1][..i] == args[..i];
      s := s + args[i];
      i := i + 1;
    }
    assert args[..i] == args;
    var stored := config.Set(name, StringValue(s));
    if stored.Err? {
      return Err(stored.error);
    }
    return Ok(Success);
  }

  /** `store_true`: no argument; stores 1. */
  method StoreTrueAction(name: string, args: seq<string>, config: Config) returns (r: Result<ActionResult, ConfigError>)
    modifies config
    ensures Outcome(r, config.Contents()) == Act(StoreTrue, name, args, old(config.Contents()))
  {
    if |args| > 0 {
      return Ok(TooManyArgs);
    }
    var stored := config.Set(name, IntValue(1));
    if stored.Err? {
      return Err(stored.error);
    }
    return Ok(Success);
  }

  /** `store_false`: no argument; stores 0. */
  method StoreFalseAction(name: string, args: seq<string>, config: Config) returns (r: Result<ActionResult, ConfigError>)
    modifies config
    ensures Outcome(r, config.Contents()) == Act(StoreFalse, name, args, old(config.Contents()))
  {
    if |args| > 0 {
      return Ok(TooManyArgs);
    }
    var stored := config.Set(name, IntValue(0));
    if stored.Err? {
      return Err(stored.error);
    }
    return Ok(Success);
  }

  // ---- Recognising options ----

  /** `arg_is_option`: at least two characters, the first a '-'. */
  predicate IsOption(arg: string) {
    |arg| >= 2 && arg[0] == '-'
  }

  /** `option_is_short_option`: the second character is not a '-'. */
  predicate IsShortOption(arg: string)
    requires |arg| >= 2
  {
    arg[1] != '-'
  }

  /** Whether option o is the one the command-line option arg names. */
  predicate Matches(arg: string, o: Option)
    requires |arg| >= 2
  {
    if IsShortOption(arg) then o.shortOption == arg[1] else o.name == arg
  }

  /** The first option of the set that arg names, or the size of the set. */
  function FirstMatch(arg: string, options: seq<Option>): (k: nat)
    requires |arg| >= 2
    ensures k <= |options|
    ensures k < |options| ==> Matches(arg, options[k])
    ensures forall j | 0 <= j < k :: !Matches(arg, options[j])
  {
    if |options| == 0 then 0
    else if Matches(arg, options[0]) then 0
    else 1 + FirstMatch(arg, options[1..])
  }

  /** `match_option`: a search through the option set in order. */
  method MatchOption(arg: string, options: seq<Option>) returns (k: nat)
    requires |arg| >= 2
    ensures k <= |options|
    ensures k < |options| ==> Matches(arg, options[k])
    ensures forall j | 0 <= j < k :: !Matches(arg, options[j])
  {
    var short := arg[1] != '-';
    k := 0;
    while k < |options|
      invariant k <= |options|
      invariant forall j | 0 <= j < k :: !Matches(arg, options[j])
    {
      if short {
        if options[k].shortOption == arg[1] {
          return;
        }
      } else {
        if options[k].name == arg {
          return;
        }
      }
      k := k + 1;
    }
  }

  /** The search finds the first match, the one FirstMatch names. */
  lemma MatchIsFirst(arg: string, options: seq<Option>, k: nat)
    requires |arg| >= 2 && k <= |options|
    requires k < |options| ==> Matches(arg, options[k])
    requires forall j | 0 <= j < k :: !Matches(arg, options[j])
    ensures k == FirstMatch(arg, options)
  {
  }

  /** `get_config_key_from_option`: the configured key; else the name without a leading "--"; else the name. */
  function ConfigKey(o: Option): (key: string)
    ensures o.configKey != "" ==> key == o.configKey
    ensures o.configKey == "" && |o.name| > 2 && o.name[..2] == "--" ==> "--" + key == o.name
    ensures o.configKey == "" && !(|o.name| > 2 && o.name[..2] == "--") ==> key == o.name
  {
    if o.configKey != "" then o.configKey
    else if |o.name| > 2 && o.name[0] == '-' && o.name[1] == '-' then o.name[2..]
    else o.name
  }

  /** A long option "--k" with no configured key stores under k. */
  lemma LongNameKey(k: string, short: char, n: int, a: Action, description: string)
    requires k != ""
    ensures ConfigKey(Option("--" + k, short, n, a, "", description)) == k
  {
    var name := "--" + k;
    assert name[..2] == "--";
    assert "--" + name[2..] == name;
  }

  // ---- arg_parse ----

  /** How many arguments an option asking for n takes when `remaining` follow it. */
  function Taken(n: int, remaining: nat): (k: nat)
    ensures k <= remaining
    ensures n <= 0 ==> k == 0
    ensures n > 0 ==> k == if n < remaining then n else remaining
  {
    if n <= 0 then 0 else if n < remaining then n else remaining
  }

  /** The help and version switches, answered before anything else. */
  predicate IsExitSwitch(arg: string) {
    arg == "--version" || arg == "-v" || arg == "--help" || arg == "-h"
  }

  /** What the parse loop produces from index i on, with result acc so far and tables t. */
  function ParseFrom(options: seq<Option>, args: seq<string>, i: nat, acc: ArgParseResult, t: Tables): (o: (Result<ArgParseResult, ConfigError>, Tables))
    requires 1 <= i
    decreases |args| - i
  {
    if i >= |args| then (Ok(acc), t)
    else if IsExitSwitch(args[i]) then (Ok(SuccessAndExit), t)
    else if IsOption(args[i]) then
      var k := FirstMatch(args[i], options);
      if k < |options| then
        var n := Taken(options[k].numArgs, |args| - 1 - i);
        var act := Act(options[k].action, ConfigKey(options[k]), args[i + 1..i + 1 + n], t);
        if act.result.Err? then (Err(act.result.error), act.tables)
        else ParseFrom(options, args, i + n + 1, if act.result.value != Success then InvalidOption else acc, act.tables)
      else ParseFrom(options, args, i + 1, InvalidOption, t)
    else ParseFrom(options, args, i + 1, acc, t)
  }

  /** `arg_parse`: an empty vector is invalid; otherwise the program name is skipped and the loop runs from 1. */
  function Parse(options: seq<Option>, args: seq<string>, t: Tables): (Result<ArgParseResult, ConfigError>, Tables)
  {
    if |args| < 1 then (Ok(InvalidOption), t) else ParseFrom(options, args, 1, ParseSuccess, t)
  }

  /** Once the result is INVALID_OPTION it stays so, unless a help or version switch ends the parse. */
  lemma {:induction false} InvalidStaysInvalid(options: seq<Option>, args: seq<string>, i: nat, t: Tables)
    requires 1 <= i
    ensures var o := ParseFrom(options, args, i, InvalidOption, t);
            o.0.Ok? ==> o.0.value != ParseSuccess
    decreases |args| - i
  {
    if i < |args| && !IsExitSwitch(args[i]) && IsOption(args[i]) {
      var k := FirstMatch(args[i], options);
      if k < |options| {
        var n := Taken(options[k].numArgs, |args| - 1 - i);
        InvalidStaysInvalid(options, args, i + n + 1, Act(options[k].action, ConfigKey(options[k]), args[i + 1..i + 1 + n], t).tables);
      } else {
        InvalidStaysInvalid(options, args, i + 1, t);
      }
    } else if i < |args| && !IsExitSwitch(args[i]) {
      InvalidStaysInvalid(options, args, i + 1, t);
    }
  }

  /**
   * An unknown option that the loop reaches as an option, rather than taking
   * it as an earlier option's argument, keeps the parse from reporting SUCCESS.
   */
  lemma UnknownOptionInvalidates(options: seq<Option>, args: seq<string>, i: nat, t: Tables)
    requires 1 <= i < |args| && IsOption(args[i]) && !IsExitSwitch(args[i])
    requires FirstMatch(args[i], options) == |options|
    ensures forall acc :: var o := ParseFrom(options, args, i, acc, t);
            o.0.Ok? ==> o.0.value != ParseSuccess
  {
    InvalidStaysInvalid(options, args, i + 1, t);
  }

  /**
   * Arguments that are not options are passed over: the parse succeeds, or
   * exits at the first help or version switch among them, and the tables are
   * unchanged.
   */
  lemma {:induction false} PlainArgumentsIgnored(options: seq<Option>, args: seq<string>, i: nat, t: Tables)
    requires 1 <= i
    requires forall j | i <= j < |args| :: !IsOption(args[j]) || IsExitSwitch(args[j])
    ensures ParseFrom(options, args, i, ParseSuccess, t) ==
            (Ok(if exists j | i <= j < |args| :: IsExitSwitch(args[j]) then SuccessAndExit else ParseSuccess), t)
    decreases |args| - i
  {
    if i < |args| && !IsExitSwitch(args[i]) {
      PlainArgumentsIgnored(options, args, i + 1, t);
      assert (exists j | i <= j < |args| :: IsExitSwitch(args[j])) <==> (exists j | i + 1 <= j < |args| :: IsExitSwitch(args[j]));
    }
  }

  /** A help or version switch right after the program name exits at once, whatever follows, with nothing stored. */
  lemma ExitSwitchStopsParsing(options: seq<Option>, args: seq<string>, t: Tables)
    requires |args| >= 2 && IsExitSwitch(args[1])
    ensures Parse(options, args, t) == (Ok(SuccessAndExit), t)
  {
  }

  /**
   * A matched option hands its action the next min(num_args, remaining)
   * arguments, options included; an error from the action ends the parse,
   * and otherwise the parse goes on after the arguments taken.
   */
  lemma OptionTakesFollowingArguments(options: seq<Option>, args: seq<string>, i: nat, acc: ArgParseResult, t: Tables,
                                      n: nat, act: Outcome)
    requires 1 <= i < |args| && IsOption(args[i]) && !IsExitSwitch(args[i])
    requires FirstMatch(args[i], options) < |options|
    requires n == Taken(options[FirstMatch(args[i], options)].numArgs, |args| - 1 - i)
    requires act == Act(options[FirstMatch(args[i], options)].action, ConfigKey(options[FirstMatch(args[i], options)]),
                        args[i + 1..i + 1 + n], t)
    ensures act.result.Err? ==> ParseFrom(options, args, i, acc, t) == (Err(act.result.error), act.tables)
    ensures act.result.Ok? ==>
              ParseFrom(options, args, i, acc, t) ==
              ParseFrom(options, args, i + 1 + n, if act.result.value == Success then acc else InvalidOption, act.tables)
  {
  }

  /** The arguments after index i handed to an option: up to num_args of them, as many as remain. */
  method TakeArguments(args: seq<string>, i: nat, numArgs: int) returns (optargs: seq<string>, n: nat)
    requires i < |args|
    ensures n == Taken(numArgs, |args| - 1 - i) && optargs == args[i + 1..i + 1 + n]
  {
    optargs := [];
    n := 0;
    while n < numArgs && i + n < |args| - 1
      invariant 0 <= n <= Taken(numArgs, |args| - 1 - i)
      invariant optargs == args[i + 1..i + 1 + n]
    {
      n := n + 1;
      optargs := optargs + [args[i + n]];
    }
  }

  /**
   * One matched option of the parse loop: its arguments are taken and its
   * action run; the parse goes on after the arguments taken, or ends with
   * the action's error.
   */
  method RunOption(options: seq<Option>, args: seq<string>, i: nat, k: nat, acc: ArgParseResult, config: Config)
    returns (r: Result<ArgParseResult, ConfigError>, next: nat)
    requires 1 <= i < |args| && IsOption(args[i]) && !IsExitSwitch(args[i])
    requires k == FirstMatch(args[i], options) < |options|
    modifies config
    ensures next > i
    ensures r.Err? ==> ParseFrom(options, args, i, acc, old(config.Contents())) == (Err(r.error), config.Contents())
    ensures r.Ok? ==> ParseFrom(options, args, i, acc, old(config.Contents())) == ParseFrom(options, args, next, r.value, config.Contents())
  {
    ghost var t := config.Contents();
    var option := options[k];
    var optargs, n := TakeArguments(args, i, option.numArgs);
    var acted := Run(option.action, ConfigKey(option), optargs, config);
    OptionTakesFollowingArguments(options, args, i, acc, t, n, Outcome(acted, config.Contents()));
    next := i + n + 1;
    if acted.Err? {
      r := Err(acted.error);
    } else {
      r := Ok(if acted.value != Success then InvalidOption else acc);
    }
  }

  /**
   * `arg_parse` over a configuration object. An exception from an action's
   * `set` ends the parse; the tables then hold whatever the actions did.
   */
  method ArgParse(options: seq<Option>, args: seq<string>, config: Config) returns (r: Result<ArgParseResult, ConfigError>)
    modifies config
    ensures (r, config.Contents()) == Parse(options, args, old(config.Contents()))
  {
    if |args| < 1 {
      return Ok(InvalidOption);
    }
    var result := ParseSuccess;
    var i := 1;
    while i < |args|
      invariant 1 <= i
      invariant ParseFrom(options, args, i, result, config.Contents()) == Parse(options, args, old(config.Contents()))
      decreases |args| - i
    {
      var arg := args[i];
      if arg == "--version" || arg == "-v" {
        return Ok(SuccessAndExit);
      } else if arg == "--help" || arg == "-h" {
        return Ok(SuccessAndExit);
      }
      if |arg| >= 2 && arg[0] == '-' {
        var k := MatchOption(arg, options);
        MatchIsFirst(arg, options, k);
        if k < |options| {
          var next;
          r, next := RunOption(options, args, i, k, result, config);
          if r.Err? {
            return;
          }
          result, i := r.value, next;
          continue;
        } else {
          result := InvalidOption;
        }
      }
      i := i + 1;
    }
    return Ok(result);
  }
}
