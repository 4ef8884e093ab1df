/**
 * The program configuration: four typed tables of tagged values (int,
 * double, string and string list). `get<T>` reads a tag from T's table and
 * either throws or falls back on a default; `set<T>` writes T's table but
 * refuses a tag that another table already holds. `init` scans the
 * command line for a configuration file name and the non-option arguments.
 */
module Configs {
  import opened Wrappers

  type StringList = seq<string>

  /** The template argument T of `get<T>` and `set<T>`: which table is meant. */
  datatype Kind = IntKind | DoubleKind | StringKind | StringListKind

  /** A value of one of the four types. A double is a real here. */
  datatype Value = IntValue(i: int) | DoubleValue(d: real) | StringValue(s: string) | StringListValue(l: StringList)

  function KindOf(v: Value): Kind {
    match v
    case IntValue(_) => IntKind
    case DoubleValue(_) => DoubleKind
    case StringValue(_) => StringKind
    case StringListValue(_) => StringListKind
  }

  /** `std::out_of_range` from `at()`, and the `std::logic_error` `set<T>` throws on a type clash. */
  datatype ConfigError = OutOfRange | LogicError(expected: Kind)

  /** The contents of the four tables. */
  datatype Tables = Tables(ints: map<string, int>, doubles: map<string, real>, strings: map<string, string>, lists: map<string, StringList>)

  const NoTables := Tables(map[], map[], map[], map[])

  predicate Has(t: Tables, k: Kind, tag: string) {
    match k
    case IntKind => tag in t.ints
    case DoubleKind => tag in t.doubles
    case StringKind => tag in t.strings
    case StringListKind => tag in t.lists
  }

  /** The value kept under tag in table k. */
  function Find(t: Tables, k: Kind, tag: string): (r: Option<Value>)
    ensures r.Some? <==> Has(t, k, tag)
    ensures r.Some? ==> KindOf(r.value) == k
  {
    match k
    case IntKind => if tag in t.ints then Some(IntValue(t.ints[tag])) else None
    case DoubleKind => if tag in t.doubles then Some(DoubleValue(t.doubles[tag])) else None
    case StringKind => if tag in t.strings then Some(StringValue(t.strings[tag])) else None
    case StringListKind => if tag in t.lists then Some(StringListValue(t.lists[tag])) else None
  }

  /** `table[tag] = v` in the table of v's kind. */
  function Put(t: Tables, tag: string, v: Value): (r: Tables)
    ensures Find(r, KindOf(v), tag) == Some(v)
    ensures forall k, tag' | k != KindOf(v) || tag' != tag :: Find(r, k, tag') == Find(t, k, tag')
  {
    match v
    case IntValue(i) => t.(ints := t.ints[tag := i])
    case DoubleValue(d) => t.(doubles := t.doubles[tag := d])
    case StringValue(s) => t.(strings := t.strings[tag := s])
    case StringListValue(l) => t.(lists := t.lists[tag := l])
  }

  /** tag is held by a table other than k's: the three look-ups `set<T>` makes first. */
  predicate InOtherTable(t: Tables, k: Kind, tag: string) {
    (k != IntKind && tag in t.ints) || (k != DoubleKind && tag in t.doubles) ||
    (k != StringKind && tag in t.strings) || (k != StringListKind && tag in t.lists)
  }

  /** Every tag is held by at most one table. */
  ghost predicate Exclusive(t: Tables) {
    forall k, tag | Has(t, k, tag) :: !InOtherTable(t, k, tag)
  }

  /** What `get<T>(tag)` gives on tables t. */
  function Lookup(t: Tables, k: Kind, tag: string): (r: Result<Value, ConfigError>)
    ensures r.Ok? <==> Has(t, k, tag)
    ensures r.Ok? ==> Find(t, k, tag) == Some(r.value)
    ensures r.Err? ==> r.error == OutOfRange
  {
    match Find(t, k, tag)
    case Some(v) => Ok(v)
    case None => Err(OutOfRange)
  }

  /** What `get<T>(tag, d)` gives on tables t: the stored value, or d. */
  function LookupOr(t: Tables, tag: string, d: Value): (r: Value)
    ensures KindOf(r) == KindOf(d)
    ensures Lookup(t, KindOf(d), tag).Ok? ==> r == Lookup(t, KindOf(d), tag).value
    ensures Lookup(t, KindOf(d), tag).Err? ==> r == d
  {
    match Find(t, KindOf(d), tag)
    case Some(v) => v
    case None => d
  }

  /** The tables after the non-const `get<T>(tag, d)`: d inserted when T's table lacks tag. */
  function Inserted(t: Tables, tag: string, d: Value): (r: Tables)
    ensures Find(r, KindOf(d), tag) == Some(LookupOr(t, tag, d))
    ensures forall k, tag' | k != KindOf(d) || tag' != tag :: Find(r, k, tag') == Find(t, k, tag')
  {
    if Has(t, KindOf(d), tag) then t else Put(t, tag, d)
  }

  /** The tables after `set<T>(tag, v)`, or the `logic_error` it throws with nothing changed. */
  function Stored(t: Tables, tag: string, v: Value): (r: Result<Tables, ConfigError>)
    ensures r.Err? <==> InOtherTable(t, KindOf(v), tag)
    ensures r.Err? ==> r.error == LogicError(KindOf(v))
    ensures r.Ok? ==> Lookup(r.value, KindOf(v), tag) == Ok(v)
    ensures r.Ok? ==> forall k, tag' | k != KindOf(v) || tag' != tag :: Find(r.value, k, tag') == Find(t, k, tag')
  {
    if InOtherTable(t, KindOf(v), tag) then Err(LogicError(KindOf(v))) else Ok(Put(t, tag, v))
  }

  /** `set<T>` keeps every tag in at most one table. */
  lemma StoredKeepsExclusive(t: Tables, tag: string, v: Value)
    requires Exclusive(t) && Stored(t, tag, v).Ok?
    ensures Exclusive(Stored(t, tag, v).value)
  {
    var r := Stored(t, tag, v).value;
    forall k, tag' | Has(r, k, tag')
      ensures !InOtherTable(r, k, tag')
    {
      if tag' != tag {
        assert forall k' :: Find(r, k', tag') == Find(t, k', tag');
        assert Has(t, k, tag');
      } else {
        assert forall k' | k' != KindOf(v) :: Find(r, k', tag) == Find(t, k', tag);
      }
    }
  }

  /**
   * The non-const `get<T>(tag, d)` checks no other table, so it can put a
   * tag into a second table: an int "a" read as a string with a default.
   */
  lemma InsertedCanBreakExclusive()
    ensures var t := Tables(map["a" := 1], map[], map[], map[]);
            Exclusive(t) && !Exclusive(Inserted(t, "a", StringValue("")))
  {
    var t := Tables(map["a" := 1], map[], map[], map[]);
    var r := Inserted(t, "a", StringValue(""));
    assert Has(r, StringKind, "a") && InOtherTable(r, StringKind, "a");
  }

  /** After the non-const `get<T>(tag, d)`, the throwing `get<T>(tag)` finds what it returned. */
  lemma InsertedThenFound(t: Tables, tag: string, d: Value)
    ensures Lookup(Inserted(t, tag, d), KindOf(d), tag) == Ok(LookupOr(t, tag, d))
  {
  }

  // ---- The command line scan of `init` ----

  /** "--config" or "-f": the options whose next argument names the configuration file. */
  predicate IsConfigOption(a: string) {
    a == "--config" || a == "-f"
  }

  /** The argument starts with '-'. (`(*it)[0]` of an empty string is the terminating NUL.) */
  predicate StartsWithDash(a: string) {
    |a| > 0 && a[0] == '-'
  }

  /** What the scan finds: the last configuration file named, and the non-options in order. */
  datatype Scan = Scan(configFile: Option<string>, nonOptions: StringList)

  /** `runtime_error("missing argument for ...")`, or the `logic_error` of storing "cli-args". */
  datatype InitError = MissingArgument(option: string) | StoreFailed(error: ConfigError)

  /** A scan of later arguments, placed after a file name and non-options found earlier. */
  function After(file: Option<string>, nonOptions: StringList, r: Result<Scan, InitError>): Result<Scan, InitError> {
    match r
    case Err(e) => Err(e)
    case Ok(s) => Ok(Scan(if s.configFile.Some? then s.configFile else file, nonOptions + s.nonOptions))
  }

  /**
   * The scan of `init`, argument by argument: a configuration option takes
   * the next argument as the file name (and fails when there is none),
   * another argument starting with '-' is reported and skipped, and any
   * other argument is kept.
   */
  function ScanArgs(args: StringList): Result<Scan, InitError>
    decreases |args|
  {
    if |args| == 0 then Ok(Scan(None, []))
    else if IsConfigOption(args[0]) then
      if |args| == 1 then Err(MissingArgument(args[0])) else After(Some(args[1]), [], ScanArgs(args[2..]))
    else if StartsWithDash(args[0]) then ScanArgs(args[1..])
    else After(None, [args[0]], ScanArgs(args[1..]))
  }

  lemma AfterAfter(f1: Option<string>, n1: StringList, f2: Option<string>, n2: StringList, r: Result<Scan, InitError>)
    ensures After(f1, n1, After(f2, n2, r)) == After(if f2.Some? then f2 else f1, n1 + n2, r)
  {
    if r.Ok? {
      assert n1 + (n2 + r.value.nonOptions) == (n1 + n2) + r.value.nonOptions;
    }
  }

  /** No argument that starts with '-' is kept as a non-option. */
  lemma {:induction false} NonOptionsHaveNoDash(args: StringList)
    requires ScanArgs(args).Ok?
    ensures forall a | a in ScanArgs(args).value.nonOptions :: !StartsWithDash(a) && a in args
    decreases |args|
  {
    if |args| > 0 {
      if IsConfigOption(args[0]) {
        NonOptionsHaveNoDash(args[2..]);
      } else if StartsWithDash(args[0]) {
        NonOptionsHaveNoDash(args[1..]);
      } else {
        NonOptionsHaveNoDash(args[1..]);
      }
    }
  }

  /** Without any argument starting with '-', every argument is kept, in order. */
  lemma {:induction false} PlainArgumentsAllKept(args: StringList)
    requires forall i | 0 <= i < |args| :: !StartsWithDash(args[i])
    ensures ScanArgs(args) == Ok(Scan(None, args))
    decreases |args|
  {
    if |args| > 0 {
      PlainArgumentsAllKept(args[1..]);
      assert [args[0]] + args[1..] == args;
    }
  }

  /** The scan fails only on a configuration option in last place, and names it. */
  lemma {:induction false} ScanFailsOnlyAtEnd(args: StringList)
    requires ScanArgs(args).Err?
    ensures |args| > 0 && IsConfigOption(args[|args| - 1])
    ensures ScanArgs(args).error == MissingArgument(args[|args| - 1])
    decreases |args|
  {
    if IsConfigOption(args[0]) && |args| > 1 {
      ScanFailsOnlyAtEnd(args[2..]);
    } else if !IsConfigOption(args[0]) {
      ScanFailsOnlyAtEnd(args[1..]);
    }
  }

  /** A configuration file name found is the argument right after a configuration option. */
  lemma {:induction false} ConfigFileFollowsOption(args: StringList)
    requires ScanArgs(args).Ok? && ScanArgs(args).value.configFile.Some?
    ensures exists i | 0 <= i < |args| - 1 :: IsConfigOption(args[i]) && args[i + 1] == ScanArgs(args).value.configFile.value
    decreases |args|
  {
    var f := ScanArgs(args).value.configFile.value;
    if IsConfigOption(args[0]) {
      var rest := ScanArgs(args[2..]);
      if rest.value.configFile.Some? {
        ConfigFileFollowsOption(args[2..]);
        var i :| 0 <= i < |args[2..]| - 1 && IsConfigOption(args[2..][i]) && args[2..][i + 1] == f;
        assert IsConfigOption(args[i + 2]) && args[i + 3] == f;
      } else {
        assert IsConfigOption(args[0]) && args[1] == f;
      }
    } else {
      ConfigFileFollowsOption(args[1..]);
      var i :| 0 <= i < |args[1..]| - 1 && IsConfigOption(args[1..][i]) && args[1..][i + 1] == f;
      assert IsConfigOption(args[i + 1]) && args[i + 2] == f;
    }
  }

  class Config {
    var ints: map<string, int>
    var doubles: map<string, real>
    var strings: map<string, string>
    var lists: map<string, StringList>

    function Contents(): Tables
      reads this
    {
      Tables(ints, doubles, strings, lists)
    }

    /** A configuration with four empty tables. */
    constructor ()
      ensures Contents() == NoTables
    {
      ints, doubles, strings, lists := map[], map[], map[], map[];
    }

    /** `get<T>(tag) const`: the value `at()` finds in T's table, or `out_of_range`. */
    function Get(k: Kind, tag: string): (r: Result<Value, ConfigError>)
      reads this
      ensures r.Ok? <==> Has(Contents(), k, tag)
      ensures r.Ok? ==> KindOf(r.value) == k && Find(Contents(), k, tag) == Some(r.value)
      ensures r.Err? ==> r.error == OutOfRange
    {
      match k
      case IntKind => if tag in ints then Ok(IntValue(ints[tag])) else Err(OutOfRange)
      case DoubleKind => if tag in doubles then Ok(DoubleValue(doubles[tag])) else Err(OutOfRange)
      case StringKind => if tag in strings then Ok(StringValue(strings[tag])) else Err(OutOfRange)
      case StringListKind => if tag in lists then Ok(StringListValue(lists[tag])) else Err(OutOfRange)
    }

    /** `get<T>(tag, d) const`: the stored value, or d when T's table lacks tag; nothing changes. */
    function GetOr(tag: string, d: Value): (r: Value)
      reads this
      ensures KindOf(r) == KindOf(d)
      ensures Has(Contents(), KindOf(d), tag) ==> Find(Contents(), KindOf(d), tag) == Some(r)
      ensures !Has(Contents(), KindOf(d), tag) ==> r == d
    {
      var found := Get(KindOf(d), tag);
      if found.Ok? then found.value else d
    }

    /** `get<T>(tag, d)`: as the const form, but d is inserted when T's table lacks tag. */
    method GetOrInsert(tag: string, d: Value) returns (r: Value)
      modifies this
      ensures r == LookupOr(old(Contents()), tag, d)
      ensures Contents() == Inserted(old(Contents()), tag, d)
    {
      var found := Get(KindOf(d), tag);
      if found.Ok? {
        return found.value;
      }
      match d {
        case IntValue(i) => ints := ints[tag := i];
        case DoubleValue(x) => doubles := doubles[tag := x];
        case StringValue(s) => strings := strings[tag := s];
        case StringListValue(l) => lists := lists[tag := l];
      }
      return d;
    }

    /** `set<T>(tag, v)`: refused with `logic_error` when another table holds tag; otherwise stored. */
    method Set(tag: string, v: Value) returns (r: Result<(), ConfigError>)
      modifies this
      ensures r.Ok? <==> Stored(old(Contents()), tag, v).Ok?
      ensures r.Ok? ==> Contents() == Stored(old(Contents()), tag, v).value
      ensures r.Err? ==> r.error == Stored(old(Contents()), tag, v).error && Contents() == old(Contents())
    {
      if InOtherTable(Contents(), KindOf(v), tag) {
        return Err(LogicError(KindOf(v)));
      }
      match v {
        case IntValue(i) => ints := ints[tag := i];
        case DoubleValue(x) => doubles := doubles[tag := x];
        case StringValue(s) => strings := strings[tag := s];
        case StringListValue(l) => lists := lists[tag := l];
      }
      return Ok(());
    }

    /**
     * The argument loop of `init`, then `set<StringList>("cli-args", ...)`
     * with the non-options. Gives the configuration file name ("" when
     * none was named).
     */
    method Init(args: StringList) returns (r: Result<string, InitError>)
      modifies this
      ensures ScanArgs(args).Err? ==> r == Err(ScanArgs(args).error) && Contents() == old(Contents())
      ensures ScanArgs(args).Ok? ==>
                var s := ScanArgs(args).value;
                var stored := Stored(old(Contents()), "cli-args", StringListValue(s.nonOptions));
                (r.Ok? <==> stored.Ok?) &&
                (r.Ok? ==> Contents() == stored.value && r.value == (if s.configFile.Some? then s.configFile.value else "")) &&
                (r.Err? ==> r.error == StoreFailed(stored.error) && Contents() == old(Contents()))
    {
      var s :- ScanArguments(args);
      var stored := Set("cli-args", StringListValue(s.nonOptions));
      if stored.Err? {
        return Err(StoreFailed(stored.error));
      }
      return Ok(if s.configFile.Some? then s.configFile.value else "");
    }
  }

  /** The argument loop of `init`: the iterator walks the arguments, skipping the file name after a configuration option. */
  method ScanArguments(args: StringList) returns (r: Result<Scan, InitError>)
    ensures r == ScanArgs(args)
  {
    var i := 0;
    var file: Option<string> := None;
    var nonOptions: StringList := [];
    assert forall n: StringList :: [] + n == n;
    while i < |args|
      invariant i <= |args|
      invariant After(file, nonOptions, ScanArgs(args[i..])) == ScanArgs(args)
      decreases |args| - i
    {
      var a := args[i];
      if a == "--config" || a == "-f" {
        if i + 1 == |args| {
          return Err(MissingArgument(a));
        }
        assert args[i..][2..] == args[i + 2..];
        AfterAfter(file, nonOptions, Some(args[i + 1]), [], ScanArgs(args[i + 2..]));
        assert nonOptions + [] == nonOptions;
        file := Some(args[i + 1]);
        i := i + 2;
      } else if |a| > 0 && a[0] == '-' {
        assert args[i..][1..] == args[i + 1..];
        i := i + 1;
      } else {
        assert args[i..][1..] == args[i + 1..];
        AfterAfter(file, nonOptions, None, [a], ScanArgs(args[i + 1..]));
        nonOptions := nonOptions + [a];
        i := i + 1;
      }
    }
    assert args[i..] == [];
    assert nonOptions + [] == nonOptions;
    return Ok(Scan(file, nonOptions));
  }
}
