/**
 * A registry of command-line options and a parser over an argument vector. Each option has a
 * short and a long name, a description, takes no value or one value, and is required or
 * optional. Names are compared without their leading dashes, so "s", "-s" and "--s" all name
 * the same option. Parsing records which options were given and, for one-value options, the
 * text that followed them; the value stands for what the caller's target variable receives.
 */
module CommandLineOptions {

  import opened Wrappers

  datatype Presence = Required | Optional
  datatype Arity = NoValue | OneValue

  /** One registered option; short and long are stored without leading dashes. */
  datatype OptionSpec = OptionSpec(short: string, long: string, description: string, arity: Arity, presence: Presence)

  /** What a parse produced: success, the indices of the options given, the values read. */
  datatype Outcome = Outcome(ok: bool, given: set<nat>, values: map<nat, string>)

  /** The name with all its leading dashes removed. */
  function Canonical(name: string): (r: string)
    ensures |r| == 0 || r[0] != '-'
    ensures |r| <= |name|
  {
    if |name| > 0 && name[0] == '-' then Canonical(name[1..]) else name
  }

  /** Canonical removes a prefix made only of dashes: what is left is a suffix of the name. */
  lemma {:induction false} CanonicalStripsDashes(name: string)
    ensures var r := Canonical(name);
            && r == name[|name| - |r|..]
            && forall j :: 0 <= j < |name| - |r| ==> name[j] == '-'
  {
    if |name| > 0 && name[0] == '-' {
      CanonicalStripsDashes(name[1..]);
      var r := Canonical(name);
      assert r == Canonical(name[1..]);
      assert name[1..][|name| - 1 - |r|..] == name[|name| - |r|..];
      forall j | 0 <= j < |name| - |r|
        ensures name[j] == '-'
      {
        if j > 0 {
          assert name[j] == name[1..][j - 1];
        }
      }
    }
  }

  /** A dash-free name is its own dash-free form. */
  lemma CanonicalIdempotent(name: string)
    ensures Canonical(Canonical(name)) == Canonical(name)
  {
  }

  /** The option answers to the (dash-free) name. */
  predicate Names(option: OptionSpec, name: string)
  {
    name == option.short || name == option.long
  }

  /** The first option from position start on that answers to name. */
  function FindFrom(options: seq<OptionSpec>, name: string, start: nat): (r: Option<nat>)
    ensures r.Some? ==> start <= r.value < |options| && Names(options[r.value], name)
    ensures r.Some? ==> forall j :: start <= j < r.value ==> !Names(options[j], name)
    ensures r.None? <==> forall j :: start <= j < |options| ==> !Names(options[j], name)
    decreases |options| - start
  {
    if start >= |options| then None
    else if Names(options[start], name) then Some(start)
    else FindFrom(options, name, start + 1)
  }

  /** The first option that answers to name. */
  function FindIn(options: seq<OptionSpec>, name: string): (r: Option<nat>)
    ensures r.Some? ==> r.value < |options| && Names(options[r.value], name)
    ensures r.Some? ==> forall j :: 0 <= j < r.value ==> !Names(options[j], name)
    ensures r.None? <==> forall j :: 0 <= j < |options| ==> !Names(options[j], name)
  {
    FindFrom(options, name, 0)
  }

  /** Every stored name is already dash-free. */
  predicate AllCanonical(options: seq<OptionSpec>)
  {
    forall k :: 0 <= k < |options| ==>
      Canonical(options[k].short) == options[k].short && Canonical(options[k].long) == options[k].long
  }

  /** No name answers to two different options. */
  predicate UniqueNames(options: seq<OptionSpec>)
  {
    forall i, j :: 0 <= i < j < |options| ==>
      && options[i].short != options[j].short && options[i].short != options[j].long
      && options[i].long != options[j].short && options[i].long != options[j].long
  }

  /** Every required option is among the given ones. */
  predicate RequiredGiven(options: seq<OptionSpec>, given: set<nat>)
  {
    forall k :: 0 <= k < |options| && options[k].presence == Required ==> k in given
  }

  /** The arguments proper: the vector without the program name. */
  function Arguments(argv: seq<string>): seq<string>
  {
    if |argv| == 0 then [] else argv[1..]
  }

  /**
   * Reads the arguments left to right. An argument must start with a dash and name an option;
   * a one-value option takes the next argument as its value. The first argument that breaks
   * these rules stops the scan with failure, keeping what was recorded before it.
   */
  function Scan(options: seq<OptionSpec>, args: seq<string>, given: set<nat>, values: map<nat, string>): (r: Outcome)
    ensures given <= r.given
    ensures forall k :: k in r.given && k !in given ==> k < |options|
    ensures values.Keys <= given ==> r.values.Keys <= r.given
    decreases |args|
  {
    if |args| == 0 then Outcome(true, given, values)
    else if |args[0]| == 0 || args[0][0] != '-' then Outcome(false, given, values)
    else match FindIn(options, Canonical(args[0]))
      case None => Outcome(false, given, values)
      case Some(k) =>
        if options[k].arity == NoValue then Scan(options, args[1..], given + {k}, values)
        else if |args| < 2 then Outcome(false, given, values)
        else Scan(options, args[2..], given + {k}, values[k := args[1]])
  }

  /**
   * Parsing argv against the options: it succeeds when there is at least one option, the scan
   * succeeds and every required option was given.
   */
  function ParseResult(options: seq<OptionSpec>, argv: seq<string>): (r: Outcome)
    ensures |options| == 0 ==> !r.ok
    ensures r.ok ==> RequiredGiven(options, r.given)
    ensures forall k :: k in r.given ==> k < |options|
    ensures r.values.Keys <= r.given
  {
    var scanned := Scan(options, Arguments(argv), {}, map[]);
    Outcome(|options| > 0 && scanned.ok && RequiredGiven(options, scanned.given), scanned.given, scanned.values)
  }

  /** Whether the option answering to name (with or without dashes) was given. */
  function IsSetIn(options: seq<OptionSpec>, given: set<nat>, name: string): bool
  {
    match FindIn(options, Canonical(name))
    case None => false
    case Some(k) => k in given
  }

  class CommandLineOptions {
    var Options: seq<OptionSpec>
    /** Indices of the options given in the last parse. */
    var Given: set<nat>
    /** Values read for one-value options in the last parse, by option index. */
    var Values: map<nat, string>

    /** Names are stored dash-free and each name answers to one option only. */
    predicate Valid()
      reads this
    {
      AllCanonical(Options) && UniqueNames(Options)
    }

    constructor ()
      ensures Valid()
      ensures Options == [] && Given == {} && Values == map[]
    {
      Options, Given, Values := [], {}, map[];
    }

    /** The index of the first option that answers to name, by a walk over the table. */
    method Find(name: string) returns (index: Option<nat>)
      ensures index == FindIn(Options, name)
    {
      var k := 0;
      while k < |Options|
        invariant 0 <= k <= |Options|
        invariant FindFrom(Options, name, k) == FindIn(Options, name)
      {
        if Names(Options[k], name) {
          return Some(k);
        }
        k := k + 1;
      }
      return None;
    }

    /**
     * Registers an option unless its short or long name, without leading dashes, is already a
     * short or long name of a registered option.
     */
    method AddOption(short: string, long: string, description: string, arity: Arity, presence: Presence)
      returns (ok: bool)
      modifies this
      ensures ok <==> FindIn(old(Options), Canonical(short)).None? && FindIn(old(Options), Canonical(long)).None?
      ensures Options ==
                if ok then old(Options) + [OptionSpec(Canonical(short), Canonical(long), description, arity, presence)]
                else old(Options)
      ensures Given == old(Given) && Values == old(Values)
      ensures old(Valid()) ==> Valid()
    {
      var shortName := Canonical(short);
      var longName := Canonical(long);
      var shortFound := Find(shortName);
      var longFound := Find(longName);
      if shortFound.Some? || longFound.Some? {
        return false;
      }
      var option := OptionSpec(shortName, longName, description, arity, presence);
      if Valid() {
        CanonicalIdempotent(short);
        CanonicalIdempotent(long);
        AppendKeepsValid(Options, option);
      }
      Options := Options + [option];
      return true;
    }

    /** Registers an optional option that takes no value. */
    method AddOptionNoValue(short: string, long: string, description: string) returns (ok: bool)
      modifies this
      ensures ok <==> FindIn(old(Options), Canonical(short)).None? && FindIn(old(Options), Canonical(long)).None?
      ensures Options ==
                if ok then old(Options) + [OptionSpec(Canonical(short), Canonical(long), description, NoValue, Optional)]
                else old(Options)
      ensures Given == old(Given) && Values == old(Values)
      ensures old(Valid()) ==> Valid()
    {
      ok := AddOption(short, long, description, NoValue, Optional);
    }

    /** Registers a required or optional option that takes one value. */
    method AddOptionOneValue(short: string, long: string, description: string, presence: Presence) returns (ok: bool)
      modifies this
      ensures ok <==> FindIn(old(Options), Canonical(short)).None? && FindIn(old(Options), Canonical(long)).None?
      ensures Options ==
                if ok then old(Options) + [OptionSpec(Canonical(short), Canonical(long), description, OneValue, presence)]
                else old(Options)
      ensures Given == old(Given) && Values == old(Values)
      ensures old(Valid()) ==> Valid()
    {
      ok := AddOption(short, long, description, OneValue, presence);
    }

    /**
     * Parses argv (argv[0] is the program name), recording the given options and their values
     * from scratch; the result is that of ParseResult.
     */
    method Parse(argv: seq<string>) returns (ok: bool)
      modifies this
      ensures Options == old(Options)
      ensures ok == ParseResult(Options, argv).ok
      ensures Given == ParseResult(Options, argv).given && Values == ParseResult(Options, argv).values
    {
      var scanOk := ScanArguments(Arguments(argv));
      var allRequired := AllRequiredGiven();
      ok := |Options| > 0 && scanOk && allRequired;
    }

    /**
     * Walks the arguments once, recording the options given and their values from scratch, and
     * stops at the first argument that is not an option, names no option or lacks its value.
     */
    method ScanArguments(args: seq<string>) returns (scanOk: bool)
      modifies this
      ensures Options == old(Options)
      ensures Scan(Options, args, {}, map[]) == Outcome(scanOk, Given, Values)
    {
      ghost var target := Scan(Options, args, {}, map[]);
      Given, Values := {}, map[];
      scanOk := true;
      var index := 0;
      while index < |args| && scanOk
        invariant 0 <= index <= |args|
        invariant Options == old(Options)
        invariant scanOk ==> Scan(Options, args[index..], Given, Values) == target
        invariant !scanOk ==> target == Outcome(false, Given, Values)
        decreases |args| - index, scanOk
      {
        var arg := args[index];
        assert args[index..][0] == arg;
        if |arg| == 0 || arg[0] != '-' {
          scanOk := false;
        } else {
          var found := Find(Canonical(arg));
          match found {
            case None =>
              scanOk := false;
            case Some(k) =>
              if Options[k].arity == NoValue {
                assert args[index..][1..] == args[index + 1..];
                Given := Given + {k};
                index := index + 1;
              } else if index + 1 >= |args| {
                scanOk := false;
              } else {
                assert args[index..][1] == args[index + 1];
                assert args[index..][2..] == args[index + 2..];
                Given := Given + {k};
                Values := Values[k := args[index + 1]];
                index := index + 2;
              }
          }
        }
      }
      if scanOk {
        assert args[index..] == [];
      }
    }

    /** Whether every required option is among the given ones, by a walk over the table. */
    method AllRequiredGiven() returns (allRequired: bool)
      ensures allRequired == RequiredGiven(Options, Given)
    {
      allRequired := true;
      var j := 0;
      while j < |Options|
        invariant 0 <= j <= |Options|
        invariant allRequired <==> forall k :: 0 <= k < j && Options[k].presence == Required ==> k in Given
      {
        if Options[j].presence == Required && j !in Given {
          allRequired := false;
        }
        j := j + 1;
      }
    }

    /** Whether the option answering to name, with or without leading dashes, was given. */
    function IsSet(name: string): (r: bool)
      reads this
      ensures r ==> exists k :: k in Given && k < |Options| && Names(Options[k], Canonical(name))
      ensures Valid() ==>
                forall k :: 0 <= k < |Options| && Names(Options[k], Canonical(name)) ==> (r <==> k in Given)
    {
      IsSetIn(Options, Given, name)
    }
  }

  /** Appending an option none of whose dash-free names is taken keeps the table valid. */
  lemma AppendKeepsValid(options: seq<OptionSpec>, option: OptionSpec)
    requires AllCanonical(options) && UniqueNames(options)
    requires option.short == Canonical(option.short) && option.long == Canonical(option.long)
    requires FindIn(options, option.short).None? && FindIn(options, option.long).None?
    ensures AllCanonical(options + [option]) && UniqueNames(options + [option])
  {
    var extended := options + [option];
    forall i, j | 0 <= i < j < |extended|
      ensures && extended[i].short != extended[j].short && extended[i].short != extended[j].long
              && extended[i].long != extended[j].short && extended[i].long != extended[j].long
    {
      if j == |options| {
        assert !Names(options[i], option.short) && !Names(options[i], option.long);
      }
    }
  }

  /** A leading dash makes no difference to the dash-free name. */
  lemma CanonicalDash(name: string)
    ensures Canonical("-" + name) == Canonical(name)
  {
    assert ("-" + name)[1..] == name;
  }

  /** With names unique, an option's own name finds that option. */
  lemma FindNamed(options: seq<OptionSpec>, k: nat, name: string)
    requires UniqueNames(options)
    requires k < |options| && Names(options[k], name)
    ensures FindIn(options, name) == Some(k)
  {
  }

  /** A dash-free name of option k, with or without one or two leading dashes, finds option k. */
  lemma {:induction false} FindAnySpelling(options: seq<OptionSpec>, k: nat, name: string)
    requires UniqueNames(options)
    requires k < |options| && Names(options[k], name) && Canonical(name) == name
    ensures FindIn(options, Canonical(name)) == Some(k)
    ensures FindIn(options, Canonical("-" + name)) == Some(k)
    ensures FindIn(options, Canonical("--" + name)) == Some(k)
  {
    FindNamed(options, k, name);
    CanonicalDash(name);
    CanonicalDash("-" + name);
    assert "--" + name == "-" + ("-" + name);
  }

  /**
   * IsSet answers the same for an option's short name, its long name, and both with one or two
   * leading dashes: whether that option was given.
   */
  lemma IsSetAnySpelling(c: CommandLineOptions, k: nat)
    requires c.Valid() && k < |c.Options|
    ensures c.IsSet(c.Options[k].short) <==> k in c.Given
    ensures c.IsSet(c.Options[k].long) <==> k in c.Given
    ensures c.IsSet("-" + c.Options[k].short) <==> k in c.Given
    ensures c.IsSet("--" + c.Options[k].short) <==> k in c.Given
    ensures c.IsSet("-" + c.Options[k].long) <==> k in c.Given
    ensures c.IsSet("--" + c.Options[k].long) <==> k in c.Given
  {
    FindAnySpelling(c.Options, k, c.Options[k].short);
    FindAnySpelling(c.Options, k, c.Options[k].long);
  }

  /** One argument of a well-formed command line: a flag, or an option followed by its value. */
  datatype Item = Flag(name: string) | Assign(name: string, value: string)

  /** The arguments that spell one item. */
  function Spelled(item: Item): seq<string>
  {
    match item
    case Flag(name) => [name]
    case Assign(name, value) => [name, value]
  }

  /** The arguments that spell the items, in order. */
  function Render(items: seq<Item>): seq<string>
  {
    if |items| == 0 then [] else Spelled(items[0]) + Render(items[1..])
  }

  /** The item spells option k: its name starts with a dash and finds k, and k takes a value iff the item has one. */
  predicate Spells(options: seq<OptionSpec>, item: Item, k: nat)
  {
    && |item.name| > 0 && item.name[0] == '-'
    && FindIn(options, Canonical(item.name)) == Some(k)
    && options[k].arity == (if item.Flag? then NoValue else OneValue)
  }

  /** The items spell options[ks[i]] in order, and no option appears twice. */
  predicate WellFormed(options: seq<OptionSpec>, items: seq<Item>, ks: seq<nat>)
    decreases |items|
  {
    && |items| == |ks|
    && (|items| > 0 ==>
          && Spells(options, items[0], ks[0])
          && ks[0] !in ks[1..]
          && WellFormed(options, items[1..], ks[1..]))
  }

  /** Scanning an item that spells option k records k, and its value, then goes on with the rest. */
  lemma ScanOne(options: seq<OptionSpec>, item: Item, k: nat, args: seq<string>,
                given: set<nat>, values: map<nat, string>)
    requires Spells(options, item, k)
    ensures Scan(options, Spelled(item) + args, given, values)
            == Scan(options, args, given + {k}, if item.Flag? then values else values[k := item.value])
  {
    var all := Spelled(item) + args;
    assert all[0] == item.name;
    if item.Flag? {
      assert all[1..] == args;
    } else {
      assert all[1] == item.value;
      assert all[2..] == args;
    }
  }

  /** Scanning a well-formed command line succeeds and gives exactly its options. */
  lemma {:induction false} ScanWellFormedGiven(options: seq<OptionSpec>, items: seq<Item>, ks: seq<nat>,
                                               given: set<nat>, values: map<nat, string>)
    requires WellFormed(options, items, ks)
    ensures Scan(options, Render(items), given, values).ok
    ensures forall x :: x in Scan(options, Render(items), given, values).given <==> x in given || x in ks
    decreases |items|
  {
    if |items| > 0 {
      var k := ks[0];
      var rest := items[1..];
      var values' := if items[0].Flag? then values else values[k := items[0].value];
      assert Scan(options, Render(items), given, values) == Scan(options, Render(rest), given + {k}, values') by {
        ScanOne(options, items[0], k, Render(rest), given, values);
        assert Render(items) == Spelled(items[0]) + Render(rest);
      }
      ScanWellFormedGiven(options, rest, ks[1..], given + {k}, values');
      assert ks == [k] + ks[1..];
    }
  }

  /**
   * Scanning a well-formed command line stores the value of every assignment and keeps every
   * earlier value of an option it does not name.
   */
  lemma {:induction false} ScanWellFormedValues(options: seq<OptionSpec>, items: seq<Item>, ks: seq<nat>,
                                                given: set<nat>, values: map<nat, string>)
    requires WellFormed(options, items, ks)
    ensures var r := Scan(options, Render(items), given, values);
            && (forall i :: 0 <= i < |items| && items[i].Assign? ==>
                  ks[i] in r.values && r.values[ks[i]] == items[i].value)
            && (forall x :: x in values && x !in ks ==> x in r.values && r.values[x] == values[x])
    decreases |items|
  {
    if |items| > 0 {
      var k := ks[0];
      var rest := items[1..];
      var values' := if items[0].Flag? then values else values[k := items[0].value];
      ScanOne(options, items[0], k, Render(rest), given, values);
      ScanWellFormedValues(options, rest, ks[1..], given + {k}, values');
      var r := Scan(options, Render(rest), given + {k}, values');
      assert Render(items) == Spelled(items[0]) + Render(rest);
      forall x | x in values && x !in ks
        ensures x in r.values && r.values[x] == values[x]
      {
        assert x != k && x !in ks[1..];
      }
      forall i | 0 <= i < |items| && items[i].Assign?
        ensures ks[i] in r.values && r.values[ks[i]] == items[i].value
      {
        if i > 0 {
          assert rest[i - 1] == items[i] && ks[1..][i - 1] == ks[i];
        } else {
          assert k in values' && values'[k] == items[0].value;
        }
      }
    }
  }

  /**
   * Parsing a well-formed command line gives exactly its options, stores every value, and
   * succeeds exactly when there is an option and every required one is among them.
   */
  lemma ParseWellFormed(options: seq<OptionSpec>, program: string, items: seq<Item>, ks: seq<nat>)
    requires WellFormed(options, items, ks)
    ensures var r := ParseResult(options, [program] + Render(items));
            && (forall x :: x in r.given <==> x in ks)
            && (forall i :: 0 <= i < |items| && items[i].Assign? ==> ks[i] in r.values && r.values[ks[i]] == items[i].value)
            && (r.ok <==> |options| > 0 && RequiredGiven(options, r.given))
  {
    assert Arguments([program] + Render(items)) == Render(items);
    ScanWellFormedGiven(options, items, ks, {}, map[]);
    ScanWellFormedValues(options, items, ks, {}, map[]);
  }

  /**
   * Options given before the scan fails stay recorded: when the first argument spells option k,
   * k is recorded whatever follows and whether or not the parse succeeds.
   */
  lemma FirstOptionRecorded(options: seq<OptionSpec>, program: string, item: Item, k: nat, rest: seq<string>)
    requires Spells(options, item, k)
    ensures k in ParseResult(options, [program] + Spelled(item) + rest).given
  {
    assert Arguments([program] + Spelled(item) + rest) == Spelled(item) + rest;
    ScanOne(options, item, k, rest, {}, map[]);
  }
}
