/**
 * parser.go: the Parser object, option registration and lookup, and Parse.
 *
 * Parse is specified by ParseRun, a function of the options' records, the
 * command line and the namespace's starting mapping. It walks the same four
 * phases as the Go code: seeding the defaults, resolving option tokens,
 * running the remainder options, and running the positional options.
 */
module Parsers {
  import opened Wrappers
  import opened Utils
  import opened Namespaces
  import Errors
  import Strconv
  import O = Options
  import A = Actions

  // ---------------------------------------------------------------------------
  // Program name
  // ---------------------------------------------------------------------------

  /** The text holds no occurrence of c. */
  predicate Avoids(s: string, c: char)
  {
    forall i :: 0 <= i < |s| ==> s[i] != c
  }

  /** The last piece strings.Split gives. */
  function LastPiece(s: string, c: char): string
  {
    var pieces := Split(s, c);
    pieces[|pieces| - 1]
  }

  /** The last '/'-separated segment of a path (the program name Path keeps). */
  function BaseName(path: string): (r: string)
    ensures Avoids(r, '/')
    ensures exists k :: 0 <= k <= |path| && r == path[k..]
    ensures Avoids(path, '/') ==> r == path
  {
    LastPieceIsSuffix(path, '/');
    if Avoids(path, '/') then
      SplitWithoutSeparator(path, '/');
      LastPiece(path, '/')
    else LastPiece(path, '/')
  }

  /** The last piece of a split is a suffix free of the separator, and a lone piece is the whole text. */
  lemma LastPieceIsSuffix(s: string, c: char)
    ensures Avoids(LastPiece(s, c), c)
    ensures exists k :: 0 <= k <= |s| && LastPiece(s, c) == s[k..]
    ensures |Split(s, c)| == 1 ==> Split(s, c)[0] == s
  {
    var k := LastPieceStart(s, c);
    assert s[0..] == s;
  }

  /**
   * The last piece of a split is the suffix from some k on, free of the
   * separator; when the split gives one piece, k is 0.
   */
  lemma {:induction false} LastPieceStart(s: string, c: char) returns (k: nat)
    ensures k <= |s| && LastPiece(s, c) == s[k..] && Avoids(s[k..], c)
    ensures |Split(s, c)| == 1 ==> k == 0
    decreases |s|
  {
    if s == [] {
      assert LastPiece(s, c) == s[0..];
      return 0;
    }
    var rest := Split(s[1..], c);
    assert Split(s, c) == if s[0] == c then [""] + rest else [[s[0]] + rest[0]] + rest[1..];
    var j := LastPieceStart(s[1..], c);
    assert s[1..][j..] == s[j + 1..];
    if s[0] == c || |rest| > 1 {
      assert LastPiece(s, c) == rest[|rest| - 1] == LastPiece(s[1..], c);
      k := j + 1;
    } else {
      assert rest[0] == s[1..] && j == 0;
      assert LastPiece(s, c) == [s[0]] + rest[0] == s[0..];
      k := 0;
    }
  }

  // ---------------------------------------------------------------------------
  // The phases of Parse, as functions
  // ---------------------------------------------------------------------------

  /** What Parse carries from step to step: the namespace's mapping, the leftovers, the pending required names. */
  datatype Stage = Stage(m: map<string, Value>, args: seq<string>, req: set<string>)

  /** A run: still going, stopped by an error (with the mapping it left behind), or stopped by a Go panic. */
  datatype Run = Going(st: Stage) | Failed(m: map<string, Value>, err: Errors.Error) | Panicked

  /** The mapping after every option's default is written under its destination, in declaration order. */
  function Seeded(ds: seq<O.OptionData>, m: map<string, Value>): map<string, Value>
    decreases |ds|
  {
    if ds == [] then m
    else Seeded(ds[..|ds| - 1], m)[ds[|ds| - 1].destName := Str(ds[|ds| - 1].defaultVal)]
  }

  /** The display names of the required options (the keys of requiredOptions). */
  function RequiredNames(ds: seq<O.OptionData>): set<string>
    decreases |ds|
  {
    if ds == [] then {}
    else RequiredNames(ds[..|ds| - 1]) + (if ds[|ds| - 1].isRequired then {ds[|ds| - 1].DisplayName()} else {})
  }

  /** An option whose arity is "r" or "R". */
  predicate IsRemainder(f: O.OptionData)
  {
    ToLower(f.argNum) == "r"
  }

  /**
   * remainderOptions: each display name of a remainder option, mapped to the
   * last such option declared with it (a later entry overwrites an earlier one).
   */
  function RemainderIndex(ds: seq<O.OptionData>): (r: map<string, nat>)
    ensures forall k :: k in r ==> r[k] < |ds| && IsRemainder(ds[r[k]]) && ds[r[k]].DisplayName() == k
    decreases |ds|
  {
    if ds == [] then map[]
    else
      var r := RemainderIndex(ds[..|ds| - 1]);
      if IsRemainder(ds[|ds| - 1]) then r[ds[|ds| - 1].DisplayName() := |ds| - 1] else r
  }

  /** Whether option f is the one a token may select, given the pending required names and the remainders. */
  predicate Eligible(f: O.OptionData, name: string, req: set<string>, rem: map<string, nat>)
  {
    !f.isPositional && f.IsPublicName(name) && (f.DisplayName() in req || f.DisplayName() !in rem)
  }

  /** The option a token selects: the first eligible one from index j on. */
  function Resolve(ds: seq<O.OptionData>, rem: map<string, nat>, req: set<string>, name: string, j: nat): (r: Maybe<nat>)
    ensures r.Some? ==> j <= r.value < |ds|
    decreases |ds| - j
  {
    if j >= |ds| then None
    else if Eligible(ds[j], name, req, rem) then Some(j)
    else Resolve(ds, rem, req, name, j + 1)
  }

  /**
   * Which reading of the source a run follows: AsWritten recognises a count
   * by `^[1-9]+$` and clears a positional option by its destination, as
   * actions.go and parser.go are written; Corrected uses `^[1-9][0-9]*$` and
   * the display name, as the rest of the package evidently intends.
   */
  datatype Reading = Corrected | AsWritten

  /** The pending-set entry a positional option clears. */
  function ClearedName(rd: Reading, f: O.OptionData): string
  {
    if rd.Corrected? then f.DisplayName() else f.destName
  }

  /** Runs option f's action on the leftovers; `req` is the pending set to continue with. */
  function Act(rd: Reading, f: O.OptionData, m: map<string, Value>, args: seq<string>, req: set<string>): Run
  {
    if !(if rd.Corrected? then A.Applicable(f, m, args) else A.ApplicableAsWritten(f, m, args)) then Panicked
    else
      var o := if rd.Corrected? then A.ActionOutcome(f, args) else A.ActionOutcomeAsWritten(f, args);
      var m' := A.Effect(m, f.destName, o.write);
      if o.err.Some? then Failed(m', o.err.value) else Going(Stage(m', o.rest, req))
  }

  /** An action run on the namespace, reported as a step of a run. */
  method Perform(space: Namespace, f: O.OptionData, args0: seq<string>, req: set<string>)
    returns (args: seq<string>, err: Maybe<Errors.Error>)
    requires !Act(Corrected, f, space.mapping, args0, req).Panicked?
    modifies space
    ensures var r := Act(Corrected, f, old(space.mapping), args0, req);
      && (r.Going? ==> err == None && r.st == Stage(space.mapping, args, req))
      && (r.Failed? ==> err == Some(r.err) && space.mapping == r.m)
  {
    args, err := A.Apply(space, f, args0);
  }

  /** One option token: select the option (clearing it if required) and run its action. */
  function TokenStep(rd: Reading, ds: seq<O.OptionData>, rem: map<string, nat>, name: string, st: Stage): Run
  {
    match Resolve(ds, rem, st.req, name, 0)
    case None => Failed(st.m, Errors.InvalidOption(name))
    case Some(i) => Act(rd, ds[i], st.m, st.args, st.req - {ds[i].DisplayName()})
  }

  /** The option tokens, one after the other, until one fails. */
  function Tokens(rd: Reading, ds: seq<O.OptionData>, rem: map<string, nat>, names: seq<string>, r: Run): Run
    decreases |names|
  {
    if names == [] || !r.Going? then r
    else Tokens(rd, ds, rem, names[1..], TokenStep(rd, ds, rem, names[0], r.st))
  }

  /** Whether option j is the remainder option kept under its display name. */
  predicate RunsAsRemainder(ds: seq<O.OptionData>, rix: map<string, nat>, j: nat)
    requires j < |ds|
  {
    ds[j].DisplayName() in rix && rix[ds[j].DisplayName()] == j
  }

  /** A remainder option: cleared if required, run on the full leftovers, its returned leftovers discarded. */
  function RemainderStep(rd: Reading, f: O.OptionData, st: Stage): Run
  {
    match Act(rd, f, st.m, st.args, st.req - {f.DisplayName()})
    case Going(s) => Going(s.(args := st.args))
    case other => other
  }

  /** The remainder options from index j on (the order of a Go map is not modelled: declaration order). */
  function Remainders(rd: Reading, ds: seq<O.OptionData>, rix: map<string, nat>, j: nat, r: Run): Run
    decreases |ds| - j
  {
    if j >= |ds| || !r.Going? then r
    else if RunsAsRemainder(ds, rix, j) then Remainders(rd, ds, rix, j + 1, RemainderStep(rd, ds[j], r.st))
    else Remainders(rd, ds, rix, j + 1, r)
  }

  /** The positional options from index j on, in declaration order, threading the leftovers. */
  function Positionals(rd: Reading, ds: seq<O.OptionData>, j: nat, r: Run): Run
    decreases |ds| - j
  {
    if j >= |ds| || !r.Going? then r
    else if ds[j].isPositional then Positionals(rd, ds, j + 1, Act(rd, ds[j], r.st.m, r.st.args, r.st.req - {ClearedName(rd, ds[j])}))
    else Positionals(rd, ds, j + 1, r)
  }

  /** The phases after the option tokens: remainders (only with leftovers), then positionals. */
  function Finish(rd: Reading, ds: seq<O.OptionData>, rix: map<string, nat>, r: Run): Run
  {
    Positionals(rd, ds, 0, if r.Going? && |r.st.args| > 0 then Remainders(rd, ds, rix, 0, r) else r)
  }

  /** The first stage: defaults seeded, leftovers extracted, every required option pending. */
  function Start(ds: seq<O.OptionData>, allArgs: seq<string>, m0: map<string, Value>): Stage
  {
    Stage(Seeded(ds, m0), Extracted(allArgs).1, RequiredNames(ds))
  }

  /**
   * Parse, up to the final check for pending required options: with a
   * pending option left Parse reports one of them, otherwise it returns the
   * namespace and the leftovers.
   */
  function ParseRun(rd: Reading, ds: seq<O.OptionData>, allArgs: seq<string>, m0: map<string, Value>): Run
  {
    var rix := RemainderIndex(ds);
    Finish(rd, ds, rix, Tokens(rd, ds, rix, Extracted(allArgs).0, Going(Start(ds, allArgs, m0))))
  }

  // ---------------------------------------------------------------------------
  // The Parser object
  // ---------------------------------------------------------------------------

  /** The option NewOption("h help", "help", "Show program help").Action(ShowHelp) holds. */
  function HelpOptionData(): O.OptionData
  {
    O.NewOptionData("h help", "help", "Show program help").(desiredAction := O.ShowHelp)
  }

  /** The option NewOption("v version", "version", "Show program version").Action(ShowVersion) holds. */
  function VersionOptionData(): O.OptionData
  {
    O.NewOptionData("v version", "version", "Show program version").(desiredAction := O.ShowVersion)
  }

  /** The first option, in declaration order, that has the public name. */
  function FirstNamed(ds: seq<O.OptionData>, name: string): (r: Maybe<nat>)
    ensures r.Some? ==> r.value < |ds|
    decreases |ds|
  {
    if ds == [] then None
    else if ds[0].IsPublicName(name) then Some(0)
    else match FirstNamed(ds[1..], name)
      case None => None
      case Some(i) => Some(i + 1)
  }

  class Parser {
    var programName: string
    var allowAbbrev: bool
    var options: seq<O.Option>
    var usageText: string
    var versionDesc: string
    var namespace: Namespace?

    /** NewParser: the description as usage text, a fresh namespace, the program name from the first OS argument. */
    constructor (desc: string, osArgs: seq<string>)
      ensures usageText == desc && options == [] && versionDesc == "" && !allowAbbrev
      ensures programName == (if |osArgs| >= 1 then BaseName(osArgs[0]) else "")
      ensures namespace != null && fresh(namespace) && namespace.mapping == map[]
    {
      programName := "";
      allowAbbrev := false;
      options := [];
      usageText := desc;
      versionDesc := "";
      namespace := new Namespace();
      if |osArgs| >= 1 {
        programName := BaseName(osArgs[0]);
      }
    }

    /** The records the options currently hold, in declaration order. */
    function Datas(): (ds: seq<O.OptionData>)
      reads this`options, options
      ensures |ds| == |options| && forall i :: 0 <= i < |options| ==> ds[i] == options[i].data
    {
      Records(options)
    }

    /** The mapping Parse starts from: the namespace's, or a new empty one. */
    function StartMapping(): map<string, Value>
      reads this`namespace, namespace
    {
      if namespace == null then map[] else namespace.mapping
    }

    method AddHelp() returns (self: Parser)
      modifies this
      ensures self == this && |options| == |old(options)| + 1 && options[..|old(options)|] == old(options)
      ensures fresh(options[|options| - 1]) && options[|options| - 1].data == HelpOptionData()
      ensures unchanged(old(options))
      ensures namespace == old(namespace) && programName == old(programName)
    {
      var help := new O.Option("h help", "help", "Show program help");
      help := help.Action(O.ShowHelp);
      options := options + [help];
      return this;
    }

    method AddVersion() returns (self: Parser)
      modifies this
      ensures self == this && |options| == |old(options)| + 1 && options[..|old(options)|] == old(options)
      ensures fresh(options[|options| - 1]) && options[|options| - 1].data == VersionOptionData()
      ensures unchanged(old(options))
      ensures namespace == old(namespace) && programName == old(programName)
    {
      var version := new O.Option("v version", "version", "Show program version");
      version := version.Action(O.ShowVersion);
      options := options + [version];
      return this;
    }

    method AddOption(f: O.Option) returns (self: Parser)
      modifies this
      ensures self == this && options == old(options) + [f]
      ensures namespace == old(namespace) && programName == old(programName)
    {
      options := options + [f];
      return this;
    }

    method AddOptions(opts: seq<O.Option>) returns (self: Parser)
      modifies this
      ensures self == this && options == old(options) + opts
      ensures namespace == old(namespace) && programName == old(programName)
    {
      var i := 0;
      while i < |opts|
        invariant 0 <= i <= |opts| && options == old(options) + opts[..i]
        invariant namespace == old(namespace) && programName == old(programName)
      {
        options := options + [opts[i]];
        assert opts[..i + 1] == opts[..i] + [opts[i]];
        i := i + 1;
      }
      assert opts[..|opts|] == opts;
      return this;
    }

    /** GetOption: an empty name is refused; otherwise the first option with the public name, else an error. */
    method GetOption(name: string) returns (opt: O.Option?, err: Maybe<Errors.Error>)
      ensures |name| == 0 ==> opt == null && err == Some(Errors.InvalidFlagName(name))
      ensures |name| > 0 ==> match FirstNamed(Datas(), name)
        case Some(i) => opt == options[i] && err == None
        case None => opt == null && err == Some(Errors.InvalidFlagName(name))
    {
      if |name| <= 0 {
        return null, Some(Errors.InvalidFlagName(name));
      }
      var i := 0;
      while i < |options|
        invariant 0 <= i <= |options|
        invariant FirstNamed(Datas(), name) == ShiftBy(FirstNamed(Datas()[i..], name), i)
      {
        assert Datas()[i..][1..] == Datas()[i + 1..];
        if options[i].data.IsPublicName(name) {
          return options[i], None;
        }
        i := i + 1;
      }
      return null, Some(Errors.InvalidFlagName(name));
    }

    /** GetVersion: the program name, " version ", then the version text. */
    function GetVersion(): (r: string)
      reads this
      ensures |r| == |programName| + 9 + |versionDesc|
      ensures r[..|programName|] == programName && r[|programName| + 9..] == versionDesc
      ensures r[|programName|..|programName| + 9] == " version "
    {
      programName + " version " + versionDesc
    }

    /** Path: the program name becomes the last segment of the path. */
    method Path(progPath: string) returns (self: Parser)
      modifies this
      ensures self == this && programName == BaseName(progPath)
      ensures options == old(options) && namespace == old(namespace) && usageText == old(usageText)
      ensures versionDesc == old(versionDesc) && allowAbbrev == old(allowAbbrev)
    {
      var paths := Split(progPath, '/');
      self := Prog(paths[|paths| - 1]);
    }

    method Prog(name: string) returns (self: Parser)
      modifies this
      ensures self == this && programName == name
      ensures options == old(options) && namespace == old(namespace) && usageText == old(usageText)
      ensures versionDesc == old(versionDesc) && allowAbbrev == old(allowAbbrev)
    {
      programName := name;
      return this;
    }

    method Usage(usage: string) returns (self: Parser)
      modifies this
      ensures self == this && usageText == usage
      ensures options == old(options) && namespace == old(namespace) && programName == old(programName)
      ensures versionDesc == old(versionDesc) && allowAbbrev == old(allowAbbrev)
    {
      usageText := usage;
      return this;
    }

    method Version(version: string) returns (self: Parser)
      modifies this
      ensures self == this && versionDesc == version
      ensures options == old(options) && namespace == old(namespace) && programName == old(programName)
      ensures usageText == old(usageText) && allowAbbrev == old(allowAbbrev)
    {
      versionDesc := version;
      return this;
    }

    /** The first loop of Parse: seeds every default and collects the required and the remainder options. */
    method SeedDefaults(space: Namespace) returns (required: set<string>, remainders: map<string, nat>)
      modifies space
      ensures space.mapping == Seeded(Datas(), old(space.mapping))
      ensures required == RequiredNames(Datas()) && remainders == RemainderIndex(Datas())
    {
      ghost var ds := Datas();
      required, remainders := {}, map[];
      var i := 0;
      while i < |options|
        invariant 0 <= i <= |options| && Datas() == ds
        invariant space.mapping == Seeded(ds[..i], old(space.mapping))
        invariant required == RequiredNames(ds[..i]) && remainders == RemainderIndex(ds[..i])
      {
        var f := options[i].data;
        assert ds[..i + 1][..i] == ds[..i];
        if f.isRequired {
          required := required + {f.DisplayName()};
        }
        var _ := space.Set(f.destName, Str(f.defaultVal));
        if ToLower(f.argNum) == "r" {
          remainders := remainders[f.DisplayName() := i];
        }
        i := i + 1;
      }
      assert ds[..|ds|] == ds;
    }

    /** The option lookup for one token; a selected required option is no longer pending. */
    method Select(name: string, required: set<string>, remainders: map<string, nat>)
      returns (option: int, pending: set<string>)
      ensures option < 0 ==> Resolve(Datas(), remainders, required, name, 0) == None && pending == required
      ensures option >= 0 ==> Resolve(Datas(), remainders, required, name, 0) == Some(option)
                              && pending == required - {Datas()[option].DisplayName()}
    {
      ghost var ds := Datas();
      option, pending := -1, required;
      var j := 0;
      while option < 0 && j < |options|
        invariant 0 <= j <= |options| && -1 <= option < |options|
        invariant option < 0 ==> pending == required && Resolve(ds, remainders, required, name, 0) == Resolve(ds, remainders, required, name, j)
        invariant option >= 0 ==> Resolve(ds, remainders, required, name, 0) == Some(option)
                                  && pending == required - {ds[option].DisplayName()}
      {
        var f := options[j].data;
        if !f.isPositional && f.IsPublicName(name) {
          if f.DisplayName() in pending {
            pending := pending - {f.DisplayName()};
            option := j;
          } else if f.DisplayName() !in remainders {
            option := j;
          }
        }
        j := j + 1;
      }
    }

    /** The second loop of Parse: each option token selects an option and runs its action. */
    method RunTokens(space: Namespace, names: seq<string>, args0: seq<string>, required0: set<string>, remainders: map<string, nat>)
      returns (args: seq<string>, required: set<string>, err: Maybe<Errors.Error>)
      requires !Tokens(Corrected, Datas(), remainders, names, Going(Stage(space.mapping, args0, required0))).Panicked?
      modifies space
      ensures var r := Tokens(Corrected, Datas(), remainders, names, Going(Stage(old(space.mapping), args0, required0)));
        && (r.Going? ==> err == None && r.st == Stage(space.mapping, args, required))
        && (r.Failed? ==> err == Some(r.err) && space.mapping == r.m)
    {
      ghost var ds := Datas();
      ghost var run := Tokens(Corrected, ds, remainders, names, Going(Stage(space.mapping, args0, required0)));
      args, required := args0, required0;
      var k := 0;
      while k < |names|
        invariant 0 <= k <= |names| && Datas() == ds
        invariant run == Tokens(Corrected, ds, remainders, names[k..], Going(Stage(space.mapping, args, required)))
      {
        ghost var st := Stage(space.mapping, args, required);
        assert names[k..][1..] == names[k + 1..];
        assert run == Tokens(Corrected, ds, remainders, names[k + 1..], TokenStep(Corrected, ds, remainders, names[k], st));
        var option, pending := Select(names[k], required, remainders);
        if option < 0 {
          assert TokenStep(Corrected, ds, remainders, names[k], st) == Failed(st.m, Errors.InvalidOption(names[k]));
          return args, required, Some(Errors.InvalidOption(names[k]));
        }
        assert TokenStep(Corrected, ds, remainders, names[k], st) == Act(Corrected, ds[option], st.m, st.args, pending);
        var e;
        args, e := Perform(space, options[option].data, args, pending);
        required := pending;
        if e.Some? {
          return args, required, e;
        }
        k := k + 1;
      }
      return args, required, None;
    }

    /** The third loop of Parse: every remainder option runs on the full leftovers. */
    method RunRemainders(space: Namespace, args: seq<string>, required0: set<string>, remainders: map<string, nat>)
      returns (required: set<string>, err: Maybe<Errors.Error>)
      requires !Remainders(Corrected, Datas(), remainders, 0, Going(Stage(space.mapping, args, required0))).Panicked?
      modifies space
      ensures var r := Remainders(Corrected, Datas(), remainders, 0, Going(Stage(old(space.mapping), args, required0)));
        && (r.Going? ==> err == None && r.st == Stage(space.mapping, args, required))
        && (r.Failed? ==> err == Some(r.err) && space.mapping == r.m)
    {
      ghost var ds := Datas();
      ghost var run := Remainders(Corrected, ds, remainders, 0, Going(Stage(space.mapping, args, required0)));
      required := required0;
      var j := 0;
      while j < |options|
        invariant 0 <= j <= |options| && Datas() == ds
        invariant run == Remainders(Corrected, ds, remainders, j, Going(Stage(space.mapping, args, required)))
      {
        var f := options[j].data;
        if f.DisplayName() in remainders && remainders[f.DisplayName()] == j {
          required := required - {f.DisplayName()};
          var _, e := Perform(space, f, args, required);
          if e.Some? {
            return required, e;
          }
        }
        j := j + 1;
      }
      return required, None;
    }

    /** The fourth loop of Parse: the positional options in declaration order, threading the leftovers. */
    method RunPositionals(space: Namespace, args0: seq<string>, required0: set<string>)
      returns (args: seq<string>, required: set<string>, err: Maybe<Errors.Error>)
      requires !Positionals(Corrected, Datas(), 0, Going(Stage(space.mapping, args0, required0))).Panicked?
      modifies space
      ensures var r := Positionals(Corrected, Datas(), 0, Going(Stage(old(space.mapping), args0, required0)));
        && (r.Going? ==> err == None && r.st == Stage(space.mapping, args, required))
        && (r.Failed? ==> err == Some(r.err) && space.mapping == r.m)
    {
      ghost var ds := Datas();
      ghost var run := Positionals(Corrected, ds, 0, Going(Stage(space.mapping, args0, required0)));
      args, required := args0, required0;
      var j := 0;
      while j < |options|
        invariant 0 <= j <= |options| && Datas() == ds
        invariant run == Positionals(Corrected, ds, j, Going(Stage(space.mapping, args, required)))
      {
        var f := options[j].data;
        if f.isPositional {
          required := required - {f.DisplayName()};
          var e;
          args, e := Perform(space, f, args, required);
          if e.Some? {
            return args, required, e;
          }
        }
        j := j + 1;
      }
      return args, required, None;
    }

    /** The four phases of Parse on a given namespace. */
    method ParseInto(space: Namespace, allArgs: seq<string>) returns (ok: bool, rest: seq<string>, err: Maybe<Errors.Error>)
      requires !ParseRun(Corrected, Datas(), allArgs, space.mapping).Panicked?
      modifies space
      ensures var r := ParseRun(Corrected, Datas(), allArgs, old(space.mapping));
        && (r.Failed? ==> !ok && rest == [] && err == Some(r.err) && space.mapping == r.m)
        && (r.Going? && r.st.req == {} ==> ok && rest == r.st.args && err == None && space.mapping == r.st.m)
        && (r.Going? && r.st.req != {} ==>
              !ok && rest == [] && space.mapping == r.st.m
              && err.Some? && err.value.MissingOption? && err.value.name in r.st.req)
    {
      ghost var ds := Datas();
      ghost var run := ParseRun(Corrected, ds, allArgs, space.mapping);
      ghost var m0 := space.mapping;
      var required, remainders := SeedDefaults(space);
      var names, args := ExtractOptions(allArgs);
      ghost var r1 := Tokens(Corrected, ds, remainders, names, Going(Start(ds, allArgs, m0)));
      assert Start(ds, allArgs, m0) == Stage(space.mapping, args, required);
      assert run == Finish(Corrected, ds, remainders, r1);
      args, required, err := RunTokens(space, names, args, required, remainders);
      if err.Some? {
        assert r1.Failed?;
        return false, [], err;
      }
      assert r1 == Going(Stage(space.mapping, args, required));
      ghost var r2 := if |args| > 0 then Remainders(Corrected, ds, remainders, 0, r1) else r1;
      assert run == Positionals(Corrected, ds, 0, r2);
      if |args| > 0 {
        required, err := RunRemainders(space, args, required, remainders);
        if err.Some? {
          assert r2.Failed?;
          return false, [], err;
        }
      }
      assert r2 == Going(Stage(space.mapping, args, required));
      args, required, err := RunPositionals(space, args, required);
      if err.Some? {
        assert run.Failed?;
        return false, [], err;
      }
      assert run == Going(Stage(space.mapping, args, required));
      if |required| != 0 {
        var name :| name in required;
        return false, [], Some(Errors.MissingOption(name));
      }
      return true, args, None;
    }

    /**
     * Parse: on success the namespace and the final leftovers; on an error
     * no namespace, no leftovers, the error, and the namespace left as the
     * failing step left it.
     */
    method Parse(allArgs: seq<string>) returns (ns: Namespace?, rest: seq<string>, err: Maybe<Errors.Error>)
      requires !ParseRun(Corrected, Datas(), allArgs, StartMapping()).Panicked?
      modifies this, namespace
      ensures namespace != null && (old(namespace) != null ==> namespace == old(namespace))
      ensures options == old(options) && programName == old(programName) && usageText == old(usageText)
      ensures versionDesc == old(versionDesc) && allowAbbrev == old(allowAbbrev)
      ensures var r := ParseRun(Corrected, old(Datas()), allArgs, old(StartMapping()));
        && (r.Failed? ==> ns == null && rest == [] && err == Some(r.err) && namespace.mapping == r.m)
        && (r.Going? && r.st.req == {} ==>
              ns == namespace && rest == r.st.args && err == None && namespace.mapping == r.st.m)
        && (r.Going? && r.st.req != {} ==>
              ns == null && rest == [] && namespace.mapping == r.st.m
              && err.Some? && err.value.MissingOption? && err.value.name in r.st.req)
    {
      if namespace == null {
        namespace := new Namespace();
      }
      var ok;
      ok, rest, err := ParseInto(namespace, allArgs);
      ns := if ok then namespace else null;
    }
  }

  /** The records a sequence of options holds. */
  function Records(opts: seq<O.Option>): (ds: seq<O.OptionData>)
    reads opts
    ensures |ds| == |opts| && forall i :: 0 <= i < |opts| ==> ds[i] == opts[i].data
  {
    seq(|opts|, i reads opts requires 0 <= i < |opts| => opts[i].data)
  }

  function ShiftBy(r: Maybe<nat>, n: nat): Maybe<nat>
  {
    match r
    case None => None
    case Some(i) => Some(i + n)
  }

  // ---------------------------------------------------------------------------
  // Properties
  // ---------------------------------------------------------------------------

  /** A token selects the first option, in declaration order, that it may select; none means none may. */
  lemma {:induction false} ResolveIsFirstEligible(ds: seq<O.OptionData>, rem: map<string, nat>, req: set<string>, name: string, j: nat)
    ensures var r := Resolve(ds, rem, req, name, j);
      && (r.Some? ==> Eligible(ds[r.value], name, req, rem)
                      && forall k :: j <= k < r.value ==> !Eligible(ds[k], name, req, rem))
      && (r.None? <==> forall k :: j <= k < |ds| ==> !Eligible(ds[k], name, req, rem))
    decreases |ds| - j
  {
    if j < |ds| && !Eligible(ds[j], name, req, rem) {
      ResolveIsFirstEligible(ds, rem, req, name, j + 1);
    }
  }

  /** GetOption's search: the first option with the public name, and none means no option has it. */
  lemma {:induction false} FirstNamedIsFirst(ds: seq<O.OptionData>, name: string)
    ensures var r := FirstNamed(ds, name);
      && (r.Some? ==> ds[r.value].IsPublicName(name) && forall k :: 0 <= k < r.value ==> !ds[k].IsPublicName(name))
      && (r.None? <==> forall k :: 0 <= k < |ds| ==> !ds[k].IsPublicName(name))
    decreases |ds|
  {
    if ds != [] && !ds[0].IsPublicName(name) {
      FirstNamedIsFirst(ds[1..], name);
      assert forall k :: 1 <= k < |ds| ==> ds[k] == ds[1..][k - 1];
    }
  }

  /** After seeding, every declared destination is a key, holding the default of the last option that names it. */
  lemma {:induction false} SeededHasEveryDest(ds: seq<O.OptionData>, m: map<string, Value>)
    ensures m.Keys <= Seeded(ds, m).Keys
    ensures forall i :: 0 <= i < |ds| ==> ds[i].destName in Seeded(ds, m)
    ensures forall i :: 0 <= i < |ds| && (forall k :: i < k < |ds| ==> ds[k].destName != ds[i].destName) ==>
              Seeded(ds, m)[ds[i].destName] == Str(ds[i].defaultVal)
    decreases |ds|
  {
    if ds != [] {
      var p := ds[..|ds| - 1];
      SeededHasEveryDest(p, m);
      assert forall i :: 0 <= i < |p| ==> p[i] == ds[i];
    }
  }

  /** A run keeps every key of the mapping it started from, whether it goes on or stops with an error. */
  predicate KeepsKeys(m: map<string, Value>, r: Run)
  {
    && (r.Going? ==> m.Keys <= r.st.m.Keys)
    && (r.Failed? ==> m.Keys <= r.m.Keys)
  }

  lemma ActKeepsKeys(f: O.OptionData, m: map<string, Value>, args: seq<string>, req: set<string>)
    ensures KeepsKeys(m, Act(Corrected, f, m, args, req))
  {
    if A.Applicable(f, m, args) {
      A.EffectKeepsKeys(m, f.destName, A.ActionOutcome(f, args).write);
    }
  }

  lemma {:induction false} TokensKeepKeys(ds: seq<O.OptionData>, rem: map<string, nat>, names: seq<string>, st: Stage)
    ensures KeepsKeys(st.m, Tokens(Corrected, ds, rem, names, Going(st)))
    decreases |names|
  {
    if names != [] {
      var r := TokenStep(Corrected, ds, rem, names[0], st);
      match Resolve(ds, rem, st.req, names[0], 0)
      case None =>
      case Some(i) => ActKeepsKeys(ds[i], st.m, st.args, st.req - {ds[i].DisplayName()});
      if r.Going? {
        TokensKeepKeys(ds, rem, names[1..], r.st);
      }
    }
  }

  lemma {:induction false} RemaindersKeepKeys(ds: seq<O.OptionData>, rix: map<string, nat>, j: nat, st: Stage)
    ensures KeepsKeys(st.m, Remainders(Corrected, ds, rix, j, Going(st)))
    decreases |ds| - j
  {
    if j < |ds| {
      if RunsAsRemainder(ds, rix, j) {
        ActKeepsKeys(ds[j], st.m, st.args, st.req - {ds[j].DisplayName()});
        var r := RemainderStep(Corrected, ds[j], st);
        if r.Going? {
          RemaindersKeepKeys(ds, rix, j + 1, r.st);
        }
      } else {
        RemaindersKeepKeys(ds, rix, j + 1, st);
      }
    }
  }

  lemma {:induction false} PositionalsKeepKeys(ds: seq<O.OptionData>, j: nat, st: Stage)
    ensures KeepsKeys(st.m, Positionals(Corrected, ds, j, Going(st)))
    decreases |ds| - j
  {
    if j < |ds| {
      if ds[j].isPositional {
        var r := Act(Corrected, ds[j], st.m, st.args, st.req - {ds[j].DisplayName()});
        ActKeepsKeys(ds[j], st.m, st.args, st.req - {ds[j].DisplayName()});
        if r.Going? {
          PositionalsKeepKeys(ds, j + 1, r.st);
        }
      } else {
        PositionalsKeepKeys(ds, j + 1, st);
      }
    }
  }

  /** Every declared destination is a key of the namespace after Parse, whether it succeeds or fails in an action. */
  lemma ParseKeepsEveryDest(ds: seq<O.OptionData>, allArgs: seq<string>, m0: map<string, Value>)
    ensures var r := ParseRun(Corrected, ds, allArgs, m0);
      && (r.Going? ==> forall i :: 0 <= i < |ds| ==> ds[i].destName in r.st.m)
      && (r.Failed? ==> forall i :: 0 <= i < |ds| ==> ds[i].destName in r.m)
  {
    var st := Start(ds, allArgs, m0);
    var rix := RemainderIndex(ds);
    SeededHasEveryDest(ds, m0);
    var r1 := Tokens(Corrected, ds, rix, Extracted(allArgs).0, Going(st));
    TokensKeepKeys(ds, rix, Extracted(allArgs).0, st);
    if r1.Going? {
      var r2 := if |r1.st.args| > 0 then Remainders(Corrected, ds, rix, 0, r1) else r1;
      if |r1.st.args| > 0 {
        RemaindersKeepKeys(ds, rix, 0, r1.st);
      }
      if r2.Going? {
        PositionalsKeepKeys(ds, 0, r2.st);
      }
    }
  }

  /** A token no non-positional option has stops Parse with InvalidOption naming it, the mapping untouched. */
  lemma UnknownTokenFails(ds: seq<O.OptionData>, rem: map<string, nat>, name: string, rest: seq<string>, st: Stage)
    requires forall k :: 0 <= k < |ds| ==> ds[k].isPositional || !ds[k].IsPublicName(name)
    ensures Tokens(Corrected, ds, rem, [name] + rest, Going(st)) == Failed(st.m, Errors.InvalidOption(name))
  {
    ResolveIsFirstEligible(ds, rem, st.req, name, 0);
    assert ([name] + rest)[1..] == rest;
  }

  /** A required option a token selects is no longer pending once its action has run. */
  lemma SelectedRequiredIsCleared(ds: seq<O.OptionData>, rem: map<string, nat>, name: string, st: Stage)
    requires Resolve(ds, rem, st.req, name, 0).Some?
    ensures var i := Resolve(ds, rem, st.req, name, 0).value;
      var r := TokenStep(Corrected, ds, rem, name, st);
      r.Going? ==> ds[i].DisplayName() !in r.st.req && r.st.req <= st.req
  {
  }

  /** Remainder options never change the leftovers: their returned lists are discarded. */
  lemma {:induction false} RemaindersKeepLeftovers(ds: seq<O.OptionData>, rix: map<string, nat>, j: nat, st: Stage)
    ensures var r := Remainders(Corrected, ds, rix, j, Going(st));
      r.Going? ==> r.st.args == st.args && r.st.req <= st.req
    decreases |ds| - j
  {
    if j < |ds| {
      if RunsAsRemainder(ds, rix, j) {
        var r := RemainderStep(Corrected, ds[j], st);
        if r.Going? {
          RemaindersKeepLeftovers(ds, rix, j + 1, r.st);
        }
      } else {
        RemaindersKeepLeftovers(ds, rix, j + 1, st);
      }
    }
  }

  /** Once the positional phase gets through, no positional option's display name is pending. */
  lemma {:induction false} PositionalsClearTheirNames(ds: seq<O.OptionData>, j: nat, st: Stage)
    ensures var r := Positionals(Corrected, ds, j, Going(st));
      r.Going? ==> r.st.req <= st.req
                   && forall k :: j <= k < |ds| && ds[k].isPositional ==> ds[k].DisplayName() !in r.st.req
    decreases |ds| - j
  {
    if j < |ds| {
      if ds[j].isPositional {
        var r := Act(Corrected, ds[j], st.m, st.args, st.req - {ds[j].DisplayName()});
        if r.Going? {
          PositionalsClearTheirNames(ds, j + 1, r.st);
        }
      } else {
        PositionalsClearTheirNames(ds, j + 1, st);
      }
    }
  }

  /** AddHelp's option: public names "h" and "help", shown as "-h, --help", destination "help". */
  lemma HelpOptionNames()
    ensures HelpOptionData().publicNames == ["h", "help"]
    ensures HelpOptionData().DisplayName() == "-h, --help"
    ensures HelpOptionData().destName == "help" && HelpOptionData().desiredAction == O.ShowHelp
  {
    assert "h help" == "h" + " help";
    SplitPrefixWithoutSeparator("h", " help", ' ');
    assert " help"[1..] == "help";
    SplitWithoutSeparator("help", ' ');
    assert Split(" help", ' ') == [""] + Split("help", ' ') == ["", "help"];
    assert "h" + "" == "h";
    assert Split("h help", ' ') == ["h" + ""] + ["help"] == ["h", "help"];
    var d := HelpOptionData();
    var shown := seq(|d.publicNames|, i requires 0 <= i < |d.publicNames| => O.Decorated(d.publicNames[i], d.isPositional));
    assert O.Decorated("h", false) == "-h" && O.Decorated("help", false) == "--help";
    assert shown == ["-h", "--help"];
    assert Joined(", ", shown) == "-h" + ", " + Joined(", ", ["--help"]);
  }

  // ---------------------------------------------------------------------------
  // Positional options are cleared by destination as written
  // ---------------------------------------------------------------------------

  /** A required positional option whose destination differs from its name. */
  function NamedPositional(): O.OptionData
  {
    O.NewOptionData("name", "dest", "").(argNum := "1", desiredAction := O.Store, isPositional := true, isRequired := true)
  }

  lemma NamedPositionalFacts()
    ensures NamedPositional().DisplayName() == "name"
    ensures RequiredNames([NamedPositional()]) == {"name"}
    ensures RemainderIndex([NamedPositional()]) == map[]
    ensures Extracted(["value"]) == ([], ["value"])
    ensures A.StoreOutcome(NamedPositional(), ["value"]) == A.Outcome(A.Put(Str("value")), [], None)
  {
    var d := NamedPositional();
    assert d.DisplayName() == "name" by {
      SplitWithoutSeparator("name", ' ');
      assert d.publicNames == ["name"];
    }
    assert RequiredNames([d]) == RequiredNames([]) + {d.DisplayName()};
    assert RemainderIndex([d]) == map[] by {
      assert ToLower("1") == "1";
    }
    assert Extracted(["value"]) == ([], ["value"]) by {
      ExtractedCons("value", []);
      assert ["value"] + [] == ["value"];
      assert Extracted([]) == ([], []);
      assert !IsOptionToken("value") by { assert "value"[0] == 'v'; }
    }
    assert A.IsCount("1");
    assert Strconv.DecimalValue("1") == 1 by {
      assert "1"[..0] == [];
    }
    A.StoreExact(d, ["value"]);
  }

  /**
   * As written, a required positional option whose destination is not its
   * display name stays pending after it has consumed its argument, so Parse
   * reports it missing; the corrected phase clears it.
   */
  lemma PositionalClearedByDestAsWritten()
    ensures ParseRun(AsWritten, [NamedPositional()], ["value"], map[]) ==
              Going(Stage(map["dest" := Str("value")], [], {"name"}))
    ensures ParseRun(Corrected, [NamedPositional()], ["value"], map[]) ==
              Going(Stage(map["dest" := Str("value")], [], {}))
  {
    NamedPositionalFacts();
    var d := NamedPositional();
    var st := Start([d], ["value"], map[]);
    assert st == Stage(map["dest" := Str("")], ["value"], {"name"});
    assert Tokens(Corrected, [d], map[], [], Going(st)) == Going(st);
    assert Remainders(Corrected, [d], map[], 0, Going(st)) == Going(st);
    assert A.ActionOutcome(d, ["value"]) == A.Outcome(A.Put(Str("value")), [], None);
    assert map["dest" := Str("")]["dest" := Str("value")] == map["dest" := Str("value")];
    assert Tokens(AsWritten, [d], map[], [], Going(st)) == Going(st);
    assert Remainders(AsWritten, [d], map[], 0, Going(st)) == Going(st);
    assert A.ActionOutcomeAsWritten(d, ["value"]) == A.Outcome(A.Put(Str("value")), [], None);
    assert Act(AsWritten, d, st.m, st.args, {"name"} - {"dest"}) == Going(Stage(map["dest" := Str("value")], [], {"name"}));
    assert Act(Corrected, d, st.m, st.args, {"name"} - {"name"}) == Going(Stage(map["dest" := Str("value")], [], {}));
  }

  // ---------------------------------------------------------------------------
  // An exact arity of ten is not a count as written
  // ---------------------------------------------------------------------------

  /** An optional positional option that stores exactly ten arguments, from any choice. */
  predicate TenPositional(d: O.OptionData)
  {
    d.argNum == "10" && d.desiredAction.Store? && d.isPositional && !d.isRequired && d.validChoices == []
  }

  /** Such an option alone seeds its default, leaves nothing pending and is no remainder option. */
  lemma TenPositionalStart(d: O.OptionData, allArgs: seq<string>)
    requires TenPositional(d) && Extracted(allArgs) == ([], allArgs)
    ensures Start([d], allArgs, map[]) == Stage(map[d.destName := Str(d.defaultVal)], allArgs, {})
    ensures RemainderIndex([d]) == map[]
  {
    assert RequiredNames([d]) == RequiredNames([]) + {};
    assert [d][..0] == [];
    assert Seeded([d], map[]) == Seeded([], map[])[d.destName := Str(d.defaultVal)];
    assert ToLower("10") == "10";
  }

  /** After the option tokens, a lone positional option is its action on all the leftovers. */
  lemma LonePositionalFinish(rd: Reading, d: O.OptionData, st: Stage)
    requires d.isPositional && st.req == {} && |st.args| > 0
    ensures Finish(rd, [d], map[], Going(st)) == Act(rd, d, st.m, st.args, {})
  {
    assert Remainders(rd, [d], map[], 0, Going(st)) == Going(st) by {
      assert !RunsAsRemainder([d], map[], 0);
      assert Remainders(rd, [d], map[], 1, Going(st)) == Going(st);
    }
    assert {} - {ClearedName(rd, d)} == {};
    var r := Act(rd, d, st.m, st.args, {});
    assert Positionals(rd, [d], 1, r) == r;
  }

  /** With no option tokens, a parse over such an option alone is its action on all the leftovers. */
  lemma TenPositionalRun(rd: Reading, d: O.OptionData, allArgs: seq<string>)
    requires TenPositional(d) && Extracted(allArgs) == ([], allArgs) && |allArgs| > 0
    ensures ParseRun(rd, [d], allArgs, map[]) == Act(rd, d, map[d.destName := Str(d.defaultVal)], allArgs, {})
  {
    TenPositionalStart(d, allArgs);
    var st := Start([d], allArgs, map[]);
    assert Tokens(rd, [d], map[], [], Going(st)) == Going(st);
    LonePositionalFinish(rd, d, st);
  }

  /**
   * As written, a positional option of arity "10" stores nothing and leaves
   * every argument over; the corrected parse stores the first ten of them.
   */
  lemma {:induction false} TenPositionalIgnoredAsWritten(d: O.OptionData, allArgs: seq<string>)
    requires TenPositional(d) && Extracted(allArgs) == ([], allArgs) && |allArgs| >= 10
    ensures ParseRun(AsWritten, [d], allArgs, map[]) ==
              Going(Stage(map[d.destName := Str(d.defaultVal)], allArgs, {}))
    ensures ParseRun(Corrected, [d], allArgs, map[]) ==
              Going(Stage(map[d.destName := List(allArgs[..10])], allArgs[10..], {}))
  {
    var m := map[d.destName := Str(d.defaultVal)];
    TenPositionalRun(AsWritten, d, allArgs);
    TenPositionalRun(Corrected, d, allArgs);
    TenPositionalActs(d, allArgs, m);
    assert m[d.destName := List(allArgs[..10])] == map[d.destName := List(allArgs[..10])];
  }

  /** The action of such an option on ten or more arguments, in both readings. */
  lemma TenPositionalActs(d: O.OptionData, allArgs: seq<string>, m: map<string, Value>)
    requires TenPositional(d) && |allArgs| >= 10
    ensures Act(AsWritten, d, m, allArgs, {}) == Going(Stage(m, allArgs, {}))
    ensures Act(Corrected, d, m, allArgs, {}) == Going(Stage(m[d.destName := List(allArgs[..10])], allArgs[10..], {}))
  {
    A.ArityTenCounterexample(d, allArgs);
  }

  /** With the corrected phase, a successful run leaves no required positional option pending. */
  lemma ParseClearsRequiredPositionals(ds: seq<O.OptionData>, allArgs: seq<string>, m0: map<string, Value>)
    ensures var r := ParseRun(Corrected, ds, allArgs, m0);
      r.Going? ==> forall k :: 0 <= k < |ds| && ds[k].isPositional ==> ds[k].DisplayName() !in r.st.req
  {
    var rix := RemainderIndex(ds);
    var r1 := Tokens(Corrected, ds, rix, Extracted(allArgs).0, Going(Start(ds, allArgs, m0)));
    var r2 := if r1.Going? && |r1.st.args| > 0 then Remainders(Corrected, ds, rix, 0, r1) else r1;
    if r2.Going? {
      PositionalsClearTheirNames(ds, 0, r2.st);
    }
  }
  // ---------------------------------------------------------------------------
  // Where the two readings agree
  // ---------------------------------------------------------------------------

  /**
   * Options on which the readings cannot differ: no count arity with a zero
   * digit, and every positional option's destination equal to its display name.
   */
  predicate Ordinary(ds: seq<O.OptionData>)
  {
    forall k :: 0 <= k < |ds| ==>
      && (A.IsCount(ds[k].argNum) ==> A.NonZeroDigits(ds[k].argNum))
      && (ds[k].isPositional ==> ds[k].destName == ds[k].DisplayName())
  }

  lemma ActReadingsAgree(f: O.OptionData, m: map<string, Value>, args: seq<string>, req: set<string>)
    requires A.IsCount(f.argNum) ==> A.NonZeroDigits(f.argNum)
    ensures Act(AsWritten, f, m, args, req) == Act(Corrected, f, m, args, req)
  {
    A.ActionsAgreeWithoutZeroDigits(f, m, args);
  }

  lemma {:induction false} TokensReadingsAgree(ds: seq<O.OptionData>, rem: map<string, nat>, names: seq<string>, r: Run)
    requires Ordinary(ds)
    ensures Tokens(AsWritten, ds, rem, names, r) == Tokens(Corrected, ds, rem, names, r)
    decreases |names|
  {
    if names != [] && r.Going? {
      match Resolve(ds, rem, r.st.req, names[0], 0)
      case None =>
      case Some(i) => ActReadingsAgree(ds[i], r.st.m, r.st.args, r.st.req - {ds[i].DisplayName()});
      TokensReadingsAgree(ds, rem, names[1..], TokenStep(Corrected, ds, rem, names[0], r.st));
    }
  }

  lemma {:induction false} RemaindersReadingsAgree(ds: seq<O.OptionData>, rix: map<string, nat>, j: nat, r: Run)
    requires Ordinary(ds)
    ensures Remainders(AsWritten, ds, rix, j, r) == Remainders(Corrected, ds, rix, j, r)
    decreases |ds| - j
  {
    if j < |ds| && r.Going? {
      if RunsAsRemainder(ds, rix, j) {
        ActReadingsAgree(ds[j], r.st.m, r.st.args, r.st.req - {ds[j].DisplayName()});
        RemaindersReadingsAgree(ds, rix, j + 1, RemainderStep(Corrected, ds[j], r.st));
      } else {
        RemaindersReadingsAgree(ds, rix, j + 1, r);
      }
    }
  }

  lemma {:induction false} PositionalsReadingsAgree(ds: seq<O.OptionData>, j: nat, r: Run)
    requires Ordinary(ds)
    ensures Positionals(AsWritten, ds, j, r) == Positionals(Corrected, ds, j, r)
    decreases |ds| - j
  {
    if j < |ds| && r.Going? {
      if ds[j].isPositional {
        assert ClearedName(AsWritten, ds[j]) == ClearedName(Corrected, ds[j]);
        ActReadingsAgree(ds[j], r.st.m, r.st.args, r.st.req - {ds[j].DisplayName()});
        PositionalsReadingsAgree(ds, j + 1, Act(Corrected, ds[j], r.st.m, r.st.args, r.st.req - {ds[j].DisplayName()}));
      } else {
        PositionalsReadingsAgree(ds, j + 1, r);
      }
    }
  }

  /** On ordinary options, the parse as written and the corrected parse are the same run. */
  lemma ParseRunReadingsAgree(ds: seq<O.OptionData>, allArgs: seq<string>, m0: map<string, Value>)
    requires Ordinary(ds)
    ensures ParseRun(AsWritten, ds, allArgs, m0) == ParseRun(Corrected, ds, allArgs, m0)
  {
    var rix := RemainderIndex(ds);
    var st := Start(ds, allArgs, m0);
    TokensReadingsAgree(ds, rix, Extracted(allArgs).0, Going(st));
    var r := Tokens(Corrected, ds, rix, Extracted(allArgs).0, Going(st));
    if r.Going? && |r.st.args| > 0 {
      RemaindersReadingsAgree(ds, rix, 0, r);
      PositionalsReadingsAgree(ds, 0, Remainders(Corrected, ds, rix, 0, r));
    } else {
      PositionalsReadingsAgree(ds, 0, r);
    }
  }
}
