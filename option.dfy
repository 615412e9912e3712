/**
 * option.go: the Option record, its fluent setters, arity validation, choice
 * and type validation, display names and the usage string.
 */
module Options {
  import opened Wrappers
  import opened Utils
  import opened Kinds
  import Strconv
  import Errors

  /** The actions an option can be given (the functions of actions.go). */
  datatype ActionKind = Store | StoreConst | StoreTrue | StoreFalse | Append | AppendConst | ShowHelp | ShowVersion

  /** The argument of Nargs: Go accepts a string or an int (any other type panics). */
  datatype NargsArg = NargsStr(s: string) | NargsInt(n: int)

  /** The characters Nargs accepts verbatim as an arity. */
  const AllowedArities: seq<string> := ["?", "*", "+", "r", "R"]

  /** An arity GetUsage can render: it holds one of "?*+rR", or else it is a number. */
  predicate ArityRenderable(argNum: string)
  {
    ContainsAny(argNum, "?*+rR") || Strconv.Atoi(argNum).Some?
  }

  /** The kinds Type refuses with a panic. */
  predicate UsableKind(k: Kind)
  {
    k !in {Uintptr, Complex64, Complex128, Array, Chan, Func, Interface, Map, Ptr, Slice, Struct, UnsafePointer}
  }

  /** A public name with the dashes a non-positional option shows. */
  function Decorated(name: string, positional: bool): (r: string)
  {
    if positional then name
    else if |name| == 1 then "-" + name
    else if |name| > 1 then "--" + name
    else name
  }

  datatype OptionData = OptionData(
    argNum: string,
    constVal: string,
    defaultVal: string,
    desiredAction: ActionKind,
    destName: string,
    expectedType: Kind,
    helpText: string,
    isRequired: bool,
    isPositional: bool,
    metaVarText: seq<string>,
    publicNames: seq<string>,
    validChoices: seq<string>)
  {
    /**
     * Every public name, decorated, joined by ", ": nothing without names,
     * the one decorated name alone, or the first one followed by ", ".
     */
    function DisplayName(): (r: string)
      ensures |publicNames| == 0 ==> r == ""
      ensures |publicNames| == 1 ==> r == Decorated(publicNames[0], isPositional)
      ensures |publicNames| > 1 ==>
        var first := Decorated(publicNames[0], isPositional);
        |r| >= |first| + 2 && r[..|first| + 2] == first + ", "
    {
      Joined(", ", seq(|publicNames|, i requires 0 <= i < |publicNames| => Decorated(publicNames[i], isPositional)))
    }

    /** IsPublicName: whether the name is one of the public names. */
    predicate IsPublicName(name: string)
      ensures IsPublicName(name) <==> exists i :: 0 <= i < |publicNames| && publicNames[i] == name
    {
      name in publicNames
    }

    /** GetChoices: "" when there are no choices, else "{a,b,...}". */
    function GetChoices(): (r: string)
      ensures r == "" <==> validChoices == []
      ensures r != "" ==> |r| >= 2 && r[0] == '{' && r[|r| - 1] == '}'
    {
      if |validChoices| == 0 then "" else "{" + Joined(",", validChoices) + "}"
    }

    /** The metavars after GetUsage: the given ones, else [dest name] or [GetChoices()]. */
    function FilledMetaVars(): (r: seq<string>)
      ensures |r| > 0
      ensures |metaVarText| > 0 ==> r == metaVarText
    {
      if |metaVarText| > 0 then metaVarText
      else if GetChoices() == "" then [destName]
      else [GetChoices()]
    }
  }

  /** The n upper-cased metavars of an exact arity, the last one reused for the rest. */
  function ExactMetaVars(meta: seq<string>, n: int): (r: seq<string>)
    requires |meta| > 0
  {
    if n <= 0 then []
    else seq(n, i requires 0 <= i < n => ToUpper(meta[if i < |meta| then i else |meta| - 1]))
  }

  /** The part of the usage string that shows the arguments. */
  function ArityText(argNum: string, meta: seq<string>): string
    requires |meta| > 0 && ArityRenderable(argNum)
  {
    if !ContainsAny(argNum, "?*+rR") then
      var nargs := ExactMetaVars(meta, Strconv.Atoi(argNum).value);
      if |nargs| > 0 then " " + Joined(" ", nargs) else ""
    else if argNum == "?" then " [" + ToUpper(meta[0]) + "]"
    else if argNum == "r" || argNum == "R" then " " + " ..."
    else if argNum == "+" || argNum == "*" then
      var first := meta[0];
      var second := if |meta| > 1 then meta[1] else first;
      var before := if argNum == "*" then "[" else "";
      var after := if argNum == "*" then "]" else "";
      " " + before + ToUpper(first) + " [" + ToUpper(second) + " ...]" + after
    else ""
  }

  /** What GetUsage can be called on without a panic. */
  predicate UsageReady(d: OptionData)
  {
    |d.publicNames| >= 1 && ArityRenderable(d.argNum)
  }

  /** The usage string GetUsage returns. */
  function UsageOf(d: OptionData): string
    requires UsageReady(d)
  {
    var open := if d.isRequired then "" else "[";
    var close := if d.isRequired then "" else "]";
    open + d.(publicNames := [d.publicNames[0]]).DisplayName() + ArityText(d.argNum, d.FilledMetaVars()) + close
  }

  /** ValidateChoice: no error iff there are no choices or the argument is one of them. */
  function ValidateChoice(f: OptionData, arg: string): (r: Maybe<Errors.Error>)
    ensures r.None? <==> f.validChoices == [] || arg in f.validChoices
    ensures r.Some? ==> r.value == Errors.InvalidChoice(f.DisplayName(), arg, f.validChoices)
  {
    if |f.validChoices| == 0 then None
    else if arg in f.validChoices then None
    else Some(Errors.InvalidChoice(f.DisplayName(), arg, f.validChoices))
  }

  predicate IsSignedKind(k: Kind) { k in {Int, Int8, Int16, Int32, Int64} }

  predicate IsUnsignedKind(k: Kind) { k in {Uint, Uint8, Uint16, Uint32, Uint64} }

  /**
   * ValidateType. Whether text parses as a float of the given bit size is the
   * parameter `parsesFloat`.
   */
  function ValidateType(f: OptionData, arg: string, parsesFloat: (string, int) -> bool): (r: Maybe<Errors.Error>)
    ensures f.expectedType in {Invalid, String} ==> r.None?
    ensures IsSignedKind(f.expectedType) ==> (r.None? <==> Strconv.Atoi(arg).Some?)
    ensures IsUnsignedKind(f.expectedType) ==> (r.None? <==> Strconv.ParseUint(arg).Some?)
    ensures f.expectedType == Bool ==> (r.None? <==> Strconv.ParseBool(arg).Some?)
    ensures f.expectedType == Float32 ==> (r.None? <==> parsesFloat(arg, 32))
    ensures f.expectedType == Float64 ==> (r.None? <==> parsesFloat(arg, 64))
    ensures !UsableKind(f.expectedType) ==> r.Some?
    ensures r.Some? ==> r.value == Errors.InvalidType(f.DisplayName(), KindName(f.expectedType), arg)
  {
    var accepted :=
      match f.expectedType
      case Invalid => true
      case String => true
      case Int => Strconv.Atoi(arg).Some?
      case Int8 => Strconv.Atoi(arg).Some?
      case Int16 => Strconv.Atoi(arg).Some?
      case Int32 => Strconv.Atoi(arg).Some?
      case Int64 => Strconv.Atoi(arg).Some?
      case Uint => Strconv.ParseUint(arg).Some?
      case Uint8 => Strconv.ParseUint(arg).Some?
      case Uint16 => Strconv.ParseUint(arg).Some?
      case Uint32 => Strconv.ParseUint(arg).Some?
      case Uint64 => Strconv.ParseUint(arg).Some?
      case Float32 => parsesFloat(arg, 32)
      case Float64 => parsesFloat(arg, 64)
      case Bool => Strconv.ParseBool(arg).Some?
      case _ => false;
    if accepted then None else Some(Errors.InvalidType(f.DisplayName(), KindName(f.expectedType), arg))
  }

  /** The fields NewOption sets: arity "0", StoreTrue, names split on spaces. */
  function NewOptionData(names: string, dest: string, help: string): OptionData
  {
    OptionData("0", "", "", StoreTrue, dest, Invalid, help, false, false, [], Split(names, ' '), [])
  }

  /** *Option: a mutable cell holding the record, as the setters change it in place. */
  class Option {
    var data: OptionData

    /** NewOption. */
    constructor (names: string, dest: string, help: string)
      ensures data == NewOptionData(names, dest, help)
    {
      data := NewOptionData(names, dest, help);
    }

    method Action(action: ActionKind) returns (self: Option)
      modifies this
      ensures self == this && data == old(data).(desiredAction := action)
    {
      data := data.(desiredAction := action);
      return this;
    }

    method Choices(choices: seq<string>) returns (self: Option)
      modifies this
      ensures self == this && data == old(data).(validChoices := choices)
    {
      data := data.(validChoices := choices);
      return this;
    }

    method Const(value: string) returns (self: Option)
      modifies this
      ensures self == this && data == old(data).(constVal := value)
    {
      data := data.(constVal := value);
      return this;
    }

    method Default(value: string) returns (self: Option)
      modifies this
      ensures self == this && data == old(data).(defaultVal := value)
    {
      data := data.(defaultVal := value);
      return this;
    }

    method Dest(name: string) returns (self: Option)
      modifies this
      ensures self == this && data == old(data).(destName := name)
    {
      data := data.(destName := name);
      return this;
    }

    method Help(text: string) returns (self: Option)
      modifies this
      ensures self == this && data == old(data).(helpText := text)
    {
      data := data.(helpText := text);
      return this;
    }

    method MetaVar(meta: string, metaSlice: seq<string>) returns (self: Option)
      modifies this
      ensures self == this && data == old(data).(metaVarText := [meta] + metaSlice)
    {
      data := data.(metaVarText := [meta] + metaSlice);
      return this;
    }

    /**
     * Nargs: "?", "*", "+", "r" and "R" are stored verbatim, an int as its
     * decimal text; any other text must read as an int, or Go panics.
     */
    method Nargs(nargs: NargsArg) returns (self: Option)
      requires nargs.NargsInt? ==> Strconv.IntMin <= nargs.n <= Strconv.IntMax
      requires nargs.NargsStr? ==> nargs.s in AllowedArities || Strconv.Atoi(nargs.s).Some?
      modifies this
      ensures self == this
      ensures nargs.NargsStr? ==> data == old(data).(argNum := nargs.s)
      ensures nargs.NargsInt? ==> data == old(data).(argNum := Strconv.Itoa(nargs.n))
      ensures ArityRenderable(data.argNum)
    {
      var value := if nargs.NargsStr? then nargs.s else Strconv.Itoa(nargs.n);
      if nargs.NargsInt? {
        Strconv.AtoiOfItoa(nargs.n);
      }
      var k := 0;
      while k < |AllowedArities|
        invariant 0 <= k <= |AllowedArities|
        invariant forall j :: 0 <= j < k ==> value != AllowedArities[j]
      {
        if value == AllowedArities[k] {
          data := data.(argNum := AllowedArities[k]);
          assert AllowedArities[k][0] in "?*+rR";
          return this;
        }
        k := k + 1;
      }
      data := data.(argNum := value);
      return this;
    }

    method NotRequired() returns (self: Option)
      modifies this
      ensures self == this && data == old(data).(isRequired := false)
    {
      data := data.(isRequired := false);
      return this;
    }

    method NotPositional() returns (self: Option)
      modifies this
      ensures self == this && data == old(data).(isPositional := false)
    {
      data := data.(isPositional := false);
      return this;
    }

    method Positional() returns (self: Option)
      modifies this
      ensures self == this && data == old(data).(isPositional := true)
    {
      data := data.(isPositional := true);
      return this;
    }

    method Required() returns (self: Option)
      modifies this
      ensures self == this && data == old(data).(isRequired := true)
    {
      data := data.(isRequired := true);
      return this;
    }

    /** Type: sets the expected kind; the non-scalar kinds panic. */
    method Type(kind: Kind) returns (self: Option)
      requires UsableKind(kind)
      modifies this
      ensures self == this && data == old(data).(expectedType := kind)
    {
      data := data.(expectedType := kind);
      return this;
    }

    /**
     * GetUsage: the usage string, as described by UsageOf. It fills an empty
     * MetaVarText for good, and narrows the public names to the first one
     * while rendering, restoring them afterwards.
     */
    method GetUsage() returns (usage: string)
      requires UsageReady(data)
      modifies this
      ensures data == old(data).(metaVarText := old(data).FilledMetaVars())
      ensures usage == UsageOf(old(data))
    {
      ghost var d0 := data;
      ghost var open := if d0.isRequired then "" else "[";
      ghost var shown := d0.(publicNames := [d0.publicNames[0]]).DisplayName();
      var isRequired := data.isRequired;
      usage := "";
      if !isRequired {
        usage := usage + "[";
      }
      if |data.publicNames| == 1 {
        assert data.(publicNames := [data.publicNames[0]]) == data;
        usage := usage + data.DisplayName();
      } else {
        var pNames := data.publicNames;
        data := data.(publicNames := [data.publicNames[0]]);
        usage := usage + data.DisplayName();
        data := data.(publicNames := pNames);
      }
      assert data == d0 && usage == open + shown;
      var choices := data.GetChoices();
      if |choices| == 0 && |data.metaVarText| == 0 {
        data := data.(metaVarText := [data.destName]);
      } else if |data.metaVarText| == 0 {
        data := data.(metaVarText := [choices]);
      }
      assert data.metaVarText == d0.FilledMetaVars();
      var arity := RenderArity(data.argNum, data.metaVarText);
      assert arity == ArityText(d0.argNum, d0.FilledMetaVars());
      usage := usage + arity;
      if !isRequired {
        usage := usage + "]";
      }
    }
  }

  /** The argument part of GetUsage. */
  method RenderArity(argNum: string, meta: seq<string>) returns (text: string)
    requires |meta| > 0 && ArityRenderable(argNum)
    ensures text == ArityText(argNum, meta)
  {
    text := "";
    if !ContainsAny(argNum, "?*+rR") {
      var count := 0;
      var max := Strconv.Atoi(argNum).value;
      var metaLen := |meta|;
      var nargs: seq<string> := [];
      while count < max
        invariant 0 <= count && (max >= 0 ==> count <= max) && (max < 0 ==> count == 0)
        invariant nargs == ExactMetaVars(meta, count)
        decreases max - count
      {
        var m := "";
        if count >= metaLen {
          m := meta[metaLen - 1];
        } else {
          m := meta[count];
        }
        nargs := nargs + [ToUpper(m)];
        count := count + 1;
      }
      assert nargs == ExactMetaVars(meta, max);
      if |nargs| > 0 {
        var joined := Join(" ", nargs);
        text := " " + joined;
      }
    } else if argNum == "?" {
      text := " [" + ToUpper(meta[0]) + "]";
    } else if argNum == "r" || argNum == "R" {
      text := " " + " ...";
    } else if argNum == "+" || argNum == "*" {
      var first := meta[0];
      var second := first;
      if |meta| > 1 {
        second := meta[1];
      }
      var before := "";
      var after := "";
      if argNum == "*" {
        before := "[";
        after := "]";
      }
      text := " " + before + ToUpper(first) + " [" + ToUpper(second) + " ...]" + after;
    }
  }

  /** NewFlag: a NewOption with arity "0", StoreTrue, default "false", not required. */
  method NewFlag(names: string, dest: string, help: string) returns (opt: Option)
    ensures fresh(opt)
    ensures opt.data == NewOptionData(names, dest, help).(defaultVal := "false")
  {
    opt := new Option(names, dest, help);
    opt := opt.Nargs(NargsStr("0"));
    opt := opt.Action(StoreTrue);
    opt := opt.Default("false");
    opt := opt.NotRequired();
  }

  /** NewArg: a NewOption with arity "1", Store, positional. */
  method NewArg(names: string, dest: string, help: string) returns (opt: Option)
    ensures fresh(opt)
    ensures opt.data == NewOptionData(names, dest, help).(argNum := "1", desiredAction := Store, isPositional := true)
  {
    opt := new Option(names, dest, help);
    opt := opt.Nargs(NargsStr("1"));
    opt := opt.Action(Store);
    opt := opt.Positional();
  }

  // ---------------------------------------------------------------------------
  // Properties
  // ---------------------------------------------------------------------------

  /** An int given to Nargs reads back as the same number. */
  lemma NargsIntReadsBack(n: int)
    requires Strconv.IntMin <= n <= Strconv.IntMax
    ensures Strconv.Atoi(Strconv.Itoa(n)) == Some(n)
    ensures ArityRenderable(Strconv.Itoa(n))
  {
    Strconv.AtoiOfItoa(n);
  }

  /**
   * Typing the display name of a non-positional option with one letters-only
   * name on the command line gives back exactly that name.
   */
  lemma DisplayNameTypedBack(d: OptionData)
    requires !d.isPositional && |d.publicNames| == 1
    requires |d.publicNames[0]| > 0 && AllLetters(d.publicNames[0])
    ensures Extracted([d.DisplayName()]) == ([d.publicNames[0]], [])
  {
    var n := d.publicNames[0];
    assert d.DisplayName() == Decorated(n, false);
    if |n| == 1 {
      ExtractedShortCluster(n);
      assert n == [n[0]];
      assert seq(|n|, i requires 0 <= i < |n| => [n[i]]) == [n];
    } else {
      ExtractedLong(n);
    }
  }

  /** The display name of a positional option is its names joined, undecorated. */
  lemma PositionalDisplayNameIsBare(d: OptionData)
    requires d.isPositional
    ensures d.DisplayName() == Joined(", ", d.publicNames)
  {
    assert seq(|d.publicNames|, i requires 0 <= i < |d.publicNames| => Decorated(d.publicNames[i], true))
        == d.publicNames;
  }

  /** The choices can be read back from between the braces when none contains a comma. */
  lemma ChoicesListedBack(d: OptionData)
    requires |d.validChoices| > 0
    requires forall k, i :: 0 <= k < |d.validChoices| && 0 <= i < |d.validChoices[k]| ==> d.validChoices[k][i] != ','
    ensures var r := d.GetChoices(); Split(r[1..|r| - 1], ',') == d.validChoices
  {
    var r := d.GetChoices();
    var inner := Joined(",", d.validChoices);
    assert r[1..|r| - 1] == inner;
    assert "," == [','];
    SplitJoined(d.validChoices, ',');
  }

  /** Every integer Go can hold, as Itoa writes it, passes an integer-kind check. */
  lemma RenderedNumbersPassTypeCheck(f: OptionData, n: int, parsesFloat: (string, int) -> bool)
    requires Strconv.IntMin <= n <= Strconv.IntMax
    requires IsSignedKind(f.expectedType) || (IsUnsignedKind(f.expectedType) && n >= 0)
    ensures ValidateType(f, Strconv.Itoa(n), parsesFloat).None?
  {
    Strconv.AtoiOfItoa(n);
    if n >= 0 {
      Strconv.ParseUintOfItoa(n);
    }
  }

  /** A negative number never passes an unsigned-kind check. */
  lemma NegativeFailsUnsignedCheck(f: OptionData, n: int, parsesFloat: (string, int) -> bool)
    requires n < 0 && IsUnsignedKind(f.expectedType)
    ensures ValidateType(f, Strconv.Itoa(n), parsesFloat)
         == Some(Errors.InvalidType(f.DisplayName(), KindName(f.expectedType), Strconv.Itoa(n)))
  {
    assert Strconv.Itoa(n)[0] == '-';
    assert !Strconv.IsDigit('-');
  }

  /** Exactly n metavars, the i-th given one first and then the last one repeated. */
  lemma ExactMetaVarsReuseLast(meta: seq<string>, n: nat)
    requires |meta| > 0
    ensures |ExactMetaVars(meta, n)| == n
    ensures forall i :: 0 <= i < n && i < |meta| ==> ExactMetaVars(meta, n)[i] == ToUpper(meta[i])
    ensures forall i :: |meta| <= i < n ==> ExactMetaVars(meta, n)[i] == ToUpper(meta[|meta| - 1])
  {
  }

  /** A usage string is bracketed exactly when the option is not required. */
  lemma UsageBracketedUnlessRequired(d: OptionData)
    requires UsageReady(d)
    requires !d.isPositional && |d.publicNames[0]| > 0
    ensures var u := UsageOf(d);
      |u| > 0 && (u[0] == '[' <==> !d.isRequired) && (!d.isRequired ==> u[|u| - 1] == ']')
  {
    var d1 := d.(publicNames := [d.publicNames[0]]);
    assert d1.DisplayName() == Decorated(d.publicNames[0], false);
  }

  /** Usage depends on the metavars only through the filled ones, so a second call says the same. */
  lemma UsageStable(d: OptionData)
    requires UsageReady(d)
    ensures var d2 := d.(metaVarText := d.FilledMetaVars());
      UsageReady(d2) && d2.FilledMetaVars() == d2.metaVarText && UsageOf(d2) == UsageOf(d)
  {
  }
}
