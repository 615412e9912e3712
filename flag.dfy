/**
 * flag.go (package parg, an older snapshot): the Flag record, its fluent
 * setters and kind shorthands, arity validation, its display name and its
 * usage string. Flag shares the package's Action enumeration (argument.go).
 */
module Flags {
  import opened Utils
  import opened Kinds
  import Strconv
  import O = Options
  import Arguments

  /** The Flag record; the interface{} fields hold tagged values. */
  datatype FlagData = FlagData(
    argNum: string,
    constVal: Dyn,
    defaultVal: Dyn,
    desiredAction: Arguments.Action,
    destName: string,
    helpText: string,
    isRequired: bool,
    metaVarText: seq<string>,
    possibleChoices: seq<Dyn>,
    publicName: string,
    requiredKind: Kind)

  /** The record NewFlag(name, help) builds. */
  function NewFlagData(name: string, help: string): FlagData
  {
    FlagData("0", Nil, Nil, Arguments.StoreTrue, name, help, false, [name], [], name, Kinds.Bool)
  }

  /** Whether every choice passes the kind check Choices makes. */
  predicate AllFit(kind: Kind, choices: seq<Dyn>)
  {
    forall i :: 0 <= i < |choices| ==> KindFits(kind, choices[i])
  }

  /**
   * The record with the choices added, as the Choices doc comment describes;
   * the same update as Arguments.WithChoices, since flag.go repeats argument.go here.
   */
  function WithChoices(d: FlagData, choices: seq<Dyn>): (r: FlagData)
    ensures r.possibleChoices == d.possibleChoices + choices
    ensures r.(possibleChoices := d.possibleChoices) == d
  {
    d.(possibleChoices := d.possibleChoices + choices)
  }

  /** The strings Nargs stores verbatim; unlike argument.go, no "r" or "R". */
  const AllowedArities: seq<string> := ["?", "*", "+"]

  /** The arities Nargs accepts without a panic. */
  predicate NargsAccepted(nargs: string)
  {
    nargs in AllowedArities || Strconv.Atoi(nargs).Some?
  }

  /**
   * DisplayName: the lower-cased public name behind its dashes, one dash for a
   * name of two or more characters and two for a single character.
   */
  function DisplayName(publicName: string): (r: string)
    ensures |r| == |publicName| + (if |publicName| == 1 then 2 else if |publicName| > 1 then 1 else 0)
    ensures r[|r| - |publicName|..] == ToLower(publicName)
    ensures forall i :: 0 <= i < |r| - |publicName| ==> r[i] == '-'
  {
    var prefix := if |publicName| > 1 then "-" else if |publicName| == 1 then "--" else "";
    prefix + ToLower(publicName)
  }

  /** Whether the arity is an exact count (no "?*+" in it). */
  predicate IsExact(argNum: string)
  {
    !ContainsAny(argNum, "?*+")
  }

  /** What GetUsage can run on without a panic. */
  predicate UsageReady(d: FlagData)
  {
    (IsExact(d.argNum) ==> Strconv.Atoi(d.argNum).Some?)
    && (d.argNum == "?" ==> |d.metaVarText| > 0)
  }

  /** The metavars after GetUsage: an exact arity fills an empty list with [PublicName]. */
  function FilledMetaVars(d: FlagData): (r: seq<string>)
    ensures IsExact(d.argNum) ==> |r| > 0
    ensures |d.metaVarText| > 0 ==> r == d.metaVarText
  {
    if IsExact(d.argNum) && |d.metaVarText| == 0 then [d.publicName] else d.metaVarText
  }

  /** The part of the usage string after the display name. */
  function ArityText(d: FlagData): string
    requires UsageReady(d)
  {
    if IsExact(d.argNum) then
      var nargs := O.ExactMetaVars(FilledMetaVars(d), Strconv.Atoi(d.argNum).value);
      if |nargs| > 0 then " " + Joined(" ", nargs) else ""
    else if d.argNum == "?" then " [" + ToUpper(d.metaVarText[0]) + "]"
    else if d.argNum == "+" || d.argNum == "*" then
      var first := if |d.metaVarText| > 0 then d.metaVarText[0] else d.publicName;
      var second := if |d.metaVarText| > 1 then d.metaVarText[1] else first;
      var before := if d.argNum == "*" then "[" else "";
      var after := if d.argNum == "*" then "]" else "";
      " " + before + ToUpper(first) + " [" + ToUpper(second) + " ...]" + after
    else ""
  }

  /** The usage string GetUsage returns. */
  function UsageOf(d: FlagData): string
    requires UsageReady(d)
  {
    "[" + DisplayName(d.publicName) + ArityText(d) + "]"
  }

  /** *Flag: a mutable cell holding the record, as the setters change it in place. */
  class Flag {
    var data: FlagData

    constructor (d: FlagData)
      ensures data == d
    {
      data := d;
    }

    method Action(action: Arguments.Action) returns (self: Flag)
      modifies this
      ensures self == this && data == old(data).(desiredAction := action)
    {
      data := data.(desiredAction := action);
      return this;
    }

    method Bool() returns (self: Flag)
      modifies this
      ensures self == this && data == old(data).(requiredKind := Kinds.Bool)
    {
      self := Kind(Kinds.Bool);
    }

    /**
     * Choices as written: it panics on a choice of the wrong kind, but appends
     * the choices only to its own parameter, so the record never changes.
     */
    method Choices(choices: seq<Dyn>) returns (self: Flag)
      requires AllFit(data.requiredKind, choices)
      ensures self == this
    {
      var extended := choices;
      var i := 0;
      while i < |choices|
        invariant 0 <= i <= |choices|
        invariant |extended| == |choices| + i
      {
        var choice := choices[i];
        if data.requiredKind != Invalid && KindOf(choice) != data.requiredKind {
          assert false;
        }
        extended := extended + [choice];
        i := i + 1;
      }
      return this;
    }

    /** Choices as intended: the same kind check, then the choices are kept. */
    method StoreChoices(choices: seq<Dyn>) returns (self: Flag)
      requires AllFit(data.requiredKind, choices)
      modifies this
      ensures self == this && data == WithChoices(old(data), choices)
    {
      var kept := data.possibleChoices;
      var i := 0;
      while i < |choices|
        invariant 0 <= i <= |choices|
        invariant kept == data.possibleChoices + choices[..i]
      {
        var choice := choices[i];
        if data.requiredKind != Invalid && KindOf(choice) != data.requiredKind {
          assert false;
        }
        kept := kept + [choice];
        i := i + 1;
      }
      assert choices[..|choices|] == choices;
      data := data.(possibleChoices := kept);
      return this;
    }

    method Const(value: Dyn) returns (self: Flag)
      modifies this
      ensures self == this && data == old(data).(constVal := value)
    {
      data := data.(constVal := value);
      return this;
    }

    method Default(value: Dyn) returns (self: Flag)
      modifies this
      ensures self == this && data == old(data).(defaultVal := value)
    {
      data := data.(defaultVal := value);
      return this;
    }

    method Dest(name: string) returns (self: Flag)
      modifies this
      ensures self == this && data == old(data).(destName := name)
    {
      data := data.(destName := name);
      return this;
    }

    method Float() returns (self: Flag)
      modifies this
      ensures self == this && data == old(data).(requiredKind := Float64)
    {
      self := Kind(Float64);
    }

    method Float32() returns (self: Flag)
      modifies this
      ensures self == this && data == old(data).(requiredKind := Kinds.Float32)
    {
      self := Kind(Kinds.Float32);
    }

    /**
     * GetUsage: the usage string described by UsageOf. An exact arity with no
     * metavars stores [PublicName] as the metavars for good.
     */
    method GetUsage() returns (usage: string)
      requires UsageReady(data)
      modifies this
      ensures data == old(data).(metaVarText := FilledMetaVars(old(data)))
      ensures usage == UsageOf(old(data))
    {
      ghost var d0 := data;
      usage := "[" + DisplayName(data.publicName);
      var arity := "";
      if !ContainsAny(data.argNum, "?*+") {
        var count := 0;
        var max := Strconv.Atoi(data.argNum).value;
        var metaLen := |data.metaVarText|;
        if metaLen == 0 {
          data := data.(metaVarText := [data.publicName]);
          metaLen := 1;
        }
        var meta := data.metaVarText;
        assert meta == FilledMetaVars(d0) && metaLen == |meta|;
        var nargs: seq<string> := [];
        while count < max
          invariant 0 <= count && (max >= 0 ==> count <= max) && (max < 0 ==> count == 0)
          invariant nargs == O.ExactMetaVars(meta, count)
          decreases max - count
        {
          var m := "";
          if count >= metaLen {
            m := meta[metaLen - 1];
          } else {
            m := meta[count];
          }
          nargs := nargs + [ToUpper(m)];
          count := count + 1;
        }
        assert nargs == O.ExactMetaVars(meta, max);
        if |nargs| > 0 {
          var joined := Join(" ", nargs);
          arity := " " + joined;
        }
      } else if data.argNum == "?" {
        arity := " [" + ToUpper(data.metaVarText[0]) + "]";
      } else if data.argNum == "+" || data.argNum == "*" {
        var first := data.publicName;
        if |data.metaVarText| > 0 {
          first := data.metaVarText[0];
        }
        var second := first;
        if |data.metaVarText| > 1 {
          second := data.metaVarText[1];
        }
        var before := "";
        var after := "";
        if data.argNum == "*" {
          before := "[";
          after := "]";
        }
        arity := " " + before + ToUpper(first) + " [" + ToUpper(second) + " ...]" + after;
      }
      assert arity == ArityText(d0);
      usage := usage + arity + "]";
    }

    method Help(text: string) returns (self: Flag)
      modifies this
      ensures self == this && data == old(data).(helpText := text)
    {
      data := data.(helpText := text);
      return this;
    }

    method Int64() returns (self: Flag)
      modifies this
      ensures self == this && data == old(data).(requiredKind := Kinds.Int64)
    {
      self := Kind(Kinds.Int64);
    }

    method Int32() returns (self: Flag)
      modifies this
      ensures self == this && data == old(data).(requiredKind := Kinds.Int32)
    {
      self := Kind(Kinds.Int32);
    }

    /** MetaVar: the first metavar followed by the rest, in order. */
    method MetaVar(meta: string, metaSlice: seq<string>) returns (self: Flag)
      modifies this
      ensures self == this && data == old(data).(metaVarText := [meta] + metaSlice)
    {
      var s := [meta];
      var i := 0;
      while i < |metaSlice|
        invariant 0 <= i <= |metaSlice|
        invariant s == [meta] + metaSlice[..i]
      {
        s := s + [metaSlice[i]];
        i := i + 1;
      }
      assert metaSlice[..|metaSlice|] == metaSlice;
      data := data.(metaVarText := s);
      return this;
    }

    /** Nargs: "?", "*" and "+" verbatim; any other string must read as an int. */
    method Nargs(nargs: string) returns (self: Flag)
      requires NargsAccepted(nargs)
      modifies this
      ensures self == this && data == old(data).(argNum := nargs)
    {
      var k := 0;
      while k < |AllowedArities|
        invariant 0 <= k <= |AllowedArities|
        invariant forall j :: 0 <= j < k ==> nargs != AllowedArities[j]
      {
        if nargs == AllowedArities[k] {
          data := data.(argNum := AllowedArities[k]);
          return this;
        }
        k := k + 1;
      }
      data := data.(argNum := nargs);
      return this;
    }

    method NotRequired() returns (self: Flag)
      modifies this
      ensures self == this && data == old(data).(isRequired := false)
    {
      data := data.(isRequired := false);
      return this;
    }

    method Required() returns (self: Flag)
      modifies this
      ensures self == this && data == old(data).(isRequired := true)
    {
      data := data.(isRequired := true);
      return this;
    }

    method String() returns (self: Flag)
      modifies this
      ensures self == this && data == old(data).(requiredKind := Kinds.String)
    {
      self := Kind(Kinds.String);
    }

    method Uint64() returns (self: Flag)
      modifies this
      ensures self == this && data == old(data).(requiredKind := Kinds.Uint64)
    {
      self := Kind(Kinds.Uint64);
    }

    method Uint32() returns (self: Flag)
      modifies this
      ensures self == this && data == old(data).(requiredKind := Kinds.Uint32)
    {
      self := Kind(Kinds.Uint32);
    }

    /** Kind: sets the required kind and nothing else. */
    method Kind(kind: Kinds.Kind) returns (self: Flag)
      modifies this
      ensures self == this && data == old(data).(requiredKind := kind)
    {
      data := data.(requiredKind := kind);
      return this;
    }
  }

  /** NewFlag(name, help). */
  method NewFlag(name: string, help: string) returns (f: Flag)
    ensures fresh(f) && f.data == NewFlagData(name, help)
  {
    f := new Flag(NewFlagData(name, help));
  }

  // ---------------------------------------------------------------------------
  // Properties
  // ---------------------------------------------------------------------------

  /**
   * Nargs takes "?", "*", "+" and numbers, refuses the remainder arities "r"
   * and "R", and whatever it takes lets GetUsage run on a flag with a metavar.
   */
  lemma NargsRefusesRemainder(d: FlagData, nargs: string)
    requires NargsAccepted(nargs) && |d.metaVarText| > 0
    ensures !NargsAccepted("r") && !NargsAccepted("R")
    ensures UsageReady(d.(argNum := nargs))
  {
    assert "r"[0] == 'r' && "R"[0] == 'R';
    assert !Strconv.IsDigit('r') && !Strconv.IsDigit('R');
  }

  /** A usage string is always bracketed, with the display name right after "[". */
  lemma UsageAlwaysBracketed(d: FlagData)
    requires UsageReady(d)
    ensures var u := UsageOf(d); var n := |DisplayName(d.publicName)|;
      |u| >= n + 2 && u[0] == '[' && u[|u| - 1] == ']' && u[1..n + 1] == DisplayName(d.publicName)
  {
    var u := UsageOf(d);
    var n := |DisplayName(d.publicName)|;
    assert u[1..n + 1] == (DisplayName(d.publicName) + ArityText(d) + "]")[..n];
  }

  /**
   * An exact count n > 0 on a flag with no metavars shows the upper-cased
   * public name n times.
   */
  lemma EmptyMetaVarsShowPublicName(d: FlagData, n: nat)
    requires d.argNum == Strconv.Itoa(n) && n <= Strconv.IntMax && d.metaVarText == [] && n > 0
    ensures UsageReady(d)
    ensures ArityText(d) == " " + Joined(" ", seq(n, _ => ToUpper(d.publicName)))
  {
    Strconv.AtoiOfItoa(n);
    assert IsExact(d.argNum) by {
      forall i | 0 <= i < |d.argNum| ensures d.argNum[i] !in "?*+" {
        assert Strconv.IsDigit(d.argNum[i]);
      }
    }
    O.ExactMetaVarsReuseLast([d.publicName], n);
    assert O.ExactMetaVars([d.publicName], n) == seq(n, _ => ToUpper(d.publicName));
  }

  /** A new flag's usage is its bracketed display name: arity "0" shows no metavars. */
  lemma NewFlagUsage(name: string, help: string)
    ensures UsageReady(NewFlagData(name, help))
    ensures UsageOf(NewFlagData(name, help)) == "[" + DisplayName(name) + "]"
  {
    assert Strconv.Atoi("0").Some? && Strconv.Atoi("0").value == 0 by {
      assert "0"[0] == '0';
      assert Strconv.DecimalValue("0") == 0;
    }
    assert IsExact("0") by {
      assert "0"[0] == '0';
    }
  }

  /** After GetUsage has filled the metavars, a second call renders the same string. */
  lemma UsageStable(d: FlagData)
    requires UsageReady(d)
    ensures var d2 := d.(metaVarText := FilledMetaVars(d));
      UsageReady(d2) && FilledMetaVars(d2) == d2.metaVarText && UsageOf(d2) == UsageOf(d)
  {
  }

  /**
   * With the choices kept, a new flag lists exactly the bool choices given, as
   * flag_test.go expects; as written (Flag.Choices) the list stays empty.
   */
  lemma ChoicesKeptFromNew(name: string, help: string, choices: seq<Dyn>)
    requires forall i :: 0 <= i < |choices| ==> choices[i].BoolVal?
    ensures NewFlagData(name, help).possibleChoices == []
    ensures AllFit(NewFlagData(name, help).requiredKind, choices)
    ensures WithChoices(NewFlagData(name, help), choices).possibleChoices == choices
  {
  }

  /** The zero Flag{}: every field empty, action Store (iota 0), kind Invalid. */
  function ZeroFlagData(): FlagData
  {
    FlagData("", Nil, Nil, Arguments.Store, "", "", false, [], [], "", Invalid)
  }

  /**
   * The zero flag of flag_test.go starts without choices, its Invalid kind
   * lets choices of any kinds through (the test mixes "foobar", true and 12),
   * and with the choices kept it lists exactly them.
   */
  lemma ZeroFlagKeepsAnyChoices(choices: seq<Dyn>)
    ensures ZeroFlagData().possibleChoices == []
    ensures AllFit(ZeroFlagData().requiredKind, choices)
    ensures WithChoices(ZeroFlagData(), choices).possibleChoices == choices
  {
  }
}
