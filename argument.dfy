/**
 * argument.go (package parg, an older snapshot): the Action enumeration, the
 * argument record with its fluent setters, its usage string, and the two
 * constructors Argument and Flag.
 */
module Arguments {
  import opened Utils
  import opened Kinds
  import Strconv
  import O = Options

  /** The Action enumeration, in iota order. */
  datatype Action = Store | StoreConst | StoreTrue | StoreFalse | Append | AppendConst | Count | Help | Version

  /** The integer iota gives each Action. */
  function ActionCode(a: Action): (n: nat)
    ensures n < 9
  {
    match a
    case Store => 0
    case StoreConst => 1
    case StoreTrue => 2
    case StoreFalse => 3
    case Append => 4
    case AppendConst => 5
    case Count => 6
    case Help => 7
    case Version => 8
  }

  /** The Action an integer below 9 denotes. */
  function ActionOfCode(n: nat): (a: Action)
    requires n < 9
  {
    if n == 0 then Store
    else if n == 1 then StoreConst
    else if n == 2 then StoreTrue
    else if n == 3 then StoreFalse
    else if n == 4 then Append
    else if n == 5 then AppendConst
    else if n == 6 then Count
    else if n == 7 then Help
    else Version
  }

  /** The argument record; the interface{} fields hold tagged values. */
  datatype ArgumentData = ArgumentData(
    name: string,
    actionType: Action,
    argNum: string,
    constVal: Dyn,
    defaultVal: Dyn,
    kind: Kind,
    possibleChoices: seq<Dyn>,
    isPositional: bool,
    isRequired: bool,
    helpText: string,
    metaVarText: seq<string>,
    destName: string)

  /** The record Argument(name, help) builds; unnamed fields keep Go's zero values. */
  function ArgumentOf(name: string, help: string): ArgumentData
  {
    ArgumentData(name, StoreTrue, "0", Nil, Nil, Invalid, [], false, false, help, [name], name)
  }

  /** The record Flag(name, help) builds: default false and no metavar. */
  function FlagOf(name: string, help: string): ArgumentData
  {
    ArgumentData(name, StoreTrue, "0", Nil, BoolVal(false), Invalid, [], false, false, help, [], name)
  }

  /** Whether every choice passes the kind check Choices makes. */
  predicate AllFit(kind: Kind, choices: seq<Dyn>)
  {
    forall i :: 0 <= i < |choices| ==> KindFits(kind, choices[i])
  }

  /** The strings Nargs stores verbatim. */
  const AllowedArities: seq<string> := ["?", "*", "+", "r", "R"]

  /** The arities Nargs accepts without a panic. */
  predicate NargsAccepted(nargs: string)
  {
    nargs in AllowedArities || Strconv.Atoi(nargs).Some?
  }

  /** The record with the choices added, as the Choices doc comment describes. */
  function WithChoices(d: ArgumentData, choices: seq<Dyn>): (r: ArgumentData)
    ensures r.possibleChoices == d.possibleChoices + choices
    ensures r.(possibleChoices := d.possibleChoices) == d
  {
    d.(possibleChoices := d.possibleChoices + choices)
  }

  /** Whether the arity is an exact count (no "?*+rR" in it). */
  predicate IsExact(argNum: string)
  {
    !ContainsAny(argNum, "?*+rR")
  }

  /**
   * What GetUsage can run on without a panic: an exact arity must read as an
   * int, and every branch that indexes the metavars must have one.
   */
  predicate UsageReady(d: ArgumentData)
  {
    (IsExact(d.argNum) ==>
      Strconv.Atoi(d.argNum).Some? && (Strconv.Atoi(d.argNum).value > 0 ==> |d.metaVarText| > 0))
    && (d.argNum == "?" || d.argNum == "+" || d.argNum == "*" ==> |d.metaVarText| > 0)
  }

  /** The part of the usage string after the name. */
  function ArityText(d: ArgumentData): string
    requires UsageReady(d)
  {
    if IsExact(d.argNum) then
      var n := Strconv.Atoi(d.argNum).value;
      if n <= 0 then "" else " " + Joined(" ", O.ExactMetaVars(d.metaVarText, n))
    else if d.argNum == "?" then " [" + ToUpper(d.metaVarText[0]) + "]"
    else if d.argNum == "+" || d.argNum == "*" then
      var first := d.metaVarText[0];
      var second := if |d.metaVarText| > 1 then d.metaVarText[1] else first;
      var before := if d.argNum == "*" then "[" else "";
      var after := if d.argNum == "*" then "]" else "";
      " " + before + ToUpper(first) + " [" + ToUpper(second) + " ...]" + after
    else if d.argNum == "r" || d.argNum == "R" then " " + "..."
    else ""
  }

  /** The dashes and brackets around the name: "[-" or "[--" unless positional. */
  function Opening(d: ArgumentData): string
  {
    (if d.isPositional then "" else "[-") + (if |d.name| > 1 && !d.isPositional then "-" else "")
  }

  /** The usage string GetUsage returns. */
  function UsageOf(d: ArgumentData): string
    requires UsageReady(d)
  {
    Opening(d) + ToLower(d.name) + ArityText(d) + (if d.isPositional then "" else "]")
  }

  /** *argument: a mutable cell holding the record, as the setters change it in place. */
  class Argument {
    var data: ArgumentData

    constructor (d: ArgumentData)
      ensures data == d
    {
      data := d;
    }

    method Action(action: Action) returns (self: Argument)
      modifies this
      ensures self == this && data == old(data).(actionType := action)
    {
      data := data.(actionType := action);
      return this;
    }

    method Bool() returns (self: Argument)
      modifies this
      ensures self == this && data == old(data).(kind := Kinds.Bool)
    {
      self := Type(Kinds.Bool);
    }

    /**
     * Choices as written: it panics on a choice of the wrong kind, but appends
     * the choices only to its own parameter, so the record never changes.
     */
    method Choices(choices: seq<Dyn>) returns (self: Argument)
      requires AllFit(data.kind, choices)
      ensures self == this
    {
      var extended := choices;
      var i := 0;
      while i < |choices|
        invariant 0 <= i <= |choices|
        invariant |extended| == |choices| + i
      {
        var choice := choices[i];
        if data.kind != Invalid && KindOf(choice) != data.kind {
          assert false;
        }
        extended := extended + [choice];
        i := i + 1;
      }
      return this;
    }

    /** Choices as intended: the same kind check, then the choices are kept. */
    method StoreChoices(choices: seq<Dyn>) returns (self: Argument)
      requires AllFit(data.kind, choices)
      modifies this
      ensures self == this && data == WithChoices(old(data), choices)
    {
      var kept := data.possibleChoices;
      var i := 0;
      while i < |choices|
        invariant 0 <= i <= |choices|
        invariant kept == data.possibleChoices + choices[..i]
      {
        var choice := choices[i];
        if data.kind != Invalid && KindOf(choice) != data.kind {
          assert false;
        }
        kept := kept + [choice];
        i := i + 1;
      }
      assert choices[..|choices|] == choices;
      data := data.(possibleChoices := kept);
      return this;
    }

    /** Const: panics when a kind is set and the value has another kind. */
    method Const(value: Dyn) returns (self: Argument)
      requires KindFits(data.kind, value)
      modifies this
      ensures self == this && data == old(data).(constVal := value)
    {
      data := data.(constVal := value);
      return this;
    }

    /** Default: the same check as Const. */
    method Default(value: Dyn) returns (self: Argument)
      requires KindFits(data.kind, value)
      modifies this
      ensures self == this && data == old(data).(defaultVal := value)
    {
      data := data.(defaultVal := value);
      return this;
    }

    method Dest(name: string) returns (self: Argument)
      modifies this
      ensures self == this && data == old(data).(destName := name)
    {
      data := data.(destName := name);
      return this;
    }

    method Float() returns (self: Argument)
      modifies this
      ensures self == this && data == old(data).(kind := Float64)
    {
      self := Type(Float64);
    }

    method Float32() returns (self: Argument)
      modifies this
      ensures self == this && data == old(data).(kind := Kinds.Float32)
    {
      self := Type(Kinds.Float32);
    }

    /** GetUsage: the usage string described by UsageOf; the record is left as it is. */
    method GetUsage() returns (usage: string)
      requires UsageReady(data)
      ensures usage == UsageOf(data)
    {
      usage := "";
      if !data.isPositional {
        usage := usage + "[" + "-";
      }
      if |data.name| > 1 && !data.isPositional {
        usage := usage + "-";
      }
      usage := usage + ToLower(data.name);
      assert usage == Opening(data) + ToLower(data.name);
      var arity := "";
      if !ContainsAny(data.argNum, "?*+rR") {
        var count := 0;
        var max := Strconv.Atoi(data.argNum).value;
        var meta := data.metaVarText;
        var metaLen := |meta|;
        var nargs: seq<string> := [];
        while count < max
          invariant 0 <= count && (max >= 0 ==> count <= max) && (max < 0 ==> count == 0)
          invariant count > 0 ==> metaLen > 0 && nargs == O.ExactMetaVars(meta, count)
          invariant count == 0 ==> nargs == []
          decreases max - count
        {
          var m := "";
          if count >= metaLen {
            m := meta[metaLen - 1];
          } else {
            m := meta[count];
          }
          nargs := nargs + [ToUpper(m)];
          count := count + 1;
        }
        if |nargs| > 0 {
          var joined := Join(" ", nargs);
          arity := " " + joined;
        }
      } else if data.argNum == "?" {
        arity := " [" + ToUpper(data.metaVarText[0]) + "]";
      } else if data.argNum == "+" || data.argNum == "*" {
        var first := data.metaVarText[0];
        var second := first;
        if |data.metaVarText| > 1 {
          second := data.metaVarText[1];
        }
        var before := "";
        var after := "";
        if data.argNum == "*" {
          before := "[";
          after := "]";
        }
        arity := " " + before + ToUpper(first) + " [" + ToUpper(second) + " ...]" + after;
      } else if data.argNum == "r" || data.argNum == "R" {
        arity := " " + "...";
      }
      assert arity == ArityText(data);
      usage := usage + arity;
      if !data.isPositional {
        usage := usage + "]";
      }
    }

    method Help(text: string) returns (self: Argument)
      modifies this
      ensures self == this && data == old(data).(helpText := text)
    {
      data := data.(helpText := text);
      return this;
    }

    method Int64() returns (self: Argument)
      modifies this
      ensures self == this && data == old(data).(kind := Kinds.Int64)
    {
      self := Type(Kinds.Int64);
    }

    method Int32() returns (self: Argument)
      modifies this
      ensures self == this && data == old(data).(kind := Kinds.Int32)
    {
      self := Type(Kinds.Int32);
    }

    /** MetaVar: the first metavar followed by the rest, in order. */
    method MetaVar(meta: string, metaSlice: seq<string>) returns (self: Argument)
      modifies this
      ensures self == this && data == old(data).(metaVarText := [meta] + metaSlice)
    {
      var s := [meta];
      var i := 0;
      while i < |metaSlice|
        invariant 0 <= i <= |metaSlice|
        invariant s == [meta] + metaSlice[..i]
      {
        s := s + [metaSlice[i]];
        i := i + 1;
      }
      assert metaSlice[..|metaSlice|] == metaSlice;
      data := data.(metaVarText := s);
      return this;
    }

    /** Nargs: "?", "*", "+", "r" and "R" verbatim; any other string must read as an int. */
    method Nargs(nargs: string) returns (self: Argument)
      requires NargsAccepted(nargs)
      modifies this
      ensures self == this && data == old(data).(argNum := nargs)
    {
      var k := 0;
      while k < |AllowedArities|
        invariant 0 <= k <= |AllowedArities|
        invariant forall j :: 0 <= j < k ==> nargs != AllowedArities[j]
      {
        if nargs == AllowedArities[k] {
          data := data.(argNum := AllowedArities[k]);
          return this;
        }
        k := k + 1;
      }
      data := data.(argNum := nargs);
      return this;
    }

    method NotPositional() returns (self: Argument)
      modifies this
      ensures self == this && data == old(data).(isPositional := false)
    {
      data := data.(isPositional := false);
      return this;
    }

    method NotRequired() returns (self: Argument)
      modifies this
      ensures self == this && data == old(data).(isRequired := false)
    {
      data := data.(isRequired := false);
      return this;
    }

    method Positional() returns (self: Argument)
      modifies this
      ensures self == this && data == old(data).(isPositional := true)
    {
      data := data.(isPositional := true);
      return this;
    }

    method Required() returns (self: Argument)
      modifies this
      ensures self == this && data == old(data).(isRequired := true)
    {
      data := data.(isRequired := true);
      return this;
    }

    method String() returns (self: Argument)
      modifies this
      ensures self == this && data == old(data).(kind := Kinds.String)
    {
      self := Type(Kinds.String);
    }

    method Uint64() returns (self: Argument)
      modifies this
      ensures self == this && data == old(data).(kind := Kinds.Uint64)
    {
      self := Type(Kinds.Uint64);
    }

    method Uint32() returns (self: Argument)
      modifies this
      ensures self == this && data == old(data).(kind := Kinds.Uint32)
    {
      self := Type(Kinds.Uint32);
    }

    /** Type: sets the kind and nothing else. */
    method Type(kind: Kind) returns (self: Argument)
      modifies this
      ensures self == this && data == old(data).(kind := kind)
    {
      data := data.(kind := kind);
      return this;
    }
  }

  /** Argument(name, help). */
  method NewArgument(name: string, help: string) returns (a: Argument)
    ensures fresh(a) && a.data == ArgumentOf(name, help)
  {
    a := new Argument(ArgumentOf(name, help));
  }

  /** Flag(name, help). */
  method Flag(name: string, help: string) returns (a: Argument)
    ensures fresh(a) && a.data == FlagOf(name, help)
  {
    a := new Argument(FlagOf(name, help));
  }

  // ---------------------------------------------------------------------------
  // Properties
  // ---------------------------------------------------------------------------

  /** The iota codes are a bijection between the nine actions and 0..8. */
  lemma ActionCodesRoundTrip(a: Action, n: nat)
    ensures ActionOfCode(ActionCode(a)) == a
    ensures n < 9 ==> ActionCode(ActionOfCode(n)) == n
  {
  }

  /** Nargs refuses nothing it stores verbatim, refuses text that is no number, and lets GetUsage run on a metavar'd record. */
  lemma NargsAcceptsRemainder(d: ArgumentData, nargs: string)
    requires NargsAccepted(nargs) && |d.metaVarText| > 0
    ensures NargsAccepted("r") && NargsAccepted("R") && !NargsAccepted("x")
    ensures UsageReady(d.(argNum := nargs))
  {
    assert "x"[0] == 'x';
    assert !Strconv.IsDigit('x');
    if nargs in AllowedArities {
      assert nargs[0] in "?*+rR";
    }
  }

  /**
   * A non-positional usage opens with "[-" ("[--" for a name of two or more
   * characters) and closes with "]"; a positional one starts with the bare
   * lower-cased name.
   */
  lemma UsageDecoration(d: ArgumentData)
    requires UsageReady(d)
    ensures var u := UsageOf(d);
      var k := if |d.name| > 1 then 3 else 2;
      (!d.isPositional ==>
        |u| >= k + |d.name| + 1 && u[..2] == "[-" && u[|u| - 1] == ']' && (|d.name| > 1 ==> u[2] == '-')
        && u[k..k + |d.name|] == ToLower(d.name))
      && (d.isPositional ==> u[..|d.name|] == ToLower(d.name))
  {
    var u := UsageOf(d);
    var rest := ToLower(d.name) + ArityText(d) + (if d.isPositional then "" else "]");
    assert u == Opening(d) + rest;
    if !d.isPositional {
      if |d.name| > 1 {
        assert u == "[--" + rest;
      } else {
        assert u == "[-" + rest;
      }
    } else {
      assert u == ToLower(d.name) + ArityText(d);
    }
  }

  /** A remainder arity renders as " ..." after the name. */
  lemma RemainderUsage(d: ArgumentData)
    requires d.argNum == "r" || d.argNum == "R"
    ensures UsageReady(d)
    ensures UsageOf(d) == Opening(d) + ToLower(d.name) + " ..." + (if d.isPositional then "" else "]")
  {
    assert d.argNum[0] in "?*+rR";
  }

  /** An exact count n shows n metavars; a single metavar is repeated n times. */
  lemma ExactUsageRepeatsMetaVar(d: ArgumentData, n: nat)
    requires d.argNum == Strconv.Itoa(n) && n <= Strconv.IntMax && |d.metaVarText| == 1 && n > 0
    ensures UsageReady(d)
    ensures ArityText(d) == " " + Joined(" ", seq(n, _ => ToUpper(d.metaVarText[0])))
  {
    Strconv.AtoiOfItoa(n);
    assert IsExact(d.argNum) by {
      forall i | 0 <= i < |d.argNum| ensures d.argNum[i] !in "?*+rR" {
        assert Strconv.IsDigit(d.argNum[i]);
      }
    }
    O.ExactMetaVarsReuseLast(d.metaVarText, n);
    assert O.ExactMetaVars(d.metaVarText, n) == seq(n, _ => ToUpper(d.metaVarText[0]));
  }

  /** What Argument and Flag build: a bracketed flag usage with no arguments shown. */
  lemma ConstructorUsage(name: string, help: string)
    ensures UsageReady(ArgumentOf(name, help)) && UsageReady(FlagOf(name, help))
    ensures UsageOf(ArgumentOf(name, help)) == UsageOf(FlagOf(name, help))
      == "[-" + (if |name| > 1 then "-" else "") + ToLower(name) + "]"
  {
    assert Strconv.Atoi("0").Some? && Strconv.Atoi("0").value == 0 by {
      assert "0"[0] == '0';
      assert Strconv.DecimalValue("0") == 0;
    }
    assert IsExact("0") by {
      assert "0"[0] == '0';
    }
  }

  /**
   * With the choices kept, an argument made by ArgumentOf (kind Invalid, so
   * every choice passes the kind check) lists exactly the choices given; as
   * written (Argument.Choices) the list stays empty.
   */
  lemma ChoicesKeptFromFresh(name: string, help: string, choices: seq<Dyn>)
    ensures ArgumentOf(name, help).possibleChoices == []
    ensures AllFit(ArgumentOf(name, help).kind, choices)
    ensures WithChoices(ArgumentOf(name, help), choices).possibleChoices == choices
  {
  }
}
