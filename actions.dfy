/**
 * actions.go: what each action does with the leftover arguments and with the
 * option's destination in the parser's namespace.
 *
 * Each action is specified by an Outcome (what it writes, the leftovers it
 * returns, the error it reports) and implemented by a method that writes the
 * namespace the way the Go code does, proved to produce that outcome.
 */
module Actions {
  import opened Wrappers
  import opened Utils
  import Strconv
  import opened Namespaces
  import Errors
  import O = Options

  /**
   * The pattern that selects an exact arity, corrected to `^[1-9][0-9]*$`:
   * every positive decimal count Nargs accepts (see NonZeroDigits).
   */
  predicate IsCount(s: string)
  {
    |s| > 0 && '1' <= s[0] <= '9' && Strconv.AllDigits(s)
  }

  /** The pattern `^[1-9]+$` the Go code uses: no digit may be zero, so "10" is no count. */
  predicate NonZeroDigits(s: string)
  {
    |s| > 0 && forall i :: 0 <= i < |s| ==> '1' <= s[i] <= '9'
  }

  /**
   * The number an exact arity stands for. Atoi reports out-of-range text with
   * the largest int as its value, and the actions ignore that error.
   */
  function CountValue(s: string): (n: int)
    requires IsCount(s)
    ensures 1 <= n <= Strconv.IntMax
  {
    CountAtLeastOne(s);
    var v := Strconv.DecimalValue(s);
    if v <= Strconv.IntMax then v else Strconv.IntMax
  }

  lemma {:induction false} CountAtLeastOne(s: string)
    requires IsCount(s)
    ensures Strconv.DecimalValue(s) >= 1
    decreases |s|
  {
    if |s| > 1 {
      CountAtLeastOne(s[..|s| - 1]);
    }
  }

  /** What an action does to the destination. */
  datatype Write =
    | Keep                       // nothing is written
    | Put(v: Value)              // the destination is overwritten
    | Extend(items: seq<string>) // each item is appended in turn (nothing at all when empty)

  datatype Outcome = Outcome(write: Write, rest: seq<string>, err: Maybe<Errors.Error>)

  /** The index of the first argument that is not a valid choice, or |xs| when there is none. */
  function FirstBad(f: O.OptionData, xs: seq<string>): (r: nat)
    ensures r <= |xs|
    ensures forall j :: 0 <= j < r ==> O.ValidateChoice(f, xs[j]).None?
    ensures r < |xs| ==> O.ValidateChoice(f, xs[r]).Some?
    decreases |xs|
  {
    if xs == [] then 0
    else if O.ValidateChoice(f, xs[0]).Some? then 0
    else 1 + FirstBad(f, xs[1..])
  }

  /** The list a destination holds for appending: an existing action list, else a fresh empty one. */
  function ExistingList(m: map<string, Value>, dest: string): seq<string>
  {
    if dest in m && m[dest].List? then m[dest].items else []
  }

  /** Appending to a destination holding a []string is a failed type assertion in Go. */
  predicate AppendPanics(m: map<string, Value>, dest: string, w: Write)
  {
    w.Extend? && |w.items| > 0 && dest in m && m[dest].Strings?
  }

  /** The namespace after a write to `dest`. */
  function Effect(m: map<string, Value>, dest: string, w: Write): map<string, Value>
  {
    match w
    case Keep => m
    case Put(v) => m[dest := v]
    case Extend(items) => if items == [] then m else m[dest := List(ExistingList(m, dest) + items)]
  }

  /** Store. */
  function StoreOutcome(f: O.OptionData, args: seq<string>): Outcome
    requires f.argNum != "0"
  {
    var name := f.DisplayName();
    if f.argNum == "?" then
      if |args| > 0 then
        var e := O.ValidateChoice(f, args[0]);
        if e.Some? then Outcome(Keep, args, e) else Outcome(Put(Str(args[0])), args[1..], None)
      else Outcome(Keep, args, None)
    else if ContainsAny(f.argNum, "*+") then
      if f.argNum == "+" && |args| == 0 then Outcome(Keep, args, Some(Errors.NoArguments(name)))
      else
        var k := FirstBad(f, args);
        if k < |args| then Outcome(Keep, args[k..], O.ValidateChoice(f, args[k]))
        else Outcome(Put(List(args)), [], None)
    else if IsCount(f.argNum) then
      var num := CountValue(f.argNum);
      if |args| < num then Outcome(Keep, args, Some(Errors.ArityMismatch(name, num, |args|)))
      else if num > 1 then
        var k := FirstBad(f, args[..num]);
        if k < num then Outcome(Keep, args, O.ValidateChoice(f, args[k]))
        else Outcome(Put(List(args[..num])), args[num..], None)
      else Outcome(Put(Str(args[0])), args[1..], None)
    else Outcome(Keep, args, None)
  }

  /** Append. */
  function AppendOutcome(f: O.OptionData, args: seq<string>): Outcome
  {
    var name := f.DisplayName();
    if IsCount(f.argNum) then
      var num := CountValue(f.argNum);
      if |args| < num then Outcome(Keep, args, Some(Errors.ArityMismatch(name, num, |args|)))
      else
        var k := FirstBad(f, args[..num]);
        if k < num then Outcome(Extend(args[..k]), args[k..], O.ValidateChoice(f, args[k]))
        else Outcome(Extend(args[..num]), args[num..], None)
    else if f.argNum == "0" then Outcome(Extend([f.defaultVal]), args, None)
    else if f.argNum == "?" then
      if |args| > 0 then
        var e := O.ValidateChoice(f, args[0]);
        if e.Some? then Outcome(Keep, args, e) else Outcome(Extend([args[0]]), args[1..], None)
      else Outcome(Extend([f.defaultVal]), args, None)
    else if f.argNum == "+" && |args| == 0 then Outcome(Keep, args, Some(Errors.NoArguments(name)))
    else
      var k := FirstBad(f, args);
      if k < |args| then Outcome(Extend(args[..k]), args[k..], O.ValidateChoice(f, args[k]))
      else Outcome(Extend(args), [], None)
  }

  /** The outcome of the option's action on the leftovers. */
  function ActionOutcome(f: O.OptionData, args: seq<string>): Outcome
    requires f.desiredAction.Store? ==> f.argNum != "0"
  {
    match f.desiredAction
    case Store => StoreOutcome(f, args)
    case StoreConst => Outcome(Put(Str(f.constVal)), args, None)
    case StoreTrue => Outcome(Put(Bool(true)), args, None)
    case StoreFalse => Outcome(Put(Bool(false)), args, None)
    case Append => AppendOutcome(f, args)
    case AppendConst => Outcome(Extend([f.constVal]), args, None)
    case ShowHelp => Outcome(Keep, args, None)
    case ShowVersion => Outcome(Keep, args, None)
  }

  /** The calls that do not panic. */
  predicate Applicable(f: O.OptionData, m: map<string, Value>, args: seq<string>)
  {
    match f.desiredAction
    case Store => f.argNum != "0"
    case StoreConst => f.argNum == "0"
    case StoreTrue => f.argNum == "0"
    case StoreFalse => f.argNum == "0"
    case AppendConst => f.argNum == "0" && !AppendPanics(m, f.destName, Extend([f.constVal]))
    case Append => !AppendPanics(m, f.destName, AppendOutcome(f, args).write)
    case ShowHelp => true
    case ShowVersion => true
  }

  // ---------------------------------------------------------------------------
  // The actions as the Go code runs them
  // ---------------------------------------------------------------------------

  /**
   * The checking loop shared by the list-valued branches of Store: walks the
   * first `limit` arguments, collecting them until one is not a valid choice.
   */
  method TakeValid(f: O.OptionData, args: seq<string>, limit: nat)
    returns (values: seq<string>, rest: seq<string>, err: Maybe<Errors.Error>)
    requires limit <= |args|
    ensures var k := FirstBad(f, args[..limit]);
      && values == args[..k] && rest == args[k..]
      && err == (if k < limit then O.ValidateChoice(f, args[k]) else None)
  {
    var i := 0;
    while i < limit
      invariant i <= limit
      invariant forall j :: 0 <= j < i ==> O.ValidateChoice(f, args[..limit][j]).None?
    {
      var e := O.ValidateChoice(f, args[i]);
      if e.Some? {
        assert args[..limit][i] == args[i];
        FirstBadAt(f, args[..limit], i);
        return args[..i], args[i..], e;
      }
      i := i + 1;
    }
    FirstBadAt(f, args[..limit], limit);
    return args[..limit], args[limit..], None;
  }

  /** Store: writes the destination once, at the end, and only when no error is found. */
  method Store(ns: Namespace, f: O.OptionData, args: seq<string>) returns (rest: seq<string>, err: Maybe<Errors.Error>)
    requires f.argNum != "0"
    modifies ns
    ensures var o := StoreOutcome(f, args);
      rest == o.rest && err == o.err && ns.mapping == Effect(old(ns.mapping), f.destName, o.write)
  {
    rest, err := args, None;
    if f.argNum == "?" {
      if |rest| > 0 {
        var e := O.ValidateChoice(f, rest[0]);
        if e.Some? {
          return rest, e;
        }
        ns.mapping := ns.mapping[f.destName := Str(rest[0])];
        return rest[1..], None;
      }
    } else if ContainsAny(f.argNum, "*+") {
      rest, err := StoreMany(ns, f, args);
    } else if IsCount(f.argNum) {
      rest, err := StoreCount(ns, f, args);
    }
  }

  /** The "*" and "+" branch of Store: every argument, as a list, when all are valid choices. */
  method StoreMany(ns: Namespace, f: O.OptionData, args: seq<string>) returns (rest: seq<string>, err: Maybe<Errors.Error>)
    requires f.argNum != "0" && f.argNum != "?" && ContainsAny(f.argNum, "*+")
    modifies ns
    ensures var o := StoreOutcome(f, args);
      rest == o.rest && err == o.err && ns.mapping == Effect(old(ns.mapping), f.destName, o.write)
  {
    if f.argNum == "+" && |args| == 0 {
      return args, Some(Errors.NoArguments(f.DisplayName()));
    }
    assert args[..|args|] == args;
    var values;
    values, rest, err := TakeValid(f, args, |args|);
    if err.None? {
      ns.mapping := ns.mapping[f.destName := List(values)];
    }
  }

  /** The exact-count branch of Store: N arguments, as a list when N > 1, checked against the choices. */
  method StoreCount(ns: Namespace, f: O.OptionData, args: seq<string>) returns (rest: seq<string>, err: Maybe<Errors.Error>)
    requires IsCount(f.argNum)
    modifies ns
    ensures var o := StoreOutcome(f, args);
      rest == o.rest && err == o.err && ns.mapping == Effect(old(ns.mapping), f.destName, o.write)
  {
    CountHasNoMarks(f.argNum);
    var num := CountValue(f.argNum);
    if |args| < num {
      return args, Some(Errors.ArityMismatch(f.DisplayName(), num, |args|));
    }
    if num > 1 {
      var values, _, e := TakeValid(f, args, num);
      if e.Some? {
        return args, e;
      }
      ns.mapping := ns.mapping[f.destName := List(values)];
      rest, err := args[num..], None;
    } else {
      ns.mapping := ns.mapping[f.destName := Str(args[0])];
      rest, err := args[1..], None;
    }
  }

  /** The first bad index is the first index whose predecessors are all good and which is bad (or the end). */
  lemma FirstBadAt(f: O.OptionData, xs: seq<string>, k: nat)
    requires k <= |xs|
    requires forall j :: 0 <= j < k ==> O.ValidateChoice(f, xs[j]).None?
    requires k < |xs| ==> O.ValidateChoice(f, xs[k]).Some?
    ensures FirstBad(f, xs) == k
  {
  }

  /** A prefix of good arguments ending before the end does not pass the first bad one. */
  lemma FirstBadMonotone(f: O.OptionData, xs: seq<string>, k: nat)
    requires k < |xs|
    requires forall j :: 0 <= j <= k ==> O.ValidateChoice(f, xs[j]).None?
    ensures FirstBad(f, xs) > k
  {
  }

  method StoreConst(ns: Namespace, f: O.OptionData, args: seq<string>) returns (rest: seq<string>, err: Maybe<Errors.Error>)
    requires f.argNum == "0"
    modifies ns
    ensures rest == args && err == None && ns.mapping == old(ns.mapping)[f.destName := Str(f.constVal)]
  {
    ns.mapping := ns.mapping[f.destName := Str(f.constVal)];
    return args, None;
  }

  method StoreFalse(ns: Namespace, f: O.OptionData, args: seq<string>) returns (rest: seq<string>, err: Maybe<Errors.Error>)
    requires f.argNum == "0"
    modifies ns
    ensures rest == args && err == None && ns.mapping == old(ns.mapping)[f.destName := Bool(false)]
  {
    ns.mapping := ns.mapping[f.destName := Bool(false)];
    return args, None;
  }

  method StoreTrue(ns: Namespace, f: O.OptionData, args: seq<string>) returns (rest: seq<string>, err: Maybe<Errors.Error>)
    requires f.argNum == "0"
    modifies ns
    ensures rest == args && err == None && ns.mapping == old(ns.mapping)[f.destName := Bool(true)]
  {
    ns.mapping := ns.mapping[f.destName := Bool(true)];
    return args, None;
  }

  /** appendValue: replaces a missing or non-list destination with an empty list, then appends. */
  method AppendValue(ns: Namespace, dest: string, value: string)
    requires !(dest in ns.mapping && ns.mapping[dest].Strings?)
    modifies ns
    ensures ns.mapping == Effect(old(ns.mapping), dest, Extend([value]))
  {
    if dest !in ns.mapping || !ns.mapping[dest].List? {
      ns.mapping := ns.mapping[dest := List([])];
    }
    ns.mapping := ns.mapping[dest := List(ns.mapping[dest].items + [value])];
  }

  /** Appending items one after the other is appending them all at once. */
  lemma EffectExtendSnoc(m: map<string, Value>, dest: string, items: seq<string>, x: string)
    ensures Effect(Effect(m, dest, Extend(items)), dest, Extend([x])) == Effect(m, dest, Extend(items + [x]))
  {
    if items == [] {
      assert items + [x] == [x];
    } else {
      assert ExistingList(m, dest) + items + [x] == ExistingList(m, dest) + (items + [x]);
    }
  }

  /**
   * The appending loop shared by the list branches of Append: appends the
   * first `limit` arguments one by one until one is not a valid choice.
   */
  method AppendEach(ns: Namespace, f: O.OptionData, args: seq<string>, limit: nat)
    returns (rest: seq<string>, err: Maybe<Errors.Error>)
    requires limit <= |args|
    requires FirstBad(f, args[..limit]) > 0 ==> !(f.destName in ns.mapping && ns.mapping[f.destName].Strings?)
    modifies ns
    ensures var k := FirstBad(f, args[..limit]);
      && rest == args[k..]
      && err == (if k < limit then O.ValidateChoice(f, args[k]) else None)
      && ns.mapping == Effect(old(ns.mapping), f.destName, Extend(args[..k]))
  {
    ghost var m0 := ns.mapping;
    var count := 0;
    while count < limit
      invariant count <= limit
      invariant forall j :: 0 <= j < count ==> O.ValidateChoice(f, args[..limit][j]).None?
      invariant ns.mapping == Effect(m0, f.destName, Extend(args[..count]))
    {
      var e := O.ValidateChoice(f, args[count]);
      if e.Some? {
        assert args[..limit][count] == args[count];
        FirstBadAt(f, args[..limit], count);
        return args[count..], e;
      }
      FirstBadMonotone(f, args[..limit], count);
      assert args[..count + 1] == args[..count] + [args[count]];
      AppendNext(ns, f.destName, m0, args[..count], args[count]);
      count := count + 1;
    }
    FirstBadAt(f, args[..limit], limit);
    return args[limit..], None;
  }

  /** One turn of the appending loop: the value goes after everything appended so far. */
  method AppendNext(ns: Namespace, dest: string, ghost m0: map<string, Value>, ghost done: seq<string>, x: string)
    requires !(dest in m0 && m0[dest].Strings?)
    requires ns.mapping == Effect(m0, dest, Extend(done))
    modifies ns
    ensures ns.mapping == Effect(m0, dest, Extend(done + [x]))
  {
    EffectExtendSnoc(m0, dest, done, x);
    AppendValue(ns, dest, x);
  }

  /** Append: appends value by value, so an invalid choice leaves the earlier values appended. */
  method Append(ns: Namespace, f: O.OptionData, args: seq<string>) returns (rest: seq<string>, err: Maybe<Errors.Error>)
    requires !AppendPanics(ns.mapping, f.destName, AppendOutcome(f, args).write)
    modifies ns
    ensures var o := AppendOutcome(f, args);
      rest == o.rest && err == o.err && ns.mapping == Effect(old(ns.mapping), f.destName, o.write)
  {
    rest, err := args, None;
    if IsCount(f.argNum) {
      var num := CountValue(f.argNum);
      if |rest| < num {
        return rest, Some(Errors.ArityMismatch(f.DisplayName(), num, |rest|));
      }
      rest, err := AppendEach(ns, f, args, num);
    } else if f.argNum == "0" {
      AppendValue(ns, f.destName, f.defaultVal);
    } else if f.argNum == "?" {
      if |rest| > 0 {
        var e := O.ValidateChoice(f, rest[0]);
        if e.Some? {
          return rest, e;
        }
        AppendValue(ns, f.destName, rest[0]);
        rest := rest[1..];
      } else {
        AppendValue(ns, f.destName, f.defaultVal);
      }
    } else {
      if f.argNum == "+" && |rest| == 0 {
        return rest, Some(Errors.NoArguments(f.DisplayName()));
      }
      assert args[..|args|] == args;
      rest, err := AppendEach(ns, f, args, |args|);
    }
  }

  method AppendConst(ns: Namespace, f: O.OptionData, args: seq<string>) returns (rest: seq<string>, err: Maybe<Errors.Error>)
    requires f.argNum == "0"
    requires !(f.destName in ns.mapping && ns.mapping[f.destName].Strings?)
    modifies ns
    ensures rest == args && err == None && ns.mapping == Effect(old(ns.mapping), f.destName, Extend([f.constVal]))
  {
    if f.destName !in ns.mapping || !ns.mapping[f.destName].List? {
      ns.mapping := ns.mapping[f.destName := List([])];
    }
    ns.mapping := ns.mapping[f.destName := List(ns.mapping[f.destName].items + [f.constVal])];
    return args, None;
  }

  /** ShowHelp: prints the help text (not modelled) and leaves everything as it was. */
  method ShowHelp(ns: Namespace, f: O.OptionData, args: seq<string>) returns (rest: seq<string>, err: Maybe<Errors.Error>)
    ensures rest == args && err == None
  {
    return args, None;
  }

  /** The option's action, dispatched on its kind. */
  method Apply(ns: Namespace, f: O.OptionData, args: seq<string>) returns (rest: seq<string>, err: Maybe<Errors.Error>)
    requires Applicable(f, ns.mapping, args)
    modifies ns
    ensures var o := ActionOutcome(f, args);
      rest == o.rest && err == o.err && ns.mapping == Effect(old(ns.mapping), f.destName, o.write)
  {
    match f.desiredAction
    case Store => rest, err := Store(ns, f, args);
    case StoreConst => rest, err := StoreConst(ns, f, args);
    case StoreTrue => rest, err := StoreTrue(ns, f, args);
    case StoreFalse => rest, err := StoreFalse(ns, f, args);
    case Append => rest, err := Append(ns, f, args);
    case AppendConst => rest, err := AppendConst(ns, f, args);
    case ShowHelp => rest, err := ShowHelp(ns, f, args);
    case ShowVersion => rest, err := ShowHelp(ns, f, args);
  }

  // ---------------------------------------------------------------------------
  // Properties
  // ---------------------------------------------------------------------------

  /** Every action hands back a suffix of the leftovers it was given. */
  lemma ActionReturnsSuffix(f: O.OptionData, args: seq<string>)
    requires f.desiredAction.Store? ==> f.argNum != "0"
    ensures exists k :: 0 <= k <= |args| && ActionOutcome(f, args).rest == args[k..]
  {
    var o := ActionOutcome(f, args);
    assert args[0..] == args;
    if o.rest == [] {
      assert args[|args|..] == [];
    }
  }

  /** Store never writes when it reports an error, and never reports one without a reason. */
  lemma StoreIsAllOrNothing(f: O.OptionData, args: seq<string>)
    requires f.argNum != "0"
    ensures StoreOutcome(f, args).err.Some? ==> StoreOutcome(f, args).write == Keep
    ensures StoreOutcome(f, args).write == Keep && StoreOutcome(f, args).err.None? ==>
              StoreOutcome(f, args).rest == args
  {
  }

  /**
   * "?": one argument is consumed and stored as a string when there is one and
   * it is a valid choice; with no arguments nothing happens.
   */
  lemma StoreOptional(f: O.OptionData, args: seq<string>)
    requires f.argNum == "?"
    ensures |args| == 0 ==> StoreOutcome(f, args) == Outcome(Keep, [], None)
    ensures |args| > 0 && O.ValidateChoice(f, args[0]).None? ==>
              StoreOutcome(f, args) == Outcome(Put(Str(args[0])), args[1..], None)
    ensures |args| > 0 && O.ValidateChoice(f, args[0]).Some? ==>
              StoreOutcome(f, args) == Outcome(Keep, args, O.ValidateChoice(f, args[0]))
  {
  }

  /**
   * "*" and "+": all arguments are consumed and stored as one list when all
   * are valid choices; otherwise the arguments from the first bad one on are
   * returned with its error and nothing is stored; "+" refuses an empty list.
   */
  lemma {:induction false} StoreAll(f: O.OptionData, args: seq<string>)
    requires f.argNum == "*" || f.argNum == "+"
    ensures f.argNum == "+" && args == [] ==>
              StoreOutcome(f, args) == Outcome(Keep, [], Some(Errors.NoArguments(f.DisplayName())))
    ensures (f.argNum == "*" || args != []) && (forall j :: 0 <= j < |args| ==> O.ValidateChoice(f, args[j]).None?) ==>
              StoreOutcome(f, args) == Outcome(Put(List(args)), [], None)
    ensures forall k :: (0 <= k < |args| && O.ValidateChoice(f, args[k]).Some?
                         && (forall j :: 0 <= j < k ==> O.ValidateChoice(f, args[j]).None?)) ==>
              StoreOutcome(f, args) == Outcome(Keep, args[k..], O.ValidateChoice(f, args[k]))
  {
    assert ContainsAny(f.argNum, "*+") by {
      assert f.argNum[0] in "*+";
    }
    if forall j :: 0 <= j < |args| ==> O.ValidateChoice(f, args[j]).None? {
      FirstBadAt(f, args, |args|);
    }
    forall k | 0 <= k < |args| && O.ValidateChoice(f, args[k]).Some?
        && (forall j :: 0 <= j < k ==> O.ValidateChoice(f, args[j]).None?)
      ensures StoreOutcome(f, args) == Outcome(Keep, args[k..], O.ValidateChoice(f, args[k]))
    {
      FirstBadAt(f, args, k);
    }
  }

  /** A count is neither "0" nor "?" and holds no "*" or "+". */
  lemma CountHasNoMarks(s: string)
    requires IsCount(s)
    ensures s != "0" && s != "?" && !ContainsAny(s, "*+")
  {
    assert '1' <= s[0];
    forall i | 0 <= i < |s| ensures s[i] !in "*+" {
      assert Strconv.IsDigit(s[i]);
    }
  }

  /**
   * An exact arity N (`^[1-9]+$`): fewer than N arguments is an error that
   * changes nothing; otherwise N arguments are consumed, stored as a list when
   * N > 1 (all must be valid choices) and as a single string when N == 1.
   */
  lemma StoreExact(f: O.OptionData, args: seq<string>)
    requires IsCount(f.argNum)
    ensures var n := CountValue(f.argNum);
      && (|args| < n ==>
            StoreOutcome(f, args) == Outcome(Keep, args, Some(Errors.ArityMismatch(f.DisplayName(), n, |args|))))
      && (|args| >= n > 1 && (forall j :: 0 <= j < n ==> O.ValidateChoice(f, args[j]).None?) ==>
            StoreOutcome(f, args) == Outcome(Put(List(args[..n])), args[n..], None))
      && (|args| >= n == 1 ==> StoreOutcome(f, args) == Outcome(Put(Str(args[0])), args[1..], None))
  {
    CountHasNoMarks(f.argNum);
    var n := CountValue(f.argNum);
    if |args| >= n > 1 && (forall j :: 0 <= j < n ==> O.ValidateChoice(f, args[j]).None?) {
      FirstBadAt(f, args[..n], n);
    }
  }

  /** With N == 1 the single argument is stored without being checked against the choices. */
  lemma StoreExactOneSkipsChoices(f: O.OptionData, arg: string)
    requires f.argNum == "1" && f.validChoices != [] && arg !in f.validChoices
    ensures O.ValidateChoice(f, arg).Some?
    ensures StoreOutcome(f, [arg]) == Outcome(Put(Str(arg)), [], None)
  {
    assert IsCount("1");
    assert Strconv.DecimalValue("1") == 1 by {
      assert "1"[..0] == [];
    }
    StoreExact(f, [arg]);
  }

  /** An arity that matches no branch of Store ("r", "05", ...) leaves everything as it was. */
  lemma StoreUnmatchedArityIsNoOp(f: O.OptionData, args: seq<string>)
    requires f.argNum != "0" && f.argNum != "?" && !ContainsAny(f.argNum, "*+") && !IsCount(f.argNum)
    ensures StoreOutcome(f, args) == Outcome(Keep, args, None)
  {
  }

  lemma StoreRemainderIsNoOp(f: O.OptionData, args: seq<string>)
    requires f.argNum == "r" || f.argNum == "R"
    ensures StoreOutcome(f, args) == Outcome(Keep, args, None)
  {
    assert !IsCount("r") by { assert "r"[0] == 'r'; }
    assert !IsCount("R") by { assert "R"[0] == 'R'; }
    assert !ContainsAny("r", "*+") && !ContainsAny("R", "*+");
  }

  /**
   * Store as written: a count holding a zero digit ("10", "20", "105") fails
   * `^[1-9]+$`, matches no other branch, and so does nothing.
   */
  function StoreOutcomeAsWritten(f: O.OptionData, args: seq<string>): Outcome
    requires f.argNum != "0"
  {
    if IsCount(f.argNum) && !NonZeroDigits(f.argNum) then Outcome(Keep, args, None)
    else StoreOutcome(f, args)
  }

  /**
   * Append as written: a count holding a zero digit fails `^[1-9]+$` and is
   * neither "0" nor "?", so it falls into the branch for "*" and "+" and
   * appends every valid argument.
   */
  function AppendOutcomeAsWritten(f: O.OptionData, args: seq<string>): Outcome
  {
    if IsCount(f.argNum) && !NonZeroDigits(f.argNum) then
      var k := FirstBad(f, args);
      if k < |args| then Outcome(Extend(args[..k]), args[k..], O.ValidateChoice(f, args[k]))
      else Outcome(Extend(args), [], None)
    else AppendOutcome(f, args)
  }

  /** The option's action as actions.go writes it: Store and Append recognise a count by `^[1-9]+$`. */
  function ActionOutcomeAsWritten(f: O.OptionData, args: seq<string>): Outcome
    requires f.desiredAction.Store? ==> f.argNum != "0"
  {
    match f.desiredAction
    case Store => StoreOutcomeAsWritten(f, args)
    case Append => AppendOutcomeAsWritten(f, args)
    case _ => ActionOutcome(f, args)
  }

  /** The calls of the actions as written that do not panic. */
  predicate ApplicableAsWritten(f: O.OptionData, m: map<string, Value>, args: seq<string>)
  {
    if f.desiredAction.Append? then !AppendPanics(m, f.destName, AppendOutcomeAsWritten(f, args).write)
    else Applicable(f, m, args)
  }

  /** An arity that is no count, or a count without a zero digit, runs the same under both patterns. */
  lemma ActionsAgreeWithoutZeroDigits(f: O.OptionData, m: map<string, Value>, args: seq<string>)
    requires IsCount(f.argNum) ==> NonZeroDigits(f.argNum)
    ensures ApplicableAsWritten(f, m, args) <==> Applicable(f, m, args)
    ensures Applicable(f, m, args) ==> ActionOutcomeAsWritten(f, args) == ActionOutcome(f, args)
  {
  }

  /** The two patterns agree on every arity without a zero digit. */
  lemma CountPatternsAgree(s: string)
    ensures NonZeroDigits(s) ==> IsCount(s)
    ensures IsCount(s) && !NonZeroDigits(s) ==> exists i :: 1 <= i < |s| && s[i] == '0'
  {
    if NonZeroDigits(s) {
      assert forall i :: 0 <= i < |s| ==> Strconv.IsDigit(s[i]);
    }
    if IsCount(s) && !NonZeroDigits(s) {
      var i :| 0 <= i < |s| && !('1' <= s[i] <= '9');
      assert Strconv.IsDigit(s[i]);
    }
  }

  /**
   * With Nargs("10") (which Nargs accepts) and ten or more arguments, Store
   * as written stores nothing and Append as written takes every argument;
   * with the corrected pattern both take exactly ten.
   */
  lemma ArityTenCounterexample(f: O.OptionData, args: seq<string>)
    requires f.argNum == "10" && f.validChoices == [] && |args| >= 10
    ensures Strconv.Atoi("10").Some? && Strconv.Atoi("10").value == 10
    ensures StoreOutcomeAsWritten(f, args) == Outcome(Keep, args, None)
    ensures AppendOutcomeAsWritten(f, args) == Outcome(Extend(args), [], None)
    ensures StoreOutcome(f, args) == Outcome(Put(List(args[..10])), args[10..], None)
    ensures AppendOutcome(f, args) == Outcome(Extend(args[..10]), args[10..], None)
  {
    assert "10"[0] == '1' && "10"[1] == '0';
    assert Strconv.DecimalValue("10") == 10 by {
      assert "10"[..1] == "1" && "1"[..0] == [];
    }
    assert IsCount("10") && !NonZeroDigits("10");
    assert forall j :: 0 <= j < |args| ==> O.ValidateChoice(f, args[j]).None?;
    FirstBadAt(f, args, |args|);
    FirstBadAt(f, args[..10], 10);
    StoreExact(f, args);
  }

  /**
   * The corrected pattern makes every exact arity n consume exactly n
   * arguments when they are valid choices, in Append as in Store.
   */
  lemma AppendExact(f: O.OptionData, args: seq<string>)
    requires IsCount(f.argNum) && |args| >= CountValue(f.argNum)
    requires forall j :: 0 <= j < CountValue(f.argNum) ==> O.ValidateChoice(f, args[j]).None?
    ensures var n := CountValue(f.argNum);
      AppendOutcome(f, args) == Outcome(Extend(args[..n]), args[n..], None)
  {
    FirstBadAt(f, args[..CountValue(f.argNum)], CountValue(f.argNum));
  }

  /**
   * Append consumes exactly what it appends: whenever it appends the
   * arguments rather than the default, the arguments are the appended values
   * followed by the leftovers it returns, errors included.
   */
  lemma AppendConsumesWhatItAppends(f: O.OptionData, args: seq<string>)
    requires f.argNum != "0" && !(f.argNum == "?" && args == [])
    ensures var o := AppendOutcome(f, args);
      o.write.Extend? ==> args == o.write.items + o.rest
    ensures var o := AppendOutcome(f, args);
      o.write.Keep? ==> o.rest == args
  {
    var o := AppendOutcome(f, args);
    if IsCount(f.argNum) {
      var num := CountValue(f.argNum);
      if |args| >= num {
        var k := FirstBad(f, args[..num]);
        if k < num {
          assert args[..num][k] == args[k];
          assert args == args[..k] + args[k..];
        } else {
          assert args == args[..num] + args[num..];
        }
      }
    } else if f.argNum == "?" {
      assert args == [args[0]] + args[1..];
    } else {
      var k := FirstBad(f, args);
      assert args == args[..k] + args[k..];
    }
  }

  /** With exact N and an invalid k-th argument, the first k - 1 values are already appended. */
  lemma AppendExactPartialWrite(f: O.OptionData, args: seq<string>, k: nat)
    requires IsCount(f.argNum) && |args| >= CountValue(f.argNum)
    requires k < CountValue(f.argNum) && O.ValidateChoice(f, args[k]).Some?
    requires forall j :: 0 <= j < k ==> O.ValidateChoice(f, args[j]).None?
    ensures AppendOutcome(f, args) == Outcome(Extend(args[..k]), args[k..], O.ValidateChoice(f, args[k]))
  {
    FirstBadAt(f, args[..CountValue(f.argNum)], k);
  }

  /** "0" appends the default, and "?" without arguments does too. */
  lemma AppendDefault(f: O.OptionData, args: seq<string>)
    requires f.argNum == "0" || (f.argNum == "?" && args == [])
    ensures AppendOutcome(f, args) == Outcome(Extend([f.defaultVal]), args, None)
  {
    assert !IsCount("0") by { assert "0"[0] == '0'; }
    assert !IsCount("?") by { assert "?"[0] == '?'; }
  }

  /** Two appends to a list accumulate: the values of both, in order. */
  lemma AppendAccumulates(m: map<string, Value>, dest: string, a: seq<string>, b: seq<string>)
    requires !(dest in m && m[dest].Strings?)
    ensures Effect(Effect(m, dest, Extend(a)), dest, Extend(b)) == Effect(m, dest, Extend(a + b))
    ensures a + b != [] ==> Effect(m, dest, Extend(a + b))[dest] == List(ExistingList(m, dest) + a + b)
  {
    if a == [] {
      assert a + b == b;
    } else if b == [] {
      assert a + b == a;
    } else {
      assert ExistingList(m, dest) + a + b == ExistingList(m, dest) + (a + b);
    }
  }

  /** Every value Store puts in a list, and the single value of "?", is a valid choice. */
  lemma StoredValuesAreValidChoices(f: O.OptionData, args: seq<string>)
    requires f.argNum != "0" && f.argNum != "1"
    ensures var w := StoreOutcome(f, args).write;
      && (w.Put? && w.v.List? ==> forall j :: 0 <= j < |w.v.items| ==> O.ValidateChoice(f, w.v.items[j]).None?)
      && (w.Put? && w.v.Str? ==> O.ValidateChoice(f, w.v.s).None?)
  {
    var w := StoreOutcome(f, args).write;
    if IsCount(f.argNum) && w.Put? && w.v.Str? {
      var n := CountValue(f.argNum);
      assert n == 1;
      CountOneIsOne(f.argNum);
    }
    if IsCount(f.argNum) && w.Put? && w.v.List? {
      var n := CountValue(f.argNum);
      assert forall j :: 0 <= j < n ==> args[..n][j] == args[j];
    }
  }

  /** The only exact arity worth one is "1". */
  lemma CountOneIsOne(s: string)
    requires IsCount(s) && CountValue(s) == 1
    ensures s == "1"
  {
    CountDigits(s);
    assert |s| == 1;
    assert Strconv.DecimalValue(s) == Strconv.DigitValue(s[0]) by {
      assert s[..0] == [];
    }
    assert s == [s[0]];
  }

  lemma CountDigits(s: string)
    requires IsCount(s)
    ensures |s| > 1 ==> Strconv.DecimalValue(s) >= 10
  {
    if |s| > 1 {
      CountAtLeastOne(s[..|s| - 1]);
    }
  }

  /** A write never removes a key, and a write that does something leaves the destination a key. */
  lemma EffectKeepsKeys(m: map<string, Value>, dest: string, w: Write)
    ensures m.Keys <= Effect(m, dest, w).Keys
    ensures (w.Put? || (w.Extend? && w.items != [])) ==> dest in Effect(m, dest, w)
  {
  }
}
