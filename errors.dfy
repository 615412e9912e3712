/**
 * errors.go (and the ad-hoc errors built with fmt.Errorf in actions.go and
 * namespace.go): one constructor per error, and the message each renders.
 *
 * An error that holds an Option in Go holds here the parts of the option its
 * message reads: the display name, and the valid choices or the kind name.
 */
module Errors {
  import opened Wrappers
  import opened Utils
  import Strconv

  /** A sub-parser; only its name is read by the error message. */
  datatype SubParser = SubParser(name: string)

  datatype Error =
    | InvalidChoice(displayName: string, arg: string, choices: seq<string>)
    | InvalidParserName(name: string)
    | InvalidFlagName(name: string)
    | InvalidOption(name: string)
    | InvalidType(displayName: string, kindName: string, arg: string)
    | MissingEnvVar(varName: string)
    | ShowHelp
    | ShowVersion
    | TooFewArgs(displayName: string)
    | MissingOneOrMoreArgs(displayName: string)
    | MissingParser(parsers: seq<SubParser>)
    | MissingOption(name: string)
      /** "is expecting N argument(s)" from Store and Append. */
    | ArityMismatch(displayName: string, expected: int, given: int)
      /** "expects at least one argument" from Store and Append with "+". */
    | NoArguments(displayName: string)
      /** Namespace.Require. */
    | KeyMissing(key: string)
      /** Namespace.Try. */
    | KeyAbsent(key: string)

  const TooFewSuffix := ": too few arguments"
  const OneOrMoreSuffix := ": at least one argument requireds"
  const MissingOptionPrefix := "option \""
  const MissingOptionSuffix := "\" required"
  const InvalidOptionPrefix := "invalid option \""
  const InvalidFlagPrefix := "invalid flag name \""
  const InvalidParserPrefix := "invalid command name \""
  const MissingEnvVarPrefix := "missing environmental variable \""
  const KeyAbsentPrefix := "Key \""
  const KeyAbsentSuffix := "\" does not exist in namespace"
  const MissingParserPrefix := "must use an available command: "

  function Quote(s: string): string { "\"" + s + "\"" }

  function ParserNames(parsers: seq<SubParser>): (names: seq<string>)
    ensures |names| == |parsers|
    ensures forall i :: 0 <= i < |parsers| ==> names[i] == parsers[i].name
  {
    seq(|parsers|, i requires 0 <= i < |parsers| => parsers[i].name)
  }

  /** The text Error() returns; empty exactly for the two sentinels. */
  function Message(e: Error): (r: string)
    ensures r == "" <==> e.ShowHelp? || e.ShowVersion?
  {
    match e
    case InvalidChoice(d, arg, choices) =>
      d + ": invalid choice " + Quote(arg) + " (choose from: " + Joined(", ", choices) + ")"
    case InvalidParserName(name) => InvalidParserPrefix + name + "\""
    case InvalidFlagName(name) => InvalidFlagPrefix + name + "\""
    case InvalidOption(name) => InvalidOptionPrefix + name + "\""
    case InvalidType(d, kind, arg) => d + ": invalid " + kind + " value: " + Quote(arg)
    case MissingEnvVar(name) => MissingEnvVarPrefix + name + "\""
    case ShowHelp => ""
    case ShowVersion => ""
    case TooFewArgs(d) => d + TooFewSuffix
    case MissingOneOrMoreArgs(d) => d + OneOrMoreSuffix
    case MissingParser(parsers) => MissingParserPrefix + "{" + Joined(",", ParserNames(parsers)) + "}"
    case MissingOption(name) => MissingOptionPrefix + name + MissingOptionSuffix
    case ArityMismatch(d, expected, given) =>
      "option '" + d + "' is expecting " + Strconv.Itoa(expected) + " argument(s) but was provided "
      + Strconv.Itoa(given)
    case NoArguments(d) => "option '" + d + "' expects at least one argument"
    case KeyMissing(key) => "Missing option: " + key
    case KeyAbsent(key) => KeyAbsentPrefix + key + KeyAbsentSuffix
  }

  /** A sentinel asks for help or version output; it is not a failure. */
  predicate IsSentinel(e: Error) { e.ShowHelp? || e.ShowVersion? }

  predicate StartsWith(s: string, p: string) { |p| <= |s| && s[..|p|] == p }

  predicate EndsWith(s: string, suffix: string) { |suffix| <= |s| && s[|s| - |suffix|..] == suffix }

  /** The text between a prefix and a suffix. */
  function Between(s: string, prefix: string, suffix: string): string
    requires |prefix| + |suffix| <= |s|
  {
    s[|prefix|..|s| - |suffix|]
  }

  predicate Framed(s: string, prefix: string, suffix: string)
  {
    |prefix| + |suffix| <= |s| && StartsWith(s, prefix) && EndsWith(s, suffix)
  }

  /** The errors whose message names a single value inside fixed text. */
  predicate Decodable(e: Error)
  {
    e.TooFewArgs? || e.MissingOneOrMoreArgs? || e.MissingOption? || e.InvalidOption?
    || e.InvalidFlagName? || e.InvalidParserName? || e.MissingEnvVar? || e.KeyAbsent?
  }

  /** Reads an error back from its message text. */
  function Decode(msg: string): Maybe<Error>
  {
    if EndsWith(msg, TooFewSuffix) then Some(TooFewArgs(msg[..|msg| - |TooFewSuffix|]))
    else if EndsWith(msg, OneOrMoreSuffix) then Some(MissingOneOrMoreArgs(msg[..|msg| - |OneOrMoreSuffix|]))
    else if Framed(msg, MissingOptionPrefix, MissingOptionSuffix) then
      Some(MissingOption(Between(msg, MissingOptionPrefix, MissingOptionSuffix)))
    else if Framed(msg, KeyAbsentPrefix, KeyAbsentSuffix) then
      Some(KeyAbsent(Between(msg, KeyAbsentPrefix, KeyAbsentSuffix)))
    else if Framed(msg, InvalidOptionPrefix, "\"") then
      Some(InvalidOption(Between(msg, InvalidOptionPrefix, "\"")))
    else if Framed(msg, InvalidFlagPrefix, "\"") then
      Some(InvalidFlagName(Between(msg, InvalidFlagPrefix, "\"")))
    else if Framed(msg, InvalidParserPrefix, "\"") then
      Some(InvalidParserName(Between(msg, InvalidParserPrefix, "\"")))
    else if Framed(msg, MissingEnvVarPrefix, "\"") then
      Some(MissingEnvVar(Between(msg, MissingEnvVarPrefix, "\"")))
    else None
  }

  lemma FramedParts(prefix: string, x: string, suffix: string)
    ensures var s := prefix + x + suffix;
      Framed(s, prefix, suffix) && Between(s, prefix, suffix) == x
  {
    var s := prefix + x + suffix;
    assert s[..|prefix|] == prefix;
    assert s[|s| - |suffix|..] == suffix;
    assert s[|prefix|..|s| - |suffix|] == x;
  }

  /** Two texts ending with different characters cannot share a suffix ending in them. */
  lemma NotEndsWith(s: string, suffix: string, k: nat)
    requires 0 < k <= |suffix| && k <= |s| && s[|s| - k] != suffix[|suffix| - k]
    ensures !EndsWith(s, suffix)
  {
  }

  lemma NotStartsWith(s: string, prefix: string, k: nat)
    requires k < |prefix| && k < |s| && s[k] != prefix[k]
    ensures !StartsWith(s, prefix)
  {
  }

  /** The message of a quoted-value error ends with the quote and nothing else decodes it earlier. */
  lemma QuotedTail(msg: string)
    requires |msg| >= 1 && msg[|msg| - 1] == '"'
    ensures !EndsWith(msg, TooFewSuffix) && !EndsWith(msg, OneOrMoreSuffix)
    ensures !Framed(msg, MissingOptionPrefix, MissingOptionSuffix)
    ensures !Framed(msg, KeyAbsentPrefix, KeyAbsentSuffix)
  {
    NotEndsWith(msg, TooFewSuffix, 1);
    NotEndsWith(msg, OneOrMoreSuffix, 1);
    NotEndsWith(msg, MissingOptionSuffix, 1);
    NotEndsWith(msg, KeyAbsentSuffix, 1);
  }

  lemma DecodeTooFew(d: string)
    ensures Decode(Message(TooFewArgs(d))) == Some(TooFewArgs(d))
  {
    var msg := Message(TooFewArgs(d));
    assert msg[..|msg| - |TooFewSuffix|] == d;
    assert msg[|msg| - |TooFewSuffix|..] == TooFewSuffix;
  }

  lemma DecodeOneOrMore(d: string)
    ensures Decode(Message(MissingOneOrMoreArgs(d))) == Some(MissingOneOrMoreArgs(d))
  {
    var msg := Message(MissingOneOrMoreArgs(d));
    assert msg[|msg| - 2] == 'd';
    NotEndsWith(msg, TooFewSuffix, 2);
    assert msg[..|msg| - |OneOrMoreSuffix|] == d;
    assert msg[|msg| - |OneOrMoreSuffix|..] == OneOrMoreSuffix;
  }

  lemma DecodeMissingOption(n: string)
    ensures Decode(Message(MissingOption(n))) == Some(MissingOption(n))
  {
    var msg := Message(MissingOption(n));
    NotEndsWith(msg, TooFewSuffix, 1);
    NotEndsWith(msg, OneOrMoreSuffix, 1);
    FramedParts(MissingOptionPrefix, n, MissingOptionSuffix);
  }

  lemma DecodeKeyAbsent(k: string)
    ensures Decode(Message(KeyAbsent(k))) == Some(KeyAbsent(k))
  {
    var msg := Message(KeyAbsent(k));
    NotEndsWith(msg, TooFewSuffix, 1);
    NotEndsWith(msg, OneOrMoreSuffix, 1);
    NotEndsWith(msg, MissingOptionSuffix, 1);
    FramedParts(KeyAbsentPrefix, k, KeyAbsentSuffix);
  }

  lemma DecodeInvalidOption(n: string)
    ensures Decode(Message(InvalidOption(n))) == Some(InvalidOption(n))
  {
    var msg := Message(InvalidOption(n));
    QuotedTail(msg);
    FramedParts(InvalidOptionPrefix, n, "\"");
  }

  lemma DecodeInvalidFlagName(n: string)
    ensures Decode(Message(InvalidFlagName(n))) == Some(InvalidFlagName(n))
  {
    var msg := Message(InvalidFlagName(n));
    QuotedTail(msg);
    NotStartsWith(msg, InvalidOptionPrefix, 8);
    FramedParts(InvalidFlagPrefix, n, "\"");
  }

  lemma DecodeInvalidParserName(n: string)
    ensures Decode(Message(InvalidParserName(n))) == Some(InvalidParserName(n))
  {
    var msg := Message(InvalidParserName(n));
    QuotedTail(msg);
    NotStartsWith(msg, InvalidOptionPrefix, 8);
    NotStartsWith(msg, InvalidFlagPrefix, 8);
    FramedParts(InvalidParserPrefix, n, "\"");
  }

  lemma DecodeMissingEnvVar(n: string)
    ensures Decode(Message(MissingEnvVar(n))) == Some(MissingEnvVar(n))
  {
    var msg := Message(MissingEnvVar(n));
    QuotedTail(msg);
    NotStartsWith(msg, InvalidOptionPrefix, 0);
    NotStartsWith(msg, InvalidFlagPrefix, 0);
    NotStartsWith(msg, InvalidParserPrefix, 0);
    FramedParts(MissingEnvVarPrefix, n, "\"");
  }

  /** The message of every single-value error reads back as that error. */
  lemma DecodeMessage(e: Error)
    requires Decodable(e)
    ensures Decode(Message(e)) == Some(e)
  {
    match e
    case TooFewArgs(d) => DecodeTooFew(d);
    case MissingOneOrMoreArgs(d) => DecodeOneOrMore(d);
    case MissingOption(n) => DecodeMissingOption(n);
    case KeyAbsent(k) => DecodeKeyAbsent(k);
    case InvalidOption(n) => DecodeInvalidOption(n);
    case InvalidFlagName(n) => DecodeInvalidFlagName(n);
    case InvalidParserName(n) => DecodeInvalidParserName(n);
    case MissingEnvVar(n) => DecodeMissingEnvVar(n);
  }

  /** So two different single-value errors never render the same message. */
  lemma MessageInjective(e1: Error, e2: Error)
    requires Decodable(e1) && Decodable(e2) && Message(e1) == Message(e2)
    ensures e1 == e2
  {
    DecodeMessage(e1);
    DecodeMessage(e2);
  }

  /**
   * The sub-parser names can be read back, in the given order, from between
   * the braces, provided there is at least one and none contains a comma.
   */
  lemma MissingParserListsNames(parsers: seq<SubParser>)
    requires |parsers| > 0
    requires forall k, i :: 0 <= k < |parsers| && 0 <= i < |parsers[k].name| ==> parsers[k].name[i] != ','
    ensures var msg := Message(MissingParser(parsers));
      Framed(msg, MissingParserPrefix + "{", "}")
      && Split(Between(msg, MissingParserPrefix + "{", "}"), ',') == ParserNames(parsers)
  {
    var names := ParserNames(parsers);
    var inner := Joined(",", names);
    assert MissingParserPrefix + "{" + inner + "}" == Message(MissingParser(parsers));
    FramedParts(MissingParserPrefix + "{", inner, "}");
    assert forall k, i :: 0 <= k < |names| && 0 <= i < |names[k]| ==> names[k][i] != ',';
    assert "," == [','];
    SplitJoined(names, ',');
  }

  /** The invalid-choice message begins with the display name and quotes the offending argument. */
  lemma InvalidChoiceNamesArgument(d: string, arg: string, choices: seq<string>)
    ensures var msg := Message(InvalidChoice(d, arg, choices));
      var listed := " (choose from: " + Joined(", ", choices) + ")";
      && StartsWith(msg, d + ": invalid choice ")
      && msg[|d| + 17..|d| + 17 + |arg| + 2] == Quote(arg)
      && EndsWith(msg, listed)
      && Framed(msg, d + ": invalid choice \"", "\"" + listed)
      && Between(msg, d + ": invalid choice \"", "\"" + listed) == arg
  {
    var msg := Message(InvalidChoice(d, arg, choices));
    var head := d + ": invalid choice ";
    var listed := " (choose from: " + Joined(", ", choices) + ")";
    assert |head| == |d| + 17;
    assert msg == head + Quote(arg) + listed;
    assert msg[..|head|] == head;
    assert msg[|head|..|head| + |Quote(arg)|] == Quote(arg);
    assert msg == (head + "\"") + arg + ("\"" + listed);
    FramedParts(head + "\"", arg, "\"" + listed);
    assert msg[|msg| - |listed|..] == listed;
  }

  /** InvalidTypeErr names the option and the expected kind, and the argument reads back from between the quotes. */
  lemma InvalidTypeNamesArgument(d: string, kind: string, arg: string)
    ensures var msg := Message(InvalidType(d, kind, arg));
      && StartsWith(msg, d + ": invalid " + kind + " value: ")
      && Framed(msg, d + ": invalid " + kind + " value: \"", "\"")
      && Between(msg, d + ": invalid " + kind + " value: \"", "\"") == arg
  {
    var msg := Message(InvalidType(d, kind, arg));
    var head := d + ": invalid " + kind + " value: ";
    assert msg == (head + "\"") + arg + "\"";
    FramedParts(head + "\"", arg, "\"");
    assert msg[..|head|] == head;
  }
}
