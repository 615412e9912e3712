/**
 * utils.go: the tokenizer that splits the argument vector into option names
 * and leftover arguments, the environment-variable name pattern, and the
 * string helpers used to lay out help text (join, spacer, wordWrap).
 */
module Utils {

  // ---------------------------------------------------------------------------
  // Character classes and Go's strings.Split for a one-character separator
  // ---------------------------------------------------------------------------

  predicate IsLetter(c: char) { 'a' <= c <= 'z' || 'A' <= c <= 'Z' }

  predicate IsDigitChar(c: char) { '0' <= c <= '9' }

  predicate AllLetters(s: string) { forall i :: 0 <= i < |s| ==> IsLetter(s[i]) }

  /** strings.ContainsAny: some character of s is among the given characters. */
  predicate ContainsAny(s: string, chars: string)
  {
    exists i :: 0 <= i < |s| && s[i] in chars
  }

  function UpperChar(c: char): char
  {
    if 'a' <= c <= 'z' then (c as int - 'a' as int + 'A' as int) as char else c
  }

  function LowerChar(c: char): char
  {
    if 'A' <= c <= 'Z' then (c as int - 'A' as int + 'a' as int) as char else c
  }

  /** strings.ToUpper on ASCII text. */
  function ToUpper(s: string): (r: string)
    ensures |r| == |s| && forall i :: 0 <= i < |s| ==> r[i] == UpperChar(s[i])
  {
    seq(|s|, i requires 0 <= i < |s| => UpperChar(s[i]))
  }

  /** strings.ToLower on ASCII text. */
  function ToLower(s: string): (r: string)
    ensures |r| == |s| && forall i :: 0 <= i < |s| ==> r[i] == LowerChar(s[i])
  {
    seq(|s|, i requires 0 <= i < |s| => LowerChar(s[i]))
  }

  /** strings.Split(s, [c]): the pieces between occurrences of c; never empty. */
  function Split(s: string, c: char): (pieces: seq<string>)
    ensures |pieces| >= 1
    decreases |s|
  {
    if s == [] then [""]
    else
      var rest := Split(s[1..], c);
      if s[0] == c then [""] + rest else [[s[0]] + rest[0]] + rest[1..]
  }

  // ---------------------------------------------------------------------------
  // extractOptions
  // ---------------------------------------------------------------------------

  /** The option pattern `^-{1,2}[a-zA-Z]+$`. */
  predicate IsOptionToken(a: string)
  {
    |a| >= 2 && a[0] == '-' &&
    if a[1] == '-' then |a| >= 3 && AllLetters(a[2..]) else AllLetters(a[1..])
  }

  /**
   * The option names one option token stands for: `--name` gives `name`;
   * a single-dash token gives one name per letter after the dash.
   */
  function TokenNames(a: string): seq<string>
    requires IsOptionToken(a)
  {
    if |a| > 2 && a[..2] == "--" then [a[2..]]
    else seq(|a| - 1, i requires 0 <= i < |a| - 1 => [a[i + 1]])
  }

  /**
   * What extractOptions returns for `all`: (option names, leftover arguments).
   * A `--` followed by another token moves that one token to the leftovers.
   */
  function Extracted(all: seq<string>): (seq<string>, seq<string>)
    decreases |all|
  {
    if all == [] then ([], [])
    else if all[0] == "--" && |all| > 1 then
      var rest := Extracted(all[2..]);
      (rest.0, [all[1]] + rest.1)
    else if !IsOptionToken(all[0]) then
      var rest := Extracted(all[1..]);
      (rest.0, [all[0]] + rest.1)
    else
      var rest := Extracted(all[1..]);
      (TokenNames(all[0]) + rest.0, rest.1)
  }

  /** extractOptions: one pass over the arguments, appending to two lists. */
  method ExtractOptions(allArgs: seq<string>) returns (options: seq<string>, args: seq<string>)
    ensures (options, args) == Extracted(allArgs)
    ensures allArgs == [] ==> options == [] && args == []
  {
    options, args := [], [];
    var count := 0;
    var max := |allArgs|;
    assert allArgs[0..] == allArgs;
    assert Extracted(allArgs).0 == [] + Extracted(allArgs).0;
    assert Extracted(allArgs).1 == [] + Extracted(allArgs).1;
    while count < max
      invariant 0 <= count <= max
      invariant Extracted(allArgs).0 == options + Extracted(allArgs[count..]).0
      invariant Extracted(allArgs).1 == args + Extracted(allArgs[count..]).1
      decreases max - count
    {
      var names, leftovers, next := ScanOne(allArgs, count);
      options := options + names;
      args := args + leftovers;
      count := next;
    }
    assert allArgs[count..] == [];
    assert options + [] == options && args + [] == args;
  }

  /** One turn of the extractOptions loop: the token at `count`, and a `--` with the token after it. */
  method ScanOne(allArgs: seq<string>, count: nat) returns (names: seq<string>, leftovers: seq<string>, next: nat)
    requires count < |allArgs|
    ensures count < next <= |allArgs|
    ensures Extracted(allArgs[count..]).0 == names + Extracted(allArgs[next..]).0
    ensures Extracted(allArgs[count..]).1 == leftovers + Extracted(allArgs[next..]).1
  {
    var a := allArgs[count];
    ghost var rest := allArgs[count + 1..];
    assert allArgs[count..] == [a] + rest;
    ExtractedCons(a, rest);
    if a == "--" && |allArgs| > count + 1 {
      assert rest[0] == allArgs[count + 1] && rest[1..] == allArgs[count + 2..];
      names, leftovers, next := [], [allArgs[count + 1]], count + 2;
    } else if !IsOptionToken(a) {
      names, leftovers, next := [], [a], count + 1;
    } else if |a| > 2 && a[..2] == "--" {
      names, leftovers, next := [a[2..]], [], count + 1;
    } else {
      names := AppendLetters([], a);
      leftovers, next := [], count + 1;
    }
  }

  /** The inner loop of extractOptions: each letter after the single dash becomes a name. */
  method AppendLetters(options: seq<string>, a: string) returns (extended: seq<string>)
    requires IsOptionToken(a) && !(|a| > 2 && a[..2] == "--")
    ensures extended == options + TokenNames(a)
  {
    extended := options;
    var k := 1;
    while k < |a|
      invariant 1 <= k <= |a|
      invariant extended == options + seq(k - 1, i requires 0 <= i < k - 1 => [a[i + 1]])
    {
      extended := extended + [[a[k]]];
      k := k + 1;
    }
  }

  /** Every option name extracted is a non-empty run of ASCII letters. */
  lemma {:induction false} ExtractedNamesAreLetterRuns(all: seq<string>)
    ensures forall i :: 0 <= i < |Extracted(all).0| ==>
              |Extracted(all).0[i]| > 0 && AllLetters(Extracted(all).0[i])
    decreases |all|
  {
    if all == [] {
    } else if all[0] == "--" && |all| > 1 {
      ExtractedNamesAreLetterRuns(all[2..]);
    } else if !IsOptionToken(all[0]) {
      ExtractedNamesAreLetterRuns(all[1..]);
    } else {
      ExtractedNamesAreLetterRuns(all[1..]);
      var a := all[0];
      var names := TokenNames(a);
      assert forall j :: 0 <= j < |names| ==> |names[j]| > 0 && AllLetters(names[j]) by {
        if |a| > 2 && a[..2] == "--" {
          assert names == [a[2..]];
        } else {
          assert a[1] != '-';
          forall j | 0 <= j < |names|
            ensures |names[j]| > 0 && AllLetters(names[j])
          {
            assert names[j] == [a[j + 1]];
            assert IsLetter(a[1..][j]);
          }
        }
      }
    }
  }

  /** The leftovers of a token list read without `--` escapes. */
  function NonOptions(all: seq<string>): seq<string>
    decreases |all|
  {
    if all == [] then []
    else (if IsOptionToken(all[0]) then [] else [all[0]]) + NonOptions(all[1..])
  }

  /** The option names of a token list read without `--` escapes. */
  function OptionNames(all: seq<string>): seq<string>
    decreases |all|
  {
    if all == [] then []
    else (if IsOptionToken(all[0]) then TokenNames(all[0]) else []) + OptionNames(all[1..])
  }

  /**
   * When no `--` is followed by another token, the leftovers are exactly the
   * tokens that do not match the option pattern, verbatim and in order, and the
   * option names are those of the matching tokens, in order.
   */
  lemma {:induction false} ExtractedWithoutEscape(all: seq<string>)
    requires forall i :: 0 <= i < |all| - 1 ==> all[i] != "--"
    ensures Extracted(all) == (OptionNames(all), NonOptions(all))
    decreases |all|
  {
    if all != [] {
      assert forall i :: 0 <= i < |all[1..]| - 1 ==> all[1..][i] == all[i + 1];
      ExtractedWithoutEscape(all[1..]);
      assert !(all[0] == "--" && |all| > 1);
      if IsOptionToken(all[0]) {
        assert NonOptions(all) == [] + NonOptions(all[1..]);
        assert [] + NonOptions(all[1..]) == NonOptions(all[1..]);
      } else {
        assert OptionNames(all) == [] + OptionNames(all[1..]);
        assert [] + OptionNames(all[1..]) == OptionNames(all[1..]);
      }
    }
  }

  /** `--` rescues exactly the next token, whatever it looks like, and the scan resumes after it. */
  lemma ExtractedEscape(t: string, rest: seq<string>)
    ensures Extracted(["--", t] + rest) == (Extracted(rest).0, [t] + Extracted(rest).1)
  {
    var all := ["--", t] + rest;
    assert all[0] == "--" && all[1] == t && |all| > 1;
    assert all[2..] == rest;
  }

  /** A trailing `--` with nothing after it is itself a leftover. */
  lemma ExtractedTrailingEscape()
    ensures Extracted(["--"]) == ([], ["--"])
  {
    assert !IsOptionToken("--");
    assert ["--"][1..] == [];
    assert Extracted(["--"]) == ([], ["--"] + Extracted([]).1);
    assert ["--"] + [] == ["--"];
  }

  /** `-abc` gives `a`, `b`, `c`; in particular `-f` gives exactly `f`. */
  lemma ExtractedShortCluster(letters: string)
    requires |letters| > 0 && AllLetters(letters)
    ensures Extracted(["-" + letters]) == (seq(|letters|, i requires 0 <= i < |letters| => [letters[i]]), [])
  {
    var a := "-" + letters;
    assert a[1..] == letters;
    assert IsLetter(letters[0]);
    assert IsOptionToken(a);
    assert !(|a| > 2 && a[..2] == "--");
    assert TokenNames(a) == seq(|letters|, i requires 0 <= i < |letters| => [letters[i]]);
    assert ["-" + letters][1..] == [];
    assert Extracted(["-" + letters]) == (TokenNames(a) + [], []);
    assert TokenNames(a) + [] == TokenNames(a);
  }

  /** `--name` gives exactly `name`. */
  lemma ExtractedLong(name: string)
    requires |name| > 0 && AllLetters(name)
    ensures Extracted(["--" + name]) == ([name], [])
  {
    var a := "--" + name;
    assert a[2..] == name && a[..2] == "--";
    assert a[1] == '-' && IsOptionToken(a);
    assert ["--" + name][1..] == [];
    assert Extracted([a]) == (TokenNames(a) + [], []);
    assert TokenNames(a) + [] == [name];
  }

  /** One step of the scan, for a list given as its first token and the rest. */
  lemma ExtractedCons(t: string, rest: seq<string>)
    ensures Extracted([t] + rest) ==
      if t == "--" && |rest| > 0 then (Extracted(rest[1..]).0, [rest[0]] + Extracted(rest[1..]).1)
      else if !IsOptionToken(t) then (Extracted(rest).0, [t] + Extracted(rest).1)
      else (TokenNames(t) + Extracted(rest).0, Extracted(rest).1)
  {
    var all := [t] + rest;
    assert all[0] == t && all[1..] == rest;
    if |rest| > 0 {
      assert all[1] == rest[0] && all[2..] == rest[1..];
    }
  }

  /** The last three tokens of the example below. */
  lemma ExtractedExampleTail()
    ensures Extracted(["four", "five", "-irtusc"]) == (["i", "r", "t", "u", "s", "c"], ["four", "five"])
  {
    var r1 := ["-irtusc"];
    var letters := "irtusc";
    assert "-" + letters == "-irtusc";
    assert AllLetters(letters) by {
      assert forall i :: 0 <= i < |letters| ==> letters[i] in "irtusc";
    }
    ExtractedShortCluster(letters);
    var names := seq(|letters|, i requires 0 <= i < |letters| => [letters[i]]);
    assert names == ["i", "r", "t", "u", "s", "c"];
    assert Extracted(r1) == (["i", "r", "t", "u", "s", "c"], []);
    var r2 := ["five"] + r1;
    ExtractedCons("five", r1);
    assert !IsOptionToken("five") && "five" != "--";
    assert ["five"] + [] == ["five"];
    assert Extracted(r2) == (["i", "r", "t", "u", "s", "c"], ["five"]);
    var r3 := ["four"] + r2;
    ExtractedCons("four", r2);
    assert !IsOptionToken("four") && "four" != "--";
    assert ["four"] + ["five"] == ["four", "five"];
    assert Extracted(r3) == (["i", "r", "t", "u", "s", "c"], ["four", "five"]);
    assert r3 == ["four", "five", "-irtusc"];
  }

  /** The last five tokens of the example below. */
  lemma ExtractedExampleMiddle()
    ensures Extracted(["foobar", "--fizzbuzz", "four", "five", "-irtusc"])
         == (["fizzbuzz", "i", "r", "t", "u", "s", "c"], ["foobar", "four", "five"])
  {
    var r3 := ["four", "five", "-irtusc"];
    ExtractedExampleTail();
    var r4 := ["--fizzbuzz"] + r3;
    ExtractedCons("--fizzbuzz", r3);
    ExtractedLong("fizzbuzz");
    assert "--fizzbuzz" == "--" + "fizzbuzz";
    assert ["--fizzbuzz"] + [] == ["--fizzbuzz"];
    ExtractedCons("--fizzbuzz", []);
    assert IsOptionToken("--fizzbuzz") && TokenNames("--fizzbuzz") == ["fizzbuzz"];
    assert "--fizzbuzz" != "--";
    assert ["fizzbuzz"] + ["i", "r", "t", "u", "s", "c"] == ["fizzbuzz", "i", "r", "t", "u", "s", "c"];
    assert Extracted(r4) == (["fizzbuzz", "i", "r", "t", "u", "s", "c"], ["four", "five"]);
    var r5 := ["foobar"] + r4;
    ExtractedCons("foobar", r4);
    assert !IsOptionToken("foobar") && "foobar" != "--";
    assert ["foobar"] + ["four", "five"] == ["foobar", "four", "five"];
    assert r5 == ["foobar", "--fizzbuzz", "four", "five", "-irtusc"];
  }

  /** The example from the tokenizer's tests: 8 option names and 3 leftovers. */
  lemma ExtractedExample()
    ensures Extracted(["-f", "foobar", "--fizzbuzz", "four", "five", "-irtusc"])
         == (["f", "fizzbuzz", "i", "r", "t", "u", "s", "c"], ["foobar", "four", "five"])
  {
    var r5 := ["foobar", "--fizzbuzz", "four", "five", "-irtusc"];
    ExtractedExampleMiddle();
    var r6 := ["-f"] + r5;
    ExtractedCons("-f", r5);
    ExtractedShortCluster("f");
    assert "-f" == "-" + "f";
    ExtractedCons("-f", []);
    assert ["-f"] + [] == ["-f"];
    assert IsOptionToken("-f") && TokenNames("-f") == ["f"];
    assert "-f" != "--";
    assert ["f"] + ["fizzbuzz", "i", "r", "t", "u", "s", "c"] == ["f", "fizzbuzz", "i", "r", "t", "u", "s", "c"];
    assert r6 == ["-f", "foobar", "--fizzbuzz", "four", "five", "-irtusc"];
  }

  // ---------------------------------------------------------------------------
  // isEnvVarFormat
  // ---------------------------------------------------------------------------

  predicate IsWordChar(c: char) { IsLetter(c) || IsDigitChar(c) || c == '_' }

  /** The tail `[0-9A-Za-z_]*$` of the pattern, matched one character at a time. */
  function MatchesWordTail(s: string): bool
    decreases |s|
  {
    s == [] || (IsWordChar(s[0]) && MatchesWordTail(s[1..]))
  }

  /** The compiled pattern `^\$[A-Za-z_][0-9A-Za-z_]*$`. */
  function MatchesEnvVarPattern(s: string): bool
  {
    |s| >= 2 && s[0] == '$' && (IsLetter(s[1]) || s[1] == '_') && MatchesWordTail(s[2..])
  }

  lemma {:induction false} WordTailMeansAllWordChars(s: string)
    ensures MatchesWordTail(s) <==> forall i :: 0 <= i < |s| ==> IsWordChar(s[i])
    decreases |s|
  {
    if s != [] {
      WordTailMeansAllWordChars(s[1..]);
      assert forall i :: 1 <= i < |s| ==> s[i] == s[1..][i - 1];
    }
  }

  /** isEnvVarFormat: `$`, then a letter or `_`, then only letters, digits and `_`. */
  function IsEnvVarFormat(text: string): (r: bool)
    ensures r <==> |text| >= 2 && text[0] == '$' && (IsLetter(text[1]) || text[1] == '_')
                   && forall i :: 2 <= i < |text| ==> IsWordChar(text[i])
  {
    WordTailMeansAllWordChars(if |text| >= 2 then text[2..] else "");
    assert |text| >= 2 ==> forall i :: 2 <= i < |text| ==> text[i] == text[2..][i - 2];
    if |text| == 0 || text[0] != '$' || |text| == 1 then false
    else MatchesEnvVarPattern(text)
  }

  /** A few rows of the env-var pattern's test table. */
  lemma EnvVarFormatTable()
    ensures !IsEnvVarFormat("") && !IsEnvVarFormat("$") && !IsEnvVarFormat("$0")
    ensures !IsEnvVarFormat("_") && !IsEnvVarFormat("VAR$")
    ensures IsEnvVarFormat("$_") && IsEnvVarFormat("$z28") && IsEnvVarFormat("$FOO_BAR")
  {
    assert IsWordChar('O') && IsWordChar('_') && IsWordChar('B') && IsWordChar('A') && IsWordChar('R');
    assert IsWordChar('2') && IsWordChar('8');
  }

  // ---------------------------------------------------------------------------
  // join
  // ---------------------------------------------------------------------------

  /** The parts separated by the delimiter, with no delimiter after the last one. */
  function Joined(delimiter: string, parts: seq<string>): string
    decreases |parts|
  {
    if |parts| == 0 then ""
    else if |parts| == 1 then parts[0]
    else parts[0] + delimiter + Joined(delimiter, parts[1..])
  }

  lemma {:induction false} JoinedSnoc(delimiter: string, parts: seq<string>, x: string)
    requires |parts| > 0
    ensures Joined(delimiter, parts + [x]) == Joined(delimiter, parts) + delimiter + x
    decreases |parts|
  {
    if |parts| > 1 {
      assert (parts + [x])[1..] == parts[1..] + [x];
      JoinedSnoc(delimiter, parts[1..], x);
    }
  }

  /** join: writes each part, and the delimiter after every part but the last. */
  method Join(delimiter: string, args: seq<string>) returns (r: string)
    ensures r == Joined(delimiter, args)
  {
    var buf := "";
    var num := |args|;
    if num == 0 {
      return "";
    }
    var index := 0;
    while index < num
      invariant 0 <= index <= num
      invariant index < num ==> buf == if index == 0 then "" else Joined(delimiter, args[..index]) + delimiter
      invariant index == num ==> buf == Joined(delimiter, args)
    {
      buf := buf + args[index];
      assert args[..index + 1] == args[..index] + [args[index]];
      if index > 0 {
        JoinedSnoc(delimiter, args[..index], args[index]);
      }
      assert buf == Joined(delimiter, args[..index + 1]);
      if index < num - 1 {
        buf := buf + delimiter;
      } else {
        assert args[..index + 1] == args;
      }
      index := index + 1;
    }
    assert args[..num] == args;
    return buf;
  }

  /** Sum of the lengths of the words, accumulated from the front as wordWrap does. */
  function SumLengths(words: seq<string>): nat
    decreases |words|
  {
    if words == [] then 0 else SumLengths(words[..|words| - 1]) + |words[|words| - 1]|
  }

  lemma {:induction false} SumLengthsCons(w: string, words: seq<string>)
    ensures SumLengths([w] + words) == |w| + SumLengths(words)
    decreases |words|
  {
    if words != [] {
      assert ([w] + words)[..|[w] + words| - 1] == [w] + words[..|words| - 1];
      SumLengthsCons(w, words[..|words| - 1]);
    } else {
      assert [w][..0] == [];
    }
  }

  /** A joined, non-empty list is as long as its parts plus one delimiter between each two. */
  lemma {:induction false} JoinedLength(delimiter: string, parts: seq<string>)
    requires |parts| > 0
    ensures |Joined(delimiter, parts)| == SumLengths(parts) + (|parts| - 1) * |delimiter|
    decreases |parts|
  {
    SumLengthsCons(parts[0], parts[1..]);
    assert [parts[0]] + parts[1..] == parts;
    if |parts| > 1 {
      JoinedLength(delimiter, parts[1..]);
    } else {
      assert SumLengths(parts[1..]) == 0;
    }
  }

  /** Joining the pieces of a split with the separator gives back the string. */
  lemma {:induction false} JoinedSplit(s: string, c: char)
    ensures Joined([c], Split(s, c)) == s
    decreases |s|
  {
    if s != [] {
      JoinedSplit(s[1..], c);
      var rest := Split(s[1..], c);
      if s[0] == c {
        assert ([""] + rest)[1..] == rest;
        if |rest| == 1 {
          assert rest[0] == Joined([c], rest) == s[1..];
        }
      } else {
        var pieces := [[s[0]] + rest[0]] + rest[1..];
        if |rest| > 1 {
          assert pieces[1..] == rest[1..];
          assert Joined([c], rest) == rest[0] + [c] + Joined([c], rest[1..]);
        }
      }
      assert s == [s[0]] + s[1..];
    }
  }

  /** Splitting a string with no separator in front of `tail` extends the first piece of `tail`. */
  lemma {:induction false} SplitPrefixWithoutSeparator(p: string, tail: string, c: char)
    requires forall i :: 0 <= i < |p| ==> p[i] != c
    ensures Split(p + tail, c) == [p + Split(tail, c)[0]] + Split(tail, c)[1..]
    decreases |p|
  {
    if p != [] {
      assert (p + tail)[1..] == p[1..] + tail;
      SplitPrefixWithoutSeparator(p[1..], tail, c);
      assert [p[0]] + (p[1..] + Split(tail, c)[0]) == p + Split(tail, c)[0];
    } else {
      assert p + tail == tail;
      var pieces := Split(tail, c);
      assert pieces == [pieces[0]] + pieces[1..];
      assert p + pieces[0] == pieces[0];
    }
  }

  /** A string without the separator splits into itself alone. */
  lemma SplitWithoutSeparator(s: string, c: char)
    requires forall i :: 0 <= i < |s| ==> s[i] != c
    ensures Split(s, c) == [s]
  {
    SplitPrefixWithoutSeparator(s, "", c);
    assert s + "" == s;
  }

  /** Splitting a join gives back the parts when no part contains the separator. */
  lemma {:induction false} SplitJoined(parts: seq<string>, c: char)
    requires |parts| > 0
    requires forall k, i :: 0 <= k < |parts| && 0 <= i < |parts[k]| ==> parts[k][i] != c
    ensures Split(Joined([c], parts), c) == parts
    decreases |parts|
  {
    if |parts| == 1 {
      SplitWithoutSeparator(parts[0], c);
    } else {
      var rest := Joined([c], parts[1..]);
      SplitJoined(parts[1..], c);
      assert Joined([c], parts) == parts[0] + ([c] + rest);
      SplitPrefixWithoutSeparator(parts[0], [c] + rest, c);
      assert ([c] + rest)[1..] == rest;
      assert Split([c] + rest, c) == [""] + parts[1..];
      assert parts[0] + "" == parts[0];
      assert [parts[0]] + parts[1..] == parts;
    }
  }

  // ---------------------------------------------------------------------------
  // spacer
  // ---------------------------------------------------------------------------

  /** spacer: exactly max(length, 0) space characters. */
  method Spacer(length: int) returns (r: string)
    ensures |r| == if length < 0 then 0 else length
    ensures forall i :: 0 <= i < |r| ==> r[i] == ' '
  {
    var count := 0;
    r := "";
    while count < length
      invariant count == |r|
      invariant length >= 0 ==> count <= length
      invariant length < 0 ==> count == 0
      invariant forall i :: 0 <= i < |r| ==> r[i] == ' '
      decreases length - count
    {
      r := r + " ";
      count := count + 1;
    }
  }

  // ---------------------------------------------------------------------------
  // wordWrap
  // ---------------------------------------------------------------------------

  /**
   * The greedy grouping wordWrap performs: `line` is the line being built; a
   * word starts a new line when its length, the letters already on the line and
   * one space per word already on the line exceed `max`.
   */
  function Fill(words: seq<string>, max: int, line: seq<string>): (groups: seq<seq<string>>)
    ensures |groups| >= 1
    decreases |words|
  {
    if words == [] then [line]
    else if |words[0]| + SumLengths(line) + |line| > max then [line] + Fill(words[1..], max, [words[0]])
    else Fill(words[1..], max, line + [words[0]])
  }

  /** Each group joined by single spaces. */
  function Lines(groups: seq<seq<string>>): (lines: seq<string>)
    ensures |lines| == |groups|
    decreases |groups|
  {
    if groups == [] then [] else [Joined(" ", groups[0])] + Lines(groups[1..])
  }

  function Flatten(groups: seq<seq<string>>): seq<string>
    decreases |groups|
  {
    if groups == [] then [] else groups[0] + Flatten(groups[1..])
  }

  /** The width of a line: its letters plus one space between each two words. */
  function Width(line: seq<string>): int
  {
    SumLengths(line) + |line| - 1
  }

  /** What wordWrap returns. */
  function Wrapped(text: string, max: int): seq<string>
  {
    if |text| <= max then [text]
    else
      var split := Split(text, ' ');
      if |split| <= 1 then split else Lines(Fill(split, max, []))
  }

  /** wordWrap: one pass over the words, keeping the line being built and its letter count. */
  method WordWrap(text: string, max: int) returns (lines: seq<string>)
    ensures lines == Wrapped(text, max)
  {
    if |text| <= max {
      return [text];
    }
    var split := Split(text, ' ');
    var length := 0;
    if |split| <= 1 {
      return split;
    }
    var line: seq<string> := [];
    lines := [];
    var i := 0;
    while i < |split|
      invariant 0 <= i <= |split|
      invariant length == SumLengths(line)
      invariant Lines(Fill(split, max, [])) == lines + Lines(Fill(split[i..], max, line))
    {
      var word := split[i];
      assert split[i..][1..] == split[i + 1..];
      if |word| + length + |line| > max {
        var joined := Join(" ", line);
        lines := lines + [joined];
        line := [word];
        length := |word|;
        assert [word][..0] == [];
      } else {
        length := length + |word|;
        line := line + [word];
        assert line[..|line| - 1] == line[..|line| - 1];
      }
      i := i + 1;
    }
    var last := Join(" ", line);
    lines := lines + [last];
  }

  /** The words of the groups are the words given, in their original order. */
  lemma {:induction false} FillKeepsWords(words: seq<string>, max: int, line: seq<string>)
    ensures Flatten(Fill(words, max, line)) == line + words
    decreases |words|
  {
    if words != [] {
      if |words[0]| + SumLengths(line) + |line| > max {
        FillKeepsWords(words[1..], max, [words[0]]);
      } else {
        FillKeepsWords(words[1..], max, line + [words[0]]);
      }
      assert [words[0]] + words[1..] == words;
    }
  }

  /** Every line after the first holds at least one word. */
  lemma {:induction false} FillLaterLinesNonEmpty(words: seq<string>, max: int, line: seq<string>)
    ensures forall k :: 1 <= k < |Fill(words, max, line)| ==> |Fill(words, max, line)[k]| > 0
    decreases |words|
  {
    if words != [] {
      var w := words[0];
      if |w| + SumLengths(line) + |line| > max {
        FillLaterLinesNonEmpty(words[1..], max, [w]);
        FillStartsWith(words[1..], max, [w]);
        var tail := Fill(words[1..], max, [w]);
        assert forall k :: 1 <= k < |tail| + 1 ==> ([line] + tail)[k] == tail[k - 1];
      } else {
        FillLaterLinesNonEmpty(words[1..], max, line + [w]);
      }
    }
  }

  /** A line of two or more words fits in `max` (a single word may not). */
  lemma {:induction false} FillLinesFit(words: seq<string>, max: int, line: seq<string>)
    requires |line| >= 2 ==> Width(line) <= max
    ensures forall k :: 0 <= k < |Fill(words, max, line)| && |Fill(words, max, line)[k]| >= 2 ==>
              Width(Fill(words, max, line)[k]) <= max
    decreases |words|
  {
    if words != [] {
      var w := words[0];
      if |w| + SumLengths(line) + |line| > max {
        FillLinesFit(words[1..], max, [w]);
        var tail := Fill(words[1..], max, [w]);
        assert forall k :: 1 <= k < |tail| + 1 ==> ([line] + tail)[k] == tail[k - 1];
      } else {
        var next := line + [w];
        assert next[..|next| - 1] == line;
        FillLinesFit(words[1..], max, next);
      }
    }
  }

  /** Line k is full: the first word of line k + 1 would not have fitted on it. */
  predicate LineIsFull(groups: seq<seq<string>>, k: int, max: int)
    requires 0 <= k < |groups| - 1
  {
    |groups[k + 1]| > 0 && |groups[k + 1][0]| + SumLengths(groups[k]) + |groups[k]| > max
  }

  /** Every line but the last is full. */
  lemma {:induction false} FillLinesFull(words: seq<string>, max: int, line: seq<string>)
    ensures forall k :: 0 <= k < |Fill(words, max, line)| - 1 ==> LineIsFull(Fill(words, max, line), k, max)
    decreases |words|
  {
    if words != [] {
      var w := words[0];
      if |w| + SumLengths(line) + |line| > max {
        FillLinesFull(words[1..], max, [w]);
        FillStartsWith(words[1..], max, [w]);
        var tail := Fill(words[1..], max, [w]);
        var groups := [line] + tail;
        assert tail[0][..1] == [w];
        forall k | 0 <= k < |groups| - 1
          ensures LineIsFull(groups, k, max)
        {
          if k > 0 {
            assert groups[k] == tail[k - 1] && groups[k + 1] == tail[k];
            assert LineIsFull(tail, k - 1, max);
          }
        }
      } else {
        FillLinesFull(words[1..], max, line + [w]);
      }
    }
  }

  /** The first group extends the line being built. */
  lemma {:induction false} FillStartsWith(words: seq<string>, max: int, line: seq<string>)
    ensures |Fill(words, max, line)[0]| >= |line|
    ensures Fill(words, max, line)[0][..|line|] == line
    decreases |words|
  {
    if words != [] && |words[0]| + SumLengths(line) + |line| <= max {
      var next := line + [words[0]];
      FillStartsWith(words[1..], max, next);
      assert Fill(words[1..], max, next)[0][..|next|][..|line|] == line;
    }
  }

  /** The first line is empty exactly when the first word alone is longer than `max`. */
  lemma FillFirstLine(words: seq<string>, max: int)
    requires |words| > 0
    ensures Fill(words, max, [])[0] == [] <==> |words[0]| > max
  {
    if |words[0]| <= max {
      assert [] + [words[0]] == [words[0]];
      FillStartsWith(words[1..], max, [words[0]]);
    }
  }

  /** A text without spaces comes back as a single line, however long. */
  lemma WrappedWithoutSpace(text: string, max: int)
    requires forall i :: 0 <= i < |text| ==> text[i] != ' '
    ensures Wrapped(text, max) == [text]
  {
    SplitWithoutSeparator(text, ' ');
  }

  /**
   * A long text with spaces is cut into the greedy groups of its words, and
   * re-joining all the words with single spaces gives back the text.
   */
  lemma WrappedLongText(text: string, max: int)
    requires |text| > max && |Split(text, ' ')| > 1
    ensures var groups := Fill(Split(text, ' '), max, []);
      && Wrapped(text, max) == Lines(groups)
      && Joined(" ", Flatten(groups)) == text
  {
    FillKeepsWords(Split(text, ' '), max, []);
    assert [] + Split(text, ' ') == Split(text, ' ');
    JoinedSplit(text, ' ');
  }
}
