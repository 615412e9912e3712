# argparse in Dafny

A model of the Go command-line parsing library `argparse`. Its package
`argparse` has these parts:

- an `Option` describes a flag or a positional argument: public names, destination, arity ("nargs"), action, choices, expected kind, metavariables;
- a `Parser` holds the options and a `Namespace` that maps destinations to parsed values;
- `Parse` splits the command line into option names and plain arguments, then runs each option's action;
- actions (`Store`, `Append`, `StoreTrue`, ...) consume arguments and write the namespace;
- `errors.go` defines the errors and the messages they render;
- `utils.go` holds the token extraction, joining, spacing and word-wrapping helpers.

The older package `parg` has two more files, which are modelled as well:
- `flag.go` holds an earlier `Flag` type;
- `argument.go` holds an earlier `argument` type.

One Dafny module per source file:

| module | file | form |
|---|---|---|
| `Utils` | utils.go | functions. The loops (`extractOptions`, `join`, `spacer`, `wordWrap`) are methods proved equal to those functions. |
| `Errors` | errors.go | a datatype of errors, the message function and its decoder |
| `Namespaces` | namespace.go | `class Namespace` with a `mapping` field |
| `Options` | option.go | `class Option` holding an `OptionData` record; the setters update it in place |
| `Actions` | actions.go | one specification function per action, and methods over a `Namespace` proved against it |
| `Parsers` | parser.go | `class Parser`. `Parse` is a chain of methods, each proved equal to one phase of the specification function `ParseRun`. |
| `Flags` | flag.go | `class Flag` holding a `FlagData` record |
| `Arguments` | argument.go | `class Argument` holding an `ArgumentData` record |

There are three supporting modules:
- `Kinds` models `reflect.Kind` and the dynamic values (`interface{}`) that `parg` stores;
- `Strconv` models `strconv.Atoi`, `ParseUint`, `ParseBool` and `Itoa` on decimal text;
- `Wrappers` holds the `Maybe` type.

Go panics become preconditions. Returned errors become `Maybe<Error>` results. The state that Go mutates through pointers is a class field that the methods reassign.

The parser is modelled as a pure specification and an imperative method:
- `ParseRun` computes a `Run`, which is either still going, failed with an error (keeping the namespace as it was at that point), or panicked.
- `ParseRun` takes a `Reading`. `AsWritten` follows the source: an exact arity is recognised by `^[1-9]+$`, and a positional option is cleared from the pending set by its destination. `Corrected` follows the two corresponding findings below: `^[1-9][0-9]*$`, and clearing by display name.
- `Parser.Parse` requires that the corrected run does not panic, and ensures that its namespace, leftovers and error are exactly those of the corrected run.
- `ParseRunReadingsAgree` proves that both readings give the same run whenever no exact arity holds a zero digit and every positional option's destination is its display name. So outside those two cases the methods also do what the source does.

## Model

| member | source | states |
|---|---|---|
| Utils.ToUpper | option.go:233 | upper-cases character by character and keeps the length (ASCII case mapping) |
| Utils.ToLower | flag.go:107 | lower-cases character by character and keeps the length |
| Utils.Split | option.go:84 | `strings.Split` always yields at least one piece |
| Utils.ExtractOptions | utils.go:15-56 | the scanning loop returns exactly the option names and the leftover arguments of the specification `Extracted`; an empty command line gives two empty lists |
| Utils.ScanOne | utils.go:19-53 | one scanning step consumes at least one token and contributes exactly the names and leftovers of the tokens it consumed |
| Utils.AppendLetters | utils.go:44-48 | a short-option cluster "-abc" adds one name per letter, in order |
| Utils.ExtractedNamesAreLetterRuns | utils.go:15-56 | every extracted option name is a non-empty run of ASCII letters |
| Utils.ExtractedWithoutEscape | utils.go:15-56 | with no "--" escape, the names are the option tokens' names in order and the leftovers are the non-option tokens in order |
| Utils.ExtractedEscape | utils.go:22-28 | "--" makes the next token a plain argument, whatever it looks like |
| Utils.ExtractedTrailingEscape | utils.go:24-35 | a final "--" with nothing after it is kept as a plain argument |
| Utils.ExtractedShortCluster | utils.go:44-48 | "-" followed by letters yields each letter as a separate option name |
| Utils.ExtractedLong | utils.go:39-50 | "--name" yields the single option name "name" |
| Utils.ExtractedCons | utils.go:15-56 | the extraction of a command line, stated one leading token at a time for all three token kinds |
| Utils.ExtractedExampleTail | utils_test.go:88-112 | tail of the library's own example command line |
| Utils.ExtractedExampleMiddle | utils_test.go:88-112 | middle of the library's own example command line |
| Utils.ExtractedExample | utils_test.go:88-112 | the library's example command line splits into names f, fizzbuzz, i, r, t, u, s, c and arguments foobar, four, five |
| Utils.WordTailMeansAllWordChars | utils.go:83 | the tail `[0-9A-Za-z_]*$` of the pattern matches exactly the strings made of word characters |
| Utils.IsEnvVarFormat | utils.go:83-93 | true exactly for "$", then a letter or underscore, then word characters |
| Utils.EnvVarFormatTable | utils_test.go:157-180 | a selection of the accepted and rejected examples of the library's own table |
| Utils.JoinedSnoc | utils.go:97-113 | joining one more part adds the delimiter and that part at the end |
| Utils.Join | utils.go:97-113 | the buffer loop computes the delimiter-joined text (empty for no parts) |
| Utils.SumLengthsCons | utils.go:97-113 | total part length splits over the first part |
| Utils.JoinedLength | utils.go:97-113 | the joined length is the parts' lengths plus one delimiter between each pair |
| Utils.JoinedSplit | option.go:84 | joining the pieces of `Split(s, c)` with `c` gives `s` back |
| Utils.SplitPrefixWithoutSeparator | option.go:84 | splitting a separator-free prefix followed by a tail only extends the tail's first piece |
| Utils.SplitWithoutSeparator | option.go:84 | a string without the separator splits into itself alone |
| Utils.SplitJoined | option.go:84 | splitting separator-free parts after joining them gives the parts back |
| Utils.Spacer | utils.go:117-128 | exactly `length` spaces, and none for a negative length |
| Utils.Fill | utils.go:147-156 | the greedy line filling always yields at least one line |
| Utils.Lines | utils.go:149-157 | one joined line per group of words |
| Utils.WordWrap | utils.go:132-160 | the loop computes the specification `Wrapped` |
| Utils.FillKeepsWords | utils.go:147-157 | the wrapped lines hold every word, in order, and nothing else |
| Utils.FillLaterLinesNonEmpty | utils.go:148-151 | every line after the first starts with a word |
| Utils.FillLinesFit | utils.go:148 | a line of two or more words is no wider than `max` |
| Utils.FillLinesFull | utils.go:148-151 | a line is closed only when its next word would overflow it |
| Utils.FillStartsWith | utils.go:147-156 | the words already on the current line stay at the front of the first line |
| Utils.FillFirstLine | utils.go:148-151 | the first line is empty exactly when the first word alone is wider than `max` |
| Utils.WrappedWithoutSpace | utils.go:136-145 | text without a space comes back as a single line, however long |
| Utils.WrappedLongText | utils.go:136-160 | long text is split at spaces, and the words of the lines, rejoined with single spaces, give the text back (the lines themselves need not: the first is empty when the first word is wider than the limit) |
| Errors.ParserNames | errors.go:124-127 | one name per sub-parser, in order |
| Errors.Message | errors.go:16-141 | the message is empty exactly for the help and version sentinels |
| Errors.FramedParts | errors.go:28-141 | a value wrapped in fixed text is recovered between them |
| Errors.NotEndsWith | errors.go:100-115 | one mismatching character rules a suffix out |
| Errors.NotStartsWith | errors.go:28-81 | one mismatching character rules a prefix out |
| Errors.QuotedTail | errors.go:28-141 | a message ending in a quote matches none of the suffix-framed formats |
| Errors.DecodeTooFew | errors.go:100-103 | the too-few-arguments message decodes back to its error |
| Errors.DecodeOneOrMore | errors.go:112-115 | the one-or-more message decodes back to its error |
| Errors.DecodeMissingOption | errors.go:138-141 | the missing-option message decodes back to its error |
| Errors.DecodeKeyAbsent | namespace.go:82 | the absent-key message decodes back to its error |
| Errors.DecodeInvalidOption | errors.go:53-57 | the invalid-option message decodes back to its error |
| Errors.DecodeInvalidFlagName | errors.go:41-45 | the invalid-flag-name message decodes back to its error |
| Errors.DecodeInvalidParserName | errors.go:28-32 | the invalid-command-name message decodes back to its error |
| Errors.DecodeMissingEnvVar | errors.go:79-82 | the missing-variable message decodes back to its error |
| Errors.DecodeMessage | errors.go:28-141 | every error whose message frames a single value decodes back to that error |
| Errors.MessageInjective | errors.go:28-141 | two such errors with the same message are the same error |
| Errors.MissingParserListsNames | errors.go:123-130 | the missing-command message lists the sub-parser names in braces, comma-separated and recoverable |
| Errors.InvalidChoiceNamesArgument | errors.go:16-20 | the invalid-choice message starts with the option's display name, ends with the ", "-joined choices in parentheses, and the argument reads back from between the quotes |
| Errors.InvalidTypeNamesArgument | errors.go:67-70 | the invalid-type message starts with the display name and the expected kind, and the argument reads back from between the quotes |
| Namespaces.Namespace.constructor | namespace.go:89-93 | a new namespace is empty |
| Namespaces.Namespace.Get | namespace.go:15-21 | the stored value, or nil for a missing key |
| Namespaces.Namespace.KeyExists | namespace.go:25-30 | true exactly when the key is present |
| Namespaces.Namespace.Require | namespace.go:33-40 | no error exactly when every key is present; otherwise the error names the first missing key |
| Namespaces.Namespace.Set | namespace.go:43-47 | writes one key and leaves every other key and value as it was |
| Namespaces.Namespace.Slice | namespace.go:51-66 | a copy of a stored `[]string`, and nil for a missing key or any other value |
| Namespaces.Namespace.String | namespace.go:70-76 | the stored string, or "" for a missing key (a non-string value panics) |
| Namespaces.Namespace.Try | namespace.go:80-86 | the stored value, or an error naming the key exactly when it is missing |
| Options.Option.constructor | option.go:75-88 | the record of `NewOption`: nargs "0", StoreTrue, names split at spaces |
| Options.OptionData.IsPublicName | option.go:304-311 | true exactly when the name is one of the public names |
| Options.OptionData.GetChoices | option.go:177-186 | empty exactly when there are no choices, otherwise framed by braces |
| Options.OptionData.FilledMetaVars | option.go:211-215 | the metavariables usage falls back to are never empty, and user-set ones are kept |
| Options.ValidateChoice | option.go:27-39 | no error exactly when there are no choices or the argument is one of them; otherwise an invalid-choice error for this option and argument |
| Options.ValidateType | option.go:44-70 | Invalid and String accept every argument; each integer, bool and float kind accepts exactly the arguments that parse as that kind; every other kind (those `Type` refuses) always fails; a failure is the invalid-type error with the display name, the kind's name and the argument |
| Options.Option.Action | option.go:118-121 | sets the action only |
| Options.Option.Choices | option.go:124-127 | sets the choices only |
| Options.Option.Const | option.go:131-134 | sets the constant only |
| Options.Option.Default | option.go:138-141 | sets the default only |
| Options.Option.Dest | option.go:145-148 | sets the destination only |
| Options.Option.Help | option.go:297-300 | sets the help text only |
| Options.Option.MetaVar | option.go:316-322 | the metavariables become the first one followed by the rest |
| Options.Option.Nargs | option.go:330-356 | stores an accepted arity (or an integer's decimal text); whatever it stores can be rendered by usage |
| Options.Option.NotRequired | option.go:360-363 | clears the required flag only |
| Options.Option.NotPositional | option.go:366-369 | clears the positional flag only |
| Options.Option.Positional | option.go:372-375 | sets the positional flag only |
| Options.Option.Required | option.go:378-381 | sets the required flag only |
| Options.Option.Type | option.go:389-413 | sets the expected kind, which must not be one of the refused kinds |
| Options.Option.GetUsage | option.go:192-294 | returns the usage text of the option as it was, and leaves its metavariables filled in |
| Options.RenderArity | option.go:217-287 | the arity part of the usage text, for every accepted arity |
| Options.NewFlag | option.go:12-17 | a fresh option: nargs "0", StoreTrue, default "false", not required |
| Options.NewArg | option.go:21-23 | a fresh option: nargs "1", Store, positional |
| Options.NargsIntReadsBack | option.go:335-354 | an integer given to Nargs reads back as the same integer and renders |
| Options.OptionData.DisplayName | option.go:152-173 | no names give "", one name gives that name decorated, and with several the first decorated name comes first followed by ", "; its partners are DisplayNameTypedBack and PositionalDisplayNameIsBare |
| Options.DisplayNameTypedBack | option.go:152-173 | typing a non-positional option's display name on the command line extracts its public name |
| Options.PositionalDisplayNameIsBare | option.go:152-173 | a positional option's display name is its names joined with ", " and no dashes |
| Options.ChoicesListedBack | option.go:177-186 | the choices shown between the braces split back into the choices |
| Options.RenderedNumbersPassTypeCheck | option.go:44-55 | the decimal text of an in-range integer passes the signed check, and a non-negative one the unsigned check |
| Options.NegativeFailsUnsignedCheck | option.go:52-69 | a negative number fails the unsigned check with an invalid-type error |
| Options.ExactMetaVarsReuseLast | option.go:224-235 | an exact arity N shows N upper-cased metavariables, repeating the last one |
| Options.UsageBracketedUnlessRequired | option.go:195-198 | the usage is bracketed exactly when the option is not required |
| Options.UsageStable | option.go:209-215 | rendering usage again after it filled in the metavariables gives the same text |
| Actions.CountValue | actions.go:120-121 | an exact arity's count is at least one and clamped to the integer range |
| Actions.CountAtLeastOne | actions.go:45-46 | an arity of the form `[1-9][0-9]*` has value at least one |
| Actions.FirstBad | actions.go:35-41 | the index of the first argument that is not a valid choice (or the end), with every earlier one valid |
| Actions.TakeValid | actions.go:35-41 | the checking loop stops exactly at the first invalid choice and reports its error |
| Actions.Store | actions.go:17-76 | (corrected reading) the method leaves exactly the namespace, leftovers and error of the specification `StoreOutcome` |
| Actions.StoreMany | actions.go:29-44 | the "*" and "+" branch agrees with `StoreOutcome` |
| Actions.StoreCount | actions.go:45-73 | (corrected reading) the exact-count branch agrees with `StoreOutcome` |
| Actions.FirstBadAt | actions.go:35-41 | the first invalid index is determined by the valid prefix and the invalid argument after it |
| Actions.FirstBadMonotone | actions.go:35-41 | a valid prefix lies before the first invalid index |
| Actions.StoreConst | actions.go:80-87 | stores the constant and keeps the arguments |
| Actions.StoreFalse | actions.go:91-98 | stores false and keeps the arguments |
| Actions.StoreTrue | actions.go:101-108 | stores true and keeps the arguments |
| Actions.AppendValue | actions.go:113-118 | replaces a missing or non-list destination with an empty list, then appends one value |
| Actions.EffectExtendSnoc | actions.go:113-118 | appending values one at a time equals appending them together |
| Actions.AppendEach | actions.go:126-134 | the append loop appends the valid prefix and stops at the first invalid choice |
| Actions.AppendNext | actions.go:117 | one appended value goes after everything appended before it |
| Actions.Append | actions.go:112-166 | (corrected reading) the method leaves exactly the namespace, leftovers and error of `AppendOutcome` |
| Actions.AppendConst | actions.go:170-180 | appends the constant and keeps the arguments |
| Actions.ShowHelp | actions.go:184-187 | keeps the arguments and reports no error |
| Actions.Apply | parser.go:252 | (corrected reading) running an option's action agrees with the action's specification |
| Actions.ActionReturnsSuffix | actions.go:17-187 | every action returns a suffix of its arguments |
| Actions.StoreIsAllOrNothing | actions.go:17-76 | Store writes nothing when it fails, and a Store that writes nothing and does not fail consumes nothing |
| Actions.StoreOptional | actions.go:21-28 | "?" stores the first argument if it is a valid choice, fails on an invalid one, and does nothing without arguments |
| Actions.StoreAll | actions.go:29-44 | "+" fails on no arguments; "*" and "+" store every argument when all are valid and otherwise fail at the first invalid one, keeping the rest |
| Actions.CountHasNoMarks | actions.go:19-45 | an exact arity is none of "0", "?", "*" or "+" |
| Actions.StoreExact | actions.go:45-73 | exact N: too few arguments is an arity error; N > 1 stores a list of the first N; N = 1 stores the first argument |
| Actions.StoreExactOneSkipsChoices | actions.go:65-71 | with nargs "1" the argument is stored even when it is not a valid choice |
| Actions.StoreUnmatchedArityIsNoOp | actions.go:17-76 | an arity matching no branch leaves everything as it was |
| Actions.StoreRemainderIsNoOp | actions.go:17-76 | Store with nargs "r" or "R" consumes and stores nothing |
| Actions.CountPatternsAgree | actions.go:45 | the pattern as written and the corrected one differ only on counts holding a zero digit after the first |
| Actions.ArityTenCounterexample | actions.go:45 | with nargs "10", Store as written stores nothing and Append as written takes every argument; corrected, both take ten |
| Actions.ActionsAgreeWithoutZeroDigits | actions.go:17-166 | the actions as written and corrected panic in the same cases and give the same outcome when the arity is not an exact count holding a zero digit |
| Actions.AppendExact | actions.go:120-135 | exact N with N valid arguments appends exactly the first N |
| Actions.AppendConsumesWhatItAppends | actions.go:120-163 | the arguments Append appends are exactly those it consumes |
| Actions.AppendExactPartialWrite | actions.go:126-134 | exact N with an invalid argument at k appends the first k and fails there |
| Actions.AppendDefault | actions.go:136-148 | "0", and "?" without arguments, append the default |
| Actions.AppendAccumulates | actions.go:113-118 | two appends accumulate in one list after whatever list was there |
| Actions.StoredValuesAreValidChoices | actions.go:21-64 | every value Store writes (except for nargs "1") is a valid choice |
| Actions.CountOneIsOne | actions.go:51-66 | the only arity whose count is one is "1" |
| Actions.CountDigits | actions.go:45-46 | a count of more than one digit is at least ten |
| Actions.EffectKeepsKeys | actions.go:17-180 | no action removes a key from the namespace, and a write leaves the destination present |
| Parsers.BaseName | parser.go:293-296 | the program name is a suffix of the path holding no '/', and a path without '/' is kept whole |
| Parsers.LastPieceIsSuffix | parser.go:294-295 | the last piece of a split is a separator-free suffix |
| Parsers.LastPieceStart | parser.go:294-295 | gives the index where that suffix starts |
| Parsers.RemainderIndex | parser.go:222-223 | every remainder entry points to an option with nargs "r" or "R" under that display name |
| Parsers.Resolve | parser.go:233-246 | the matched option index is in range |
| Parsers.FirstNamed | parser.go:59-63 | the index returned is in range |
| Parsers.Parser.constructor | parser.go:332-340 | the new parser has the description, no options, an empty namespace and the base name of the first process argument as program name |
| Parsers.Parser.Datas | parser.go:16 | one option record per option, in order |
| Parsers.Parser.AddHelp | parser.go:24-29 | appends a fresh help option and keeps the existing ones |
| Parsers.Parser.AddVersion | parser.go:32-37 | appends a fresh version option and keeps the existing ones |
| Parsers.Parser.AddOption | parser.go:40-43 | appends the option |
| Parsers.Parser.AddOptions | parser.go:46-51 | appends the options in order |
| Parsers.Parser.GetOption | parser.go:55-66 | the first option carrying the name, or an invalid-flag-name error for an empty or unknown name |
| Parsers.Parser.GetVersion | parser.go:199-201 | the program name, " version ", then the version text |
| Parsers.Parser.Path | parser.go:293-296 | sets the program name to the path's last piece and nothing else |
| Parsers.Parser.Prog | parser.go:299-302 | sets the program name and nothing else |
| Parsers.Parser.Usage | parser.go:305-308 | sets the usage text and nothing else |
| Parsers.Parser.Version | parser.go:325-328 | sets the version text and nothing else |
| Parsers.Parser.SeedDefaults | parser.go:217-227 | writes every option's default and collects the required display names and the remainder options |
| Parsers.Parser.Select | parser.go:233-246 | picks the first eligible option for a name and clears it from the required set |
| Parsers.Perform | parser.go:252-255 | (corrected reading) running one action agrees with the specification's step |
| Parsers.Parser.RunTokens | parser.go:230-256 | (corrected reading) the loop over option names agrees with the specification `Tokens` |
| Parsers.Parser.RunRemainders | parser.go:258-268 | (corrected reading) the remainder loop agrees with the specification `Remainders` |
| Parsers.Parser.RunPositionals | parser.go:270-281 | (corrected reading) the positional loop agrees with the specification `Positionals` |
| Parsers.Parser.ParseInto | parser.go:206-289 | (corrected reading) the phases agree with `ParseRun`, including the missing-option error for a pending required option |
| Parsers.Parser.Parse | parser.go:206-289 | (corrected reading) returns the namespace and leftovers of `ParseRun`, or nil and its error; the options and settings stay unchanged |
| Parsers.Records | parser.go:16 | one record per option |
| Parsers.ResolveIsFirstEligible | parser.go:233-246 | the matched option is the first eligible one, and none is matched exactly when none is eligible |
| Parsers.FirstNamedIsFirst | parser.go:59-63 | the option found is the first carrying the name, and none is found exactly when none carries it |
| Parsers.SeededHasEveryDest | parser.go:217-227 | after seeding, every destination is present and holds the default of the last option that writes it |
| Parsers.ActKeepsKeys | parser.go:252 | an action never removes a namespace key |
| Parsers.TokensKeepKeys | parser.go:230-256 | the option-name phase never removes a key |
| Parsers.RemaindersKeepKeys | parser.go:258-268 | the remainder phase never removes a key |
| Parsers.PositionalsKeepKeys | parser.go:270-281 | the positional phase never removes a key |
| Parsers.ParseKeepsEveryDest | parser.go:206-289 | after a parse, every option's destination is in the namespace |
| Parsers.UnknownTokenFails | parser.go:248-250 | a name no non-positional option carries fails with an invalid-option error |
| Parsers.SelectedRequiredIsCleared | parser.go:237-239 | a selected required option is no longer pending |
| Parsers.RemaindersKeepLeftovers | parser.go:258-268 | the remainder phase leaves the leftover arguments as they were |
| Parsers.PositionalsClearTheirNames | parser.go:270-281 | (corrected reading) every positional option is cleared from the pending set under its display name |
| Parsers.HelpOptionNames | parser.go:24-29 | the help option is "-h, --help", writes "help" and shows help |
| Parsers.NamedPositionalFacts | parser.go:217-227 | the positional option of the counterexample is required under its display name |
| Parsers.PositionalClearedByDestAsWritten | parser.go:270-281 | as written, a required positional whose destination differs from its name stays pending after it was filled; corrected, it is cleared |
| Parsers.TenPositionalStart | parser.go:217-227 | an optional positional option alone seeds its default, leaves nothing pending and is no remainder option |
| Parsers.LonePositionalFinish | parser.go:258-281 | after the option names, a lone positional option is its action on all the leftovers |
| Parsers.TenPositionalRun | parser.go:206-289 | with no option names, a parse over a lone positional option is its action on the whole command line |
| Parsers.TenPositionalActs | actions.go:45-73 | a positional Store with nargs "10" keeps all arguments as written and stores the first ten corrected |
| Parsers.TenPositionalIgnoredAsWritten | parser.go:270-281 | as written, a parse with a positional option of nargs "10" stores nothing and leaves every argument over; corrected, it stores the first ten |
| Parsers.ActReadingsAgree | parser.go:252 | one action step is the same in both readings unless its arity is a count holding a zero digit |
| Parsers.TokensReadingsAgree | parser.go:230-256 | on ordinary options the option-name phase is the same in both readings |
| Parsers.RemaindersReadingsAgree | parser.go:258-268 | on ordinary options the remainder phase is the same in both readings |
| Parsers.PositionalsReadingsAgree | parser.go:270-281 | on ordinary options the positional phase is the same in both readings |
| Parsers.ParseRunReadingsAgree | parser.go:206-289 | on ordinary options (no count with a zero digit, every positional's destination its display name) the parse as written and the corrected parse are the same run |
| Parsers.ParseClearsRequiredPositionals | parser.go:270-287 | (corrected reading) no positional option is left pending after a parse that did not fail |
| Flags.WithChoices | flag.go:56-64 | adds the choices after the existing ones and changes nothing else |
| Flags.DisplayName | flag.go:99-108 | the lower-cased public name behind two dashes for a one-character name and one dash for a longer one |
| Flags.FilledMetaVars | flag.go:128-132 | an exact arity always has a metavariable to show, and user-set ones are kept |
| Flags.Flag.constructor | flag.go:30-42 | holds the given record |
| Flags.Flag.Action | flag.go:45-48 | sets the action only |
| Flags.Flag.Bool | flag.go:51-53 | sets the kind to bool only |
| Flags.Flag.Choices | flag.go:56-64 | as written: checks the kinds and changes nothing |
| Flags.Flag.StoreChoices | flag.go:56-64 | corrected: appends the choices and changes nothing else |
| Flags.Flag.Const | flag.go:68-71 | sets the constant only |
| Flags.Flag.Default | flag.go:75-78 | sets the default only |
| Flags.Flag.Dest | flag.go:82-85 | sets the destination only |
| Flags.Flag.Float | flag.go:88-90 | sets the kind to float64 only |
| Flags.Flag.Float32 | flag.go:93-95 | sets the kind to float32 only |
| Flags.Flag.GetUsage | flag.go:114-192 | returns the usage of the flag as it was and leaves its metavariables filled in |
| Flags.Flag.Help | flag.go:195-198 | sets the help text only |
| Flags.Flag.Int64 | flag.go:201-203 | sets the kind to int64 only |
| Flags.Flag.Int32 | flag.go:206-208 | sets the kind to int32 only |
| Flags.Flag.MetaVar | flag.go:213-221 | the metavariables become the first one followed by the rest |
| Flags.Flag.Nargs | flag.go:228-245 | stores an accepted arity |
| Flags.Flag.NotRequired | flag.go:249-252 | clears the required flag only |
| Flags.Flag.Required | flag.go:255-258 | sets the required flag only |
| Flags.Flag.String | flag.go:261-263 | sets the kind to string only |
| Flags.Flag.Uint64 | flag.go:266-268 | sets the kind to uint64 only |
| Flags.Flag.Uint32 | flag.go:271-273 | sets the kind to uint32 only |
| Flags.Flag.Kind | flag.go:276-279 | sets the kind only |
| Flags.NewFlag | flag.go:13-27 | a fresh flag: nargs "0", StoreTrue, bool kind, its name as metavariable and destination |
| Flags.NargsRefusesRemainder | flag.go:228-245 | "r" and "R" are refused, and every accepted arity can be rendered |
| Flags.UsageAlwaysBracketed | flag.go:114-192 | a flag's usage is bracketed and starts with its display name |
| Flags.EmptyMetaVarsShowPublicName | flag.go:128-146 | with no metavariables, exact N shows the upper-cased public name N times |
| Flags.NewFlagUsage | flag.go:13-27 | a new flag's usage is its display name in brackets |
| Flags.UsageStable | flag.go:128-132 | rendering usage again after it filled in the metavariables gives the same text |
| Flags.ChoicesKeptFromNew | flag.go:56-64 | corrected, a flag made by NewFlag (kind Bool) given bool choices holds exactly them |
| Flags.ZeroFlagKeepsAnyChoices | flag_test.go:51-63 | the zero flag starts without choices, its Invalid kind accepts choices of any kinds, and corrected it holds exactly the choices given |
| Arguments.ActionCode | argument.go:10-22 | the action enumeration has nine members |
| Arguments.WithChoices | argument.go:48-56 | adds the choices after the existing ones and changes nothing else |
| Arguments.Argument.constructor | argument.go:24-37 | holds the given record |
| Arguments.Argument.Action | argument.go:39-42 | sets the action only |
| Arguments.Argument.Bool | argument.go:44-46 | sets the kind to bool only |
| Arguments.Argument.Choices | argument.go:48-56 | as written: checks the kinds and changes nothing |
| Arguments.Argument.StoreChoices | argument.go:48-56 | corrected: appends the choices and changes nothing else |
| Arguments.Argument.Const | argument.go:58-64 | sets the constant, which must fit the kind |
| Arguments.Argument.Default | argument.go:66-72 | sets the default, which must fit the kind |
| Arguments.Argument.Dest | argument.go:74-77 | sets the destination only |
| Arguments.Argument.Float | argument.go:79-81 | sets the kind to float64 only |
| Arguments.Argument.Float32 | argument.go:83-85 | sets the kind to float32 only |
| Arguments.Argument.GetUsage | argument.go:87-175 | the usage text of the argument, without changing it |
| Arguments.Argument.Help | argument.go:177-180 | sets the help text only |
| Arguments.Argument.Int64 | argument.go:182-184 | sets the kind to int64 only |
| Arguments.Argument.Int32 | argument.go:186-188 | sets the kind to int32 only |
| Arguments.Argument.MetaVar | argument.go:190-198 | the metavariables become the first one followed by the rest |
| Arguments.Argument.Nargs | argument.go:200-216 | stores an accepted arity |
| Arguments.Argument.NotPositional | argument.go:218-221 | clears the positional flag only |
| Arguments.Argument.NotRequired | argument.go:223-226 | clears the required flag only |
| Arguments.Argument.Positional | argument.go:228-231 | sets the positional flag only |
| Arguments.Argument.Required | argument.go:233-236 | sets the required flag only |
| Arguments.Argument.String | argument.go:238-240 | sets the kind to string only |
| Arguments.Argument.Uint64 | argument.go:242-244 | sets the kind to uint64 only |
| Arguments.Argument.Uint32 | argument.go:246-248 | sets the kind to uint32 only |
| Arguments.Argument.Type | argument.go:250-253 | sets the kind only |
| Arguments.NewArgument | argument.go:255-258 | a fresh argument: nargs "0", StoreTrue, its name as metavariable and destination |
| Arguments.Flag | argument.go:260-270 | a fresh argument with default false and no metavariables |
| Arguments.ActionCodesRoundTrip | argument.go:10-22 | actions and their codes convert into each other both ways |
| Arguments.NargsAcceptsRemainder | argument.go:200-216 | "r" and "R" are accepted, other letters are not, and every accepted arity can be rendered |
| Arguments.UsageDecoration | argument.go:87-175 | an optional argument's usage is "[-" (or "[--") and its lower-cased name, closed by "]"; a positional one starts with its name |
| Arguments.RemainderUsage | argument.go:159-166 | "r" and "R" show the name followed by " ..." |
| Arguments.ExactUsageRepeatsMetaVar | argument.go:102-122 | a single metavariable is shown N times, upper-cased, for exact N |
| Arguments.ConstructorUsage | argument.go:255-270 | both constructors render as "[-name]" or "[--name]" |
| Arguments.ChoicesKeptFromFresh | argument.go:48-56 | corrected, a fresh argument given choices holds exactly them |

## Left out

- utils.go `getEnvVar` (61-67) and `getScreenWidth` (70-78): they read the process environment and the terminal, which are outside the model.
- parser.go `GetHelp` (71-196) and the printing in `ShowHelp`/`ShowVersion` (311-322): the help layout is formatted output. `GetVersion` is modelled, and the `ShowHelp` action keeps its arguments.
- `NewParser` reads `os.Args`: the process arguments are a constructor parameter.
- Float parsing (`strconv.ParseFloat`) is the parameter `parsesFloat` of `ValidateType`. Integer parsing is modelled on decimal text with an optional sign, within the 64-bit range.
- Reflection: `reflect.Kind` is an enumeration, and `interface{}` values are a datatype of the shapes the library stores. `Option.Type` refuses the kinds the source refuses.
- Sub-parsers appear only as the names in the missing-command error. `Option.String` (option.go:384-386) only joins usage and help and is not modelled separately.
- Parse order of Go maps: the remainder options run in declaration order, keeping for each display name the last option declared (what the map keeps). `Parse`'s missing-option error names some pending option, not a fixed one. `optionListing` (parser.go:215-226) is built and never read.
- Actions write the namespace the parser owns. actions.go writes `p.Values`, and this model identifies it with `p.Namespace.Mapping`.
- The `ShowVersion` action is referred to by parser.go but not defined in actions.go. Here it keeps its arguments and writes nothing.
- Go's distinction between a nil slice and an empty one is not kept.
- Case mapping and lengths are ASCII-only.
- Action values are an enumeration rather than function values, so a user-supplied action function is not modelled.
- Arguments.Argument.GetUsage: an exact arity N > 0 with no metavariables indexes an empty slice and panics; this is a precondition.
- Options.Option.GetUsage, Flags.Flag.GetUsage: the panics on an unparsable arity and on a missing metavariable are preconditions.
- Flags.DisplayName is modelled as written: one dash for a long name and two for a one-letter name, the reverse of option.go.
- Namespaces.Namespace.Slice is modelled as written: lists stored by actions are `[]interface{}` and not `[]string`, so `Slice` returns nil for them.
- Actions.Append: appending to a destination that holds a `[]string` panics in Go, and this is a precondition.
- Actions.Store, Actions.StoreCount, Actions.Append, Actions.Apply: they run the corrected count pattern `^[1-9][0-9]*$`; `ActionsAgreeWithoutZeroDigits` shows they match actions.go except on counts holding a zero digit.
- Parsers.Perform, Parsers.Parser.RunTokens, Parsers.Parser.RunRemainders: they run the actions with the corrected count pattern; `TokensReadingsAgree` and `RemaindersReadingsAgree` give where this matches parser.go.
- Parsers.PositionalsClearTheirNames, Parsers.ParseClearsRequiredPositionals: they hold for the corrected reading only; as written a positional whose destination differs from its display name stays pending (`PositionalClearedByDestAsWritten`).
- Parsers.Parser.RunPositionals: it runs the corrected count pattern and clears a positional option by display name, not by destination as parser.go:274-275 does; `PositionalsReadingsAgree` gives where the two coincide.
- Parsers.Parser.ParseInto, Parsers.Parser.Parse: they are proved against `ParseRun(Corrected, ...)`; the run as written is `ParseRun(AsWritten, ...)`, and `ParseRunReadingsAgree` proves the two equal on ordinary options.
- `Parse` on a run that panics (an action called with an arity it refuses) is excluded by precondition rather than modelled.

## Findings

| source | as written | input that shows it | evidently intended | confidence | as-written member | corrected member |
|---|---|---|---|---|---|---|
| parser.go:274-275 | required options are recorded under their display name (line 219) but positionals are cleared by destination name | a required positional named "name" with destination "dest", given one argument: it is filled, yet "name" stays pending and `Parse` reports it missing | clear the positional under its display name | high; not executed | Parsers.PositionalClearedByDestAsWritten | Parsers.ParseClearsRequiredPositionals |
| flag.go:56-64 | `Choices` appends to its own parameter, so the flag never stores any choice | `NewFlag("x", "").Choices([true])` leaves `PossibleChoices` empty; flag_test.go:51-63 expects three choices after passing three | append the choices to the flag's `PossibleChoices` | high; not executed | Flags.Flag.Choices | Flags.Flag.StoreChoices |
| argument.go:48-56 | `Choices` appends to its own parameter, so the argument never stores any choice | `Argument("x", "").Choices(["a"])` leaves `PossibleChoices` empty | append the choices to the argument's `PossibleChoices` | high; not executed | Arguments.Argument.Choices | Arguments.Argument.StoreChoices |
| actions.go:45, actions.go:120 | exact arities are recognised by `^[1-9]+$`, which rejects any count holding a zero digit although `Nargs` accepts it | a positional option with `Nargs("10")` parsing ten or more arguments: it stores nothing and consumes nothing (Append as written would append every argument) | accept `^[1-9][0-9]*$`, so that "10" takes ten arguments | high; not executed | Parsers.TenPositionalIgnoredAsWritten | Actions.AppendExact |
