# argparse-deno in Dafny

A model of `parseArgs`, the command-line argument parser of argparse-deno, and proofs about it.

The parser takes an ordered list of argument configurations and a list of tokens. An argument configuration (`ArgConf`) has a short name and a long name. It also has three optional settings:

- `argType`: `command` or `knob`;
- `paramOption`: `zero` or `one`;
- `valueParser`: a function applied to the knob's parameter.

The parser makes one left-to-right pass over the tokens. It returns the selected command, a map from knob long names to values, and the leftover positional values. Each token is read in one of three ways:

- `--name` is a long knob;
- `-name` is a short knob;
- anything else is a command (only as the first token) or a value.

A matched knob looks one token ahead. It takes that token as its parameter when the token is non-empty, does not start with a dash, and the knob's `paramOption` is not `zero`. Two things abort the parse:

- a knob token names an argument configured as a command (`KnobConfiguredAsCommand`);
- a knob with `paramOption = one` has no eligible parameter after it (`MissingParam`).

Files:

- `wrappers.dfy`: `Option` and `Result`.
- `argparse.dfy` (module `ArgParse`): the configuration and result types, and the token classification. It also holds the knob decision `HandleKnob` and the per-token `Step`. The recursive pass is `ParseFrom`/`Parse`. `KnobKey`, `KnobValue` and `KnobError` say, token by token, which knob a token sets, to what, and which error it raises; `StepEffect` ties them to `Step`. `ParseArgs` is the same pass written as the loop the source uses, with `ParseToken` as its body and `HandleKnobAt` as the knob handler, proved equal to `Parse`.
- `argparse_properties.dfy` (module `ArgParseProperties`): what each kind of token does to the rest of the parse, where values come from, and when the command is set. `Consumed`, `Kept` and `KeptFrom` name the tokens a parse skips as parameters and the tokens it keeps as values; `ValuesExact` proves the values are exactly the kept tokens. Over the whole parse, it shows which knobs end up in the result and with which value, and when and how the parse fails.
- `argparse_examples.dfy` (module `ArgParseExamples`): the repository's test cases and some edge cases, proved about concrete inputs.

The optional configuration fields stay `Option`s, so "unset" differs from an explicit value. An unset `argType` behaves as `knob`. An unset `paramOption` takes a parameter whenever an eligible one follows. The source guards with `!(paramOption === zero)`, so only an explicit `zero` refuses parameters. A knob's value is a closed `Value<V>`:

- `Flag` for `true`;
- `Raw(token)` when there is no parser;
- `Parsed(v)` for what the parser returned.

The JavaScript `substring` calls are modelled as they behave: `substring(0, n)` on a string shorter than `n` returns the whole string. `Classify` states what that amounts to in plain sequence terms.

Two consequences of the code are worth stating:

- A following token is a parameter only if it is non-empty: argparse.ts:68 tests `oneAhead` for JavaScript truthiness, so `""` is never a parameter.
- Consuming a parameter skips that token, so there are at most as many classification steps as tokens.

## Model

| member | source | states |
|---|---|---|
| ArgParse.Prefix | argparse.ts:85 | `substring(0, n)` is a prefix of the string of length min(n, length) |
| ArgParse.Suffix | argparse.ts:87 | `substring(n)` is what remains after `substring(0, n)`: the two concatenate to the original |
| ArgParse.Classify | argparse.ts:85-99 | a token is a long knob iff it starts with `--`, a short knob iff it starts with one dash not followed by another, plain iff it does not start with a dash; the knob name is the token without its dashes |
| ArgParse.NextEligible | argparse.ts:66-70 | the lookahead token is eligible iff it exists, is non-empty and does not start with a dash |
| ArgParse.FirstIndex | argparse.ts:88-89 | `filter(...)[0]`: the result satisfies the predicate and no earlier element does; none is found only if no element satisfies it |
| ArgParse.LookupKnob | argparse.ts:85-98 | a knob token resolves to the first configured argument it names by long name (after `--`) or short name (after `-`), or to none when no argument is named |
| ArgParse.LookupCommand | argparse.ts:103-108 | a plain token resolves to the first command-typed argument whose short or long name equals it, or to none |
| ArgParse.ParamValue | argparse.ts:75-77 | a consumed parameter is never stored as `true`: it is stored raw without a value parser and as the parser's result with one |
| ArgParse.HandleKnob | argparse.ts:61-83 | fails with `KnobConfiguredAsCommand` iff the argument is command-typed; fails with `MissingParam(longName)` iff it is not, requires one parameter and none is eligible; otherwise consumes the next token iff it is eligible and `paramOption` is not `zero`, storing the parameter value, else stores `true` |
| ArgParse.KnobKey | argparse.ts:85-98 | a token sets a knob iff it is dash-prefixed and names some configured argument; the key is the long name of the first argument it names (the one `LookupKnob` resolves to) |
| ArgParse.KnobValue | argparse.ts:66-82 | a matched knob stores a parameter value iff the next token is eligible and `paramOption` is not `zero`, and that value is the next token (raw or parsed); otherwise it stores `true` |
| ArgParse.KnobError | argparse.ts:61-73 | a token raises `KnobConfiguredAsCommand` iff the first argument it names is command-typed, and `MissingParam` with that argument's long name iff the argument is not command-typed, requires one parameter and has no eligible one; only dash-prefixed tokens that name an argument raise an error |
| ArgParse.Step | argparse.ts:59-118 | one token advances the index by one or two (two only over an eligible parameter); only dash-prefixed tokens fail; values either stay the same or gain this token, which is not dash-prefixed; the command changes only at index 0; knob keys only grow and only by declared long names |
| ArgParse.ParseFrom | argparse.ts:59-118 | the rest of the pass only extends the values collected so far, only adds declared long names to the knobs, and never changes the command after the first token |
| ArgParse.Parse | argparse.ts:53-121 | every knob key in a successful result is the long name of some configured argument |
| ArgParse.StepEffect | argparse.ts:59-98 | one token fails iff `KnobError` reports an error, and with that error; a token naming an argument sets that argument's long name to `KnobValue`, and every other knob keeps its presence and value; any other token leaves the knobs unchanged |
| ArgParse.HandleKnobAgrees | argparse.ts:61-82 | for the argument a token resolves to, the handler throws iff `KnobError` reports an error, with that error, and otherwise stores `KnobValue` |
| ArgParse.HandleKnobAt | argparse.ts:61-83 | the handler, with its early throws and its lookahead, computes exactly the decision `HandleKnob` |
| ArgParse.ParseToken | argparse.ts:60-117 | one run of the loop body on the mutable result fields computes exactly `Step`: the new result and the index of the next token to read |
| ArgParse.ParseArgs | argparse.ts:53-121 | the loop with a mutable index, mutable result fields and early error returns computes exactly `Parse` |
| ArgParseProperties.FirstMatchWins | argparse.ts:88-97 | when two configured arguments are named by the same token, a later one is never chosen |
| ArgParseProperties.UnknownKnobDropped | argparse.ts:85-98 | a dash-prefixed token naming no configured argument changes nothing and does not consume the next token |
| ArgParseProperties.KnobConfiguredAsCommandFails | argparse.ts:62-64 | a knob token whose first matching argument is command-typed aborts the parse with `KnobConfiguredAsCommand` |
| ArgParseProperties.MissingParamFails | argparse.ts:66-73 | a knob requiring one parameter aborts with `MissingParam(longName)` when the next token is absent, empty or dash-prefixed |
| ArgParseProperties.ParamConsumed | argparse.ts:74-79 | a knob that does not refuse parameters, followed by an eligible token, stores that token (raw, or through its parser) and the pass resumes two tokens later, so every later value comes from after the parameter |
| ArgParseProperties.PresenceOnlyKnob | argparse.ts:74-82 | a knob with `paramOption = zero`, or one not requiring a parameter with none eligible, stores `true` and the next token is classified normally |
| ArgParseProperties.PlainTokenIsValue | argparse.ts:99-117 | a plain token after the first is appended to the values verbatim, even if it names a command |
| ArgParseProperties.ZeroParamNextTokenIsValue | argparse.ts:74-82 | after a `zero` knob, a plain next token ends up in the values |
| ArgParseProperties.ValuesComeFromSuffix | argparse.ts:99-117 | the values collected from token `i` on are an order-preserving subsequence of the tokens from `i` on, none dash-prefixed (the exact list is `ValuesExactFrom`) |
| ArgParseProperties.ValuesAreSubsequence | argparse.ts:114-116 | the values of a successful parse are a subsequence of the tokens, taken verbatim and in order, none dash-prefixed (the exact list is `ValuesExact`) |
| ArgParseProperties.KnobTokenIsDashed | argparse.ts:85-98 | only a dash-prefixed token can resolve to a configured argument |
| ArgParseProperties.StepValues | argparse.ts:74-117 | a successful step skips the next token iff that token is consumed as a parameter, and appends the current token iff it is plain and not the index-0 command |
| ArgParseProperties.SkipStepValues | argparse.ts:74-79 | a step that consumes a parameter adds no value, neither of its two tokens is kept, and the token after them is not consumed |
| ArgParseProperties.SingleStepValues | argparse.ts:99-117 | a one-token step moves that token's own contribution from the kept tokens into the values |
| ArgParseProperties.ValuesStep | argparse.ts:59-118 | one successful step preserves `values + KeptFrom(next)` and leaves a token that is not consumed |
| ArgParseProperties.ValuesExactFrom | argparse.ts:59-118 | the values collected from a token that is not a consumed parameter are exactly the earlier values followed by the kept tokens from there on |
| ArgParseProperties.ValuesExact | argparse.ts:53-121 | the values of a successful parse are exactly the tokens that are neither dash-prefixed, nor the index-0 command, nor the parameter consumed by the knob before them, in input order |
| ArgParseProperties.CommandOnlyFromFirstToken | argparse.ts:100-116 | the command is set iff the first token is plain and names a command-typed argument; it is then the long name of the first such argument, and the values come from the tokens after it; otherwise a plain first token is the first value |
| ArgParseProperties.BareLongKnob | argparse.ts:80-90 | a lone `--longName` for an argument that does not require a parameter yields that knob set to `true`, no command and no values |
| ArgParseProperties.ConsumedTokenIsInert | argparse.ts:66-79 | a token skipped as a parameter is not dash-prefixed, so it names no knob and raises no error |
| ArgParseProperties.SetKnobKept | argparse.ts:78-81 | once a token of `args[i..]` sets a knob, that knob is in the final result of a successful parse |
| ArgParseProperties.KnobHasSetter | argparse.ts:78-81 | every knob added from token `i` on was set by some token of `args[i..]` that names it |
| ArgParseProperties.UntouchedKnobKept | argparse.ts:78-81 | a knob that no token of `args[i..]` sets keeps the value it had before token `i` |
| ArgParseProperties.LastSetterWinsFrom | argparse.ts:78-81 | a knob's final value is the `KnobValue` of the last token of `args[i..]` that sets it |
| ArgParseProperties.KnobKeysExact | argparse.ts:53-121 | the knobs of a successful parse are exactly the long names of the first argument each dash-prefixed token names |
| ArgParseProperties.LastOccurrenceWins | argparse.ts:78-81 | a knob given several times, by either name, ends with the value its last occurrence stores |
| ArgParseProperties.ErrorReached | argparse.ts:59-98 | a token that raises an error makes the pass fail: no earlier knob can skip it as a parameter |
| ArgParseProperties.FailureHasCause | argparse.ts:59-98 | a failed pass has a token that raises an error |
| ArgParseProperties.FirstKnobErrorFrom | argparse.ts:62-73 | a pass fails with the error of the first token that raises one |
| ArgParseProperties.ParseFailsIffKnobError | argparse.ts:53-121 | a parse fails iff some token raises an error, and then with the error of the first such token |
| ArgParseExamples.SimplestCase | argparse_test.ts:5-13 | `--after` with a default argument sets `after` to `true` |
| ArgParseExamples.MissingParamCase | argparse_test.ts:15-25 | `--after` alone with `paramOption = one` fails with `MissingParam` |
| ArgParseExamples.ValueParserCase | argparse_test.ts:27-42 | with a parser mapping `"[1,2,3]"` to `[1, 2, 3]`, the stored value is the parsed list |
| ArgParseExamples.MixedCase | argparse_test.ts:44-76 | the mixed example yields command `test`, `after = "1"`, `before = "2"`, `counter = true`, values `value1, value2`, and nothing else |
| ArgParseExamples.KnobAsCommandCase | argparse_test.ts:78-88 | `--after` for a command-typed `after` fails with `KnobConfiguredAsCommand` |
| ArgParseExamples.RepeatedKnobCase | argparse.ts:78-81 | a knob given twice, by long and then short name, keeps the last value |
| ArgParseExamples.EmptyTokenCase | argparse.ts:68-73 | an empty token after a knob is not its parameter: it becomes a value, or the parse fails when a parameter is required |
| ArgParseExamples.IgnoredTokensCase | argparse.ts:85-116 | unknown knobs vanish, `--a` is not tried as the short name `a`, and command names after the first token are values |

## Left out

- `helpText` and `isRequired` are not modelled. `parseArgs` never reads them.
- The error messages are not modelled, only the two error kinds. `MissingParam` carries the long name its message interpolates. The other message is a non-interpolated literal, so it carries nothing.
- A throwing `valueParser` is not modelled. The parser is a total function `string -> V` chosen by the caller, and what it computes (for example `JSON.parse` in the tests) is not part of this model.
- JavaScript dynamic typing is replaced by closed types. In the source, a value parser that returns `true` is indistinguishable from a presence-only knob. The model keeps `Parsed(v)` and `Flag` apart.
- Strings are sequences of characters. JavaScript's UTF-16 code units are not modelled separately; the parser only compares strings and tests their first one or two characters.
- The knobs are a map, not a plain JavaScript object. The source creates `knobs` as `{}` (argparse.ts:55) and writes `knobs[longName]` (argparse.ts:78, 81). For an argument whose long name is `__proto__`, that write goes through the inherited `__proto__` setter and creates no own key: `true` or a raw string is dropped, and an object from a value parser becomes the prototype of `knobs`. The model stores `"__proto__"` like any other key, so for that name the map, `KnobKeysExact` and `LastOccurrenceWins` describe a key the source does not create.
- That re-parsing gives an equal result needs no lemma: `Parse` is a function, so the same inputs always give the same result.
