/** A declarative command-line argument parser.

    Given an ordered list of argument configurations and a token sequence, one
    left-to-right pass sorts every token into a sub-command (only the first
    token), a knob (a dash-prefixed switch, possibly consuming the following
    token as its parameter) or a positional value. */
module ArgParse {
  import opened Wrappers

  /** A command is the CLI's main branching point (`run` in `deno run`); a knob is a dash-prefixed switch. */
  datatype ArgType = Command | Knob

  /** How many following tokens a knob takes as its parameter. */
  datatype ParamOption = Zero | One

  /** One configured argument. The optional fields of the configuration stay
      optional: an unset `argType` behaves as `Knob`, an unset `paramOption`
      takes a parameter whenever one is available, and an unset `valueParser`
      stores the raw token. */
  datatype ArgConf<V> = ArgConf(
    shortName: string,
    longName: string,
    argType: Option<ArgType>,
    paramOption: Option<ParamOption>,
    valueParser: Option<string -> V>)

  /** What is stored for a knob: `true` (presence only), the raw parameter, or what the value parser made of it. */
  datatype Value<V> = Flag | Raw(raw: string) | Parsed(parsed: V)

  /** The parse result: the selected command's long name, knob values keyed by long name, and the leftover positional values. */
  datatype ParseResult<V> = ParseResult(command: Option<string>, knobs: map<string, Value<V>>, values: seq<string>)

  /** The two ways a parse fails. */
  datatype ParseError =
    | KnobConfiguredAsCommand     // a dash-prefixed token names an argument configured as a command
    | MissingParam(longName: string)  // a knob that requires a parameter has no eligible one after it

  /** The result every parse starts from: no command, no knobs, no values. */
  function Initial<V>(): ParseResult<V>
  {
    ParseResult(None, map[], [])
  }

  /** The long names the configuration declares: the only keys a parse can produce. */
  function LongNames<V>(conf: seq<ArgConf<V>>): set<string>
  {
    set j | 0 <= j < |conf| :: conf[j].longName
  }

  function Min(a: nat, b: nat): nat
  {
    if a <= b then a else b
  }

  /** `s.substring(0, n)`: the first `n` characters, or all of `s` when it is shorter. */
  function Prefix(s: string, n: nat): (r: string)
    ensures |r| == Min(n, |s|)
    ensures r <= s
  {
    if n <= |s| then s[..n] else s
  }

  /** `s.substring(n)`: what follows the first `n` characters, empty when `s` is shorter. */
  function Suffix(s: string, n: nat): (r: string)
    ensures Prefix(s, n) + r == s
    ensures |r| == |s| - Min(n, |s|)
  {
    if n <= |s| then s[n..] else []
  }

  /** A token that begins with a dash. */
  predicate IsDashed(s: string)
  {
    |s| > 0 && s[0] == '-'
  }

  /** The three ways a token is read: a long knob `--name`, a short knob `-name`, or a command-or-value. */
  datatype TokenKind = LongKnob(name: string) | ShortKnob(name: string) | Plain

  /** Classifies a token; the double-dash test comes first, so `--x` is never looked up as a short name. */
  function Classify(arg: string): (k: TokenKind)
    ensures k.LongKnob? <==> |arg| >= 2 && arg[0] == '-' && arg[1] == '-'
    ensures k.ShortKnob? <==> IsDashed(arg) && (|arg| == 1 || arg[1] != '-')
    ensures k.Plain? <==> !IsDashed(arg)
    ensures k.LongKnob? ==> arg == "--" + k.name
    ensures k.ShortKnob? ==> arg == "-" + k.name
  {
    if Prefix(arg, 2) == "--" then LongKnob(Suffix(arg, 2))
    else if Prefix(arg, 1) == "-" then ShortKnob(Suffix(arg, 1))
    else Plain
  }

  /** The lookahead guard: the token after `i` exists, is non-empty and does not begin with a dash. */
  function NextEligible(args: seq<string>, i: nat): (b: bool)
    ensures b <==> i + 1 < |args| && args[i + 1] != [] && !IsDashed(args[i + 1])
  {
    i + 1 < |args| && args[i + 1] != "" && Prefix(args[i + 1], 1) != "-"
  }

  /** The index of the first element satisfying `p`, if any: filtering and taking element 0. */
  function FirstIndex<T>(xs: seq<T>, p: T -> bool): (r: Option<nat>)
    ensures r.Some? ==> r.value < |xs| && p(xs[r.value])
    ensures r.Some? ==> forall k :: 0 <= k < r.value ==> !p(xs[k])
    ensures r.None? ==> forall k :: 0 <= k < |xs| ==> !p(xs[k])
  {
    if |xs| == 0 then None
    else if p(xs[0]) then Some(0)
    else match FirstIndex(xs[1..], p)
      case None => None
      case Some(k) => Some(k + 1)
  }

  /** Whether a configured argument is the one a dash-prefixed token names. */
  predicate NamesKnob<V>(c: ArgConf<V>, arg: string)
  {
    match Classify(arg)
    case LongKnob(name) => c.longName == name
    case ShortKnob(name) => c.shortName == name
    case Plain => false
  }

  /** Whether a configured argument is a command that a plain token names, by short or long name. */
  predicate NamesCommand<V>(c: ArgConf<V>, arg: string)
  {
    c.argType == Some(Command) && (c.shortName == arg || c.longName == arg)
  }

  /** The first configured argument a dash-prefixed token names: by long name after `--`, by short name after `-`. */
  function LookupKnob<V>(conf: seq<ArgConf<V>>, arg: string): (r: Option<nat>)
    ensures r.Some? ==> r.value < |conf| && NamesKnob(conf[r.value], arg)
    ensures r.Some? ==> forall k :: 0 <= k < r.value ==> !NamesKnob(conf[k], arg)
    ensures r.None? ==> forall k :: 0 <= k < |conf| ==> !NamesKnob(conf[k], arg)
  {
    match Classify(arg)
    case LongKnob(name) => FirstIndex(conf, (c: ArgConf<V>) => c.longName == name)
    case ShortKnob(name) => FirstIndex(conf, (c: ArgConf<V>) => c.shortName == name)
    case Plain => None
  }

  /** The first configured command a plain token names. */
  function LookupCommand<V>(conf: seq<ArgConf<V>>, arg: string): (r: Option<nat>)
    ensures r.Some? ==> r.value < |conf| && NamesCommand(conf[r.value], arg)
    ensures r.Some? ==> forall k :: 0 <= k < r.value ==> !NamesCommand(conf[k], arg)
    ensures r.None? ==> forall k :: 0 <= k < |conf| ==> !NamesCommand(conf[k], arg)
  {
    FirstIndex(conf, (c: ArgConf<V>) => NamesCommand(c, arg))
  }

  /** The value stored for a consumed parameter token: the parser's result, or the raw token without a parser. */
  function ParamValue<V>(ac: ArgConf<V>, token: string): (v: Value<V>)
    ensures v != Flag
    ensures ac.valueParser.None? ==> v == Raw(token)
    ensures ac.valueParser.Some? ==> v == Parsed(ac.valueParser.value(token))
  {
    match ac.valueParser
    case None => Raw(token)
    case Some(parse) => Parsed(parse(token))
  }

  /** What a matched knob does: the value to store and whether the next token was consumed as its parameter. */
  datatype KnobOutcome<V> = KnobOutcome(value: Value<V>, consumed: bool)

  /** The decision for a knob matched at token `i`. */
  function HandleKnob<V>(ac: ArgConf<V>, args: seq<string>, i: nat): (r: Result<KnobOutcome<V>, ParseError>)
    ensures r == Failure(KnobConfiguredAsCommand) <==> ac.argType == Some(Command)
    ensures r.Failure? && r.error.MissingParam? <==>
              ac.argType != Some(Command) && ac.paramOption == Some(One) && !NextEligible(args, i)
    ensures r.Failure? && r.error.MissingParam? ==> r.error.longName == ac.longName
    ensures r.Success? ==> (r.value.consumed <==> NextEligible(args, i) && ac.paramOption != Some(Zero))
    ensures r.Success? && r.value.consumed ==>
              i + 1 < |args| && r.value.value == ParamValue(ac, args[i + 1])
    ensures r.Success? && !r.value.consumed ==> r.value.value == Flag
  {
    if ac.argType.Some? && ac.argType.value != Knob then
      assert ac.argType.value == Command;
      Failure(KnobConfiguredAsCommand)
    else
      var eligible := NextEligible(args, i);
      if !eligible && ac.paramOption == Some(One) then
        Failure(MissingParam(ac.longName))
      else if eligible && ac.paramOption != Some(Zero) then
        Success(KnobOutcome(ParamValue(ac, args[i + 1]), true))
      else
        Success(KnobOutcome(Flag, false))
  }

  /** The knob a token sets: the long name of the first configured argument it names, if any. */
  function KnobKey<V>(conf: seq<ArgConf<V>>, arg: string): (k: Option<string>)
    ensures k.Some? ==> IsDashed(arg) && k.value in LongNames(conf)
    ensures k.None? <==> forall j :: 0 <= j < |conf| ==> !NamesKnob(conf[j], arg)
    ensures k.Some? ==> LookupKnob(conf, arg).Some? && k.value == conf[LookupKnob(conf, arg).value].longName
  {
    match LookupKnob(conf, arg)
    case None => None
    case Some(j) =>
      assert conf[j].longName in LongNames(conf);
      Some(conf[j].longName)
  }

  /** The value a knob matched at token `i` stores when it does not fail: its parameter when it takes one, else `true`. */
  function KnobValue<V>(ac: ArgConf<V>, args: seq<string>, i: nat): (v: Value<V>)
    ensures v != Flag <==> NextEligible(args, i) && ac.paramOption != Some(Zero)
    ensures v != Flag ==> i + 1 < |args| && v == ParamValue(ac, args[i + 1])
  {
    if NextEligible(args, i) && ac.paramOption != Some(Zero) then ParamValue(ac, args[i + 1]) else Flag
  }

  /** The error token `i` raises when it is reached: a knob naming a command-typed argument, or a knob that requires
      a parameter with none eligible after it. Plain tokens and unknown knobs raise none. */
  function KnobError<V>(conf: seq<ArgConf<V>>, args: seq<string>, i: nat): (e: Option<ParseError>)
    requires i < |args|
    ensures e.Some? ==> IsDashed(args[i]) && KnobKey(conf, args[i]).Some?
    ensures e == Some(KnobConfiguredAsCommand) <==>
              LookupKnob(conf, args[i]).Some? && conf[LookupKnob(conf, args[i]).value].argType == Some(Command)
    ensures e.Some? && e.value.MissingParam? <==>
              && LookupKnob(conf, args[i]).Some?
              && conf[LookupKnob(conf, args[i]).value].argType != Some(Command)
              && conf[LookupKnob(conf, args[i]).value].paramOption == Some(One)
              && !NextEligible(args, i)
    ensures e.Some? && e.value.MissingParam? ==> Some(e.value.longName) == KnobKey(conf, args[i])
  {
    match LookupKnob(conf, args[i])
    case None => None
    case Some(j) =>
      if conf[j].argType == Some(Command) then Some(KnobConfiguredAsCommand)
      else if conf[j].paramOption == Some(One) && !NextEligible(args, i) then Some(MissingParam(conf[j].longName))
      else None
  }

  /** `KnobError` and `KnobValue` agree with the handler's decision for the argument a knob token resolves to. */
  lemma HandleKnobAgrees<V>(conf: seq<ArgConf<V>>, args: seq<string>, i: nat, j: nat)
    requires i < |args| && LookupKnob(conf, args[i]) == Some(j)
    ensures HandleKnob(conf[j], args, i).Failure? <==> KnobError(conf, args, i).Some?
    ensures HandleKnob(conf[j], args, i).Failure? ==> HandleKnob(conf[j], args, i).error == KnobError(conf, args, i).value
    ensures HandleKnob(conf[j], args, i).Success? ==> HandleKnob(conf[j], args, i).value.value == KnobValue(conf[j], args, i)
  {
  }

  /** The state after one token: the result so far and the index of the next token to classify. */
  datatype Progress<V> = Progress(result: ParseResult<V>, next: nat)

  /** One iteration of the pass: classifies token `i` and updates the result. */
  function Step<V>(conf: seq<ArgConf<V>>, args: seq<string>, i: nat, acc: ParseResult<V>): (r: Result<Progress<V>, ParseError>)
    requires i < |args|
    ensures r.Success? ==> i < r.value.next <= |args| && r.value.next <= i + 2
    ensures r.Success? && r.value.next == i + 2 ==> NextEligible(args, i)
    ensures r.Failure? ==> IsDashed(args[i])
    ensures r.Success? ==>
              || r.value.result.values == acc.values
              || (&& r.value.result.values == acc.values + [args[i]]
                  && r.value.next == i + 1
                  && !IsDashed(args[i]))
    ensures r.Success? && i > 0 ==> r.value.result.command == acc.command
    ensures r.Success? ==> acc.knobs.Keys <= r.value.result.knobs.Keys <= acc.knobs.Keys + LongNames(conf)
  {
    match Classify(args[i])
    case Plain =>
      var found := if i == 0 then LookupCommand(conf, args[i]) else None;
      if found.Some? then
        Success(Progress(acc.(command := Some(conf[found.value].longName)), i + 1))
      else
        Success(Progress(acc.(values := acc.values + [args[i]]), i + 1))
    case _ =>
      match LookupKnob(conf, args[i])
      case None => Success(Progress(acc, i + 1))
      case Some(j) =>
        assert conf[j].longName in LongNames(conf);
        match HandleKnob(conf[j], args, i)
        case Failure(e) => Failure(e)
        case Success(o) =>
          var knobs := acc.knobs[conf[j].longName := o.value];
          Success(Progress(acc.(knobs := knobs), if o.consumed then i + 2 else i + 1))
  }

  /** Exactly what one token does to the knobs, and exactly when it fails: a token naming a configured argument sets
      that argument's long name to `KnobValue` and leaves every other knob as it was; any other token leaves the knobs
      alone; the token fails iff `KnobError` reports an error, and with that error. */
  lemma StepEffect<V>(conf: seq<ArgConf<V>>, args: seq<string>, i: nat, acc: ParseResult<V>)
    requires i < |args|
    ensures Step(conf, args, i, acc).Failure? <==> KnobError(conf, args, i).Some?
    ensures Step(conf, args, i, acc).Failure? ==> Step(conf, args, i, acc).error == KnobError(conf, args, i).value
    ensures Step(conf, args, i, acc).Success? && KnobKey(conf, args[i]).None? ==>
              Step(conf, args, i, acc).value.result.knobs == acc.knobs
    ensures Step(conf, args, i, acc).Success? && LookupKnob(conf, args[i]).Some? ==>
              var j := LookupKnob(conf, args[i]).value;
              var knobs := Step(conf, args, i, acc).value.result.knobs;
              && knobs == acc.knobs[conf[j].longName := KnobValue(conf[j], args, i)]
              && conf[j].longName in knobs
              && knobs[conf[j].longName] == KnobValue(conf[j], args, i)
              && (forall name :: name != conf[j].longName ==> (name in knobs <==> name in acc.knobs))
              && (forall name :: name != conf[j].longName && name in acc.knobs ==> knobs[name] == acc.knobs[name])
  {
  }

  /** The rest of the pass from token `i`; the first error aborts the whole parse. */
  function ParseFrom<V>(conf: seq<ArgConf<V>>, args: seq<string>, i: nat, acc: ParseResult<V>): (r: Result<ParseResult<V>, ParseError>)
    requires i <= |args|
    ensures r.Success? ==> acc.values <= r.value.values
    ensures r.Success? ==> acc.knobs.Keys <= r.value.knobs.Keys <= acc.knobs.Keys + LongNames(conf)
    ensures r.Success? && i > 0 ==> r.value.command == acc.command
    decreases |args| - i
  {
    if i == |args| then Success(acc)
    else match Step(conf, args, i, acc)
      case Failure(e) => Failure(e)
      case Success(p) => ParseFrom(conf, args, p.next, p.result)
  }

  /** Parses `args` against the configuration `conf`. */
  function Parse<V>(conf: seq<ArgConf<V>>, args: seq<string>): (r: Result<ParseResult<V>, ParseError>)
    ensures r.Success? ==> r.value.knobs.Keys <= LongNames(conf)
  {
    ParseFrom(conf, args, 0, Initial())
  }

  /** The knob handler as the source writes it: early error returns, then the lookahead decision. */
  method HandleKnobAt<V>(ac: ArgConf<V>, args: seq<string>, i: nat) returns (r: Result<KnobOutcome<V>, ParseError>)
    ensures r == HandleKnob(ac, args, i)
  {
    if ac.argType.Some? && ac.argType.value != Knob {
      return Failure(KnobConfiguredAsCommand);
    }
    var eligible := NextEligible(args, i);
    if !eligible && ac.paramOption == Some(One) {
      return Failure(MissingParam(ac.longName));
    }
    if eligible && ac.paramOption != Some(Zero) {
      r := Success(KnobOutcome(ParamValue(ac, args[i + 1]), true));
    } else {
      r := Success(KnobOutcome(Flag, false));
    }
  }

  /** One iteration of the source's loop body, on the mutable result fields: a plain token sets the command or is
      appended to the values, a knob token goes to the handler, which may claim the next token. */
  method ParseToken<V>(conf: seq<ArgConf<V>>, args: seq<string>, i: nat, command: Option<string>,
                       knobs: map<string, Value<V>>, values: seq<string>)
    returns (r: Result<Progress<V>, ParseError>)
    requires i < |args|
    ensures r == Step(conf, args, i, ParseResult(command, knobs, values))
  {
    var arg := args[i];
    var command, knobs, values, next := command, knobs, values, i + 1;
    if Classify(arg).Plain? {
      var found := if i == 0 then LookupCommand(conf, arg) else None;
      if found.Some? {
        command := Some(conf[found.value].longName);
      } else {
        values := values + [arg];
      }
    } else {
      var found := LookupKnob(conf, arg);
      if found.Some? {
        var ac := conf[found.value];
        var outcome := HandleKnobAt(ac, args, i);
        if outcome.Failure? {
          return Failure(outcome.error);
        }
        knobs := knobs[ac.longName := outcome.value.value];
        if outcome.value.consumed {
          next := i + 2;
        }
      }
    }
    r := Success(Progress(ParseResult(command, knobs, values), next));
  }

  /** The pass written as the loop it is: mutable result fields, an index the knob handler may advance by one extra. */
  method ParseArgs<V>(conf: seq<ArgConf<V>>, args: seq<string>) returns (res: Result<ParseResult<V>, ParseError>)
    ensures res == Parse(conf, args)
  {
    var command: Option<string> := None;
    var knobs: map<string, Value<V>> := map[];
    var values: seq<string> := [];
    var i: nat := 0;
    while i < |args|
      invariant i <= |args|
      invariant Parse(conf, args) == ParseFrom(conf, args, i, ParseResult(command, knobs, values))
    {
      var step := ParseToken(conf, args, i, command, knobs, values);
      if step.Failure? {
        return Failure(step.error);
      }
      command, knobs, values := step.value.result.command, step.value.result.knobs, step.value.result.values;
      i := step.value.next;
    }
    res := Success(ParseResult(command, knobs, values));
  }
}
