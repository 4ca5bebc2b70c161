/** Properties of the parse: what each kind of token does to the result, where
    the positional values come from, and when the command is set. */
module ArgParseProperties {
  import opened Wrappers
  import opened ArgParse

  /** `a` is an order-preserving subsequence of `b`. */
  predicate IsSubseq(a: seq<string>, b: seq<string>)
    decreases |b|
  {
    if |a| == 0 then true
    else if |b| == 0 then false
    else (a[0] == b[0] && IsSubseq(a[1..], b[1..])) || IsSubseq(a, b[1..])
  }

  lemma SubseqSkip(a: seq<string>, x: string, b: seq<string>)
    requires IsSubseq(a, b)
    ensures IsSubseq(a, [x] + b)
  {
    assert ([x] + b)[1..] == b;
  }

  lemma SubseqKeep(a: seq<string>, x: string, b: seq<string>)
    requires IsSubseq(a, b)
    ensures IsSubseq([x] + a, [x] + b)
  {
    assert ([x] + a)[1..] == a;
    assert ([x] + b)[1..] == b;
  }

  /** `conf[j]` is the first configured argument the dash-prefixed token `arg` names. */
  predicate FirstKnob<V>(conf: seq<ArgConf<V>>, arg: string, j: nat)
  {
    j < |conf| && NamesKnob(conf[j], arg) && forall k :: 0 <= k < j ==> !NamesKnob(conf[k], arg)
  }

  /** `conf[j]` is the first configured command the plain token `arg` names. */
  predicate FirstCommand<V>(conf: seq<ArgConf<V>>, arg: string, j: nat)
  {
    j < |conf| && NamesCommand(conf[j], arg) && forall k :: 0 <= k < j ==> !NamesCommand(conf[k], arg)
  }

  lemma LookupKnobFinds<V>(conf: seq<ArgConf<V>>, arg: string, j: nat)
    requires FirstKnob(conf, arg, j)
    ensures LookupKnob(conf, arg) == Some(j)
  {
  }

  lemma LookupCommandFinds<V>(conf: seq<ArgConf<V>>, arg: string, j: nat)
    requires FirstCommand(conf, arg, j)
    ensures LookupCommand(conf, arg) == Some(j)
  {
  }

  /** Which configured argument a knob token resolves to: the first one naming it in declaration order, whatever follows. */
  lemma FirstMatchWins<V>(conf: seq<ArgConf<V>>, arg: string, j: nat, k: nat)
    requires j < k < |conf|
    requires NamesKnob(conf[j], arg) && NamesKnob(conf[k], arg)
    ensures LookupKnob(conf, arg) != Some(k)
    ensures LookupKnob(conf, arg).Some? && LookupKnob(conf, arg).value <= j
  {
  }

  /** A dash-prefixed token that names no configured argument is dropped: no knob, no value, and the next token is classified normally. */
  lemma UnknownKnobDropped<V>(conf: seq<ArgConf<V>>, args: seq<string>, i: nat, acc: ParseResult<V>)
    requires i < |args| && IsDashed(args[i])
    requires forall k :: 0 <= k < |conf| ==> !NamesKnob(conf[k], args[i])
    ensures ParseFrom(conf, args, i, acc) == ParseFrom(conf, args, i + 1, acc)
  {
    assert Step(conf, args, i, acc) == Success(Progress(acc, i + 1));
  }

  /** A dash-prefixed token naming an argument configured as a command aborts the parse. */
  lemma KnobConfiguredAsCommandFails<V>(conf: seq<ArgConf<V>>, args: seq<string>, i: nat, acc: ParseResult<V>, j: nat)
    requires i < |args| && FirstKnob(conf, args[i], j)
    requires conf[j].argType == Some(Command)
    ensures ParseFrom(conf, args, i, acc) == Failure(KnobConfiguredAsCommand)
  {
    LookupKnobFinds(conf, args[i], j);
    assert Step(conf, args, i, acc) == Failure(KnobConfiguredAsCommand);
  }

  /** A knob that requires a parameter aborts the parse when the next token is absent, empty or dash-prefixed. */
  lemma MissingParamFails<V>(conf: seq<ArgConf<V>>, args: seq<string>, i: nat, acc: ParseResult<V>, j: nat)
    requires i < |args| && FirstKnob(conf, args[i], j)
    requires conf[j].argType != Some(Command) && conf[j].paramOption == Some(One)
    requires !(i + 1 < |args| && args[i + 1] != [] && !IsDashed(args[i + 1]))
    ensures ParseFrom(conf, args, i, acc) == Failure(MissingParam(conf[j].longName))
  {
    LookupKnobFinds(conf, args[i], j);
    assert Step(conf, args, i, acc) == Failure(MissingParam(conf[j].longName));
  }

  /** The single step of `ParamConsumed`: the knob stores its parameter and the index moves past it. */
  lemma ParamStep<V>(conf: seq<ArgConf<V>>, args: seq<string>, i: nat, acc: ParseResult<V>, j: nat)
    requires i + 1 < |args| && FirstKnob(conf, args[i], j)
    requires conf[j].argType != Some(Command) && conf[j].paramOption != Some(Zero)
    requires args[i + 1] != [] && !IsDashed(args[i + 1])
    ensures Step(conf, args, i, acc) ==
            Success(Progress(acc.(knobs := acc.knobs[conf[j].longName := ParamValue(conf[j], args[i + 1])]), i + 2))
  {
    LookupKnobFinds(conf, args[i], j);
  }

  /** A knob that does not refuse parameters consumes an eligible next token: it stores that token (through the
      value parser when there is one) and the pass resumes two tokens on, so the parameter never becomes a value. */
  lemma ParamConsumed<V>(conf: seq<ArgConf<V>>, args: seq<string>, i: nat, acc: ParseResult<V>, j: nat)
    requires i + 1 < |args| && FirstKnob(conf, args[i], j)
    requires conf[j].argType != Some(Command) && conf[j].paramOption != Some(Zero)
    requires args[i + 1] != [] && !IsDashed(args[i + 1])
    ensures ParseFrom(conf, args, i, acc) ==
            ParseFrom(conf, args, i + 2, acc.(knobs := acc.knobs[conf[j].longName := ParamValue(conf[j], args[i + 1])]))
    ensures conf[j].valueParser.None? ==> ParamValue(conf[j], args[i + 1]) == Raw(args[i + 1])
    ensures conf[j].valueParser.Some? ==> ParamValue(conf[j], args[i + 1]) == Parsed(conf[j].valueParser.value(args[i + 1]))
    ensures ParseFrom(conf, args, i, acc).Success? ==>
            var r := ParseFrom(conf, args, i, acc).value;
            IsSubseq(r.values[|acc.values|..], args[i + 2..])
  {
    ParamStep(conf, args, i, acc, j);
    var acc' := acc.(knobs := acc.knobs[conf[j].longName := ParamValue(conf[j], args[i + 1])]);
    if ParseFrom(conf, args, i, acc).Success? {
      ValuesComeFromSuffix(conf, args, i + 2, acc');
    }
  }

  /** A knob stores `true` and consumes nothing when it refuses parameters, or when it may take one but none is eligible. */
  lemma PresenceOnlyKnob<V>(conf: seq<ArgConf<V>>, args: seq<string>, i: nat, acc: ParseResult<V>, j: nat)
    requires i < |args| && FirstKnob(conf, args[i], j)
    requires conf[j].argType != Some(Command)
    requires || conf[j].paramOption == Some(Zero)
             || (conf[j].paramOption != Some(One) && !(i + 1 < |args| && args[i + 1] != [] && !IsDashed(args[i + 1])))
    ensures ParseFrom(conf, args, i, acc) == ParseFrom(conf, args, i + 1, acc.(knobs := acc.knobs[conf[j].longName := Flag]))
  {
    LookupKnobFinds(conf, args[i], j);
    assert Step(conf, args, i, acc) == Success(Progress(acc.(knobs := acc.knobs[conf[j].longName := Flag]), i + 1));
  }

  /** A plain token after the first is a value, even when it names a configured command. */
  lemma PlainTokenIsValue<V>(conf: seq<ArgConf<V>>, args: seq<string>, i: nat, acc: ParseResult<V>)
    requires 0 < i < |args| && !IsDashed(args[i])
    ensures ParseFrom(conf, args, i, acc) == ParseFrom(conf, args, i + 1, acc.(values := acc.values + [args[i]]))
  {
    assert Step(conf, args, i, acc) == Success(Progress(acc.(values := acc.values + [args[i]]), i + 1));
  }

  /** After a knob that refuses parameters, a plain next token is appended to the values verbatim. */
  lemma ZeroParamNextTokenIsValue<V>(conf: seq<ArgConf<V>>, args: seq<string>, i: nat, acc: ParseResult<V>, j: nat)
    requires i + 1 < |args| && FirstKnob(conf, args[i], j)
    requires conf[j].argType != Some(Command) && conf[j].paramOption == Some(Zero)
    requires !IsDashed(args[i + 1])
    ensures ParseFrom(conf, args, i, acc) ==
            ParseFrom(conf, args, i + 2, acc.(knobs := acc.knobs[conf[j].longName := Flag], values := acc.values + [args[i + 1]]))
  {
    PresenceOnlyKnob(conf, args, i, acc, j);
    PlainTokenIsValue(conf, args, i + 1, acc.(knobs := acc.knobs[conf[j].longName := Flag]));
  }

  /** Every positional value collected from token `i` on is a token of `args[i..]` that does not begin with a dash,
      taken verbatim and in input order. */
  lemma {:induction false} ValuesComeFromSuffix<V>(conf: seq<ArgConf<V>>, args: seq<string>, i: nat, acc: ParseResult<V>)
    requires i <= |args|
    requires ParseFrom(conf, args, i, acc).Success?
    ensures var r := ParseFrom(conf, args, i, acc).value;
            && IsSubseq(r.values[|acc.values|..], args[i..])
            && forall k :: |acc.values| <= k < |r.values| ==> !IsDashed(r.values[k])
    decreases |args| - i
  {
    if i < |args| {
      var next, res := Advance(conf, args, i, acc);
      ValuesComeFromSuffix(conf, args, next, res);
      var r := ParseFrom(conf, args, i, acc).value;
      if res.values == acc.values {
        SubseqOfLongerSuffix(r.values[|acc.values|..], args, i, next);
      } else {
        var w := r.values[|res.values|..];
        SliceAfterPrefix(acc.values, args[i], r.values);
        assert args[i..] == [args[i]] + args[i + 1..];
        SubseqKeep(w, args[i], args[i + 1..]);
      }
    }
  }

  /** What follows a prefix `a + [x]` of `r`, counted from the end of `a`, starts with `x`. */
  lemma SliceAfterPrefix(a: seq<string>, x: string, r: seq<string>)
    requires a + [x] <= r
    ensures r[|a|..] == [x] + r[|a| + 1..]
  {
    assert r[|a|] == (a + [x])[|a|];
  }

  /** A subsequence of a suffix is a subsequence of every longer suffix. */
  lemma {:induction false} SubseqOfLongerSuffix(w: seq<string>, args: seq<string>, i: nat, n: nat)
    requires i <= n <= |args|
    requires IsSubseq(w, args[n..])
    ensures IsSubseq(w, args[i..])
    decreases n - i
  {
    if i < n {
      SubseqOfLongerSuffix(w, args, i + 1, n);
      assert args[i..] == [args[i]] + args[i + 1..];
      SubseqSkip(w, args[i], args[i + 1..]);
    }
  }

  /** The positional values of a successful parse are an order-preserving subsequence of the tokens, none dash-prefixed. */
  lemma ValuesAreSubsequence<V>(conf: seq<ArgConf<V>>, args: seq<string>)
    requires Parse(conf, args).Success?
    ensures IsSubseq(Parse(conf, args).value.values, args)
    ensures forall k :: 0 <= k < |Parse(conf, args).value.values| ==> !IsDashed(Parse(conf, args).value.values[k])
  {
    ValuesComeFromSuffix(conf, args, 0, Initial());
  }

  /** Token `t` is the parameter of the knob before it: that knob names an argument that is not command-typed and
      does not refuse parameters, and `t` is eligible. */
  predicate Consumed<V>(conf: seq<ArgConf<V>>, args: seq<string>, t: nat)
  {
    && 0 < t < |args|
    && LookupKnob(conf, args[t - 1]).Some?
    && var ac := conf[LookupKnob(conf, args[t - 1]).value];
       ac.argType != Some(Command) && ac.paramOption != Some(Zero) && NextEligible(args, t - 1)
  }

  /** Token `t` is a positional value: not dash-prefixed, not the command at index 0, and not a knob's parameter. */
  predicate Kept<V>(conf: seq<ArgConf<V>>, args: seq<string>, t: nat)
    requires t < |args|
  {
    !IsDashed(args[t]) && !(t == 0 && LookupCommand(conf, args[t]).Some?) && !Consumed(conf, args, t)
  }

  /** The tokens of `args[i..]` that are positional values, in input order. */
  function KeptFrom<V>(conf: seq<ArgConf<V>>, args: seq<string>, i: nat): seq<string>
    decreases |args| - i
  {
    if i >= |args| then []
    else (if Kept(conf, args, i) then [args[i]] else []) + KeptFrom(conf, args, i + 1)
  }

  /** A knob token's argument lies in the configuration and the token begins with a dash. */
  lemma KnobTokenIsDashed<V>(conf: seq<ArgConf<V>>, arg: string)
    requires LookupKnob(conf, arg).Some?
    ensures IsDashed(arg)
  {
    assert KnobKey(conf, arg).Some?;
  }

  /** One step skips the next token exactly when that token is consumed, and appends token `i` to the values exactly
      when it is plain and not the index-0 command. */
  lemma StepValues<V>(conf: seq<ArgConf<V>>, args: seq<string>, i: nat, acc: ParseResult<V>)
    requires i < |args| && Step(conf, args, i, acc).Success?
    ensures Step(conf, args, i, acc).value.next == i + 2 <==> Consumed(conf, args, i + 1)
    ensures Step(conf, args, i, acc).value.result.values ==
              acc.values + (if !IsDashed(args[i]) && !(i == 0 && LookupCommand(conf, args[i]).Some?) then [args[i]] else [])
  {
  }

  /** A step that consumes a parameter adds no value: the knob token is dash-prefixed, its parameter is consumed, and
      the token after the parameter is not consumed in turn. */
  lemma SkipStepValues<V>(conf: seq<ArgConf<V>>, args: seq<string>, i: nat, acc: ParseResult<V>)
    requires i < |args| && Step(conf, args, i, acc).Success? && Step(conf, args, i, acc).value.next == i + 2
    ensures Step(conf, args, i, acc).value.result.values == acc.values
    ensures KeptFrom(conf, args, i) == KeptFrom(conf, args, i + 2)
    ensures !Consumed(conf, args, i + 2)
  {
    StepValues(conf, args, i, acc);
    assert LookupKnob(conf, args[i]).Some?;
    KnobTokenIsDashed(conf, args[i]);
    assert !Kept(conf, args, i);
    assert !Kept(conf, args, i + 1);
    if i + 2 < |args| && LookupKnob(conf, args[i + 1]).Some? {
      KnobTokenIsDashed(conf, args[i + 1]);
    }
  }

  /** A step that consumes nothing adds token `i` to the values exactly when it is kept, and leaves token `i + 1`
      to be read on its own. */
  lemma SingleStepValues<V>(conf: seq<ArgConf<V>>, args: seq<string>, i: nat, acc: ParseResult<V>)
    requires i < |args| && Step(conf, args, i, acc).Success? && Step(conf, args, i, acc).value.next == i + 1
    requires !Consumed(conf, args, i)
    ensures !Consumed(conf, args, i + 1)
    ensures Step(conf, args, i, acc).value.result.values + KeptFrom(conf, args, i + 1) == acc.values + KeptFrom(conf, args, i)
  {
    StepValues(conf, args, i, acc);
    var values := Step(conf, args, i, acc).value.result.values;
    assert Kept(conf, args, i) <==> !IsDashed(args[i]) && !(i == 0 && LookupCommand(conf, args[i]).Some?);
    var own := if Kept(conf, args, i) then [args[i]] else [];
    AppendAssoc(acc.values, own, KeptFrom(conf, args, i + 1));
  }

  /** Concatenation regroups freely. */
  lemma AppendAssoc(a: seq<string>, b: seq<string>, c: seq<string>)
    ensures (a + b) + c == a + (b + c)
  {
  }

  /** A successful parse from a token takes a successful step and carries on from where that step left off. */
  lemma StepUnfolds<V>(conf: seq<ArgConf<V>>, args: seq<string>, i: nat, acc: ParseResult<V>)
    requires i < |args|
    requires ParseFrom(conf, args, i, acc).Success?
    ensures Step(conf, args, i, acc).Success?
    ensures ParseFrom(conf, args, i, acc) ==
      ParseFrom(conf, args, Step(conf, args, i, acc).value.next, Step(conf, args, i, acc).value.result)
  {
  }

  /** One step of the parse, seen through the kept tokens: the step moves the kept suffix from `i` to `next`
      and its own contribution into the collected values. */
  lemma ValuesStep<V>(conf: seq<ArgConf<V>>, args: seq<string>, i: nat, acc: ParseResult<V>)
      returns (next: nat, res: ParseResult<V>)
    requires i < |args|
    requires ParseFrom(conf, args, i, acc).Success?
    requires !Consumed(conf, args, i)
    ensures i < next <= |args|
    ensures ParseFrom(conf, args, i, acc) == ParseFrom(conf, args, next, res)
    ensures !Consumed(conf, args, next)
    ensures res.values + KeptFrom(conf, args, next) == acc.values + KeptFrom(conf, args, i)
  {
    StepUnfolds(conf, args, i, acc);
    var p := Step(conf, args, i, acc).value;
    next, res := p.next, p.result;
    if next == i + 2 {
      SkipStepValues(conf, args, i, acc);
      assert res.values == acc.values && KeptFrom(conf, args, next) == KeptFrom(conf, args, i);
    } else {
      SingleStepValues(conf, args, i, acc);
    }
  }

  /** The values collected from token `i` on are exactly the positional values of `args[i..]`, when token `i` is
      reached as a token of its own rather than as a parameter. */
  lemma {:induction false} ValuesExactFrom<V>(conf: seq<ArgConf<V>>, args: seq<string>, i: nat, acc: ParseResult<V>)
    requires i <= |args|
    requires ParseFrom(conf, args, i, acc).Success?
    requires !Consumed(conf, args, i)
    ensures ParseFrom(conf, args, i, acc).value.values == acc.values + KeptFrom(conf, args, i)
    decreases |args| - i
  {
    if i < |args| {
      var next, res := ValuesStep(conf, args, i, acc);
      ValuesExactFrom(conf, args, next, res);
    }
  }

  /** The positional values of a successful parse are exactly the tokens that are not dash-prefixed, not the
      index-0 command and not a knob's parameter, in input order. */
  lemma ValuesExact<V>(conf: seq<ArgConf<V>>, args: seq<string>)
    requires Parse(conf, args).Success?
    ensures Parse(conf, args).value.values == KeptFrom(conf, args, 0)
  {
    ValuesExactFrom(conf, args, 0, Initial());
  }

  /** The command is set exactly when the first token is plain and names a configured command; it is the long name of
      the first such command, and that token is then not a value. Otherwise a plain first token is the first value. */
  lemma CommandOnlyFromFirstToken<V>(conf: seq<ArgConf<V>>, args: seq<string>)
    requires Parse(conf, args).Success?
    ensures var r := Parse(conf, args).value;
            r.command.Some? <==>
              |args| > 0 && !IsDashed(args[0]) && exists j :: 0 <= j < |conf| && NamesCommand(conf[j], args[0])
    ensures var r := Parse(conf, args).value;
            r.command.Some? ==>
              && (exists j: nat :: FirstCommand(conf, args[0], j) && r.command.value == conf[j].longName)
              && IsSubseq(r.values, args[1..])
    ensures var r := Parse(conf, args).value;
            r.command.None? && |args| > 0 && !IsDashed(args[0]) ==> |r.values| > 0 && r.values[0] == args[0]
  {
    var r := Parse(conf, args).value;
    if |args| > 0 {
      var p := Step(conf, args, 0, Initial()).value;
      assert r == ParseFrom(conf, args, p.next, p.result).value;
      ValuesComeFromSuffix(conf, args, p.next, p.result);
      if !IsDashed(args[0]) {
        var found := LookupCommand(conf, args[0]);
        if found.Some? {
          assert FirstCommand(conf, args[0], found.value);
          assert p.result.values == [];
          assert p.next == 1;
        } else {
          assert p.result.values == [args[0]];
        }
      }
    }
  }

  /** A lone `--name` token for an argument that does not require a parameter sets that knob to `true` and nothing else. */
  lemma BareLongKnob<V>(conf: seq<ArgConf<V>>, name: string, j: nat)
    requires j < |conf| && conf[j].longName == name
    requires forall k :: 0 <= k < j ==> conf[k].longName != name
    requires conf[j].argType != Some(Command) && conf[j].paramOption != Some(One)
    ensures Parse(conf, ["--" + name]) == Success(ParseResult(None, map[name := Flag], []))
  {
    var arg := "--" + name;
    assert Classify(arg).name == name by {
      assert arg[2..] == name;
    }
    assert FirstKnob(conf, arg, j);
    PresenceOnlyKnob(conf, [arg], 0, Initial(), j);
  }

  /** A token the pass skips as a consumed parameter is not dash-prefixed, so it sets no knob and raises no error. */
  lemma ConsumedTokenIsInert<V>(conf: seq<ArgConf<V>>, args: seq<string>, i: nat, acc: ParseResult<V>)
    requires i < |args| && Step(conf, args, i, acc).Success? && Step(conf, args, i, acc).value.next == i + 2
    ensures KnobKey(conf, args[i + 1]).None? && KnobError(conf, args, i + 1).None?
  {
    assert !IsDashed(args[i + 1]);
  }

  /** A token that raises no error moves the pass on to the state and index `Step` gives: the knobs change only as
      `StepEffect` says, the values gain at most this token, and a skipped parameter token is inert. */
  lemma Advance<V>(conf: seq<ArgConf<V>>, args: seq<string>, i: nat, acc: ParseResult<V>) returns (next: nat, res: ParseResult<V>)
    requires i < |args|
    requires KnobError(conf, args, i).None? || ParseFrom(conf, args, i, acc).Success?
    ensures KnobError(conf, args, i).None?
    ensures i < next <= |args|
    ensures ParseFrom(conf, args, i, acc) == ParseFrom(conf, args, next, res)
    ensures next <= i + 2
    ensures forall u :: i < u < next ==> KnobKey(conf, args[u]).None? && KnobError(conf, args, u).None?
    ensures KnobKey(conf, args[i]).None? ==> res.knobs == acc.knobs
    ensures LookupKnob(conf, args[i]).Some? ==>
              var j := LookupKnob(conf, args[i]).value;
              res.knobs == acc.knobs[conf[j].longName := KnobValue(conf[j], args, i)]
    ensures res.values == acc.values || (res.values == acc.values + [args[i]] && next == i + 1 && !IsDashed(args[i]))
  {
    StepEffect(conf, args, i, acc);
    var p := Step(conf, args, i, acc).value;
    next, res := p.next, p.result;
    forall u | i < u < next
      ensures KnobKey(conf, args[u]).None? && KnobError(conf, args, u).None?
    {
      assert u == i + 1;
      ConsumedTokenIsInert(conf, args, i, acc);
    }
  }

  /** A token that raises an error ends the pass with that error. */
  lemma FailsAt<V>(conf: seq<ArgConf<V>>, args: seq<string>, i: nat, acc: ParseResult<V>)
    requires i < |args| && KnobError(conf, args, i).Some?
    ensures ParseFrom(conf, args, i, acc) == Failure(KnobError(conf, args, i).value)
  {
    StepEffect(conf, args, i, acc);
  }

  /** A token of `args[i..]` naming a configured argument leaves that argument's long name among the final knobs. */
  lemma {:induction false} SetKnobKept<V>(conf: seq<ArgConf<V>>, args: seq<string>, i: nat, acc: ParseResult<V>, t: nat, name: string)
    requires i <= t < |args|
    requires ParseFrom(conf, args, i, acc).Success?
    requires KnobKey(conf, args[t]) == Some(name)
    ensures name in ParseFrom(conf, args, i, acc).value.knobs
    decreases |args| - i
  {
    var next, res := Advance(conf, args, i, acc);
    if t == i {
      assert name in res.knobs;
    } else {
      assert next <= t;
      SetKnobKept(conf, args, next, res, t, name);
    }
  }

  /** A knob absent before token `i` and present at the end was set by some token of `args[i..]` naming it. */
  lemma {:induction false} KnobHasSetter<V>(conf: seq<ArgConf<V>>, args: seq<string>, i: nat, acc: ParseResult<V>, name: string)
    requires i <= |args|
    requires ParseFrom(conf, args, i, acc).Success?
    requires name !in acc.knobs && name in ParseFrom(conf, args, i, acc).value.knobs
    ensures exists t :: i <= t < |args| && KnobKey(conf, args[t]) == Some(name)
    decreases |args| - i
  {
    var next, res := Advance(conf, args, i, acc);
    if KnobKey(conf, args[i]) != Some(name) {
      assert name !in res.knobs;
      KnobHasSetter(conf, args, next, res, name);
      var t :| next <= t < |args| && KnobKey(conf, args[t]) == Some(name);
      assert i <= t;
    }
  }

  /** A knob present before token `i` that no token of `args[i..]` sets keeps its value to the end. */
  lemma {:induction false} UntouchedKnobKept<V>(conf: seq<ArgConf<V>>, args: seq<string>, i: nat, acc: ParseResult<V>, name: string)
    requires i <= |args|
    requires ParseFrom(conf, args, i, acc).Success?
    requires name in acc.knobs
    requires forall t :: i <= t < |args| ==> KnobKey(conf, args[t]) != Some(name)
    ensures name in ParseFrom(conf, args, i, acc).value.knobs
    ensures ParseFrom(conf, args, i, acc).value.knobs[name] == acc.knobs[name]
    decreases |args| - i
  {
    if i < |args| {
      var next, res := Advance(conf, args, i, acc);
      assert KnobKey(conf, args[i]) != Some(name);
      assert name in res.knobs && res.knobs[name] == acc.knobs[name];
      UntouchedKnobKept(conf, args, next, res, name);
    }
  }

  /** The value of a knob is the one stored by the last token of `args[i..]` that sets it. */
  lemma {:induction false} LastSetterWinsFrom<V>(conf: seq<ArgConf<V>>, args: seq<string>, i: nat, acc: ParseResult<V>, t: nat, j: nat)
    requires i <= t < |args|
    requires ParseFrom(conf, args, i, acc).Success?
    requires LookupKnob(conf, args[t]) == Some(j)
    requires forall u :: t < u < |args| ==> KnobKey(conf, args[u]) != Some(conf[j].longName)
    ensures conf[j].longName in ParseFrom(conf, args, i, acc).value.knobs
    ensures ParseFrom(conf, args, i, acc).value.knobs[conf[j].longName] == KnobValue(conf[j], args, t)
    decreases |args| - i
  {
    var next, res := Advance(conf, args, i, acc);
    if t == i {
      UntouchedKnobKept(conf, args, next, res, conf[j].longName);
    } else {
      assert next <= t;
      LastSetterWinsFrom(conf, args, next, res, t, j);
    }
  }

  /** A successful parse has a knob for exactly the long name of the first argument each dash-prefixed token
      names. */
  lemma KnobKeysExact<V>(conf: seq<ArgConf<V>>, args: seq<string>, name: string)
    requires Parse(conf, args).Success?
    ensures name in Parse(conf, args).value.knobs <==> exists t :: 0 <= t < |args| && KnobKey(conf, args[t]) == Some(name)
  {
    if name in Parse(conf, args).value.knobs {
      KnobHasSetter(conf, args, 0, Initial(), name);
    }
    if exists t :: 0 <= t < |args| && KnobKey(conf, args[t]) == Some(name) {
      var t :| 0 <= t < |args| && KnobKey(conf, args[t]) == Some(name);
      SetKnobKept(conf, args, 0, Initial(), t, name);
    }
  }

  /** A knob given more than once keeps the value stored by its last occurrence, by whichever name it was given. */
  lemma LastOccurrenceWins<V>(conf: seq<ArgConf<V>>, args: seq<string>, t: nat, j: nat)
    requires Parse(conf, args).Success?
    requires t < |args| && LookupKnob(conf, args[t]) == Some(j)
    requires forall u :: t < u < |args| ==> KnobKey(conf, args[u]) != Some(conf[j].longName)
    ensures conf[j].longName in Parse(conf, args).value.knobs
    ensures Parse(conf, args).value.knobs[conf[j].longName] == KnobValue(conf[j], args, t)
  {
    LastSetterWinsFrom(conf, args, 0, Initial(), t, j);
  }

  /** Every token that raises an error is reached unless the pass has already failed: dash-prefixed tokens are never
      skipped as parameters, so an erroneous knob in `args[i..]` makes the pass from `i` fail. */
  lemma {:induction false} ErrorReached<V>(conf: seq<ArgConf<V>>, args: seq<string>, i: nat, acc: ParseResult<V>, t: nat)
    requires i <= t < |args|
    requires KnobError(conf, args, t).Some?
    ensures ParseFrom(conf, args, i, acc).Failure?
    decreases |args| - i
  {
    if KnobError(conf, args, i).Some? {
      FailsAt(conf, args, i, acc);
    } else {
      var next, res := Advance(conf, args, i, acc);
      assert next <= t;
      ErrorReached(conf, args, next, res, t);
    }
  }

  /** A failed pass from token `i` was failed by some token of `args[i..]` that raises an error. */
  lemma {:induction false} FailureHasCause<V>(conf: seq<ArgConf<V>>, args: seq<string>, i: nat, acc: ParseResult<V>)
    requires i <= |args|
    requires ParseFrom(conf, args, i, acc).Failure?
    ensures exists t :: i <= t < |args| && KnobError(conf, args, t).Some?
    decreases |args| - i
  {
    if KnobError(conf, args, i).None? {
      var next, res := Advance(conf, args, i, acc);
      FailureHasCause(conf, args, next, res);
      var t :| next <= t < |args| && KnobError(conf, args, t).Some?;
      assert i <= t;
    }
  }

  /** The error of a failed pass is the one the first erroneous token of `args[i..]` raises. */
  lemma {:induction false} FirstKnobErrorFrom<V>(conf: seq<ArgConf<V>>, args: seq<string>, i: nat, acc: ParseResult<V>, t: nat)
    requires i <= t < |args|
    requires KnobError(conf, args, t).Some?
    requires forall u :: i <= u < t ==> KnobError(conf, args, u).None?
    ensures ParseFrom(conf, args, i, acc) == Failure(KnobError(conf, args, t).value)
    decreases |args| - i
  {
    if i == t {
      FailsAt(conf, args, i, acc);
    } else {
      var next, res := Advance(conf, args, i, acc);
      assert next <= t;
      FirstKnobErrorFrom(conf, args, next, res, t);
    }
  }

  /** A parse fails exactly when some token raises an error, and then with the error of the first such token. */
  lemma ParseFailsIffKnobError<V>(conf: seq<ArgConf<V>>, args: seq<string>, t: nat)
    ensures Parse(conf, args).Failure? <==> exists u :: 0 <= u < |args| && KnobError(conf, args, u).Some?
    ensures t < |args| && KnobError(conf, args, t).Some? && (forall u :: 0 <= u < t ==> KnobError(conf, args, u).None?) ==>
              Parse(conf, args) == Failure(KnobError(conf, args, t).value)
  {
    if Parse(conf, args).Failure? {
      FailureHasCause(conf, args, 0, Initial());
    }
    if exists u :: 0 <= u < |args| && KnobError(conf, args, u).Some? {
      var u :| 0 <= u < |args| && KnobError(conf, args, u).Some?;
      ErrorReached(conf, args, 0, Initial(), u);
    }
    if t < |args| && KnobError(conf, args, t).Some? && (forall u :: 0 <= u < t ==> KnobError(conf, args, u).None?) {
      FirstKnobErrorFrom(conf, args, 0, Initial(), t);
    }
  }
}
