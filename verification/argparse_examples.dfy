/** The repository's test cases, and a few edge cases of the source, as statements about concrete inputs. */
module ArgParseExamples {
  import opened Wrappers
  import opened ArgParse
  import opened ArgParseProperties

  /** An argument with only its two names set: a knob that takes a parameter when one is available. */
  function KnobArg<V>(short: string, long: string): ArgConf<V>
  {
    ArgConf(short, long, None, None, None)
  }

  function WithParam<V>(short: string, long: string, option: ParamOption): ArgConf<V>
  {
    ArgConf(short, long, None, Some(option), None)
  }

  function CommandArg<V>(short: string, long: string): ArgConf<V>
  {
    ArgConf(short, long, Some(Command), None, None)
  }

  /** The five arguments of the mixed test: two knobs with defaults or a required parameter, a counter, two commands. */
  function MixedConf<V>(): seq<ArgConf<V>>
  {
    [ KnobArg("b", "before"),
      WithParam("a", "after", One),
      WithParam("c", "counter", Zero),
      CommandArg("t", "test"),
      CommandArg("r", "run") ]
  }

  /** A lone `--after` sets the knob to `true`. */
  lemma SimplestCase<V>()
    ensures Parse([KnobArg<V>("a", "after")], ["--after"]) == Success(ParseResult(None, map["after" := Flag], []))
  {
    assert Classify("--after") == LongKnob("after");
  }

  /** A knob that requires a parameter fails when given none. */
  lemma MissingParamCase<V>()
    ensures Parse([WithParam<V>("a", "after", One)], ["--after"]) == Failure(MissingParam("after"))
  {
    assert Classify("--after") == LongKnob("after");
  }

  /** The parameter goes through the value parser; with a JSON parser, `"[1,2,3]"` is stored as the list it denotes. */
  lemma ValueParserCase(parse: string -> seq<int>)
    requires parse("[1,2,3]") == [1, 2, 3]
    ensures var conf := [ArgConf("a", "after", None, Some(One), Some(parse))];
            Parse(conf, ["--after", "[1,2,3]"]) == Success(ParseResult(None, map["after" := Parsed([1, 2, 3])], []))
  {
    assert Classify("--after") == LongKnob("after");
    assert NextEligible(["--after", "[1,2,3]"], 0);
  }

  /** The tokens of the mixed test. */
  function MixedArgs(): seq<string>
  {
    ["test", "--after", "1", "-b", "2", "-c", "value1", "value2"]
  }

  /** The result after each step of the mixed test. */
  function MixedAfterCommand<V>(): ParseResult<V>
  {
    ParseResult(Some("test"), map[], [])
  }

  function MixedAfterAfter<V>(): ParseResult<V>
  {
    ParseResult(Some("test"), map["after" := Raw("1")], [])
  }

  function MixedAfterBefore<V>(): ParseResult<V>
  {
    ParseResult(Some("test"), map["after" := Raw("1"), "before" := Raw("2")], [])
  }

  function MixedAfterCounter<V>(): ParseResult<V>
  {
    ParseResult(Some("test"), map["after" := Raw("1"), "before" := Raw("2"), "counter" := Flag], ["value1"])
  }

  lemma MixedCommandStep<V>()
    ensures Parse(MixedConf<V>(), MixedArgs()) == ParseFrom(MixedConf<V>(), MixedArgs(), 1, MixedAfterCommand())
  {
    var conf := MixedConf<V>();
    assert FirstCommand(conf, "test", 3);
    LookupCommandFinds(conf, "test", 3);
    assert Step(conf, MixedArgs(), 0, Initial()) == Success(Progress(MixedAfterCommand(), 1));
  }

  lemma MixedAfterStep<V>()
    ensures ParseFrom(MixedConf<V>(), MixedArgs(), 1, MixedAfterCommand()) ==
            ParseFrom(MixedConf<V>(), MixedArgs(), 3, MixedAfterAfter())
  {
    assert Classify("--after") == LongKnob("after");
    assert FirstKnob(MixedConf<V>(), MixedArgs()[1], 1);
    ParamConsumed(MixedConf<V>(), MixedArgs(), 1, MixedAfterCommand(), 1);
  }

  lemma MixedBeforeStep<V>()
    ensures ParseFrom(MixedConf<V>(), MixedArgs(), 3, MixedAfterAfter()) ==
            ParseFrom(MixedConf<V>(), MixedArgs(), 5, MixedAfterBefore())
  {
    assert Classify("-b") == ShortKnob("b");
    assert FirstKnob(MixedConf<V>(), MixedArgs()[3], 0);
    ParamConsumed(MixedConf<V>(), MixedArgs(), 3, MixedAfterAfter(), 0);
  }

  lemma MixedCounterStep<V>()
    ensures ParseFrom(MixedConf<V>(), MixedArgs(), 5, MixedAfterBefore()) ==
            ParseFrom(MixedConf<V>(), MixedArgs(), 7, MixedAfterCounter())
  {
    var acc := MixedAfterBefore<V>();
    assert Classify("-c") == ShortKnob("c");
    assert FirstKnob(MixedConf<V>(), MixedArgs()[5], 2);
    ZeroParamNextTokenIsValue(MixedConf<V>(), MixedArgs(), 5, acc, 2);
    assert acc.values + [MixedArgs()[6]] == ["value1"];
    assert acc.(knobs := acc.knobs["counter" := Flag], values := acc.values + [MixedArgs()[6]]) == MixedAfterCounter();
  }

  /** The expected result of the mixed test. */
  function MixedResult<V>(): ParseResult<V>
  {
    ParseResult(Some("test"), map["after" := Raw("1"), "before" := Raw("2"), "counter" := Flag], ["value1", "value2"])
  }

  lemma MixedValueStep<V>()
    ensures ParseFrom(MixedConf<V>(), MixedArgs(), 7, MixedAfterCounter()) == Success(MixedResult())
  {
    var acc := MixedAfterCounter<V>();
    PlainTokenIsValue(MixedConf<V>(), MixedArgs(), 7, acc);
    assert acc.values + [MixedArgs()[7]] == ["value1", "value2"];
    assert acc.(values := ["value1", "value2"]) == MixedResult();
  }

  /** Command, a required parameter, an opportunistic knob, a counter, then two values. */
  lemma MixedCase<V>()
    ensures Parse(MixedConf<V>(), MixedArgs()) ==
            Success(ParseResult(Some("test"), map["after" := Raw("1"), "before" := Raw("2"), "counter" := Flag], ["value1", "value2"]))
  {
    MixedCommandStep<V>();
    MixedAfterStep<V>();
    MixedBeforeStep<V>();
    MixedCounterStep<V>();
    MixedValueStep<V>();
  }

  /** A dash-prefixed token naming a command fails. */
  lemma KnobAsCommandCase<V>()
    ensures Parse([CommandArg<V>("a", "after")], ["--after"]) == Failure(KnobConfiguredAsCommand)
  {
    assert Classify("--after") == LongKnob("after");
  }

  /** The last occurrence of a repeated knob wins, whichever name it is given by. */
  lemma RepeatedKnobCase<V>()
    ensures Parse([KnobArg<V>("a", "after")], ["--after", "1", "-a", "2"]) ==
            Success(ParseResult(None, map["after" := Raw("2")], []))
  {
    var conf := [KnobArg<V>("a", "after")];
    var args := ["--after", "1", "-a", "2"];
    assert Classify("--after") == LongKnob("after");
    assert FirstKnob(conf, args[0], 0);
    ParamConsumed(conf, args, 0, Initial(), 0);
    var r1 := ParseResult(None, map["after" := Raw("1")], []);
    assert Classify("-a") == ShortKnob("a");
    assert FirstKnob(conf, args[2], 0);
    ParamConsumed(conf, args, 2, r1, 0);
    assert r1.knobs["after" := Raw("2")] == map["after" := Raw("2")];
  }

  /** An empty token is never a parameter; it is a value, even right after a knob. */
  lemma EmptyTokenCase<V>()
    ensures Parse([KnobArg<V>("a", "after")], ["--after", ""]) == Success(ParseResult(None, map["after" := Flag], [""]))
    ensures Parse([WithParam<V>("a", "after", One)], ["--after", ""]) == Failure(MissingParam("after"))
  {
    var args := ["--after", ""];
    assert Classify("--after") == LongKnob("after");
    var conf := [KnobArg<V>("a", "after")];
    assert FirstKnob(conf, args[0], 0);
    PresenceOnlyKnob(conf, args, 0, Initial(), 0);
    var r1 := ParseResult(None, map["after" := Flag], []);
    PlainTokenIsValue(conf, args, 1, r1);
    assert r1.values + [args[1]] == [""];
    var strict := [WithParam<V>("a", "after", One)];
    assert FirstKnob(strict, args[0], 0);
    MissingParamFails(strict, args, 0, Initial(), 0);
  }

  /** Tokens that name no knob, or name a command too late. */
  function IgnoredArgs(): seq<string>
  {
    ["-x", "--a", "run", "test"]
  }

  /** No configured argument of the mixed test has the short name `x` or the long name `a`. */
  lemma UnknownNames<V>()
    ensures forall k :: 0 <= k < |MixedConf<V>()| ==> !NamesKnob(MixedConf<V>()[k], IgnoredArgs()[0])
    ensures forall k :: 0 <= k < |MixedConf<V>()| ==> !NamesKnob(MixedConf<V>()[k], IgnoredArgs()[1])
  {
    var conf := MixedConf<V>();
    assert Classify("-x") == ShortKnob("x");
    assert Classify("--a") == LongKnob("a");
    assert conf[0].shortName == "b" && conf[1].shortName == "a" && conf[2].shortName == "c";
    assert conf[3].shortName == "t" && conf[4].shortName == "r";
  }

  lemma UnknownShortStep<V>()
    ensures Parse(MixedConf<V>(), IgnoredArgs()) == ParseFrom(MixedConf<V>(), IgnoredArgs(), 1, Initial())
  {
    UnknownNames<V>();
    UnknownKnobDropped(MixedConf<V>(), IgnoredArgs(), 0, Initial());
  }

  lemma UnknownLongStep<V>()
    ensures ParseFrom(MixedConf<V>(), IgnoredArgs(), 1, Initial()) == ParseFrom(MixedConf<V>(), IgnoredArgs(), 2, Initial())
  {
    UnknownNames<V>();
    UnknownKnobDropped(MixedConf<V>(), IgnoredArgs(), 1, Initial());
  }

  lemma IgnoredValuesStep<V>()
    ensures ParseFrom(MixedConf<V>(), IgnoredArgs(), 2, Initial()) == Success(ParseResult(None, map[], ["run", "test"]))
  {
    var conf := MixedConf<V>();
    var args := IgnoredArgs();
    var r := Initial<V>();
    PlainTokenIsValue(conf, args, 2, r);
    assert r.values + [args[2]] == ["run"];
    PlainTokenIsValue(conf, args, 3, r.(values := ["run"]));
    assert ["run"] + [args[3]] == ["run", "test"];
  }

  /** Unknown knobs vanish, `--a` does not fall back to the short name `a`, and a command name after the first token is a value. */
  lemma IgnoredTokensCase<V>()
    ensures Parse(MixedConf<V>(), IgnoredArgs()) == Success(ParseResult(None, map[], ["run", "test"]))
  {
    UnknownShortStep<V>();
    UnknownLongStep<V>();
    IgnoredValuesStep<V>();
  }
}
