/** The console front end: ParseInt, ParseArgs and the mapping of the
    parsed options onto a RecorderConfig. */
module CommandLine {
  import opened Common
  import opened Paths
  import opened Loopback

  // ---------------------------------------------------------------------
  // ParseInt
  // ---------------------------------------------------------------------

  /** The white space std::stoi skips: tab, line feed, vertical tab, form
      feed, carriage return and space. */
  predicate IsSpace(c: char)
  {
    c == ' ' || '\t' <= c <= '\r'
  }

  /** The number of leading white-space characters. */
  function SpaceCount(s: string): (n: nat)
    ensures n <= |s|
    ensures forall j :: 0 <= j < n ==> IsSpace(s[j])
    ensures n < |s| ==> !IsSpace(s[n])
  {
    if s == [] || !IsSpace(s[0]) then 0 else 1 + SpaceCount(s[1..])
  }

  /** The value ParseInt accepts: std::stoi must consume the whole text.
      It skips leading white space, then reads the rest as an integer. */
  function WholeInt(text: string): (v: Option<int>)
    ensures v.Some? ==> IsInt32(v.value) && text != [] && IsDigit(text[|text| - 1])
  {
    var rest := text[SpaceCount(text)..];
    var v := SignedInt(rest);
    assert v.Some? ==> rest[|rest| - 1] == text[|text| - 1];
    v
  }

  /** What std::stoi reads after the white space: an optional sign and one
      or more decimal digits, whose value must fit an int; anything else
      (no digits, trailing characters, a value out of range) is a failure. */
  function SignedInt(rest: string): (v: Option<int>)
    ensures v.Some? ==> IsInt32(v.value) && rest != [] && IsDigit(rest[|rest| - 1])
  {
    var signed := |rest| > 0 && (rest[0] == '+' || rest[0] == '-');
    var digits := if signed then rest[1..] else rest;
    if digits == [] || !AllDigits(digits) then None
    else
      assert digits[|digits| - 1] == rest[|rest| - 1];
      var v := if signed && rest[0] == '-' then -(DigitsValue(digits) as int) else DigitsValue(digits) as int;
      if IsInt32(v) then Some(v) else None
  }

  /** ParseInt: on success the out-parameter holds the value of the text;
      on failure it keeps the value it had. */
  method ParseInt(text: string, value: int) returns (ok: bool, parsed: int)
    ensures ok <==> WholeInt(text).Some?
    ensures ok ==> parsed == WholeInt(text).value && IsInt32(parsed)
    ensures !ok ==> parsed == value
  {
    var n := WholeInt(text);
    if n.None? {
      return false, value;
    }
    return true, n.value;
  }

  /** Decimal text reads back as its value, with or without a minus sign. */
  lemma WholeIntOfDecimal(n: nat)
    ensures n <= INT32_MAX ==> WholeInt(Decimal(n)) == Some(n)
    ensures n <= -INT32_MIN ==> WholeInt("-" + Decimal(n)) == Some(-(n as int))
  {
    DecimalValue(n);
    var d := Decimal(n);
    assert !IsSpace(d[0]) && d[0] != '+' && d[0] != '-' by { assert IsDigit(d[0]); }
    assert SpaceCount(d) == 0;
    var m := "-" + d;
    assert SpaceCount(m) == 0;
    assert m[0..][1..] == d;
  }

  /** Leading white space does not change the value, and trailing
      characters other than digits make the text invalid. */
  lemma WholeIntSpaceAndTail(c: char, text: string)
    ensures IsSpace(c) ==> WholeInt([c] + text) == WholeInt(text)
    ensures !IsDigit(c) ==> WholeInt(text + [c]) == None
  {
    if IsSpace(c) {
      var t := [c] + text;
      assert t[1..] == text;
      assert t[SpaceCount(t)..] == text[SpaceCount(text)..];
    }
  }

  // ---------------------------------------------------------------------
  // ParseArgs
  // ---------------------------------------------------------------------

  datatype CommandLineOptions = CommandLineOptions(
    listDevices: bool,
    deviceIndex: Option<nat>,
    seconds: Option<int>,
    outputPath: Option<string>,
    mixMic: bool,
    showHelp: bool,
    latencyMs: Option<int>,
    watchdogMs: Option<int>,
    failOnGlitch: bool,
    bufferMs: Option<int>,
    logFile: Option<string>,
    quiet: bool)

  function DefaultOptions(): CommandLineOptions
  {
    CommandLineOptions(false, None, None, None, false, false, None, None, false, None, None, false)
  }

  /** The options that stand alone. */
  datatype Switch = Help | ListDevices | MixMic | FailOnGlitch | Quiet

  /** The options followed by a value. */
  datatype Valued = DeviceIndex | Seconds | Out | LatencyMs | WatchdogMs | BufferMs | LogFile

  datatype Keyword = Flag(switch: Switch) | WithValue(valued: Valued)

  /** Why ParseArgs throws: an option without its value, a value that is
      not an integer or is out of bounds, or an unknown argument. */
  datatype ArgError = MissingValue(option: Valued) | InvalidValue(option: Valued) | UnknownArgument(arg: string)

  /** The option an argument spells, if any. */
  function KeywordOf(arg: string): Option<Keyword>
  {
    if arg == "--help" || arg == "-h" then Some(Flag(Help))
    else if arg == "--list-devices" then Some(Flag(ListDevices))
    else if arg == "--device-index" then Some(WithValue(DeviceIndex))
    else if arg == "--seconds" then Some(WithValue(Seconds))
    else if arg == "--out" then Some(WithValue(Out))
    else if arg == "--mix-mic" then Some(Flag(MixMic))
    else if arg == "--latency-ms" then Some(WithValue(LatencyMs))
    else if arg == "--watchdog-ms" then Some(WithValue(WatchdogMs))
    else if arg == "--fail-on-glitch" then Some(Flag(FailOnGlitch))
    else if arg == "--buffer-ms" then Some(WithValue(BufferMs))
    else if arg == "--log-file" then Some(WithValue(LogFile))
    else if arg == "--quiet" then Some(Flag(Quiet))
    else None
  }

  /** The long spelling of each option. */
  function Spelling(k: Keyword): string
  {
    match k
    case Flag(Help) => "--help"
    case Flag(ListDevices) => "--list-devices"
    case Flag(MixMic) => "--mix-mic"
    case Flag(FailOnGlitch) => "--fail-on-glitch"
    case Flag(Quiet) => "--quiet"
    case WithValue(DeviceIndex) => "--device-index"
    case WithValue(Seconds) => "--seconds"
    case WithValue(Out) => "--out"
    case WithValue(LatencyMs) => "--latency-ms"
    case WithValue(WatchdogMs) => "--watchdog-ms"
    case WithValue(BufferMs) => "--buffer-ms"
    case WithValue(LogFile) => "--log-file"
  }

  /** Every option is recognised by its long spelling, and so is only
      -h besides. */
  lemma SpellingRecognised(k: Keyword)
    ensures KeywordOf(Spelling(k)) == Some(k)
    ensures KeywordOf("-h") == Some(Flag(Help))
  {
  }

  /** A flag set before stays set: no option clears one. */
  predicate FlagsKept(before: CommandLineOptions, after: CommandLineOptions)
  {
    && (before.showHelp ==> after.showHelp)
    && (before.listDevices ==> after.listDevices)
    && (before.mixMic ==> after.mixMic)
    && (before.failOnGlitch ==> after.failOnGlitch)
    && (before.quiet ==> after.quiet)
  }

  function SetFlag(opts: CommandLineOptions, f: Switch): (next: CommandLineOptions)
    ensures FlagsKept(opts, next)
  {
    match f
    case Help => opts.(showHelp := true)
    case ListDevices => opts.(listDevices := true)
    case MixMic => opts.(mixMic := true)
    case FailOnGlitch => opts.(failOnGlitch := true)
    case Quiet => opts.(quiet := true)
  }

  /** The smallest value each integer option accepts. */
  function LowerBound(v: Valued): int
  {
    match v
    case DeviceIndex => 0
    case WatchdogMs => 100
    case BufferMs => 200
    case _ => 1
  }

  /** The value of an option: a path is taken as it is; an integer must
      parse and meet the option's bound. */
  function SetValue(opts: CommandLineOptions, v: Valued, text: string): (r: Result<CommandLineOptions, ArgError>)
    ensures r.Ok? ==> FlagsKept(opts, r.value)
    ensures r.Err? ==> r.error == InvalidValue(v)
  {
    match v
    case Out => Ok(opts.(outputPath := Some(text)))
    case LogFile => Ok(opts.(logFile := Some(text)))
    case _ =>
      var n := WholeInt(text);
      if n.None? || n.value < LowerBound(v) then Err(InvalidValue(v))
      else Ok(SetNumber(opts, v, n.value))
  }

  /** An integer option's field set to a value within its bound. */
  function SetNumber(opts: CommandLineOptions, v: Valued, n: int): (next: CommandLineOptions)
    requires n >= LowerBound(v)
    ensures FlagsKept(opts, next)
  {
    match v
    case DeviceIndex => opts.(deviceIndex := Some(n))
    case Seconds => opts.(seconds := Some(n))
    case LatencyMs => opts.(latencyMs := Some(n))
    case WatchdogMs => opts.(watchdogMs := Some(n))
    case BufferMs => opts.(bufferMs := Some(n))
    case Out => opts
    case LogFile => opts
  }

  /** The arguments from left to right: a flag consumes itself, a value
      option itself and the next argument, and a later option overwrites
      an earlier one. */
  function ParseFrom(rest: seq<string>, opts: CommandLineOptions): (r: Result<CommandLineOptions, ArgError>)
    ensures r.Ok? ==> FlagsKept(opts, r.value)
    ensures r.Err? && r.error.UnknownArgument? ==> r.error.arg in rest && KeywordOf(r.error.arg).None?
    ensures r.Err? && r.error.MissingValue? ==>
              rest != [] && KeywordOf(rest[|rest| - 1]) == Some(WithValue(r.error.option))
    decreases |rest|
  {
    if rest == [] then Ok(opts)
    else match KeywordOf(rest[0]) {
      case None => Err(UnknownArgument(rest[0]))
      case Some(Flag(f)) => ParseFrom(rest[1..], SetFlag(opts, f))
      case Some(WithValue(v)) =>
        if |rest| < 2 then Err(MissingValue(v))
        else match SetValue(opts, v, rest[1]) {
          case Err(e) => Err(e)
          case Ok(next) => ParseFrom(rest[2..], next)
        }
    }
  }

  /** ParseFrom one argument at a time, for a known keyword. */
  lemma ParseFromFlag(rest: seq<string>, opts: CommandLineOptions, f: Switch)
    requires rest != [] && KeywordOf(rest[0]) == Some(Flag(f))
    ensures ParseFrom(rest, opts) == ParseFrom(rest[1..], SetFlag(opts, f))
  {
  }

  lemma ParseFromValue(rest: seq<string>, opts: CommandLineOptions, v: Valued)
    requires |rest| >= 2 && KeywordOf(rest[0]) == Some(WithValue(v)) && SetValue(opts, v, rest[1]).Ok?
    ensures ParseFrom(rest, opts) == ParseFrom(rest[2..], SetValue(opts, v, rest[1]).value)
  {
  }

  /** argv[0] is the program and is skipped. */
  function ParseArgsSpec(argv: seq<string>): (r: Result<CommandLineOptions, ArgError>)
    ensures |argv| <= 1 ==> r == Ok(DefaultOptions())
    ensures r.Err? && r.error.UnknownArgument? ==> r.error.arg in argv[1..]
    ensures r.Err? && r.error.MissingValue? ==> KeywordOf(argv[|argv| - 1]) == Some(WithValue(r.error.option))
  {
    if |argv| <= 1 then Ok(DefaultOptions()) else ParseFrom(argv[1..], DefaultOptions())
  }

  /** ParseArgs: walks argv from index 1 with an index it advances past the
      value of each value option. */
  method ParseArgs(argv: seq<string>) returns (r: Result<CommandLineOptions, ArgError>)
    ensures r == ParseArgsSpec(argv)
  {
    var opts := DefaultOptions();
    if |argv| <= 1 {
      return Ok(opts);
    }
    var i := 1;
    while i < |argv|
      invariant 1 <= i <= |argv|
      invariant ParseArgsSpec(argv) == ParseFrom(argv[i..], opts)
    {
      var arg := argv[i];
      assert argv[i..][0] == arg && argv[i..][1..] == argv[i + 1..];
      match KeywordOf(arg) {
        case None =>
          return Err(UnknownArgument(arg));
        case Some(Flag(f)) =>
          opts := SetFlag(opts, f);
        case Some(WithValue(v)) =>
          if i + 1 >= |argv| {
            return Err(MissingValue(v));
          }
          i := i + 1;
          assert argv[i - 1..][1] == argv[i] && argv[i - 1..][2..] == argv[i + 1..];
          var applied := SetValue(opts, v, argv[i]);
          if applied.Err? {
            return Err(applied.error);
          }
          opts := applied.value;
      }
      i := i + 1;
    }
    assert argv[i..] == [];
    r := Ok(opts);
  }

  // ---------------------------------------------------------------------
  // What the parser guarantees
  // ---------------------------------------------------------------------

  /** The bounds every accepted option meets. */
  predicate InBounds(o: CommandLineOptions)
  {
    && (o.deviceIndex.Some? ==> o.deviceIndex.value <= INT32_MAX)
    && (o.seconds.Some? ==> 0 < o.seconds.value <= INT32_MAX)
    && (o.latencyMs.Some? ==> 0 < o.latencyMs.value <= INT32_MAX)
    && (o.watchdogMs.Some? ==> 100 <= o.watchdogMs.value <= INT32_MAX)
    && (o.bufferMs.Some? ==> 200 <= o.bufferMs.value <= INT32_MAX)
  }

  lemma SetFlagInBounds(opts: CommandLineOptions, f: Switch)
    requires InBounds(opts)
    ensures InBounds(SetFlag(opts, f))
  {
  }

  lemma SetValueInBounds(opts: CommandLineOptions, v: Valued, text: string)
    requires InBounds(opts) && SetValue(opts, v, text).Ok?
    ensures InBounds(SetValue(opts, v, text).value)
  {
    if v != Out && v != LogFile {
      var n := WholeInt(text).value;
      SetNumberInBounds(opts, v, n);
    }
  }

  lemma SetNumberInBounds(opts: CommandLineOptions, v: Valued, n: int)
    requires InBounds(opts) && n >= LowerBound(v) && IsInt32(n)
    ensures InBounds(SetNumber(opts, v, n))
  {
  }

  /** Parsing keeps the bounds: whatever it accepts is in bounds. */
  lemma {:induction false} ParsedInBounds(rest: seq<string>, opts: CommandLineOptions)
    requires InBounds(opts) && ParseFrom(rest, opts).Ok?
    ensures InBounds(ParseFrom(rest, opts).value)
    decreases |rest|
  {
    if rest != [] {
      var kw := KeywordOf(rest[0]);
      if kw.Some? && kw.value.Flag? {
        var f := kw.value.switch;
        ParseFromFlag(rest, opts, f);
        SetFlagInBounds(opts, f);
        ParsedInBounds(rest[1..], SetFlag(opts, f));
      } else if kw.Some? {
        var v := kw.value.valued;
        ParseFromValue(rest, opts, v);
        SetValueInBounds(opts, v, rest[1]);
        ParsedInBounds(rest[2..], SetValue(opts, v, rest[1]).value);
      }
    }
  }

  /** A prefix that parses on its own is parsed the same way in front of
      anything: no option reaches past the arguments it is given. */
  lemma {:induction false} ParseAppend(a: seq<string>, b: seq<string>, opts: CommandLineOptions)
    requires ParseFrom(a, opts).Ok?
    ensures ParseFrom(a + b, opts) == ParseFrom(b, ParseFrom(a, opts).value)
    decreases |a|
  {
    if a == [] {
      assert a + b == b;
    } else {
      assert (a + b)[0] == a[0];
      match KeywordOf(a[0]) {
        case Some(Flag(f)) =>
          assert (a + b)[1..] == a[1..] + b;
          ParseAppend(a[1..], b, SetFlag(opts, f));
        case Some(WithValue(v)) =>
          assert (a + b)[1] == a[1] && (a + b)[2..] == a[2..] + b;
          ParseAppend(a[2..], b, SetValue(opts, v, a[1]).value);
      }
    }
  }

  /** A value option at the very end is missing its value. */
  lemma TrailingValueOption(a: seq<string>, arg: string, opts: CommandLineOptions)
    requires ParseFrom(a, opts).Ok? && KeywordOf(arg).Some? && KeywordOf(arg).value.WithValue?
    ensures ParseFrom(a + [arg], opts) == Err(MissingValue(KeywordOf(arg).value.valued))
  {
    ParseAppend(a, [arg], opts);
  }

  /** An unknown argument is refused wherever it stands. */
  lemma UnknownArgumentRefused(a: seq<string>, arg: string, b: seq<string>, opts: CommandLineOptions)
    requires ParseFrom(a, opts).Ok? && KeywordOf(arg).None?
    ensures ParseFrom(a + [arg] + b, opts) == Err(UnknownArgument(arg))
  {
    assert a + [arg] + b == a + ([arg] + b);
    ParseAppend(a, [arg] + b, opts);
  }

  // ---------------------------------------------------------------------
  // Round trip: options rendered as arguments parse back
  // ---------------------------------------------------------------------

  const OPTION_FIELDS: nat := 12

  /** The arguments that set field k of the options, empty when the field
      has its default. */
  function Segment(o: CommandLineOptions, k: nat): seq<string>
    requires k < OPTION_FIELDS
  {
    match k
    case 0 => if o.showHelp then [Spelling(Flag(Help))] else []
    case 1 => if o.listDevices then [Spelling(Flag(ListDevices))] else []
    case 2 => NumberSegment(DeviceIndex, o.deviceIndex)
    case 3 => NumberSegment(Seconds, o.seconds)
    case 4 => if o.outputPath.Some? then [Spelling(WithValue(Out)), o.outputPath.value] else []
    case 5 => if o.mixMic then [Spelling(Flag(MixMic))] else []
    case 6 => NumberSegment(LatencyMs, o.latencyMs)
    case 7 => NumberSegment(WatchdogMs, o.watchdogMs)
    case 8 => if o.failOnGlitch then [Spelling(Flag(FailOnGlitch))] else []
    case 9 => NumberSegment(BufferMs, o.bufferMs)
    case 10 => if o.logFile.Some? then [Spelling(WithValue(LogFile)), o.logFile.value] else []
    case _ => if o.quiet then [Spelling(Flag(Quiet))] else []
  }

  /** An integer option with its value in decimal, for a value that is set
      and not negative. */
  function NumberSegment(v: Valued, n: Option<int>): seq<string>
  {
    if n.Some? && n.value >= 0 then [Spelling(WithValue(v)), Decimal(n.value)] else []
  }

  /** Field k of `p` replaced by that of `o`. */
  function CopyField(p: CommandLineOptions, o: CommandLineOptions, k: nat): CommandLineOptions
    requires k < OPTION_FIELDS
  {
    match k
    case 0 => p.(showHelp := o.showHelp)
    case 1 => p.(listDevices := o.listDevices)
    case 2 => p.(deviceIndex := o.deviceIndex)
    case 3 => p.(seconds := o.seconds)
    case 4 => p.(outputPath := o.outputPath)
    case 5 => p.(mixMic := o.mixMic)
    case 6 => p.(latencyMs := o.latencyMs)
    case 7 => p.(watchdogMs := o.watchdogMs)
    case 8 => p.(failOnGlitch := o.failOnGlitch)
    case 9 => p.(bufferMs := o.bufferMs)
    case 10 => p.(logFile := o.logFile)
    case _ => p.(quiet := o.quiet)
  }

  /** The arguments for fields k and after. */
  function RenderFrom(o: CommandLineOptions, k: nat): seq<string>
    requires k <= OPTION_FIELDS
    decreases OPTION_FIELDS - k
  {
    if k == OPTION_FIELDS then [] else Segment(o, k) + RenderFrom(o, k + 1)
  }

  /** Options as a command line. */
  function Render(o: CommandLineOptions): seq<string>
  {
    RenderFrom(o, 0)
  }

  lemma FlagParses(f: Switch, p: CommandLineOptions)
    ensures ParseFrom([Spelling(Flag(f))], p) == Ok(SetFlag(p, f))
  {
    SpellingRecognised(Flag(f));
    assert [Spelling(Flag(f))][1..] == [];
  }

  lemma ValueParses(v: Valued, text: string, p: CommandLineOptions)
    requires SetValue(p, v, text).Ok?
    ensures ParseFrom([Spelling(WithValue(v)), text], p) == SetValue(p, v, text)
  {
    SpellingRecognised(WithValue(v));
    assert [Spelling(WithValue(v)), text][2..] == [];
  }

  lemma NumberParses(v: Valued, n: nat, p: CommandLineOptions)
    requires v != Out && v != LogFile && LowerBound(v) <= n <= INT32_MAX
    ensures ParseFrom([Spelling(WithValue(v)), Decimal(n)], p) == Ok(SetNumber(p, v, n))
  {
    WholeIntOfDecimal(n);
    ValueParses(v, Decimal(n), p);
  }

  /** An integer option's segment parses to its value, or to nothing when
      the option is unset. */
  lemma NumberSegmentParses(v: Valued, n: Option<int>, p: CommandLineOptions)
    requires v != Out && v != LogFile
    requires n.Some? ==> LowerBound(v) <= n.value <= INT32_MAX
    ensures n.Some? ==> ParseFrom(NumberSegment(v, n), p) == Ok(SetNumber(p, v, n.value))
    ensures n.None? ==> ParseFrom(NumberSegment(v, n), p) == Ok(p)
  {
    if n.Some? {
      NumberParses(v, n.value, p);
    }
  }

  /** Each segment of an in-bounds option set parses to its field, onto
      options that have the default for that field. */
  lemma SegmentParses(o: CommandLineOptions, p: CommandLineOptions, k: nat)
    requires k < OPTION_FIELDS && InBounds(o)
    requires CopyField(p, DefaultOptions(), k) == p
    ensures ParseFrom(Segment(o, k), p) == Ok(CopyField(p, o, k))
  {
    if k < 3 {
      SegmentParsesFrom0(o, p, k);
    } else if k < 6 {
      SegmentParsesFrom3(o, p, k);
    } else if k < 9 {
      SegmentParsesFrom6(o, p, k);
    } else {
      SegmentParsesFrom9(o, p, k);
    }
  }

  /** SegmentParses for help, list-devices and device-index. */
  lemma SegmentParsesFrom0(o: CommandLineOptions, p: CommandLineOptions, k: nat)
    requires k < 3 && InBounds(o)
    requires CopyField(p, DefaultOptions(), k) == p
    ensures ParseFrom(Segment(o, k), p) == Ok(CopyField(p, o, k))
  {
    match k
    case 0 => if o.showHelp { FlagParses(Help, p); }
    case 1 => if o.listDevices { FlagParses(ListDevices, p); }
    case _ => NumberSegmentParses(DeviceIndex, o.deviceIndex, p);
  }

  /** SegmentParses for seconds, out and mix-mic. */
  lemma SegmentParsesFrom3(o: CommandLineOptions, p: CommandLineOptions, k: nat)
    requires 3 <= k < 6 && InBounds(o)
    requires CopyField(p, DefaultOptions(), k) == p
    ensures ParseFrom(Segment(o, k), p) == Ok(CopyField(p, o, k))
  {
    match k
    case 3 => NumberSegmentParses(Seconds, o.seconds, p);
    case 4 => if o.outputPath.Some? { ValueParses(Out, o.outputPath.value, p); }
    case _ => if o.mixMic { FlagParses(MixMic, p); }
  }

  /** SegmentParses for latency, watchdog and fail-on-glitch. */
  lemma SegmentParsesFrom6(o: CommandLineOptions, p: CommandLineOptions, k: nat)
    requires 6 <= k < 9 && InBounds(o)
    requires CopyField(p, DefaultOptions(), k) == p
    ensures ParseFrom(Segment(o, k), p) == Ok(CopyField(p, o, k))
  {
    match k
    case 6 => NumberSegmentParses(LatencyMs, o.latencyMs, p);
    case 7 => NumberSegmentParses(WatchdogMs, o.watchdogMs, p);
    case _ => if o.failOnGlitch { FlagParses(FailOnGlitch, p); }
  }

  /** SegmentParses for buffer-ms, log-file and quiet. */
  lemma SegmentParsesFrom9(o: CommandLineOptions, p: CommandLineOptions, k: nat)
    requires 9 <= k < OPTION_FIELDS && InBounds(o)
    requires CopyField(p, DefaultOptions(), k) == p
    ensures ParseFrom(Segment(o, k), p) == Ok(CopyField(p, o, k))
  {
    match k
    case 9 => NumberSegmentParses(BufferMs, o.bufferMs, p);
    case 10 => if o.logFile.Some? { ValueParses(LogFile, o.logFile.value, p); }
    case _ => if o.quiet { FlagParses(Quiet, p); }
  }

  lemma RenderStep(o: CommandLineOptions, p: CommandLineOptions, k: nat)
    requires k < OPTION_FIELDS && InBounds(o)
    requires CopyField(p, DefaultOptions(), k) == p
    ensures ParseFrom(RenderFrom(o, k), p) == ParseFrom(RenderFrom(o, k + 1), CopyField(p, o, k))
  {
    SegmentParses(o, p, k);
    ParseAppend(Segment(o, k), RenderFrom(o, k + 1), p);
  }

  /** Any in-bounds options, rendered as a command line after the program
      name, parse back to themselves. */
  lemma ParseRender(program: string, o: CommandLineOptions)
    requires InBounds(o)
    ensures ParseArgsSpec([program] + Render(o)) == Ok(o)
  {
    RenderParses(o);
    var argv := [program] + Render(o);
    if |argv| <= 1 {
      assert Render(o) == [];
    } else {
      assert argv[1..] == Render(o);
    }
  }

  /** The options with the fields before k taken from `o` and the others
      at their defaults, in the order Render writes them. */
  function Prefix(o: CommandLineOptions, k: nat): CommandLineOptions
  {
    CommandLineOptions(
      listDevices := if k > 1 then o.listDevices else false,
      deviceIndex := if k > 2 then o.deviceIndex else None,
      seconds := if k > 3 then o.seconds else None,
      outputPath := if k > 4 then o.outputPath else None,
      mixMic := if k > 5 then o.mixMic else false,
      showHelp := if k > 0 then o.showHelp else false,
      latencyMs := if k > 6 then o.latencyMs else None,
      watchdogMs := if k > 7 then o.watchdogMs else None,
      failOnGlitch := if k > 8 then o.failOnGlitch else false,
      bufferMs := if k > 9 then o.bufferMs else None,
      logFile := if k > 10 then o.logFile else None,
      quiet := if k > 11 then o.quiet else false)
  }

  lemma PrefixStep(o: CommandLineOptions, k: nat)
    requires k < OPTION_FIELDS
    ensures CopyField(Prefix(o, k), DefaultOptions(), k) == Prefix(o, k)
    ensures CopyField(Prefix(o, k), o, k) == Prefix(o, k + 1)
  {
  }

  /** The arguments for fields k and after complete the options. */
  lemma {:induction false} RenderFromParses(o: CommandLineOptions, k: nat)
    requires k <= OPTION_FIELDS && InBounds(o)
    ensures ParseFrom(RenderFrom(o, k), Prefix(o, k)) == Ok(o)
    decreases OPTION_FIELDS - k
  {
    if k == OPTION_FIELDS {
      assert Prefix(o, k) == o;
    } else {
      PrefixStep(o, k);
      RenderStep(o, Prefix(o, k), k);
      RenderFromParses(o, k + 1);
    }
  }

  lemma RenderParses(o: CommandLineOptions)
    requires InBounds(o)
    ensures ParseFrom(Render(o), DefaultOptions()) == Ok(o)
  {
    RenderFromParses(o, 0);
    assert Prefix(o, 0) == DefaultOptions();
  }

  // ---------------------------------------------------------------------
  // Options to RecorderConfig
  // ---------------------------------------------------------------------

  /** wmain's configuration: the given output path or the default one, the
      flags, and the given durations over RecorderConfig's defaults.
      `pathOf` is the conversion of the argument text to a path. */
  function ConfigFromOptions(o: CommandLineOptions, defaultOutput: Path, pathOf: string -> Path): (c: RecorderConfig)
    ensures c.outputPath == (if o.outputPath.Some? then pathOf(o.outputPath.value) else defaultOutput)
    ensures c.enableMicMix == o.mixMic && c.failOnGlitch == o.failOnGlitch && c.quietStatusUpdates == o.quiet
    ensures c.maxDurationSec == o.seconds
    ensures c.latencyHintMs == (if o.latencyMs.Some? then o.latencyMs.value else DefaultConfig().latencyHintMs)
    ensures c.watchdogTimeoutMs == (if o.watchdogMs.Some? then o.watchdogMs.value else DefaultConfig().watchdogTimeoutMs)
    ensures c.ringBufferMs == (if o.bufferMs.Some? then o.bufferMs.value else DefaultConfig().ringBufferMs)
    ensures c.segmentDurationSec.None? && c.segmentBytes.None? && c.mp3BitrateKbps.None?
  {
    var c := DefaultConfig().(
      outputPath := if o.outputPath.Some? then pathOf(o.outputPath.value) else defaultOutput,
      enableMicMix := o.mixMic,
      failOnGlitch := o.failOnGlitch,
      quietStatusUpdates := o.quiet);
    var c := if o.seconds.Some? then c.(maxDurationSec := o.seconds) else c;
    var c := if o.latencyMs.Some? then c.(latencyHintMs := o.latencyMs.value) else c;
    var c := if o.watchdogMs.Some? then c.(watchdogTimeoutMs := o.watchdogMs.value) else c;
    if o.bufferMs.Some? then c.(ringBufferMs := o.bufferMs.value) else c
  }

  /** No options leave the defaults, apart from the output path. */
  lemma DefaultsKept(defaultOutput: Path, pathOf: string -> Path)
    ensures ConfigFromOptions(DefaultOptions(), defaultOutput, pathOf) == DefaultConfig().(outputPath := defaultOutput)
  {
  }

  /** A configuration built from an accepted command line records for a
      positive time, if limited, with a positive latency hint, a watchdog of
      at least 100 ms and a ring of at least 200 ms. */
  lemma ParsedConfigInBounds(argv: seq<string>, defaultOutput: Path, pathOf: string -> Path)
    requires ParseArgsSpec(argv).Ok?
    ensures var c := ConfigFromOptions(ParseArgsSpec(argv).value, defaultOutput, pathOf);
      && (c.maxDurationSec.Some? ==> c.maxDurationSec.value > 0)
      && c.latencyHintMs > 0 && c.watchdogTimeoutMs >= 100 && c.ringBufferMs >= 200
  {
    if |argv| > 1 {
      ParsedInBounds(argv[1..], DefaultOptions());
    }
  }
}
