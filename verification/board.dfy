/** The board facade: `GetEnv` and `SendIr` over an abstract command
    runner, and the plain records they exchange. */
module Board {
  import opened Results
  import opened Text
  import opened Decimal
  import opened Fields
  import opened Framing
  import opened Executor

  /** A decimal with one fractional digit: `Tenths(n)` stands for n / 10. */
  datatype Tenths = Tenths(count: nat)

  /** One environment reading. */
  datatype Env = Env(temperature: Tenths, humidity: Tenths, brightness: Tenths)

  /** One infrared transmission request. */
  datatype IrData = IrData(pattern: string, interval: int)

  /** What running one command returns: the reply body or the failure. */
  type Runner = string -> Result<string, Fault>

  /** The steps a facade operation takes, in order. */
  datatype Action = Execute(command: string) | Parse(field: Field)

  datatype Run<T> = Run(actions: seq<Action>, result: Result<T, Fault>)

  /** The three fields of an environment reading, with the pattern label,
      the name used in "Failed to get" (spelled as `GetEnv` spells it) and
      the short name used in "Failed to parse". */
  datatype Field = Temperature | Humidity | Brightness {
    function Tag(): string
    {
      match this
      case Temperature => TemperatureLabel
      case Humidity => HumidityLabel
      case Brightness => BrightnessLabel
    }

    function Name(): string
    {
      match this
      case Temperature => "Tempreture"
      case Humidity => "Humidity"
      case Brightness => "Brightness"
    }

    /** The command whose reply carries the field. */
    function Source(): string
    {
      if this == Brightness then "bri_read" else "temp_read"
    }

    function Short(): string
    {
      match this
      case Temperature => "temp"
      case Humidity => "hum"
      case Brightness => "bri"
    }
  }

  /** Every step of a successful `GetEnv`, in the order `GetEnv` takes them. */
  const EnvActions := [
    Execute("temp_read"), Parse(Temperature), Parse(Humidity),
    Execute("bri_read"), Parse(Brightness)]

  /** `fmt.Errorf("Failed to execute <command>: %s", err)`. */
  function ExecFailure(command: string, f: Fault): Fault
  {
    Wrap("Failed to execute " + command + ": ", f)
  }

  /** `fmt.Errorf("Failed to parse <short name>: %s", err)`. */
  function ParseFailure(field: Field, message: string): Fault
  {
    Error("Failed to parse " + field.Short() + ": " + message)
  }

  /** `parseResult` with the field's pattern and name. */
  function Extract(text: string, field: Field): Result<nat, string>
  {
    ParseField(text, field.Tag(), field.Name())
  }

  /** The runner that performs each command as a full `execCommand`
      exchange with the device behaviour `devices` chooses for it. */
  function DeviceRunner(devices: string -> Device): Runner
  {
    cmd => ExecCommand(devices(cmd), cmd).result
  }

  /** A field parser over a command's reply. */
  type Parser = (string, Field) -> Result<nat, string>

  /** `Board.GetEnv` with the field parser as a parameter: read temperature
      and humidity from `temp_read`, then brightness from `bri_read`,
      stopping at the first failure. The steps taken are always a prefix of
      `EnvActions`. */
  function GetEnvBy(run: Runner, parse: Parser): (r: Run<Env>)
    ensures 1 <= |r.actions| <= |EnvActions| && r.actions == EnvActions[..|r.actions|]
    ensures r.result.Ok? ==> r.actions == EnvActions
    ensures |r.actions| < |EnvActions| ==> r.result.Err?
  {
    match run("temp_read")
    case Err(f) => Run(EnvActions[..1], Err(ExecFailure("temp_read", f)))
    case Ok(tempHum) =>
      match parse(tempHum, Temperature)
      case Err(m) => Run(EnvActions[..2], Err(ParseFailure(Temperature, m)))
      case Ok(temp) =>
        match parse(tempHum, Humidity)
        case Err(m) => Run(EnvActions[..3], Err(ParseFailure(Humidity, m)))
        case Ok(hum) =>
          match run("bri_read")
          case Err(f) => Run(EnvActions[..4], Err(ExecFailure("bri_read", f)))
          case Ok(briRes) =>
            match parse(briRes, Brightness)
            case Err(m) => Run(EnvActions, Err(ParseFailure(Brightness, m)))
            case Ok(bri) => Run(EnvActions, Ok(Env(Tenths(temp), Tenths(hum), Tenths(10 * bri))))
  }

  /** `Board.GetEnv`, whose field parser is `parseResult`. */
  function GetEnv(run: Runner): Run<Env>
  {
    GetEnvBy(run, Extract)
  }

  /** A reading is produced only when both commands succeed and all three
      fields parse; temperature and humidity keep the raw tenths, brightness
      is a whole number. */
  lemma GetEnvReading(run: Runner, parse: Parser)
    ensures GetEnvBy(run, parse).result.Ok? <==>
      && run("temp_read").Ok? && run("bri_read").Ok?
      && parse(run("temp_read").value, Temperature).Ok?
      && parse(run("temp_read").value, Humidity).Ok?
      && parse(run("bri_read").value, Brightness).Ok?
    ensures GetEnvBy(run, parse).result.Ok? ==>
      GetEnvBy(run, parse).result.value == Env(
        Tenths(parse(run("temp_read").value, Temperature).value),
        Tenths(parse(run("temp_read").value, Humidity).value),
        Tenths(10 * parse(run("bri_read").value, Brightness).value))
  {
  }

  /** Whether step `a` succeeds under `run`: a command whose run returns a
      reply, or a field found in the reply of the command that carries it. */
  predicate StepOk(run: Runner, parse: Parser, a: Action)
  {
    match a
    case Execute(c) => run(c).Ok?
    case Parse(f) => run(f.Source()).Ok? && parse(run(f.Source()).value, f).Ok?
  }

  /** The error a failing step reports: a failed command with its name, a
      field that did not parse with its short name and the parse error. */
  function Blame(run: Runner, parse: Parser, a: Action): Fault
    requires !StepOk(run, parse, a)
  {
    match a
    case Execute(c) => ExecFailure(c, run(c).error)
    case Parse(f) =>
      match run(f.Source())
      case Err(g) => ExecFailure(f.Source(), g)
      case Ok(reply) => ParseFailure(f, parse(reply, f).error)
  }

  /** `GetEnv` stops at the first failing step: every step before the last
      succeeded, the last one failed exactly when the result is an error,
      and the error is the one that step reports. */
  lemma GetEnvFailure(run: Runner, parse: Parser)
    ensures var r := GetEnvBy(run, parse);
      forall j :: 0 <= j < |r.actions| - 1 ==> StepOk(run, parse, r.actions[j])
    ensures var r := GetEnvBy(run, parse);
      r.result.Err? <==> !StepOk(run, parse, r.actions[|r.actions| - 1])
    ensures var r := GetEnvBy(run, parse);
      r.result.Err? ==> r.result.error == Blame(run, parse, r.actions[|r.actions| - 1])
  {
    var r := GetEnvBy(run, parse);
    match run("temp_read")
    case Err(_) =>
      assert r.actions == [Execute("temp_read")];
    case Ok(tempHum) =>
      match parse(tempHum, Temperature)
      case Err(_) =>
        assert r.actions == [Execute("temp_read"), Parse(Temperature)];
      case Ok(_) =>
        match parse(tempHum, Humidity)
        case Err(_) =>
          assert r.actions == [Execute("temp_read"), Parse(Temperature), Parse(Humidity)];
        case Ok(_) =>
          BrightnessStageFailure(run, parse);
  }

  /** `GetEnvFailure` once `temp_read` has given both fields. */
  lemma BrightnessStageFailure(run: Runner, parse: Parser)
    requires StepOk(run, parse, Execute("temp_read"))
    requires StepOk(run, parse, Parse(Temperature)) && StepOk(run, parse, Parse(Humidity))
    ensures var r := GetEnvBy(run, parse);
      forall j :: 0 <= j < |r.actions| - 1 ==> StepOk(run, parse, r.actions[j])
    ensures var r := GetEnvBy(run, parse);
      r.result.Err? <==> !StepOk(run, parse, r.actions[|r.actions| - 1])
    ensures var r := GetEnvBy(run, parse);
      r.result.Err? ==> r.result.error == Blame(run, parse, r.actions[|r.actions| - 1])
  {
    var r := GetEnvBy(run, parse);
    match run("bri_read")
    case Err(_) =>
      assert r.actions == EnvActions[..4];
    case Ok(_) =>
      assert r.actions == EnvActions;
  }

  /** A `temp_read` reply without `HUM: ` followed by a digit fails with the
      humidity error, and `bri_read` is never sent. */
  lemma MissingHumidity(run: Runner)
    requires run("temp_read").Ok?
    requires Extract(run("temp_read").value, Temperature).Ok?
    requires !HasMatch(run("temp_read").value, HumidityLabel)
    ensures Execute("bri_read") !in GetEnv(run).actions
    ensures GetEnv(run).result == Err(ParseFailure(Humidity, "Failed to get " + Humidity.Name()))
  {
    ParseFieldMeaning(run("temp_read").value, HumidityLabel, Humidity.Name());
    assert EnvActions[..3] == [Execute("temp_read"), Parse(Temperature), Parse(Humidity)];
  }

  /** The text of the `ir_send` command: `fmt.Sprintf("ir_send %d\n%s", ...)`. */
  function IrCommand(data: IrData): string
  {
    "ir_send " + FormatInt(data.interval) + "\n" + data.pattern
  }

  /** The command line written for a newline-free pattern has two lines,
      from which the interval and the pattern can be read back. */
  lemma {:induction false} IrCommandLines(data: IrData)
    requires '\n' !in data.pattern
    ensures Split(IrCommand(data) + "\n") == ["ir_send " + FormatInt(data.interval), data.pattern, ""]
  {
    var s := FormatInt(data.interval);
    var head := "ir_send " + s;
    assert forall k :: 0 <= k < |s| ==> s[k] == '-' || IsDigit(s[k]) by {
      forall k | 0 <= k < |s| ensures s[k] == '-' || IsDigit(s[k]) {
        if data.interval < 0 && k > 0 {
          assert s[k] == s[1..][k - 1];
        }
      }
    }
    assert '\n' !in head by {
      forall k | 0 <= k < |head| ensures head[k] != '\n' {
        if k >= 8 {
          assert head[k] == s[k - 8];
        }
      }
    }
    assert IrCommand(data) + "\n" == head + "\n" + (data.pattern + "\n" + "");
    SplitConcat(head, data.pattern + "\n" + "");
    SplitConcat(data.pattern, "");
    SplitSingleLine(head);
    SplitSingleLine(data.pattern);
    SplitSingleLine("");
  }

  /** `Board.SendIr`: one `ir_send` exchange; only its success matters. */
  function SendIr(run: Runner, data: IrData): (r: Run<()>)
    ensures r.actions == [Execute(IrCommand(data))]
    ensures r.result.Ok? <==> run(IrCommand(data)).Ok?
    ensures r.result.Err? ==> r.result.error == ExecFailure("ir_send", run(IrCommand(data)).error)
  {
    match run(IrCommand(data))
    case Err(f) => Run([Execute(IrCommand(data))], Err(ExecFailure("ir_send", f)))
    case Ok(_) => Run([Execute(IrCommand(data))], Ok(()))
  }

  /** A reply delivered in one read, echo line first and prompt last, is
      framed at once and its body is what lies between the two. */
  lemma SingleChunkReply(d: Device, cmd: string, echo: string, body: string)
    requires d.lock.Granted? && d.port.Opened? && d.write.Written?
    requires '\n' !in echo
    requires d.trace == [Chunk(echo + "\n" + body + "\n" + Prompt)]
    ensures ExecCommand(d, cmd).result == Ok(body)
  {
    var text := echo + "\n" + body + "\n" + Prompt;
    assert d.trace[..1] == d.trace;
    assert Received(d.trace[1..]) == "";
    assert Received(d.trace) == text;
    assert text[|text| - |Prompt|..] == Prompt;
    assert CompletesAt(d.trace, 0);
    assert FirstCompletion(d.trace, 0);
    BodyBetween(echo, body, Prompt);
  }

  /** The bytes an `ir_send` exchange writes, once the port is open. */
  lemma SendIrWrites(d: Device, data: IrData)
    requires d.lock.Granted? && d.port.Opened?
    ensures Writes(ExecCommand(d, IrCommand(data)).events)
         == ["ir_send " + FormatInt(data.interval) + "\n" + data.pattern + "\n"]
  {
    ExecCommandEvents(d, IrCommand(data));
  }

  /** `%d` of 500. */
  lemma FiveHundred()
    ensures FormatInt(500) == "500"
  {
  }

  /** The line `SendIr(500, "1010")` writes: `ir_send 500\n1010\n`. */
  lemma SendIrExampleWrites()
    ensures IrCommand(IrData("1010", 500)) + "\n" == "ir_send 500\n1010\n"
  {
    FiveHundred();
    assert "ir_send " + "500" + "\n" + "1010" + "\n" == "ir_send 500\n1010\n";
  }

  /** `SendIr(500, "1010")` succeeds when the prompt-terminated reply arrives. */
  lemma SendIrExample(d: Device)
    requires d.lock.Granted? && d.port.Opened? && d.write.Written?
    requires d.trace == [Chunk("ir_send 500" + "\n" + "1010" + "\n" + Prompt)]
    ensures SendIr(DeviceRunner(_ => d), IrData("1010", 500)).result == Ok(())
  {
    SingleChunkReply(d, IrCommand(IrData("1010", 500)), "ir_send 500", "1010");
  }

  /** No position of `before` can start a match when the label's first
      character does not occur in it. */
  lemma NoMatchInside(before: string, tag: string, rest: string)
    requires |tag| >= 1 && tag[0] !in before
    ensures forall j :: 0 <= j < |before| ==> !MatchAt(before + rest, tag, j)
  {
  }

  /** The board that answers each command with `echo`, the given body and
      the prompt, in one read, with every resource available. */
  function EchoingDevice(body: string): Device
  {
    Device(Granted, Opened, Written, [Chunk(body)], None, None)
  }

  /** The board of the documented example: `temp_read` and `bri_read`
      each answered in one read by the echo, the data line(s) and the prompt. */
  function ExampleDevices(cmd: string): Device
  {
    if cmd == "temp_read" then EchoingDevice("temp_read" + "\n" + "TMP: 235\nHUM: 412" + "\n" + Prompt)
    else EchoingDevice("bri_read" + "\n" + "BRI: 77" + "\n" + Prompt)
  }

  /** The reply bodies the example board yields. */
  lemma ExampleReplies()
    ensures DeviceRunner(ExampleDevices)("temp_read") == Ok("TMP: 235\nHUM: 412")
    ensures DeviceRunner(ExampleDevices)("bri_read") == Ok("BRI: 77")
  {
    TempReadReply();
    BriReadReply();
  }

  lemma TempReadReply()
    ensures ExecCommand(ExampleDevices("temp_read"), "temp_read").result == Ok("TMP: 235\nHUM: 412")
  {
    SingleChunkReply(ExampleDevices("temp_read"), "temp_read", "temp_read", "TMP: 235\nHUM: 412");
  }

  lemma BriReadReply()
    ensures ExecCommand(ExampleDevices("bri_read"), "bri_read").result == Ok("BRI: 77")
  {
    assert "bri_read" != "temp_read";
    SingleChunkReply(ExampleDevices("bri_read"), "bri_read", "bri_read", "BRI: 77");
  }

  /** The readings of the documented replies `temp_read\nTMP: 235\nHUM:
      412\nRasPi-ExtBoard> ` and `bri_read\nBRI: 77\nRasPi-ExtBoard> `:
      23.5 degrees, 41.2 percent and brightness 77. */
  lemma GetEnvExample()
    ensures GetEnv(DeviceRunner(ExampleDevices)).result == Ok(Env(Tenths(235), Tenths(412), Tenths(770)))
  {
    ExampleReplies();
    TemperatureOf235();
    HumidityOf412();
    BrightnessOf77();
    GetEnvReading(DeviceRunner(ExampleDevices), Extract);
  }

  lemma TemperatureOf235()
    ensures Extract("TMP: 235\nHUM: 412", Temperature) == Ok(235)
  {
    assert NatToDecimal(235) == "235" by {
      assert NatToDecimal(2) == "2";
      assert NatToDecimal(23) == NatToDecimal(2) + [DigitChar(3)];
    }
    assert "TMP: 235\nHUM: 412" == "" + TemperatureLabel + NatToDecimal(235) + "\nHUM: 412";
    FieldRoundTrip("", TemperatureLabel, 235, "\nHUM: 412", Temperature.Name());
  }

  lemma HumidityOf412()
    ensures Extract("TMP: 235\nHUM: 412", Humidity) == Ok(412)
  {
    assert NatToDecimal(412) == "412" by {
      assert NatToDecimal(4) == "4";
      assert NatToDecimal(41) == NatToDecimal(4) + [DigitChar(1)];
    }
    var before := "TMP: 235\n";
    assert "TMP: 235\nHUM: 412" == before + HumidityLabel + NatToDecimal(412) + "";
    NoMatchInside(before, HumidityLabel, HumidityLabel + NatToDecimal(412) + "");
    assert before + (HumidityLabel + NatToDecimal(412) + "") == before + HumidityLabel + NatToDecimal(412) + "";
    FieldRoundTrip(before, HumidityLabel, 412, "", Humidity.Name());
  }

  lemma BrightnessOf77()
    ensures Extract("BRI: 77", Brightness) == Ok(77)
  {
    assert NatToDecimal(77) == "77" by {
      assert NatToDecimal(7) == "7";
    }
    assert "BRI: 77" == "" + BrightnessLabel + NatToDecimal(77) + "";
    FieldRoundTrip("", BrightnessLabel, 77, "", Brightness.Name());
  }
}
