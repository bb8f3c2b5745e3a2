/** The command-line layer: `Exec` dispatches on the first argument, runs
    the board operation and renders the reply envelope; any error becomes
    the failure envelope. Envelopes are records here, not JSON text. */
module BoardCtl {
  import opened Results
  import opened Board
  import opened GoFormat

  /** What `Exec` hands back for printing. `CommandOk` is the literal
      `{"result":"ok"}` of a successful `cmd`. */
  datatype Envelope =
    | CommandOk
    | EnvReport(result: string, temperature: Tenths, humidity: Tenths, brightness: Tenths)
    | Failure(result: string, message: string)

  /** The collaborators `Exec` relies on: `strconv.Atoi` and the runner that
      performs commands on the board. */
  datatype Host = Host(atoi: string -> Result<int, string>, run: Runner)

  /** The process-level outcome: the text to print and the error, or a
      runtime panic that escapes `Exec`. */
  datatype Outcome = Printed(reply: Envelope, err: Option<string>) | Crashed

  datatype CliRun = CliRun(actions: seq<Action>, outcome: Outcome)

  /** `flag.Arg(i)`: the i-th positional argument, or "" when missing. */
  function Arg(args: seq<string>, i: nat): string
  {
    if i < |args| then args[i] else ""
  }

  /** `errToJson`: the failure envelope carrying the error's message. */
  function ErrToJson(message: string): (e: Envelope)
    ensures e.Failure? && e.result == "ng" && e.message == message
  {
    Failure("ng", message)
  }

  /** `invokeEnv`: the reading's three fields copied into an "ok" envelope. */
  function InvokeEnv(run: Runner): (r: Run<Envelope>)
    ensures r.actions == GetEnv(run).actions
    ensures r.result.Ok? <==> GetEnv(run).result.Ok?
    ensures r.result.Ok? ==>
      var env := GetEnv(run).result.value;
      r.result.value == EnvReport("ok", env.temperature, env.humidity, env.brightness)
    ensures r.result.Err? ==> r.result.error == GetEnv(run).result.error
  {
    var g := GetEnv(run);
    match g.result
    case Err(f) => Run(g.actions, Err(f))
    case Ok(env) => Run(g.actions, Ok(EnvReport("ok", env.temperature, env.humidity, env.brightness)))
  }

  /** `invokeCmd`: the interval is parsed before any board work, so a bad
      interval fails without any command being run. */
  function InvokeCmd(host: Host, intervalText: string, pattern: string): (r: Run<Envelope>)
    ensures host.atoi(intervalText).Err? ==>
      r.actions == [] && r.result == Err(Error(host.atoi(intervalText).error))
    ensures host.atoi(intervalText).Ok? ==>
      var data := IrData(pattern, host.atoi(intervalText).value);
      && r.actions == [Execute(IrCommand(data))]
      && (r.result.Ok? <==> host.run(IrCommand(data)).Ok?)
      && (r.result.Err? ==> r.result.error == ExecFailure("ir_send", host.run(IrCommand(data)).error))
    ensures r.result.Ok? ==> r.result.value == CommandOk
  {
    match host.atoi(intervalText)
    case Err(e) => Run([], Err(Error(e)))
    case Ok(interval) =>
      var s := SendIr(host.run, IrData(pattern, interval));
      match s.result
      case Err(f) => Run(s.actions, Err(f))
      case Ok(_) => Run(s.actions, Ok(CommandOk))
  }

  /** The tail of `Exec`: an error replaces the reply by the failure
      envelope and is still returned; a panic ends the process. */
  function Conclude(res: Result<Envelope, Fault>): (o: Outcome)
    ensures o.Crashed? <==> res == Err(Panic)
    ensures res.Ok? ==> o == Printed(res.value, None)
    ensures res.Err? && res.error.Error? ==>
      o == Printed(Failure("ng", res.error.message), Some(res.error.message))
  {
    match res
    case Ok(reply) => Printed(reply, None)
    case Err(Error(m)) => Printed(ErrToJson(m), Some(m))
    case Err(Panic) => Crashed
  }

  /** `Exec`: dispatch on the first positional argument. Its own errors
      go through `fmt.Errorf` with the message as the format: "Command
      required" holds no `%` and is printed as is, while an unknown command
      is rendered as part of the format string. */
  function Exec(args: seq<string>, host: Host): (r: CliRun)
    ensures r.outcome.Printed? && r.outcome.err.Some? ==>
      r.outcome.reply == Failure("ng", r.outcome.err.value)
    ensures r.outcome.Printed? && r.outcome.err.None? ==>
      r.outcome.reply.CommandOk? || (r.outcome.reply.EnvReport? && r.outcome.reply.result == "ok")
    ensures Arg(args, 0) == "" ==>
      r == CliRun([], Printed(Failure("ng", "Command required"), Some("Command required")))
    ensures Arg(args, 0) !in {"env", "cmd", ""} ==>
      var m := "Unknown command: " + Errorf(Arg(args, 0));
      r == CliRun([], Printed(Failure("ng", m), Some(m)))
    ensures Arg(args, 0) == "env" ==>
      r == CliRun(GetEnv(host.run).actions, Conclude(InvokeEnv(host.run).result))
    ensures Arg(args, 0) == "cmd" ==>
      var c := InvokeCmd(host, Arg(args, 1), Arg(args, 2));
      r == CliRun(c.actions, Conclude(c.result))
  {
    var command := Arg(args, 0);
    PlainPrefix("Unknown command: ", command);
    var res :=
      if command == "env" then InvokeEnv(host.run)
      else if command == "cmd" then InvokeCmd(host, Arg(args, 1), Arg(args, 2))
      else if command == "" then Run([], Err(Error("Command required")))
      else Run([], Err(Error(Errorf("Unknown command: " + command))));
    CliRun(res.actions, Conclude(res.result))
  }

  /** `cmd` with an interval that does not parse reports the parse error in
      the failure envelope, and no command reaches the board: no lock is
      taken and no port is opened. */
  lemma CmdRejectsIntervalFirst(args: seq<string>, host: Host)
    requires Arg(args, 0) == "cmd"
    requires host.atoi(Arg(args, 1)).Err?
    ensures var m := host.atoi(Arg(args, 1)).error;
      Exec(args, host) == CliRun([], Printed(Failure("ng", m), Some(m)))
  {
  }

  /** A successful `cmd` sends exactly one `ir_send` and prints `{"result":"ok"}`. */
  lemma CmdSuccess(args: seq<string>, host: Host)
    requires Arg(args, 0) == "cmd"
    requires host.atoi(Arg(args, 1)).Ok?
    requires host.run(IrCommand(IrData(Arg(args, 2), host.atoi(Arg(args, 1)).value))).Ok?
    ensures Exec(args, host) == CliRun(
      [Execute(IrCommand(IrData(Arg(args, 2), host.atoi(Arg(args, 1)).value)))],
      Printed(CommandOk, None))
  {
  }

  /** A successful `env` prints the reading's fields unchanged under "ok". */
  lemma EnvSuccess(args: seq<string>, host: Host, env: Env)
    requires Arg(args, 0) == "env"
    requires GetEnv(host.run).result == Ok(env)
    ensures Exec(args, host).outcome ==
      Printed(EnvReport("ok", env.temperature, env.humidity, env.brightness), None)
  {
  }

  /** An unknown command without `%` is reported verbatim. */
  lemma UnknownPlainCommand(args: seq<string>, host: Host)
    requires Arg(args, 0) !in {"env", "cmd", ""} && '%' !in Arg(args, 0)
    ensures Exec(args, host).outcome.err == Some("Unknown command: " + Arg(args, 0))
  {
    PlainText(Arg(args, 0));
  }
}
