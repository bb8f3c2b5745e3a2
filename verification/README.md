# mosho-boardctl command executor, modelled in Dafny

The board controller sends line-oriented commands to an extension board
over a serial port. Each exchange holds the lock file `/var/tmp/boardctl.lock`.
The command is written followed by a newline. The reply is read until the
accumulated text ends with the prompt `RasPi-ExtBoard> `, and the wait is
bounded by a 5-second deadline. The body of the reply is what lies between
the first line (the board's echo of the command) and the last line (the
prompt). On top of this executor sit two layers:

- the board facade: `GetEnv` runs `temp_read` and `bri_read` and extracts
  `TMP: `, `HUM: ` and `BRI: ` followed by digits; `SendIr` runs
  `ir_send <interval>\n<pattern>`;
- the command-line layer `Exec`, which dispatches `env` and `cmd` and wraps
  every error in the `{"result":"ng","message":…}` envelope.

The project has one module per concern:

| file | module | what it holds |
|---|---|---|
| results.dfy | Results | `Option`, `Result`, and `Fault` (an error message or a runtime panic) |
| text.dfy | Text | `strings.Split` / `strings.Join` on `"\n"` and their round trips |
| decimal.dfy | Decimal | decimal digit strings, `%d` rendering and its round trip |
| framing.dfy | Framing | the read-until-prompt worker loop over a trace of reads, and body extraction |
| fields.dfy | Fields | `parseResult` for the `LABEL: ([0-9]+)` patterns |
| executor.dfy | Executor | `execCommand` and `unlock`, as a log of resource events plus a result |
| board.dfy | Board | `GetEnv`, `SendIr` and worked examples |
| gofmt.dfy | GoFormat | how `fmt.Errorf` renders a message used as its own format string |
| boardctl.dfy | BoardCtl | `Exec`, `invokeEnv`, `invokeCmd`, `errToJson` |

The outside world is turned into parameters:

- A `Device` states what the lock and the port creator answered and what the
  write did before the deadline. It also holds the reads completed before the
  deadline, and the answers of `flock.Unlock` and `os.Remove`.
- `execCommand` returns the events it performed and its result. The events
  are lock, open, write, close, release and remove-file. The resource
  discipline (open only under the lock, close before release) is a replay
  predicate over that log. The lock counts as still held after a release
  that `flock.Unlock` refused, so the log ends with nothing held exactly
  when the lock was refused or `flock.Unlock` succeeded.
- The board facade takes a `Runner`, a function from a command to its result.
  `DeviceRunner` connects the facade to `ExecCommand`.
- `strconv.Atoi` is a parameter of `Host`.

Three behaviours of the code are easy to miss:

- `unlock` (pkg/board.go:109-116) returns as soon as `flock.Unlock` fails,
  so the lock file is removed only when the unlock succeeded (`Unlock`).
  `execCommand` defers `unlock` and discards its error either way
  (`UnlockDiscarded`).
- The loop of `execCommand` (pkg/board.go:155-170) stops as soon as the
  text received so far ends with the prompt, whether or not that text holds
  a newline. It may have arrived in any number of reads, such as `x`
  followed by the prompt. `strings.Split` then yields one line, and the
  slice `lines[1:len(lines)-1]` has bounds `[1:0]`, so Go panics. The model
  records this as `Fault.Panic`. The deferred close and unlock still run.
  At the command-line level the outcome is `Crashed`.
- `Exec` (internal/boardctl.go:33) passes `"Unknown command: " + command`
  to `fmt.Errorf` as the format string. A `%` in the command is therefore
  read as a directive: `%%` prints `%` and `%d` prints `%!d(MISSING)`.
  The model renders the message with `GoFormat.Errorf`.
- The temperature's field name is spelled `Tempreture` in the error message
  (pkg/board.go:61).

Go strings are byte strings. In the model a `char` stands for one byte.

## Model

| member | source | states |
|---|---|---|
| Results.Wrap | pkg/board.go:58 | wrapping an error with `fmt.Errorf("…: %s")` prefixes its message; a panic stays a panic |
| Text.SplitShape | pkg/board.go:174 | `strings.Split` (`Split`) yields newline-free pieces, and only one piece exactly when the text has no newline |
| Text.JoinSplit | pkg/board.go:174-176 | joining (`Join`) the split lines with `"\n"` gives back the original text |
| Text.SplitJoin | pkg/board.go:174-176 | splitting the join of newline-free lines gives back those lines |
| Text.SplitConcat | pkg/board.go:174 | splitting `x + "\n" + y` splits `x` and `y` separately and concatenates the pieces |
| Decimal.NatToDecimal | pkg/board.go:92 | the `%d` rendering of a natural number is a canonical digit string (no leading zero) |
| Decimal.FormatInt | pkg/board.go:92 | `%d` of an integer is digits, preceded by `-` exactly for negatives |
| Decimal.DecimalOfRendering | pkg/board.go:189 | reading the rendered digits of `n` back as a decimal number gives `n` |
| Decimal.RenderingOfDecimal | pkg/board.go:189 | every canonical digit string is the rendering of its own value |
| Decimal.FormatIntRoundTrip | pkg/board.go:92 | the sign and the canonical digits of `%d` determine the integer |
| Framing.ReceivedSnoc | pkg/board.go:157-161 | a successful read appends its bytes to the buffer; a failed read leaves it unchanged |
| Framing.ReceivedAppendOnly | pkg/board.go:153-161 | the buffer only grows: an earlier buffer is a prefix of every later one |
| Framing.FrameFrom | pkg/board.go:155-170 | when the loop stops, it stops at a read of the trace with a buffer that ends with the prompt (`EndsWith`, the `strings.HasSuffix` of pkg/board.go:165) |
| Framing.FrameFromMeaning | pkg/board.go:155-170 | the loop frames exactly when some read completes the prompt; it stops at the first such read, and its text is everything received up to that read |
| Framing.Frame | pkg/board.go:153-170 | on an empty buffer, framing happens iff some read completes; the text is all bytes up to the first completing read and ends with the prompt |
| Framing.BodyBetween | pkg/board.go:174-176 | `ExtractBody` drops the first and last lines: the body of `echo\nmiddle\nprompt` is `middle`, including when the middle itself spans several lines |
| Framing.BodyOfTwoLines | pkg/board.go:174-176 | a two-line reply has an empty body |
| Fields.DigitRun | pkg/board.go:22-24 | the `([0-9]+)` capture consists of digits only |
| Fields.DigitRunMaximal | pkg/board.go:22-24 | the capture is a prefix of the text after the label, and is greedy: it cannot be extended by a digit |
| Fields.FindMatch | pkg/board.go:185 | a reported match position is at or after the start, and the pattern matches there |
| Fields.FindMatchMeaning | pkg/board.go:185 | no match is reported iff the pattern matches nowhere, and a reported match is the leftmost one |
| Fields.ParseField | pkg/board.go:186-188 | the only error is `Failed to get <name>` |
| Fields.ParseFieldMeaning | pkg/board.go:184-195 | parsing succeeds iff the label is followed by a digit somewhere; the value is that of the greedy digit capture at the leftmost match |
| Fields.FieldRoundTrip | pkg/board.go:184-195 | a label followed by a rendered number reads back as that number, when nothing earlier matches and no digit follows |
| Executor.Unlock | pkg/board.go:109-116 | `ReleaseLock` comes first; the lock file is removed iff `flock.Unlock` succeeded; a failed `flock.Unlock` returns its own error and takes one step, otherwise both steps are taken and the result is the `os.Remove` error |
| Executor.Settle | pkg/board.go:146-181 | a write error is returned with its prefix; a stalled write or a missing prompt is a timeout naming the command; success iff the write returned and the first completing read leaves a text with a newline, the result then being that text's body; a single-line framed text panics |
| Executor.ExecCommand | pkg/board.go:100-182 | a refused lock fails with `LockFailure`, which carries both prefixes from `lock` and `execCommand`; a failed open carries its message; otherwise the result is that of `Settle` |
| Executor.ExecCommandEvents | pkg/board.go:118-182 | the event log is disciplined; nothing happens when the lock is refused, otherwise the log starts by taking the lock; the port is opened iff the lock was taken and the open succeeded, and then exactly `cmd + "\n"` is written; the log ends with the lock released and nothing held exactly when `flock.Unlock` succeeded |
| Executor.UnlockDiscarded | pkg/board.go:125 | the answers of `flock.Unlock` and `os.Remove` never change the result |
| Executor.FirstCompletionUnique | pkg/board.go:165-167 | at most one read is the first to complete the reply |
| Board.GetEnvBy | pkg/board.go:54-88 | `GetEnv` with the field parser as a parameter (`GetEnv` passes `Extract`, the model of `parseResult` at pkg/board.go:61, 67, 78): the steps taken are a prefix of temp_read, the three parses and bri_read; success takes every step; stopping early is an error |
| Board.GetEnvReading | pkg/board.go:54-88 | a reading is produced iff both commands succeed and all three fields parse; temperature and humidity are the raw values divided by ten and brightness is the raw value |
| Board.GetEnvFailure | pkg/board.go:56-81 | `GetEnv` stops at the first failing step: every earlier step succeeded (`StepOk`), the last step failed iff the result is an error, and the error is that step's failure wrapped with its command or field name |
| Board.MissingHumidity | pkg/board.go:67-70 | a `temp_read` reply without `HUM: ` followed by a digit fails with `Failed to parse hum: Failed to get Humidity`, and `bri_read` is never sent |
| Board.IrCommandLines | pkg/board.go:92 | the `ir_send` command line built by `IrCommand` splits into the header carrying the interval, the pattern, and an empty last piece |
| Board.SendIr | pkg/board.go:90-98 | exactly one `ir_send` is executed; it succeeds iff that command succeeds; its error is wrapped as `Failed to execute ir_send: …` |
| Board.SendIrWrites | pkg/board.go:92 | once the port opens, the bytes written are `ir_send <interval>\n<pattern>\n` |
| Board.SingleChunkReply | pkg/board.go:153-176 | a reply delivered in one read, with the echo first and the prompt last, yields the lines between them |
| Board.SendIrExampleWrites | pkg/board.go:92 | interval 500 with pattern `1010` gives the line `ir_send 500\n1010\n` |
| Board.SendIrExample | pkg/board.go:90-98 | interval 500 with pattern `1010` succeeds on a prompt-terminated reply |
| Board.GetEnvExample | pkg/board.go:54-88 | the replies `TMP: 235`/`HUM: 412` and `BRI: 77` give 23.5, 41.2 and 77 |
| BoardCtl.ErrToJson | internal/boardctl.go:42-46 | the failure envelope has result `ng` and the error's message |
| BoardCtl.InvokeEnv | internal/boardctl.go:48-70 | the reading's fields are copied unchanged into an `ok` envelope; an error passes through |
| BoardCtl.InvokeCmd | internal/boardctl.go:72-95 | a bad interval fails with Atoi's error and runs nothing; otherwise one `ir_send` runs, and the reply is `{"result":"ok"}` iff it succeeded |
| BoardCtl.Conclude | internal/boardctl.go:35-39 | an error replaces the reply with the failure envelope and is still returned; only a panic crashes |
| BoardCtl.Exec | internal/boardctl.go:19-40 | the command is the first positional argument (`Arg`, internal/boardctl.go:24, 29), empty when absent; a missing command gives `Command required`; an unknown command gives `fmt.Errorf` applied to `Unknown command: <cmd>` (`GoFormat.Errorf`); `env` and `cmd` dispatch to their operations with the next two arguments; the reply carries the error exactly when one is returned |
| BoardCtl.UnknownPlainCommand | internal/boardctl.go:33 | an unknown command without `%` is reported verbatim as `Unknown command: <cmd>` |
| GoFormat.PlainPrefix | internal/boardctl.go:33 | `fmt.Errorf` copies the text before the first `%` unchanged |
| GoFormat.PlainText | internal/boardctl.go:33 | a message without `%` is printed as is |
| GoFormat.EscapedPercent | internal/boardctl.go:33 | `%%` prints one `%` and the rest of the format goes on being read |
| GoFormat.MissingArgument | internal/boardctl.go:33 | a verb with nothing before it prints `%!<verb>(MISSING)`, since `Errorf` gets no arguments |
| GoFormat.TrailingPercent | internal/boardctl.go:33 | a `%` at the end of the format prints `%!(NOVERB)` |
| GoFormat.EscapedBetween | internal/boardctl.go:33 | between two texts without `%`, a doubled `%` prints as one |
| BoardCtl.CmdRejectsIntervalFirst | internal/boardctl.go:72-77 | `cmd` with an unparsable interval reports Atoi's error, and no command reaches the board |
| BoardCtl.CmdSuccess | internal/boardctl.go:72-95 | a successful `cmd` sends one `ir_send` and prints `{"result":"ok"}` without error |
| BoardCtl.EnvSuccess | internal/boardctl.go:48-70 | a successful `env` prints the reading's fields under `ok` without error |

## Left out

- Serial port configuration (`/dev/ttyAMA0`, 9600 baud, 200 ms read timeout) and `DefaultPortCreator`: device I/O. The port creator's answer is the `port` field of `Device`. Because of that, the nil-creator fallback in `execCommand` is not distinguished.
- `flock` semantics (blocking until the lock is free, contention between processes): operating-system behaviour. The answer of `Lock` is a parameter.
- Time and concurrency:
  - the 5-second deadline, the goroutine and the channel `select` are reduced to which outcome wins;
  - a `trace` holds only the reads that finish before the deadline;
  - `WriteStalled` stands for a write still blocked at the deadline;
  - the worker goroutine that keeps running after a timeout is not modelled.
- The 128-byte read buffer: a chunk is any string a read delivers.
- Executor.ExecCommand: records `Write` as soon as the port opens, even when the deadline fires before the write is issued, because the scheduling order of the goroutine is not modelled.
- Floating point: values are kept as `Tenths` (tenths of a unit), which represents the raw integer divided by ten exactly. The `ParseFloat` range error for digit strings beyond `float64` range is not modelled; such a capture parses to its exact value here.
- Regular expressions in general: only the three fixed patterns `LABEL: ([0-9]+)` are modelled, by a leftmost scan with a greedy digit capture.
- JSON encoding: envelopes are records, so character escaping and float formatting in `json.Marshal` are left out.
- GoFormat.Errorf: a verb is one `char`, while `fmt` decodes a verb of several bytes as one UTF-8 rune; the model has no separate byte and rune views of the format.
- `fmt` internals beyond the directive scan (the `%w` wrapping, the printing of actual arguments): `Errorf` is called with no arguments here, so every verb other than `%` is reported as missing or badly indexed.
- `flag.Parse` option handling: `Exec` takes the positional arguments directly.
- The grammar of `strconv.Atoi`: it is a parameter of `Host`.
- `cmd/main.go` (printing the reply and the exit status) is not part of this model.
- `NewBoard` always succeeds, so its error branches in `invokeEnv` and `invokeCmd` are not modelled.
