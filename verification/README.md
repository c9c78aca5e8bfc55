# prv: a pressure relief valve for Unix pipelines, modelled in Dafny

`prv` sits between a producer and a consumer in a shell pipeline. It reads lines
from standard input and forwards at most `limit` of them per window of `window`
seconds to standard output. It discards the rest, reporting each discarded line
on standard error as `DISCARD:<count>/<limit>:<line>` when `--verbose` is set.
A `limit` of 0 means unlimited.

The model covers the whole decision loop, `event_loop` in `src/main.rs`:

- `Decimal` (decimal.dfy) renders unsigned integers the way Rust's `{}` does,
  and reads them back.
- `Valve` (valve.dfy) holds the configuration, the line events and the window
  state. The two mutable locals of the loop, `t0` and `count`, form a `Window`.
  One iteration is the pure function `Step`: the rollover check, then admit or
  discard. `Run` folds `Step` over the input. `Relay` is `Run` from the window
  opened at process start. `Notice` is the discard diagnostic, and
  `ParseNotice` reads one back.
- `ValveProperties` (valve_properties.dfy) proves what the valve promises about
  `Step` and `Run`.
- `EventLoop` (event_loop.dfy) is the loop itself, written imperatively. It has
  mutable `t0` and `count`, a `continue` on discard, and appends to output and
  diagnostic sequences. It is proved equal to `Relay`.

The clock is a parameter. Each event carries the time sampled right after its
line was read, in nanoseconds. Elapsed time is truncated to whole seconds, as
`Duration::as_secs` does. When the later sample is not after the earlier one,
elapsed time is zero, as `Instant::duration_since` saturates. The model
therefore needs no assumption that timestamps increase.

Two points of the code that the model keeps as written:

- The window is a `u64` and may be 0. With a 0-second window every line rolls
  over and is admitted (`ZeroWindowForwardsAll`).
- Elapsed time is read from the monotonic `Instant` clock, not from wall-clock
  time.

## Model

| member | source | states |
|---|---|---|
| `Decimal.NatToDecimal` | src/main.rs:60 | a number is rendered as one or more decimal digits, with a leading `0` only for zero itself |
| `Decimal.DecimalRoundTrip` | src/main.rs:60 | reading the rendered digits back gives the number rendered |
| `Decimal.NatToDecimalInjective` | src/main.rs:60 | distinct counts and limits render as distinct texts |
| `ValveProperties.ElapsedTruncates` | src/main.rs:51-53 | elapsed whole seconds are the truncation of the nanosecond difference, and zero when the clock has not advanced |
| `ValveProperties.RolloverAdmits` | src/main.rs:53-58 | a line that finds the window expired starts a new window at its own time and is admitted, so the count is 1 |
| `ValveProperties.ZeroWindowAlwaysRollsOver` | src/main.rs:53-56 | with `window == 0` every line rolls over and is admitted |
| `ValveProperties.AdmitIff` | src/main.rs:58-65 | a line is admitted if and only if `limit == 0` or the count after the rollover check is below `limit` |
| `ValveProperties.AdmitEffect` | src/main.rs:65-67 | an admit adds exactly 1 to the count, keeps `t0` as the rollover check left it, writes exactly the line and reports nothing |
| `ValveProperties.DiscardEffect` | src/main.rs:58-62 | a discard leaves `t0` and `count` as the rollover check left them and writes nothing to output; it reports exactly one notice `DISCARD:<count>/<limit>:<line>` when verbose and none otherwise; from a window within its limit, the count at a discard equals `limit` |
| `ValveProperties.StepKeepsLimit` | src/main.rs:39-65 | one iteration keeps `count <= limit` when `limit > 0` |
| `ValveProperties.RunKeepsLimit` | src/main.rs:39-69 | `count <= limit` holds after every line of a run when `limit > 0` |
| `ValveProperties.RunAppend` | src/main.rs:43-69 | processing `a + b` is processing `a`, then `b` from the window `a` left; the outputs and notices are concatenated |
| `ValveProperties.RunSnoc` | src/main.rs:43-69 | one more line extends a run by exactly one iteration |
| `ValveProperties.WindowBound` | src/main.rs:53-67 | while no line finds the window expired, `t0` stays put, the count grows by exactly the number of lines written, and at most `limit - count` lines are written |
| `ValveProperties.EpochBound` | src/main.rs:53-67 | a window opened by a rollover line writes at most `limit` lines, counting that line |
| `ValveProperties.SegmentBound` | src/main.rs:43-69 | in any run from process start, any stretch of input during which the window does not expire writes at most `limit` lines |
| `ValveProperties.UnlimitedForwardsAll` | src/main.rs:58-67 | with `limit == 0`, the output is every input line, verbatim and in order, and nothing is reported whatever `verbose` is |
| `ValveProperties.ZeroWindowForwardsAll` | src/main.rs:53-67 | with `window == 0`, the output is every input line in order and nothing is reported |
| `ValveProperties.OutputIsSubsequence` | src/main.rs:44-67 | the output is an order-preserving subsequence of the input lines, each written exactly as read |
| `ValveProperties.NoticesAreAtLimit` | src/main.rs:58-62 | every notice is `DISCARD:<limit>/<limit>:<line>` for an input line, in input order |
| `ValveProperties.EveryLineAccounted` | src/main.rs:58-67 | in verbose mode, lines written plus notices equal lines read; otherwise no notice is ever written |
| `ValveProperties.EmptyInput` | src/main.rs:45-46 | end of input before any line writes nothing and reports nothing |
| `ValveProperties.NoticeRoundTrip` | src/main.rs:60 | a notice can be split back into exactly the count, limit and line it was made from |
| `ValveProperties.ScenarioBurst` | src/main.rs:53-67 | limit 2 per second with three lines in one second: `a\n` and `b\n` are written and `DISCARD:2/2:c\n` is reported |
| `ValveProperties.ScenarioUnlimited` | src/main.rs:58-67 | limit 0 with `x\n`, `y\n`: both are written and nothing is reported |
| `EventLoop.RunEventLoop` | src/main.rs:33-70 | the loop over the lines writes exactly the output and notices of `Relay`; it ends successfully on end of input and with an error when the read fails |

## Left out

- Command-line parsing (`clap`, `src/main.rs:1-31`). The configuration is the record `Valve.Config`.
- The `write_buffer` option. `event_loop` never reads it, so the model has no counterpart.
- Real standard input, output and error, `read_line`'s UTF-8 decoding, and `flush`. Input is a sequence of lines already read, each with its terminator. Standard output and standard error are the sequences of strings written to them, one element per `write_all` or `eprint!`.
- `Instant::now()`. The caller supplies the process start time and one timestamp per line, in nanoseconds.
- I/O errors are reduced to how the read after the last line ends: `EndOfInput` gives success, `ReadError` gives an error. Failures of `write_all` and `flush`, which also end the loop with an error, are not modelled. Neither is the panic of `eprint!` when standard error fails.
- `EventLoop.RunEventLoop`: `count` is a `usize` in the source (64 bits, or 32 bits on 32-bit targets); the model's `count` is unbounded. Every rollover resets `count`, so an overflow needs 2^64 (or 2^32) admitted lines within one window, which only unlimited mode allows. There a debug build would panic on `count += 1`, which the model does not capture; in a release build the wrap-around is invisible, because `count` is never compared when `limit == 0` (`src/main.rs:58`).
- `read_line` never returns an empty line other than at end of input. The model does not need this and does not assume it.
- `Valve.ParseNotice` has no counterpart in the source. It exists only to show that the notice format determines its count, limit and line.
