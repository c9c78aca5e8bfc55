/** The rate-limiting decision of the pressure relief valve: one window of
    admitted lines, the per-line step (rollover, then admit or discard), the
    fold of that step over a stream of lines, and the discard notice format. */
module Valve {
  import opened Decimal

  /** Timestamps are nanoseconds; the window is compared in whole seconds. */
  const NANOS_PER_SEC: nat := 1_000_000_000

  datatype Option<T> = None | Some(value: T)

  /** The command-line settings the loop reads: `limit` lines per window
      (0 = unlimited), `window` seconds, and whether discards are reported. */
  datatype Config = Config(limit: nat, window: nat, verbose: bool)

  /** One line as read, terminator included, with the clock sampled right after the read. */
  datatype Event = Event(line: string, now: nat)

  /** The loop's two mutable locals: the window start `t0` and the admitted `count`. */
  datatype Window = Window(t0: nat, count: nat)

  datatype Action = Admit | Discard(notice: Option<string>)

  datatype StepResult = StepResult(window: Window, action: Action)

  /** What a stretch of input produced: the window afterwards, the lines written
      to standard output and the notices written to standard error. */
  datatype Trace = Trace(window: Window, out: seq<string>, diag: seq<string>)

  /** The window as it stands when the process starts. */
  function Initial(start: nat): Window {
    Window(start, 0)
  }

  /** Whole seconds from `t0` to `t1`, truncated; zero when `t1` is not after `t0`. */
  function ElapsedSecs(t0: nat, t1: nat): nat {
    if t1 <= t0 then 0 else (t1 - t0) / NANOS_PER_SEC
  }

  /** The current window has run its course by time `now`. */
  predicate Expired(cfg: Config, w: Window, now: nat) {
    ElapsedSecs(w.t0, now) >= cfg.window
  }

  /** The window after the rollover check of a line read at `now`. */
  function Rollover(cfg: Config, w: Window, now: nat): Window {
    if Expired(cfg, w, now) then Window(now, 0) else w
  }

  /** The quota of the window is used up: a line arriving now is discarded. */
  predicate Full(cfg: Config, count: nat) {
    cfg.limit > 0 && count >= cfg.limit
  }

  /** The diagnostic written for a discarded line: `DISCARD:<count>/<limit>:<line>`. */
  function Notice(count: nat, limit: nat, line: string): string {
    "DISCARD:" + NatToDecimal(count) + "/" + NatToDecimal(limit) + ":" + line
  }

  /** One iteration of the loop for an already-read line. */
  function Step(cfg: Config, w: Window, e: Event): StepResult {
    var o := Rollover(cfg, w, e.now);
    if Full(cfg, o.count) then
      StepResult(o, Discard(if cfg.verbose then Some(Notice(o.count, cfg.limit, e.line)) else None))
    else
      StepResult(Window(o.t0, o.count + 1), Admit)
  }

  /** What one action writes to standard output. */
  function Written(a: Action, line: string): seq<string> {
    if a.Admit? then [line] else []
  }

  /** What one action writes to standard error. */
  function Reported(a: Action): seq<string> {
    if a.Discard? && a.notice.Some? then [a.notice.value] else []
  }

  /** The loop run over `events` from window `w`: the fold of Step. */
  function Run(cfg: Config, w: Window, events: seq<Event>): Trace
    decreases |events|
  {
    if events == [] then Trace(w, [], [])
    else
      var s := Step(cfg, w, events[0]);
      var rest := Run(cfg, s.window, events[1..]);
      Trace(rest.window, Written(s.action, events[0].line) + rest.out,
            Reported(s.action) + rest.diag)
  }

  /** The whole run of the program: the loop from the window opened at `start`. */
  function Relay(cfg: Config, start: nat, events: seq<Event>): Trace {
    Run(cfg, Initial(start), events)
  }

  /** The input lines, in order. */
  function Lines(events: seq<Event>): (r: seq<string>)
    ensures |r| == |events|
    ensures forall k :: 0 <= k < |events| ==> r[k] == events[k].line
  {
    seq(|events|, k requires 0 <= k < |events| => events[k].line)
  }

  /** The notice each input line would draw if it were discarded against a full window. */
  function FullNotices(limit: nat, events: seq<Event>): (r: seq<string>)
    ensures |r| == |events|
    ensures forall k :: 0 <= k < |events| ==> r[k] == Notice(limit, limit, events[k].line)
  {
    seq(|events|, k requires 0 <= k < |events| => Notice(limit, limit, events[k].line))
  }

  /** `xs` is `ys` with some elements left out, order kept. */
  predicate Subsequence<T(==)>(xs: seq<T>, ys: seq<T>)
    decreases |ys|
  {
    if xs == [] then true
    else if ys == [] then false
    else (xs[0] == ys[0] && Subsequence(xs[1..], ys[1..])) || Subsequence(xs, ys[1..])
  }

  // ----- Reading a notice back -----

  datatype NoticeFields = NoticeFields(count: nat, limit: nat, line: string)

  /** Length of the run of digits at the front of `s`. */
  function DigitRun(s: string): (n: nat)
    ensures n <= |s| && AllDigits(s[..n])
    ensures n < |s| ==> !IsDigit(s[n])
  {
    if s == [] || !IsDigit(s[0]) then 0
    else
      var n := 1 + DigitRun(s[1..]);
      assert s[..n] == [s[0]] + s[1..][..n - 1];
      n
  }

  datatype Split = Split(digits: string, rest: string)

  /** Splits `s` into a leading non-empty run of digits, ended by `sep`, and what follows `sep`. */
  function SplitNumber(s: string, sep: char): (r: Option<Split>)
    ensures r.Some? ==> AllDigits(r.value.digits) && |r.value.digits| > 0
  {
    var i := DigitRun(s);
    if i == 0 || i == |s| || s[i] != sep then None else Some(Split(s[..i], s[i + 1..]))
  }

  /** Splits a notice into its count, limit and line; None for any other text. */
  function ParseNotice(s: string): Option<NoticeFields> {
    if |s| < 8 || s[..8] != "DISCARD:" then None
    else
      match SplitNumber(s[8..], '/')
      case None => None
      case Some(c) =>
        match SplitNumber(c.rest, ':')
        case None => None
        case Some(l) => Some(NoticeFields(DecimalValue(c.digits), DecimalValue(l.digits), l.rest))
  }
}
