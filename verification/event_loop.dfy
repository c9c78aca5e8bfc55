/** The driving loop of the valve, step by step over already-read lines. */
module EventLoop {
  import opened Valve
  import ValveProperties

  /** How the read after the last line turned out. */
  datatype Ending = EndOfInput | ReadError

  datatype Status = Ok | Err

  /** Reads `events` in order with `t0` and `count` as mutable locals, writing
      admitted lines to `out` and, in verbose mode, discard notices to `diag`;
      the outcome is exactly the fold of Step, and the run ends successfully
      at end of input and with an error when the read fails. */
  method RunEventLoop(cfg: Config, start: nat, events: array<Event>, ending: Ending)
    returns (status: Status, out: seq<string>, diag: seq<string>)
    ensures status == Ok <==> ending == EndOfInput
    ensures out == Relay(cfg, start, events[..]).out
    ensures diag == Relay(cfg, start, events[..]).diag
  {
    var t0 := start;
    var count := 0;
    out, diag := [], [];
    var i := 0;
    while i < events.Length
      invariant 0 <= i <= events.Length
      invariant Relay(cfg, start, events[..i]) == Trace(Window(t0, count), out, diag)
    {
      var buf := events[i].line;
      var t1 := events[i].now;
      ValveProperties.RunSnoc(cfg, Initial(start), events[..i], events[i]);
      assert events[..i + 1] == events[..i] + [events[i]];
      i := i + 1;

      if ElapsedSecs(t0, t1) >= cfg.window {
        count := 0;
        t0 := t1;
      }

      if cfg.limit > 0 && count >= cfg.limit {
        if cfg.verbose {
          diag := diag + [Notice(count, cfg.limit, buf)];
        }
        continue;
      }

      count := count + 1;
      out := out + [buf];
    }
    assert events[..i] == events[..];
    status := if ending == EndOfInput then Ok else Err;
  }
}
