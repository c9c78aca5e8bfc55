/** What the valve promises, proved about Step and its fold Run. */
module ValveProperties {
  import opened Decimal
  import opened Valve

  /** The window invariant: with a limit set, the count never exceeds it. */
  predicate WithinLimit(cfg: Config, w: Window) {
    cfg.limit > 0 ==> w.count <= cfg.limit
  }

  // ----- One step -----

  /** Elapsed seconds are the nanosecond difference truncated to whole seconds,
      and zero when the clock has not moved forward. */
  lemma ElapsedTruncates(t0: nat, t1: nat)
    ensures t1 <= t0 ==> ElapsedSecs(t0, t1) == 0
    ensures t1 >= t0 ==> var secs := ElapsedSecs(t0, t1);
      secs * NANOS_PER_SEC <= t1 - t0 < (secs + 1) * NANOS_PER_SEC
  {
  }

  /** A line that finds the window expired opens a new window at its own
      timestamp and is always admitted, leaving the count at 1. */
  lemma RolloverAdmits(cfg: Config, w: Window, e: Event)
    requires Expired(cfg, w, e.now)
    ensures Step(cfg, w, e) == StepResult(Window(e.now, 1), Admit)
  {
  }

  /** With a zero-second window every line rolls over and is admitted. */
  lemma ZeroWindowAlwaysRollsOver(cfg: Config, w: Window, e: Event)
    requires cfg.window == 0
    ensures Step(cfg, w, e) == StepResult(Window(e.now, 1), Admit)
  {
    RolloverAdmits(cfg, w, e);
  }

  /** A line is admitted exactly when there is no limit or the (rolled-over)
      count is still below it. */
  lemma AdmitIff(cfg: Config, w: Window, e: Event)
    ensures Step(cfg, w, e).action == Admit
        <==> cfg.limit == 0 || Rollover(cfg, w, e.now).count < cfg.limit
  {
  }

  /** An admit adds exactly one to the count, keeps the window start of the
      rollover check, and writes exactly the line. */
  lemma AdmitEffect(cfg: Config, w: Window, e: Event)
    requires Step(cfg, w, e).action == Admit
    ensures var o := Rollover(cfg, w, e.now);
      Step(cfg, w, e).window == Window(o.t0, o.count + 1)
    ensures Written(Step(cfg, w, e).action, e.line) == [e.line]
    ensures Reported(Step(cfg, w, e).action) == []
  {
  }

  /** A discard leaves the window as the rollover check left it, writes nothing
      to standard output, and reports exactly one notice iff verbose; from a
      window within its limit, the count at a discard is exactly the limit. */
  lemma DiscardEffect(cfg: Config, w: Window, e: Event)
    requires Step(cfg, w, e).action.Discard?
    ensures var o := Rollover(cfg, w, e.now);
      && Step(cfg, w, e).window == o
      && cfg.limit > 0 && o.count >= cfg.limit
      && Written(Step(cfg, w, e).action, e.line) == []
      && Reported(Step(cfg, w, e).action)
         == (if cfg.verbose then [Notice(o.count, cfg.limit, e.line)] else [])
    ensures WithinLimit(cfg, w) ==>
      Rollover(cfg, w, e.now).count == cfg.limit
      && Reported(Step(cfg, w, e).action)
         == (if cfg.verbose then [Notice(cfg.limit, cfg.limit, e.line)] else [])
  {
  }

  /** Each step keeps the count within the limit. */
  lemma StepKeepsLimit(cfg: Config, w: Window, e: Event)
    requires WithinLimit(cfg, w)
    ensures WithinLimit(cfg, Step(cfg, w, e).window)
  {
  }

  // ----- The fold -----

  /** Running over `a + b` is running over `a` and then over `b` from where `a` left off. */
  lemma {:induction false} RunAppend(cfg: Config, w: Window, a: seq<Event>, b: seq<Event>)
    ensures var ta := Run(cfg, w, a);
      var tb := Run(cfg, ta.window, b);
      Run(cfg, w, a + b) == Trace(tb.window, ta.out + tb.out, ta.diag + tb.diag)
    decreases |a|
  {
    if a == [] {
      assert a + b == b;
    } else {
      var s := Step(cfg, w, a[0]);
      assert (a + b)[0] == a[0];
      assert (a + b)[1..] == a[1..] + b;
      RunAppend(cfg, s.window, a[1..], b);
      var tr := Run(cfg, s.window, a[1..]);
      var tb := Run(cfg, tr.window, b);
      var wr, rr := Written(s.action, a[0].line), Reported(s.action);
      assert wr + (tr.out + tb.out) == (wr + tr.out) + tb.out;
      assert rr + (tr.diag + tb.diag) == (rr + tr.diag) + tb.diag;
    }
  }

  /** One more line extends the run by exactly one step. */
  lemma RunSnoc(cfg: Config, w: Window, events: seq<Event>, e: Event)
    ensures var t := Run(cfg, w, events);
      var s := Step(cfg, t.window, e);
      Run(cfg, w, events + [e])
        == Trace(s.window, t.out + Written(s.action, e.line), t.diag + Reported(s.action))
  {
    var t := Run(cfg, w, events);
    var s := Step(cfg, t.window, e);
    assert [e][0] == e && [e][1..] == [];
    assert Run(cfg, t.window, [e]) == Trace(s.window, Written(s.action, e.line), Reported(s.action));
    RunAppend(cfg, w, events, [e]);
  }

  /** The count stays within the limit after every line. */
  lemma {:induction false} RunKeepsLimit(cfg: Config, w: Window, events: seq<Event>)
    requires WithinLimit(cfg, w)
    ensures WithinLimit(cfg, Run(cfg, w, events).window)
    decreases |events|
  {
    if events != [] {
      StepKeepsLimit(cfg, w, events[0]);
      RunKeepsLimit(cfg, Step(cfg, w, events[0]).window, events[1..]);
    }
  }

  /** Within one window (no line finds it expired), at most the rest of the
      quota is written, each admitted line is counted, and the window start
      does not move. */
  lemma {:induction false} WindowBound(cfg: Config, w: Window, events: seq<Event>)
    requires cfg.limit > 0 && w.count <= cfg.limit
    requires forall k :: 0 <= k < |events| ==> !Expired(cfg, w, events[k].now)
    ensures var t := Run(cfg, w, events);
      && t.window.t0 == w.t0
      && t.window.count == w.count + |t.out|
      && w.count + |t.out| <= cfg.limit
    decreases |events|
  {
    if events != [] {
      var w1 := Step(cfg, w, events[0]).window;
      assert !Expired(cfg, w, events[0].now);
      assert w1.t0 == w.t0;
      forall k | 0 <= k < |events[1..]|
        ensures !Expired(cfg, w1, events[1..][k].now)
      {
        assert events[1..][k] == events[k + 1];
      }
      WindowBound(cfg, w1, events[1..]);
    }
  }

  /** A window opened by line `e` admits at most `limit` lines: `e` itself and
      the following lines that do not find it expired. */
  lemma EpochBound(cfg: Config, w: Window, e: Event, events: seq<Event>)
    requires cfg.limit > 0
    requires Expired(cfg, w, e.now)
    requires forall k :: 0 <= k < |events| ==> !Expired(cfg, Window(e.now, 0), events[k].now)
    ensures |Run(cfg, w, [e] + events).out| <= cfg.limit
  {
    RolloverAdmits(cfg, w, e);
    RunAppend(cfg, w, [e], events);
    assert Run(cfg, w, [e]).out == [e.line];
    WindowBound(cfg, Window(e.now, 1), events);
  }

  /** In any run of the program, a stretch of input during which the window
      never expires writes at most `limit` lines. */
  lemma SegmentBound(cfg: Config, start: nat, before: seq<Event>, during: seq<Event>)
    requires cfg.limit > 0
    requires var w := Relay(cfg, start, before).window;
      forall k :: 0 <= k < |during| ==> !Expired(cfg, w, during[k].now)
    ensures |Relay(cfg, start, before + during).out| - |Relay(cfg, start, before).out|
            <= cfg.limit
  {
    RunKeepsLimit(cfg, Initial(start), before);
    RunAppend(cfg, Initial(start), before, during);
    WindowBound(cfg, Relay(cfg, start, before).window, during);
  }

  /** Unlimited mode: every line is written once, verbatim and in order, and
      nothing is ever reported, whatever `verbose` says. */
  lemma {:induction false} UnlimitedForwardsAll(cfg: Config, w: Window, events: seq<Event>)
    requires cfg.limit == 0
    ensures Run(cfg, w, events).out == Lines(events)
    ensures Run(cfg, w, events).diag == []
    decreases |events|
  {
    if events != [] {
      UnlimitedForwardsAll(cfg, Step(cfg, w, events[0]).window, events[1..]);
      assert Lines(events) == [events[0].line] + Lines(events[1..]);
    }
  }

  /** With a zero-second window every line is written, and nothing is reported. */
  lemma {:induction false} ZeroWindowForwardsAll(cfg: Config, w: Window, events: seq<Event>)
    requires cfg.window == 0
    ensures Run(cfg, w, events).out == Lines(events)
    ensures Run(cfg, w, events).diag == []
    decreases |events|
  {
    if events != [] {
      ZeroWindowAlwaysRollsOver(cfg, w, events[0]);
      ZeroWindowForwardsAll(cfg, Step(cfg, w, events[0]).window, events[1..]);
      assert Lines(events) == [events[0].line] + Lines(events[1..]);
    }
  }

  /** The output is the input with some lines left out: order kept, each line as read. */
  lemma {:induction false} OutputIsSubsequence(cfg: Config, w: Window, events: seq<Event>)
    ensures Subsequence(Run(cfg, w, events).out, Lines(events))
    decreases |events|
  {
    if events != [] {
      var s := Step(cfg, w, events[0]);
      var rest := Run(cfg, s.window, events[1..]);
      OutputIsSubsequence(cfg, s.window, events[1..]);
      var ls := Lines(events);
      assert ls[0] == events[0].line && ls[1..] == Lines(events[1..]);
      var out := Run(cfg, w, events).out;
      if s.action.Admit? {
        assert out[0] == ls[0] && out[1..] == rest.out;
      } else {
        assert out == rest.out;
        assert out != [] ==> Subsequence(out, ls[1..]);
      }
    }
  }

  /** Every notice reads `DISCARD:<limit>/<limit>:<line>` for some input line,
      in input order: discards happen only against a full window. */
  lemma {:induction false} NoticesAreAtLimit(cfg: Config, w: Window, events: seq<Event>)
    requires WithinLimit(cfg, w)
    ensures Subsequence(Run(cfg, w, events).diag, FullNotices(cfg.limit, events))
    decreases |events|
  {
    if events != [] {
      var s := Step(cfg, w, events[0]);
      var rest := Run(cfg, s.window, events[1..]);
      StepKeepsLimit(cfg, w, events[0]);
      NoticesAreAtLimit(cfg, s.window, events[1..]);
      var ns := FullNotices(cfg.limit, events);
      assert ns[1..] == FullNotices(cfg.limit, events[1..]);
      var diag := Run(cfg, w, events).diag;
      if Reported(s.action) != [] {
        DiscardEffect(cfg, w, events[0]);
        assert diag[0] == ns[0] && diag[1..] == rest.diag;
      } else {
        assert diag == rest.diag;
        assert diag != [] ==> Subsequence(diag, ns[1..]);
      }
    }
  }

  /** Every line is either written or discarded: in verbose mode each discard
      leaves exactly one notice, otherwise nothing is reported. */
  lemma {:induction false} EveryLineAccounted(cfg: Config, w: Window, events: seq<Event>)
    ensures cfg.verbose ==> |Run(cfg, w, events).out| + |Run(cfg, w, events).diag| == |events|
    ensures !cfg.verbose ==> Run(cfg, w, events).diag == []
    decreases |events|
  {
    if events != [] {
      EveryLineAccounted(cfg, Step(cfg, w, events[0]).window, events[1..]);
    }
  }

  /** End of input before any line: nothing written, nothing reported, window untouched. */
  lemma EmptyInput(cfg: Config, start: nat)
    ensures Relay(cfg, start, []) == Trace(Initial(start), [], [])
  {
  }

  // ----- The notice format -----

  lemma {:induction false} DigitRunStops(d: string, c: char, rest: string)
    requires AllDigits(d) && !IsDigit(c)
    ensures DigitRun(d + [c] + rest) == |d|
    decreases |d|
  {
    if d != [] {
      assert (d + [c] + rest)[1..] == d[1..] + [c] + rest;
      DigitRunStops(d[1..], c, rest);
    }
  }

  /** A number's text followed by a separator splits back into that text and the remainder. */
  lemma SplitRendered(n: nat, sep: char, rest: string)
    requires !IsDigit(sep)
    ensures SplitNumber(NatToDecimal(n) + [sep] + rest, sep) == Some(Split(NatToDecimal(n), rest))
  {
    var d := NatToDecimal(n);
    var s := d + [sep] + rest;
    DigitRunStops(d, sep, rest);
    assert s[|d|] == sep && s[..|d|] == d && s[|d| + 1..] == rest;
  }

  /** A notice can be read back into the count, limit and line it was made of. */
  lemma NoticeRoundTrip(count: nat, limit: nat, line: string)
    ensures ParseNotice(Notice(count, limit, line)) == Some(NoticeFields(count, limit, line))
  {
    var c, l := NatToDecimal(count), NatToDecimal(limit);
    var tail := l + [':'] + line;
    var s := Notice(count, limit, line);
    assert s == "DISCARD:" + (c + ['/'] + tail);
    assert s[..8] == "DISCARD:" && s[8..] == c + ['/'] + tail;
    SplitRendered(count, '/', tail);
    SplitRendered(limit, ':', line);
    DecimalRoundTrip(count);
    DecimalRoundTrip(limit);
  }

  // ----- The documented scenarios -----

  /** Limit 2 per second, three lines within one second: the first two are
      written, the third is discarded with notice `DISCARD:2/2:c\n`. */
  lemma ScenarioBurst(start: nat)
    ensures var cfg := Config(2, 1, true);
      var events := [Event("a\n", start), Event("b\n", start + 1), Event("c\n", start + 2)];
      Relay(cfg, start, events) == Trace(Window(start, 2), ["a\n", "b\n"], ["DISCARD:2/2:c\n"])
  {
    var cfg := Config(2, 1, true);
    var ea, eb, ec := Event("a\n", start), Event("b\n", start + 1), Event("c\n", start + 2);
    var events := [ea, eb, ec];
    assert events[1..] == [eb, ec] && events[1..][1..] == [ec];
    assert NatToDecimal(2) == "2";
    assert Notice(2, 2, "c\n") == "DISCARD:2/2:c\n";
    assert Step(cfg, Initial(start), ea) == StepResult(Window(start, 1), Admit);
    assert Step(cfg, Window(start, 1), eb) == StepResult(Window(start, 2), Admit);
    assert Step(cfg, Window(start, 2), ec) == StepResult(Window(start, 2), Discard(Some("DISCARD:2/2:c\n")));
    assert Run(cfg, Window(start, 2), [ec]) == Trace(Window(start, 2), [], ["DISCARD:2/2:c\n"]);
    assert Run(cfg, Window(start, 1), [eb, ec]) == Trace(Window(start, 2), ["b\n"], ["DISCARD:2/2:c\n"]);
  }

  /** No limit, two lines: both are written as read and nothing is reported,
      in verbose mode or not. */
  lemma ScenarioUnlimited(window: nat, verbose: bool, start: nat, t1: nat, t2: nat)
    ensures var events := [Event("x\n", t1), Event("y\n", t2)];
      var t := Relay(Config(0, window, verbose), start, events);
      t.out == ["x\n", "y\n"] && t.diag == []
  {
    var events := [Event("x\n", t1), Event("y\n", t2)];
    UnlimitedForwardsAll(Config(0, window, verbose), Initial(start), events);
    assert Lines(events) == ["x\n", "y\n"];
  }
}
