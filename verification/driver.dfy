/** The command-line driver: it validates the parameter count, reads the
    records, gives up silently when there are fewer records than
    parameters, computes the initial guess, optionally fits and runs the
    overload check, and reports the centre of the time range, the residual
    and the first p parameters and errors. */
module Driver {
  import opened Variants
  import opened Model
  import opened InitGuess
  import opened Fit
  import opened Overload

  /** One input line: time, frequency and the two response components. */
  datatype Record = Record(time: real, freq: real, re: real, im: real)

  /** The options that affect the result: --do_fit, --overload and --pars.
      coord selects the coordinate or the velocity response; no option of
      the program sets it and main passes no response argument, so it is
      this model's own addition, kept to cover both response types. */
  datatype Config = Config(doFit: bool, overload: bool, p: int, coord: bool)

  /** The values printed on the output line. */
  datatype Report = Report(time: real, res: real, pars: seq<real>, errs: seq<real>)

  /** Usage error (exit status 1), no output (exit status 0), an initial
      guess the program would compute as a division by zero (a linear offset
      over equal frequencies, or a velocity response with zero resonance
      frequency), or an output line. */
  datatype Outcome = BadUsage | NoOutput | Degenerate(why: Degeneracy) | Reported(report: Report)

  /** The variant for p parameters: constant offset for 6, linear offset
      for 8, coordinate or velocity response. */
  function SelectVariant(p: int, coord: bool): (v: Variant)
    requires p == 6 || p == 8
    ensures v.ParCount() == p && !v.IsDouble()
    ensures v.IsVelocity() <==> !coord
  {
    if p == 6 then (if coord then OscxCoffs else OscvCoffs)
    else (if coord then OscxLoffs else OscvLoffs)
  }

  function Samples(recs: seq<Record>): (s: seq<Sample>)
    ensures |s| == |recs|
    ensures forall i :: 0 <= i < |recs| ==>
              s[i] == Sample(recs[i].freq, recs[i].re, recs[i].im)
  {
    seq(|recs|, i requires 0 <= i < |recs| => Sample(recs[i].freq, recs[i].re, recs[i].im))
  }

  /** Centre of the time range: the mean of the first and last time stamps. */
  function Midpoint(recs: seq<Record>): (t: real)
    requires |recs| > 0
    ensures var a, b := recs[0].time, recs[|recs| - 1].time;
            (a <= t <= b || b <= t <= a) && t - a == b - t
  {
    (recs[0].time + recs[|recs| - 1].time) / 2.0
  }

  /** The full fit from the initial guess and, with overload detection,
      the choice between it and a refit of the unclipped samples started
      from the full fit's parameters. */
  function FitStage(solve: Solver, v: Variant, s: seq<Sample>, start: seq<real>, overload: bool): (r: FitOut)
    requires |start| == BufferSize
    ensures |r.pars| == BufferSize && |r.errs| == BufferSize
    ensures var full := FitRes(solve, v, s, start);
            r.res <= full.res && (!overload ==> r == full)
  {
    var full := FitRes(solve, v, s, start);
    if !overload then full
    else
      var kept := Unclipped(s, MaxAbs(Reals(s)), MaxAbs(Imags(s)));
      if |kept| >= v.ParCount() then Prefer(full, FitRes(solve, v, kept, full.pars))
      else full
  }

  /** The whole run for configuration cfg on the records recs. */
  function Run(cfg: Config, recs: seq<Record>, solve: Solver): (o: Outcome)
    ensures o.Reported? ==> |o.report.pars| == cfg.p && |o.report.errs| == cfg.p
  {
    if cfg.p != 6 && cfg.p != 8 then BadUsage
    else if |recs| < cfg.p then NoOutput
    else
      var v, s := SelectVariant(cfg.p, cfg.coord), Samples(recs);
      match InitialGuess(v, s)
      case Fail(why) => Degenerate(why)
      case Ok(guess) =>
        var start := Store(guess, BufferSize).buffer;
        var out := if cfg.doFit then FitStage(solve, v, s, start, cfg.overload)
                   else FitOut(start, seq(BufferSize, _ => 0.0), 0.0);
        Reported(Report(Midpoint(recs), out.res, out.pars[..cfg.p], out.errs[..cfg.p]))
  }

  /** Only 6 and 8 parameters are accepted. */
  lemma BadUsageIff(cfg: Config, recs: seq<Record>, solve: Solver)
    ensures Run(cfg, recs, solve) == BadUsage <==> cfg.p != 6 && cfg.p != 8
  {
  }

  /** A valid run prints nothing exactly when there are fewer records than
      parameters. */
  lemma NoOutputIff(cfg: Config, recs: seq<Record>, solve: Solver)
    requires cfg.p == 6 || cfg.p == 8
    ensures Run(cfg, recs, solve) == NoOutput <==> |recs| < cfg.p
  {
  }

  /** With enough records the run reports unless the guess is undefined:
      eight parameters over equal frequencies, or the velocity response
      with the peak at frequency zero. The reported time is the centre of
      the time range. */
  lemma ReportsWithEnoughRecords(cfg: Config, recs: seq<Record>, solve: Solver)
    requires cfg.p == 6 || cfg.p == 8
    requires |recs| >= cfg.p
    ensures var g := InitialGuess(SelectVariant(cfg.p, cfg.coord), Samples(recs));
            Run(cfg, recs, solve).Reported? <==> g.Ok?
    ensures var s := Samples(recs);
            Run(cfg, recs, solve).Degenerate? <==>
              (cfg.p == 8 && FlatFrequencies(s)) || (!cfg.coord && s[GuessGeometry(s).imax].freq == 0.0)
    ensures Run(cfg, recs, solve).Reported? ==> Run(cfg, recs, solve).report.time == Midpoint(recs)
  {
  }

  /** Without fitting, the report is the initial guess with residual 0 and
      zero errors. */
  lemma GuessOnlyReport(cfg: Config, recs: seq<Record>, solve: Solver)
    requires !cfg.doFit
    ensures Run(cfg, recs, solve).Reported? ==>
            var v := SelectVariant(cfg.p, cfg.coord);
            var r := Run(cfg, recs, solve).report;
            r.res == 0.0 && r.pars == InitialGuess(v, Samples(recs)).value &&
            forall i :: 0 <= i < cfg.p ==> r.errs[i] == 0.0
  {
    if Run(cfg, recs, solve).Reported? {
      var v := SelectVariant(cfg.p, cfg.coord);
      var guess := InitialGuess(v, Samples(recs)).value;
      assert Store(guess, BufferSize).buffer[..cfg.p] == guess;
    }
  }

  /** With fitting, the reported residual is never worse than the full fit
      from the initial guess, and equals it without overload detection. */
  lemma FitNeverWorse(cfg: Config, recs: seq<Record>, solve: Solver)
    requires cfg.doFit
    ensures Run(cfg, recs, solve).Reported? ==>
            var v := SelectVariant(cfg.p, cfg.coord);
            var start := Store(InitialGuess(v, Samples(recs)).value, BufferSize).buffer;
            var full := FitRes(solve, v, Samples(recs), start);
            var r := Run(cfg, recs, solve).report;
            r.res <= full.res && (!cfg.overload ==> r.res == full.res && r.pars == full.pars[..cfg.p])
  {
  }

  /** The refit is tried only when at least p samples survive the filter;
      otherwise the full fit stands. */
  lemma FewSurvivorsKeepFullFit(solve: Solver, v: Variant, s: seq<Sample>, start: seq<real>)
    requires |start| == BufferSize
    requires |Unclipped(s, MaxAbs(Reals(s)), MaxAbs(Imags(s)))| < v.ParCount()
    ensures FitStage(solve, v, s, start, true) == FitRes(solve, v, s, start)
  {
  }

  /** When the refit is tried, it starts from the full fit's parameters
      and runs on the surviving samples; the result is whichever of the two
      has the smaller residual, the full fit on a tie. */
  lemma RefitChoice(solve: Solver, v: Variant, s: seq<Sample>, start: seq<real>)
    requires |start| == BufferSize
    requires |Unclipped(s, MaxAbs(Reals(s)), MaxAbs(Imags(s)))| >= v.ParCount()
    ensures var full := FitRes(solve, v, s, start);
            var kept := Unclipped(s, MaxAbs(Reals(s)), MaxAbs(Imags(s)));
            var refit := FitRes(solve, v, kept, full.pars);
            var r := FitStage(solve, v, s, start, true);
            (r == full || r == refit) && r.res <= full.res && r.res <= refit.res &&
            (full.res <= refit.res ==> r == full)
  {
  }
}
