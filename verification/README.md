# fit_res resonance fitting, modelled in Dafny

`fit_res` reads resonance data, lines of `(time, freq, x, y)`, and
fits them with a Lorentzian resonance:

    X + iY = (A + iB) + [i w] (C + iD) / (w0^2 - w^2 + i w dw) [+ (E + iF)(w - w0)]

The first bracket applies to velocity responses and the second to linear
offsets. There are six lineshape variants:

- coordinate or velocity response (OSCX, OSCV);
- constant or linear offset (COFFS, LOFFS);
- two overlapping resonances (DOSCX, DOSCV), with parameters `C2, D2, w02, dw2`.

The program then:

1. computes a geometric initial guess from the data;
2. hands it to a nonlinear least-squares solver, with the residuals and Jacobian as callbacks;
3. optionally refits after dropping samples close to the largest magnitude, taken as possibly clipped ("overload detection");
4. prints the centre of the time range, the residual measure and the parameters with their errors.

The model uses exact `real` arithmetic. It is split into these modules:

- `Variants` (`variants.dfy`): the six variants, their parameter counts and which features each has.
- `ComplexArith` (`complex.dfy`): exact complex arithmetic, used to state the compact complex form of the model.
- `Model` (`model.dfy`): the evaluator `func_f` and the Jacobian columns of `func_df` for the parameters the model is affine in.
  - Per-sample model value.
  - Interleaved residual vector.
  - Those Jacobian columns.
- `ModelProps` (`model_props.dfy`): properties of the evaluator.
  - Agreement with the complex form.
  - Residual layout.
  - Exact fits.
  - Nesting of the variants.
  - Exactness of the affine Jacobian columns.
- `Scan` (`scan.dfy`): the index loops of the initial guess, written as tail-recursive scans and specified by what they find.
  - First minimum and first maximum.
  - Peak.
  - The ends of the width window.
  - Widening a collapsed window.
- `InitGuess` (`init_guess.dfy`): `fit_res_init`.
  - Chord through the extreme-frequency samples.
  - Distances and peak.
  - The geometry reached when all frequencies are equal.
  - Width.
  - Amplitudes.
  - Per-variant layout.
  - The parameter buffer.
- `Fit` (`fit.dfy`): the wrapper `fit_res` around the solver. The solver is a function-valued parameter.
- `Overload` (`overload.dfy`): overload detection.
  - Running maxima of |x| and |y|.
  - The 95% filter, as a function and as the copy loop.
  - The choice between fit and refit.
- `Driver` (`driver.dfy`): `main`, from the parsed options and the records to the reported line.
  - Usage check.
  - The `n >= p` guards.
  - Guess, fit and refit.
  - Time midpoint.

## Model

| member | source | states |
|---|---|---|
| Model.Interleave | fit.c:80-81 | The residual layout: entry 2i is the real part and entry 2i+1 the imaginary part of value i. The vector is twice as long as the number of samples. |
| ModelProps.MisfitsMatchComplexForm | fit.c:40-81 | Misfit i is the measured value X + iY of sample i minus the compact complex form of the model at that sample's frequency. |
| ModelProps.ResidualEntries | fit.c:80-81 | Residual entry 2i is `re - X(freq)` and entry 2i+1 is `im - Y(freq)` of sample i. |
| ModelProps.ResidualsRespectEval | fit.c:40-82 | Two parameter vectors, possibly of different variants, that give the same model value at every sample's frequency give the same residual vector. |
| ModelProps.EvalIsComplexForm | fit.c:45-79 | For all six variants, the component formulas are the real and imaginary parts of the compact complex form: offset + [i w] (C + iD)/(wa + i wb) (+ second term) [+ (E + iF)(w - w0)]. |
| ModelProps.ResonanceIsQuotient | fit.c:45-57 | z is the squared modulus of wa + i wb. The written-out resonance term is the complex quotient (C + iD)/(wa + i wb). |
| ModelProps.EvalIsCombine | fit.c:53-79 | Each case of the switch is offset plus drive (times i w for velocity) plus background slope, with the second term only for two resonances. |
| ModelProps.DocumentedResonanceIsQuotient | fit.h:10 | The documented resonance term is the complex quotient (C + iD)/(w0^2 - w^2 - i w dw). |
| ModelProps.DocumentedResonanceDisagrees | fit.h:9-17 | The documented term equals the term the formulas compute exactly when w dw = 0 or C = D = 0. |
| ModelProps.DocumentedResonanceExample | fit.h:9-12 | At C = 0, D = 1, w0 = 0, dw = 1, w = 1 the documented term is -1/2 - i/2 and the computed one is 1/2 - i/2. |
| ModelProps.LinearOffsetNestsConstant | fit.c:55-70 | A linear-offset variant with E = F = 0 gives the same residuals as the constant-offset variant on the first six parameters. Those parameters are then regular too. |
| ModelProps.DoubleNestsSingle | fit.c:71-78 | A two-resonance variant with C2 = D2 = 0 gives the same residuals as the single-resonance variant of the same response kind on the first six parameters. |
| ModelProps.ExactFitZeroResidual | fit.c:53-81 | When every sample lies on the model (z != 0, and z2 != 0 for two resonances), every residual is exactly 0. |
| ModelProps.SynthesizedFitsExactly | fit.c:40-82 | Samples generated from a parameter vector have an all-zero residual vector at that vector. |
| ModelProps.ColumnIsExactSlope | fit.c:119-212 | For each slot the model is affine in (A, B, C, D, then E, F or C2, D2), moving the slot by t moves (X, Y) by exactly -t times the Jacobian entry. So each entry is the exact change of -X and -Y per unit of the parameter. |
| ModelProps.JacobianIsExactSlope | fit.c:106-122 | Over a whole sample set, moving an affine slot by t moves the residual vector by exactly t times that slot's interleaved Jacobian column. |
| Scan.FirstMin | fit.c:376-380 | The scan returns the first index holding the least value. |
| Scan.FirstMax | fit.c:376-380 | The scan returns the first index holding the greatest value. |
| Scan.FirstMinUnique | fit.c:376-380 | At most one index is the first minimum, so the specification determines the scan's result. |
| Scan.FirstMaxUnique | fit.c:376-380 | At most one index is the first maximum. |
| Scan.ExtremesMeetIffConstant | fit.c:387-388 | The least and greatest frequency coincide exactly when all frequencies are equal, which is exactly when the slope divides by zero. |
| Scan.Peak | fit.c:392-399 | The running maximum starting from 0 finds the first index of greatest distance. It returns 0 when every distance is 0. |
| Scan.LowEnd | fit.c:403-410 | The lower end of the width window has a frequency no higher than the peak's and no higher than that of any sample above the threshold. It is the first such index, or the peak itself. |
| Scan.HighEnd | fit.c:403-410 | The upper end mirrors the lower end: frequency at or above the peak's and at or above that of every sample above the threshold. |
| Scan.LowEndUnique | fit.c:403-410 | The lower window end is determined by the frequencies, the threshold set and the peak. |
| Scan.HighEndUnique | fit.c:403-410 | The upper window end is determined likewise. |
| Scan.Widen | fit.c:411-414 | A collapsed window is widened by one index on each side where possible. A non-collapsed window is unchanged. Both ends stay in bounds. |
| Scan.WidthNonNegative | fit.c:403-416 | The width is non-negative when the window did not collapse, or when the frequencies ascend. |
| Scan.DescendingWidthNegative | fit.c:411-416 | With descending frequencies, a collapsed window widens to a negative width. |
| InitGuess.FitChord | fit.c:375-388 | No chord exists exactly when all frequencies are equal. Otherwise ifmin and ifmax are the first indices of the least and greatest frequency, and A, B are the midpoints of those two samples. |
| InitGuess.ChordThroughExtremes | fit.c:386-397 | The line with slopes E, F through sample ifmin also passes through sample ifmax. Both extreme samples are at distance 0. |
| InitGuess.Estimate | fit.c:370-421 | The peak is the first index of greatest distance from the chord and w0 is its frequency. dw spans the widened window. C = -w0 dw (im - B) and D = w0 dw (re - A) at the peak. It fails exactly when the chord does. |
| InitGuess.PeakAboveThreshold | fit.c:397-409 | The peak sample is itself beyond the width threshold exactly when some sample is off the chord. |
| InitGuess.GuessWidthNonNegative | fit.c:403-416 | The guessed dw is non-negative unless the window collapsed and the frequencies are out of order. |
| InitGuess.VelocityAmplitudesScale | fit.c:435-441 | The velocity amplitudes (D/w0, -C/w0) produce the coordinate drive C + iD scaled by w/w0, so the two agree at w = w0. |
| InitGuess.Layout | fit.c:423-456 | The guess vector is exactly as long as the variant's parameter count. |
| InitGuess.LayoutReadsBack | fit.c:423-456 | Read back by the evaluator, the layout gives A, B, the amplitudes, w0 and dw for every variant. E, F appear only for linear offsets. Two resonances get equal amplitudes at w0 + dw and w0 - dw. |
| InitGuess.FlatGeometry | fit.c:375-420 | With all frequencies equal, no distance compares above anything: the peak stays at sample 0, w0 is its frequency, A and B are its components, and dw = C = D = 0. |
| InitGuess.InitialGuess | fit.c:370-457 | There is no guess exactly when a linear-offset variant sees only one frequency (E, F are 0/0), or a velocity variant has its peak at frequency 0 (D/w0 divides by zero). Otherwise the guess reads back as A, B and dw of the geometry; w0, or w0 + dw and w0 - dw for two resonances; C, D, or D/w0 and -C/w0 for velocity; E, F only for linear offsets. |
| InitGuess.SeedPassesThroughPeak | fit.c:417-442 | For single-resonance variants with z(w0) != 0, the initial curve passes exactly through the peak sample at w0. |
| InitGuess.Store | fit.c:423-456 | A layout fits a buffer exactly when it is no longer than the buffer. It then fills the first slots, with zeros after. Otherwise the first write past the end is at the slot one past the buffer. |
| InitGuess.BufferOverflowsForDouble | fit.c:443-454 | In the 8-slot buffer, the layout is written out of bounds exactly for the two-resonance variants, first at slot 8. |
| InitGuess.BufferHoldsEveryLayout | fit.c:443-454 | A 10-slot buffer holds every variant's layout, and its first ParCount slots read back as the layout. |
| Fit.FitRes | fit.c:459-507 | The solver starts from the first p slots. Its p parameters and p errors are copied back, the slots past p are zero, and its residual measure is returned. |
| Fit.RefitStartsAtFit | fit.c:491-497 | A second fit started from the buffer a first fit returned starts at exactly the parameters the first fit found. |
| Overload.MaxAbs | fit_res.cpp:99-101 | The running maximum of magnitudes starting from 0 is non-negative and bounds every magnitude. It is 0 or attained by some element. |
| Overload.MaxAbsZeroIff | fit_res.cpp:99-101 | The maximum magnitude is 0 exactly when every value is 0. |
| Overload.Unclipped | fit_res.cpp:122-127 | The filter keeps exactly the samples with \|x\| <= 0.95 maxx and \|y\| <= 0.95 maxy, and never adds samples. |
| Overload.UnclippedAppend | fit_res.cpp:122-127 | The filter distributes over concatenation, so it keeps the samples in their original order. |
| Overload.UnclippedKeepsAllIff | fit_res.cpp:122-127 | Nothing is dropped exactly when every sample survives. Equal length means the result is the input. |
| Overload.CopyUnclipped | fit_res.cpp:120-127 | The copy loop produces the filtered sequence. |
| Overload.ClippingDropsIffSignal | fit_res.cpp:99-127 | With the maxima taken over the data, the filter drops at least one sample exactly when some component is nonzero. |
| Overload.Prefer | fit_res.cpp:132-136 | The reported fit is one of the two, with residual no larger than either. The refit is taken only when strictly better, so a tie keeps the full fit. |
| Driver.SelectVariant | fit.h:41-50 | 6 parameters select the constant-offset and 8 the linear-offset single resonance. The response kind follows the coordinate flag. |
| Driver.Midpoint | fit_res.cpp:141 | The reported time lies between the first and last time stamps and is equidistant from them. |
| Driver.FitStage | fit_res.cpp:111-139 | The reported residual is never worse than the full fit's. Without overload detection the full fit is reported unchanged. |
| Driver.Run | fit_res.cpp:78-155 | A report has exactly p parameters and p errors. |
| Driver.BadUsageIff | fit_res.cpp:78-80 | The run is a usage error exactly when p is neither 6 nor 8. |
| Driver.NoOutputIff | fit_res.cpp:104 | With a valid p, nothing is printed exactly when there are fewer records than parameters. |
| Driver.ReportsWithEnoughRecords | fit_res.cpp:104-141 | With enough records, a line is reported exactly when the initial guess is defined, and its time is the midpoint. The guess is undefined exactly for 8 parameters over a single frequency, or for the velocity response with the peak at frequency 0. |
| Driver.GuessOnlyReport | fit_res.cpp:112-150 | Without fitting, the report is the initial guess with residual 0 and zero errors. |
| Driver.FitNeverWorse | fit_res.cpp:112-139 | With fitting, the reported residual is at most the full fit's. Without overload detection it is the full fit's residual and parameters. |
| Driver.FewSurvivorsKeepFullFit | fit_res.cpp:128 | When fewer than p samples survive the filter, no refit is tried and the full fit stands. |
| Driver.RefitChoice | fit_res.cpp:121-136 | The refit runs on the surviving samples from the full fit's parameters. The smaller residual wins, and the full fit wins a tie. |

## Left out

- The least-squares solver (`solve_system`, fit.c:291-365) is a wrapper around GSL's `gsl_multifit_nlinear_*` trust-region solver. `Fit.FitRes` takes it as a `Solver` parameter. The model says nothing about its iteration, tolerances, its errors scaled by `sqrt(chisq/(n - p))` (fit.c:339) or its returned `sqrt(chisq/n)` (fit.c:364). Here n is `fdf.n`, twice the number of samples (fit.c:302, 486), so the error scale uses 2n - p degrees of freedom inside that unmodelled routine.
- The Jacobian columns for w0, dw, w02 and dw2 (for example fit.c:128-129 and fit.c:184-185) are not modelled. They are derivatives of a nonlinear function, which an exact-arithmetic statement cannot express. Only the affine columns are modelled and proved exact.
- `func_df` reads slots 6 and 7 as E and F whenever there are at least 8 parameters (fit.c:98-99), so with 10 parameters E and F hold C2 and D2. The model does not reproduce this. Only the linear-offset w0 columns read E and F (fit.c:139, 146, 165, 172), and those are left out. The two-resonance cases (fit.c:177-215) never read them.
- Floating point is replaced by exact reals:
  - `hypot` becomes the squared distance;
  - the threshold `d > dmax/sqrt(2)` becomes `2 d^2 > dmax^2`;
  - rounding is not modelled.
- Driver.Run and Driver.ReportsWithEnoughRecords: where `fit_res_init` divides by zero and passes a non-finite value into the guess, the model reports `Degenerate` instead of printing or fitting that value:
  - `FlatFrequency` for a linear offset when all frequencies are equal: E and F are 0/0 (fit.c:387-388) and are stored in the guess (fit.c:433, 442);
  - `ZeroResonance` for a velocity variant whose peak is at w0 = 0: D/w0 and -C/w0 divide by zero (fit.c:436, 440, 451).
- A constant-offset variant over equal frequencies is modelled as the source computes it, by `InitGuess.FlatGeometry`. There every distance is 0/0 and no comparison with it holds, so the guess is the finite `A, B, 0, 0, w0, 0`. E and F are not stored in that case.
- `Regular` (z != 0) is a precondition of the evaluator; where z = 0 the source divides by zero.
- `func_fvv` and `callback` (fit.c:222-289) are not modelled; they are commented out or print-only.
- Option parsing and help (fit_res.cpp:35-76), `--show_zeros`, and the output formatting (fit_res.cpp:143-155) are not modelled. `Driver.Config` holds the values of `--do_fit`, `--overload` and `--pars`, and `Driver.Report` the printed ones.
- The stdin read loop (fit_res.cpp:87-98) is replaced by a sequence of records. Its pushing of a record for a line that fails to parse (for example a trailing empty line) is not modelled. The maxima taken during reading are computed over the records instead, which gives the same values.
- The calls in `main` (fit_res.cpp:107-109, 114-116) pass no variant argument. The declarations at fit.h:32-34 and fit.h:55-57 take a `bool coord`, and the definitions at fit.c:371-373 and fit.c:462-465 take a variant tag that is not defined in these files. The model passes the variant explicitly. `Driver.SelectVariant` derives it from p and a coordinate flag carried in `Driver.Config`. That flag is this model's own addition: no option sets it (fit_res.cpp:61-76).
- `fit_res` and `main` neither rescale the data nor clamp offsets nor map the parameters back; the parameters go to the solver as guessed and come back as the solver leaves them (fit.c:491, 497-498).
- InitGuess.SeedPassesThroughPeak: stated only for single-resonance variants and under z(w0) != 0, that is w0 != 0 and dw != 0. The two-resonance layout places its two terms at w0 +- dw, so the initial curve does not pass through the peak.
- InitGuess.Estimate: states the threshold on squared distances. It matches the source's `d > dmax/sqrt(2)` only in exact arithmetic.
- Fit.FitRes: nothing is stated about the quality of the solver's result, which is a parameter. When the solver returns fewer than p values, the missing slots read as zero.

## Findings

| source | as written | input that shows it | evidently intended | confidence | as-written member | corrected member |
|---|---|---|---|---|---|---|
| fit.h:10 | The compact form divides by `w0^2 - w^2 - i w dw`. fit.h:15 and fit_res.cpp:16 say the same. | C = 0, D = 1, w0 = 0, dw = 1, w = 1: the documented term is -1/2 - i/2, while the component formulas (fit.h:11-12, fit.c:56-57) give 1/2 - i/2 (`ModelProps.DocumentedResonanceExample`). They differ whenever w dw != 0 and the amplitude is nonzero. | denominator `w0^2 - w^2 + i w dw`, which the component formulas and the code compute | high for the documentation mismatch; not executed | ModelProps.DocumentedResonanceDisagrees | ModelProps.EvalIsComplexForm |
| fit.c:443-454 | The two-resonance layouts write `pars[8]` and `pars[9]` into `pars[MAXPARS]`, with MAXPARS = 8 (fit.h:4, fit_res.cpp:84). `fit_res` copies 10 values into the same buffer (fit.c:497-498). | any DOSCX_COFFS or DOSCV_COFFS guess: first write out of bounds at slot 8. `main` accepts only 6 or 8 parameters, so the command line cannot reach this. | a buffer of 10 slots, the largest parameter count | medium: latent, not reachable through `main`; not executed | InitGuess.BufferOverflowsForDouble | InitGuess.BufferHoldsEveryLayout |

`Fit` and `Driver` use a buffer of `InitGuess.BufferSize` = 10 slots. The reported values, the first p slots, are the same as with 8 slots whenever p <= 8.
