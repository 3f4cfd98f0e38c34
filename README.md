# Benchmark timer and chemistry lookups

This project models two small parts of a collection of numeric benchmarks.

- The scoped `timer` class and its duration formatter `to_pretty_str`
  (2_part1.cpp:13-95). The same code appears verbatim in 2_part2.cpp,
  2_part4.cpp and 2_part5.cpp, so one model covers all four copies.
  - `to_pretty_str` prints a number in one of three ways:
    - plain decimal below 10,000;
    - a thousands-grouped form up to 999,999;
    - a scaled form ending in " million", " billion" or " trillion" above that.
  - `timer` records a start and a stop reading of the clock. It prints the
    microseconds between them together with a label, unless every timer has
    been silenced.
- The three lookups of problem1/chemistry_utils.cpp:8-44: name to molar mass,
  atomic number to name, and name to atomic number. Each returns a fallback
  value for anything it does not know.

Files:

- `options.dfy` holds the `Option` type.
- `pretty.dfy` (module `PrettyFormat`) holds `to_pretty_str` and the decimal
  rendering, parsing, padding and comma-removal functions its properties are
  stated with.
- `timer.dfy` (module `Timing`) holds the timer. The class `Timer` has the four
  fields of the C++ class. The shared `silent` flag and the standard output
  stream live in one `ProcessState` object that every timer refers to. Each
  method is specified by a pure transition function on the `TimerState`
  datatype, and the lemmas are about those functions.
- `chemistry.dfy` (module `Chemistry`) holds the three lookups. They are proved
  against an independent reference table, `KnownElements`, searched by
  `FindByName` and `FindByNumber`.

The comparisons in `to_pretty_str` compare an integer with the double literals
1e4, 1e6, 1e9 and 1e12. All of these, and each of them minus one, are exact
doubles, so every comparison is the integer comparison with the same constant.
`std::floor(n / 1000)` on an integer argument is integer division for the
non-negative values that reach that branch.

## Model

| member | source | states |
|---|---|---|
| PrettyFormat.ToPrettyStr | 2_part1.cpp:13-30 | the formatter itself; its contract is stated by PlainBranch, GroupedText, GroupedBranch, GroupedBranchReadsBack, ScaledBranch, PlainExactlyBelowLimit and Thresholds |
| PrettyFormat.Decimal | 2_part1.cpp:18 | `ss << n` for an integer; stated by DecimalRoundTrip and DecimalCharacters |
| PrettyFormat.Grouped | 2_part1.cpp:20-21 | the grouped text of thousands q and remainder m; stated by GroupedReadsBack and the three GroupedExample lemmas |
| PrettyFormat.Suffix | 2_part1.cpp:23-28 | the unit word of the floating-point branches; stated by ScaledBranch |
| PrettyFormat.Exponent | 2_part1.cpp:23-28 | the power of ten divided out in the floating-point branches; stated by ScaledBranch |
| PrettyFormat.NatDigits | 2_part1.cpp:18 | the decimal text of a natural number is non-empty and all digits, with no leading zero unless the number is 0 |
| PrettyFormat.PadLeft | 2_part1.cpp:21 | `setw(w)` with `setfill(c)`: a shorter text grows to exactly width w by adding c on the left and ends with the original text; a longer text is left as it is |
| PrettyFormat.DecimalRoundTrip | 2_part1.cpp:18 | parsing the decimal text of any integer, negative included, gives the integer back |
| PrettyFormat.DecimalCharacters | 2_part1.cpp:18 | the decimal text of a negative number is a minus sign followed by digits; that of a non-negative number is digits only |
| PrettyFormat.NatDigitsLength | 2_part1.cpp:17-18 | a natural number has at most k digits exactly when it is below 10^k |
| PrettyFormat.ParseZeroPadded | 2_part1.cpp:21 | left-padding digits with zeros does not change their value |
| PrettyFormat.Pad3 | 2_part1.cpp:21 | a remainder below 1000, zero-padded to width 3, is exactly 3 digits that read back as the remainder |
| PrettyFormat.PlainBranch | 2_part1.cpp:17-18 | below 10,000 (negative numbers included) the text is the canonical decimal of n: it parses back to n, has no comma and no space, and has no leading zero (after the minus sign for n < 0) unless n is 0; for n >= 0 it is at most 4 digits |
| PrettyFormat.GroupedText | 2_part1.cpp:19-22 | from 10,000 to 999,999 the text is the thousands, a comma, and the remainder zero-padded to 3 digits |
| PrettyFormat.GroupedBranch | 2_part1.cpp:19-22 | from 10,000 to 999,999 the text has 6 or 7 characters with a comma 4th from the end; the 2 or 3 digits before it (no leading zero) read as n / 1000, and the exactly 3 digits after it read as n % 1000 |
| PrettyFormat.GroupedBranchReadsBack | 2_part1.cpp:19-22 | from 10,000 to 999,999, deleting the comma and parsing the text gives back n |
| PrettyFormat.GroupedReadsBack | 2_part1.cpp:20-21 | for any thousands q in 10..999 and remainder m < 1000, the grouped text without its comma parses to q * 1000 + m |
| PrettyFormat.ScaledBranch | 2_part1.cpp:23-28 | from 1,000,000 up, the text is the scaled number followed by " million" exactly below 10^9, " billion" exactly in [10^9, 10^12), and " trillion" exactly from 10^12; the scale is 10^6, 10^9 or 10^12 to match |
| PrettyFormat.PlainExactlyBelowLimit | 2_part1.cpp:17-28 | the text parses as an integer if and only if n < 10,000 |
| PrettyFormat.Thresholds | 2_part1.cpp:17-28 | the comparisons are strict: 9999 is plain, and 10^6, 10^9 and 10^12 take the million, billion and trillion branches; 999,999,999 and 999,999,999,999 still take the lower branch |
| PrettyFormat.GroupedExample12005 | 2_part1.cpp:19-22 | 12005 splits into 12 and 5 and is written "12,005" |
| PrettyFormat.GroupedExample10000 | 2_part1.cpp:19-22 | 10000 is written "10,000" |
| PrettyFormat.GroupedExample999999 | 2_part1.cpp:19-22 | 999999 is written "999,999" |
| Timing.TicksToMicros | 2_part1.cpp:60 | `duration_cast<microseconds>` of nanosecond ticks rounds toward zero: within one microsecond below the ticks for a positive count, and within one microsecond above them for a negative count |
| Timing.ElapsedMicros | 2_part1.cpp:60 | the whole microseconds between two readings; stated by TicksToMicros and StoppedElapsedNonNegative |
| Timing.ReportLine | 2_part1.cpp:61 | the text of the printed line; stated by ReportIsOneLine, ResetReportsZero and ShortMeasurement |
| Timing.AfterStart | 2_part1.cpp:66-70 | the state after `start`; stated by StartKeepsStopTime |
| Timing.Created | 2_part1.cpp:41-43 | the state of a new timer; stated by CreatedState |
| Timing.AfterStop | 2_part1.cpp:72-78 | the state after `stop`; stated by StopIsIdempotent |
| Timing.AfterReset | 2_part1.cpp:80-85 | the state after `reset`; stated by ResetReportsZero |
| Timing.AfterSetLabel | 2_part1.cpp:54-56 | the state after `set_label`: only the label changes, as Timer.SetLabel states |
| Timing.Elapsed | 2_part1.cpp:60 | the duration `print` reports, stop time minus start time whether or not the timer runs; stated by ResetReportsZero, StoppedElapsedNonNegative and PrintBeforeStopIsStale |
| Timing.Report | 2_part1.cpp:58-64 | what `print` writes; stated by ReportIsOneLine and SilencedReportsNothing |
| Timing.ProcessState.constructor | 2_part1.cpp:95 | `silent` starts false and nothing has been printed |
| Timing.Timer.constructor | 2_part1.cpp:41-43 | a new timer has its label, is running from `now`, and its stop time is the epoch |
| Timing.Timer.Default | 2_part1.cpp:41-43 | the default label is "some function/code" |
| Timing.Timer.Silence | 2_part1.cpp:50-52 | sets the shared flag to true and changes nothing else |
| Timing.Timer.SetLabel | 2_part1.cpp:54-56 | replaces the label and changes no other field |
| Timing.Timer.Print | 2_part1.cpp:58-64 | changes no field and not `silent`; appends nothing when silenced, else one report line |
| Timing.Timer.Start | 2_part1.cpp:66-70 | sets the start time to `now` and running to true; the stop time and label are unchanged |
| Timing.Timer.Stop | 2_part1.cpp:72-78 | a running timer records `now` as its stop time and stops; a stopped timer is unchanged |
| Timing.Timer.Reset | 2_part1.cpp:80-85 | start and stop time become `now` and the timer stops |
| Timing.Timer.ResetAndPrint | 2_part1.cpp:87-91 | reports the window as it was before the reset, then resets |
| Timing.Timer.Destroy | 2_part1.cpp:45-48 | the destructor stops, then reports the stopped window |
| Timing.ScopedTimer | 2_part1.cpp:156 | a timer created at t0 and destroyed at t1 writes the report for start t0 and stop t1, or nothing when silenced |
| Timing.StopIsIdempotent | 2_part1.cpp:72-78 | a second stop changes nothing; after stop the timer is not running; stop on a running timer sets only the stop time |
| Timing.StartKeepsStopTime | 2_part1.cpp:66-70 | start leaves the stop time and the label as they were |
| Timing.CreatedState | 2_part1.cpp:41-43 | a new timer is exactly (label, now, epoch, running) |
| Timing.ResetReportsZero | 2_part1.cpp:80-85 | after reset the elapsed time is 0, a following stop changes nothing, and the report reads "0 microseconds spent in program unit '<label>'" |
| Timing.SilencedReportsNothing | 2_part1.cpp:50-52 | once silenced, neither print nor the destructor writes anything |
| Timing.ReportIsOneLine | 2_part1.cpp:58-64 | print writes one line when not silenced and none otherwise; after the number the line is " microseconds spent in program unit '", the label and a quote |
| Timing.StoppedElapsedNonNegative | 2_part1.cpp:72-78 | when clock readings do not go backwards, the window reported after stop is never negative |
| Timing.PrintBeforeStopIsStale | 2_part1.cpp:35-43 | print before any stop measures from the start back to the epoch: a negative duration, and the line starts with '-' |
| Timing.ShortMeasurement | 2_part1.cpp:41-78 | a timer stopped less than 10 ms after it starts reports (t1 - t0) / 1000 as a plain number with no comma |
| Chemistry.CalculateMolarMass | problem1/chemistry_utils.cpp:8-18 | `calculateMolarMass`; stated by MolarMassMatchesTable, MassAndNumberAgree and KnownMolarMasses |
| Chemistry.GetElementName | problem1/chemistry_utils.cpp:20-32 | `getElementName`; stated by ElementNameMatchesTable, NumberRoundTrip and UnknownNameFallback |
| Chemistry.GetAtomicNumber | problem1/chemistry_utils.cpp:34-44 | `getAtomicNumber`; stated by AtomicNumberMatchesTable, NameRoundTrip and UnknownNameFallback |
| Chemistry.FindByName | problem1/chemistry_utils.cpp:8-18 | the reference lookup by name returns an entry with that name, or none when no entry has it |
| Chemistry.FindByNumber | problem1/chemistry_utils.cpp:20-32 | the reference lookup by atomic number returns an entry with that number, or none when no entry has it |
| Chemistry.NameThenNumber | problem1/chemistry_utils.cpp:20-44 | in a table without repeated names or numbers, every entry is found by its name and by its number |
| Chemistry.KnownElementsWellFormed | problem1/chemistry_utils.cpp:8-44 | the reference table has distinct names and numbers, no atomic number 0, no entry named "Unknown" and no zero mass, so the fallbacks never collide with a real entry |
| Chemistry.AtomicNumberMatchesTable | problem1/chemistry_utils.cpp:34-44 | `getAtomicNumber` is the table entry's number for a known name and 0 for any other string |
| Chemistry.MolarMassMatchesTable | problem1/chemistry_utils.cpp:8-18 | `calculateMolarMass` is the table entry's mass for a known name and 0.0 for any other string |
| Chemistry.ElementNameMatchesTable | problem1/chemistry_utils.cpp:20-32 | `getElementName` is the table entry's name for a known number and "Unknown" for any other |
| Chemistry.NumberRoundTrip | problem1/chemistry_utils.cpp:20-44 | an atomic number has a name exactly when it is 1, 6 or 8, and for those the name maps back to the number |
| Chemistry.NameRoundTrip | problem1/chemistry_utils.cpp:20-44 | a name has an atomic number exactly when it is "Hydrogen", "Carbon" or "Oxygen", and for those the number maps back to the name |
| Chemistry.UnknownNameFallback | problem1/chemistry_utils.cpp:29-30 | a name maps through number to "Unknown" exactly when it is not recognised; "Unknown" and "hydrogen" map to 0 |
| Chemistry.MassAndNumberAgree | problem1/chemistry_utils.cpp:8-44 | the molar mass is non-zero exactly when the atomic number is, and it is never negative |
| Chemistry.KnownMolarMasses | problem1/chemistry_utils.cpp:8-18 | Hydrogen 1.008, Carbon 12.011, Oxygen 15.999; the empty name gives 0.0 |

## Left out

- The numeric text of the million, billion and trillion branches (2_part1.cpp:23-28). It comes from `stringstream` formatting of a double with 3 significant digits. The model passes it in as the function `scaled` and states only which branch and suffix is taken.
- Floating-point instantiations of `to_pretty_str`: the timer only calls it with an integer count.
- The clock: `high_resolution_clock::now()` becomes a parameter `now` in nanosecond ticks, the period of the common standard libraries.
- Timing.TicksToMicros: does not model 64-bit overflow of tick or microsecond counts, because the counts are unbounded integers.
- `std::cout`: each printed line is appended to the ghost sequence `ProcessState.lines`; stream failures and flushing are not modelled.
- The `*this` returned by `start`, `stop`, `reset`, `print` and `reset_and_print` for chaining: the methods return nothing, and a chain is a sequence of calls.
- The privacy of `timer::silent` (2_part1.cpp:38): `ProcessState.silent` is a public field. That `silence` is one-way rests on the `modifies` clauses of the `Timer` methods, none of which but `Silence` names `silent`; code outside the model could still clear it.
- Concurrent use of timers and of the shared `silent` flag.
- `calculateDensity` (problem1/chemistry_utils.cpp:4-6): an unguarded floating-point division.
- Molar masses are exact `real` values, not the nearest doubles.
- The `main` benchmark bodies, random numbers, raw allocation, the element-wise `std::vector<double>` operators, AVX-512 intrinsics and the Armadillo, Eigen and valarray calls: floating-point kernels, wall-clock measurement and foreign library calls.
- The verbatim copies of the timer in 2_part2.cpp, 2_part4.cpp and 2_part5.cpp are covered by the one model.
- 2_part3.py (numpy timing only), problem1/main.cpp (prints the lookups) and problem1/chemistry_utils.h (declarations only) are not part of this model.
- Examples of `to_pretty_str` in the grouped branch are stated on `Grouped`, the text the branch produces (see `GroupedText`), not on `ToPrettyStr` itself.
