# Pointless Waymarks core — a Dafny model

This project models the computational core of the Pointless Waymarks tools in
Dafny and proves properties of that model. The core has the following parts.

- **The IGRF geomagnetic evaluator.** `IgrfMagneticModelTools` loads a
  spherical-harmonic coefficient (SHC) model, either embedded (IGRF-13/IGRF-14)
  or read from a file. It scans the header and data lines, reshapes the numbers
  into a time series and a coefficient matrix, interpolates the coefficients
  at the date and its next year, synthesises the field at one geocentric point
  (`SynthValues`, using `LegendrePoly`), rotates the field into geodetic
  X/Y/Z, and derives declination, inclination and the horizontal and total
  intensities and their secular variation (`Xyz2Dhif` and `Xyz2DhifSv`).
- **Bearings.** `BearingTools` corrects a magnetic bearing by a declination and
  normalises it into [0, 360).
- **Validation of the web API reply.** `IgrfGeomagneticApiReturn.Validate`
  checks the geomagnetic service's reply.
- **The console editors.**
  - `ConsoleTools.ReadLine` drives a `KeyHandler` line editor with a cursor,
    word and line kills, and transposition.
  - The obscured-password prompt exists in two copies: `ConsoleTools` and
    `ConsoleEntryTools`.
- **The WPF/Avalonia entry helpers.**
  - The text-to-value conversions of `ConversionDataEntryHelpers`.
  - The validators of `ObfuscatedSettingsHelpers`.
  - The validation loop of the bool and string "no change indicator" entry
    contexts.
  - The help-text joiner of `HelpDisplayContext`.
  - Both `ProgramUpdateMessageContext` copies.
  - Three value converters.

**How the model is shaped.** Pure code is modelled as functions over datatypes.
Code that loops or mutates is modelled as methods proved against those
functions:

- `LegendrePoly` fills a two-dimensional `array2`.
- `SynthValues` sums the degrees and orders with while loops and invariants.
- The SHC scan folds over the lines.
- The reshape copies the data into a fresh matrix.
- `KeyHandler` is a class with text, cursor and limit fields.
- The entry contexts and update message contexts are classes whose methods
  update their fields.

**Floating-point arithmetic.** It is not modelled bit for bit. Square roots,
trigonometry, powers, and the products and quotients of computed values go
through a `FloatOps` record of operations. Where an identity needs them, the
lemmas state laws about these operations: exactness, or the IEEE-safe
`0 * x = 0` family. All the structural facts hold for any implementation of the
operations. Examples of such facts:

- which coefficients each degree reads;
- that zero coefficients give a zero field;
- the recurrences each table entry satisfies.

Integer conversions and overflow that are observable are written out:
`Convert.ToInt32` rounds half to even and throws outside int32, and the int
arithmetic of the reshape wraps at 32 bits.

## Model

| member | source | states |
|---|---|---|
| BearingTools.Remainder360 | PointlessWaymarks.SpatialTools/BearingTools.cs:20 | the C# `%` on doubles: the remainder lies in (-360, 360) and has the sign of the dividend |
| BearingTools.NormalizeBearing | PointlessWaymarks.SpatialTools/BearingTools.cs:17-23 | the normalised bearing lies in [0, 360) |
| BearingTools.NormalizeBearingRange | PointlessWaymarks.SpatialTools/BearingTools.cs:17-23 | the normalised bearing lies in [0, 360) and differs from the input by whole turns |
| BearingTools.NormalizeBearingUnique | PointlessWaymarks.SpatialTools/BearingTools.cs:17-23 | any value in [0, 360) that is whole turns away from the bearing is the normalised bearing |
| BearingTools.NormalizeBearingFixesRange | PointlessWaymarks.SpatialTools/BearingTools.cs:17-23 | a bearing already in [0, 360) is left unchanged |
| BearingTools.NormalizeBearingIdempotent | PointlessWaymarks.SpatialTools/BearingTools.cs:17-23 | normalising twice is the same as normalising once |
| BearingTools.ApplyDeclination | PointlessWaymarks.SpatialTools/BearingTools.cs:5-9 | the true bearing lies in [0, 360) and is whole turns away from bearing + declination |
| BearingTools.ApplyDeclinationFromData | PointlessWaymarks.SpatialTools/BearingTools.cs:11-15 | uses exactly the declination carried by the geomagnetic data, with the same range guarantee |
| Calendar.DaysInYear | PointlessWaymarks.SpatialTools/IgrfMagneticModelTools.cs:89 | 365 or 366, and 366 exactly in Gregorian leap years |
| Calendar.IsLeapYear | PointlessWaymarks.SpatialTools/IgrfMagneticModelTools.cs:89 | the Gregorian rule: a leap year is divisible by 4, every year divisible by 4 but not by 100 is one, every year divisible by 400 is one, and the other century years are not |
| Calendar.LeapYearExamples | PointlessWaymarks.SpatialTools/IgrfMagneticModelTools.cs:89 | 2024, 2000 and 1904 are leap years; 2023, 1900 and 2100 are not |
| Calendar.DayOfYear | PointlessWaymarks.SpatialTools/IgrfMagneticModelTools.cs:88 | the day number lies in 1..DaysInYear, and is 1 exactly on 1 January |
| FloatMath.RadiansToDegrees | PointlessWaymarks.SpatialTools/IgrfMagneticModelTools.cs:787-790 | inverse of the degrees-to-radians conversion |
| ConsoleKeys.BuildKeyInput | PointlessWaymarks.CommonTools/ConsoleTools.cs:174-179 | exactly Control gives "Control"+key, exactly Shift gives "Shift"+key, any other modifier set gives the bare key name |
| ConsoleKeys.CombinedModifiersIgnored | PointlessWaymarks.CommonTools/ConsoleTools.cs:174-179 | Alt, or Shift with Control, builds the same input as no modifier |
| Numerics.Wrap32 | PointlessWaymarks.SpatialTools/IgrfMagneticModelTools.cs:737 | the result is an int32 congruent to the input modulo 2^32; int32 inputs are unchanged, and a value just above int.MaxValue wraps to value - 2^32 |
| Numerics.TruncDiv | PointlessWaymarks.SpatialTools/IgrfMagneticModelTools.cs:737 | C# integer division truncates toward zero: it agrees with floor division for a non-negative dividend and positive divisor, and for a non-negative dividend and a negative divisor it is never positive |
| Numerics.Truncate | PointlessWaymarks.SpatialTools/IgrfMagneticModelTools.cs:115 | the cast (int) of a double rounds toward zero: never further from zero than x, and less than one away |
| Numerics.RoundHalfEven | PointlessWaymarks.SpatialTools/IgrfMagneticModelTools.cs:723 | the rounded integer is within 0.5 of x, and a tie goes to the even neighbour |
| Numerics.ToInt32 | PointlessWaymarks.SpatialTools/IgrfMagneticModelTools.cs:723 | Convert.ToInt32(double) succeeds exactly for x in [-2147483648.5, 2147483647.5), with an int32 result within 0.5 of x and even on a tie; otherwise OverflowException |
| Numerics.ToInt32Examples | PointlessWaymarks.SpatialTools/IgrfMagneticModelTools.cs:723 | banker's rounding: 2.5 gives 2, 3.5 gives 4, -2.5 gives -2; 2^31 overflows |
| IgrfGeomagnetic.FractionalYear | PointlessWaymarks.SpatialTools/IgrfMagneticModelTools.cs:88-90 | the decimal year lies in [year, year + 1), and equals year exactly on 1 January |
| IgrfGeomagnetic.EpochStart | PointlessWaymarks.SpatialTools/IgrfMagneticModelTools.cs:115-116 | the epoch offset is a multiple of 5 whose 5-year window brackets every year from 1900; for 1895-1900 truncation toward zero gives 0 |
| IgrfGeomagnetic.EpochBracketsDate | PointlessWaymarks.SpatialTools/IgrfMagneticModelTools.cs:113-116 | the date's calendar year lies in the epoch window [1900 + e, 1900 + e + 5) |
| IgrfGeomagnetic.DhifIntensities | PointlessWaymarks.SpatialTools/IgrfMagneticModelTools.cs:897-906 | with exact square roots: H^2 = X^2 + Y^2, F^2 = H^2 + Z^2 and 0 <= H <= F |
| IgrfGeomagnetic.ExactIntensities | PointlessWaymarks.SpatialTools/IgrfMagneticModelTools.cs:897-906 | exact operations satisfy the intensity laws the readings rely on |
| IgrfGeomagnetic.RatesOpposeTests | PointlessWaymarks.SpatialTools/IgrfMagneticModelTools.cs:916-925 | the declination and inclination rates are -60 times the test quantities (radians per year to arc-minutes, sign reversed) |
| IgrfGeomagnetic.HorizontalRate | PointlessWaymarks.SpatialTools/IgrfMagneticModelTools.cs:911-914 | with a non-zero horizontal field: H > 0, H^2 = X^2 + Y^2 and H * Hdot = X * Xdot + Y * Ydot |
| IgrfGeomagnetic.RotationIsRigid | PointlessWaymarks.SpatialTools/IgrfMagneticModelTools.cs:158-161 | the geocentric-to-geodetic rotation keeps the length of (X, Z) and keeps Y; rotating back by -sd restores the vector |
| IgrfGeomagnetic.Rotate | PointlessWaymarks.SpatialTools/IgrfMagneticModelTools.cs:158-161 | Y is unchanged; with exact products X becomes X cd + Z sd and Z becomes Z cd - X sd |
| IgrfGeomagnetic.RotateInPlace | PointlessWaymarks.SpatialTools/IgrfMagneticModelTools.cs:158-161 | the in-place update of the X and Z variables computes the rotation |
| IgrfGeomagnetic.ExactRotationKeepsLength | PointlessWaymarks.SpatialTools/IgrfMagneticModelTools.cs:158-171 | with exact operations the rotation keeps the field length |
| IgrfGeomagnetic.ZeroFieldHasZeroComponents | PointlessWaymarks.SpatialTools/IgrfMagneticModelTools.cs:145-161 | a zero field has zero components after the rotation |
| IgrfGeomagnetic.ReadSeries | PointlessWaymarks.SpatialTools/IgrfMagneticModelTools.cs:98-104 | the loop reads each coefficient row of the matrix without changing it |
| IgrfGeomagnetic.InterpolateAt | PointlessWaymarks.SpatialTools/IgrfMagneticModelTools.cs:106-108 | a fresh array holding, for each coefficient, the spline through its time series evaluated at t |
| IgrfGeomagnetic.YearlyChangeAt | PointlessWaymarks.SpatialTools/IgrfMagneticModelTools.cs:128-132 | a fresh array holding each coefficient's value at start + 1 minus its value at start |
| IgrfGeomagnetic.SteadyCoefficientsDoNotChange | PointlessWaymarks.SpatialTools/IgrfMagneticModelTools.cs:128-132 | a coefficient whose spline has the same value at start and start + 1 has zero yearly change |
| IgrfGeomagnetic.MainReadingIntensities | PointlessWaymarks.SpatialTools/IgrfMagneticModelTools.cs:145-175 | under the intensity laws and a length-keeping rotation, the main-field reading has H^2 = X^2 + Y^2 and F^2 = H^2 + Z^2, 0 <= H <= F, and F^2 is the squared length of the synthesised field |
| IgrfGeomagnetic.NoChangeNoSecularVariation | PointlessWaymarks.SpatialTools/IgrfMagneticModelTools.cs:150-166 | a zero secular-variation field gives zero X/Y/Z rates |
| IgrfGeomagnetic.GeomagneticOutcome | PointlessWaymarks.SpatialTools/IgrfMagneticModelTools.cs:84-200 | the evaluation succeeds exactly when nmax is an int parameter, the geocentric colatitude is within [0, 180] and the degrees resolve; a missing nmax passes its exception through; a result echoes the date, latitude, longitude and altitude |
| IgrfGeomagnetic.ConstantCoefficientsHaveNoSecularVariation | PointlessWaymarks.SpatialTools/IgrfMagneticModelTools.cs:113-135 | coefficients whose splines do not change over the year give zero secular variation |
| IgrfGeomagnetic.ZeroCoefficientsGiveNoField | PointlessWaymarks.SpatialTools/IgrfMagneticModelTools.cs:134-135 | all-zero coefficients synthesise a zero field |
| IgrfGeomagnetic.Evaluate | PointlessWaymarks.SpatialTools/IgrfMagneticModelTools.cs:88-200 | the imperative evaluation computes GeomagneticOutcome of the loaded model |
| IgrfGeomagnetic.SecularVariation | PointlessWaymarks.SpatialTools/IgrfMagneticModelTools.cs:113-178 | the yearly-change synthesis and its rotation compute the secular-variation reading |
| IgrfGeomagnetic.GetGeomagneticData | PointlessWaymarks.SpatialTools/IgrfMagneticModelTools.cs:84-92 | equals GeomagneticDataOutcome: an unknown model number gives ArgumentOutOfRangeException, a scan failure of the chosen embedded text passes through, and otherwise the result is that of the loaded model |
| IgrfGeomagnetic.GeomagneticDataOutcome | PointlessWaymarks.SpatialTools/IgrfMagneticModelTools.cs:84-200 | an unknown model number gives ArgumentOutOfRangeException; scan, "N" and reshape failures of the embedded text pass through; a result echoes the date, position and altitude |
| IgrfGeomagnetic.ModelSeriesIsReshape | PointlessWaymarks.SpatialTools/IgrfMagneticModelTools.cs:735-742 | the loaded model's coefficient rows are the reshape of the data after the N times |
| IgrfShc.Split | PointlessWaymarks.SpatialTools/IgrfMagneticModelTools.cs:698 | Split with RemoveEmptyEntries: every piece is non-empty and contains no separator |
| IgrfShc.SplitKeepsText | PointlessWaymarks.SpatialTools/IgrfMagneticModelTools.cs:698 | concatenating the pieces gives the text with the separators removed |
| IgrfShc.SplitFromKeepsText | PointlessWaymarks.SpatialTools/IgrfMagneticModelTools.cs:698 | the same for the scan that has already collected a partial piece |
| IgrfShc.ParseAll | PointlessWaymarks.SpatialTools/IgrfMagneticModelTools.cs:718-719 | succeeds exactly when every token parses, and then holds each token's value in order; otherwise FormatException |
| IgrfShc.ScanFailureStops | PointlessWaymarks.SpatialTools/IgrfMagneticModelTools.cs:718-719 | once a line throws, later lines do not change the outcome |
| IgrfShc.ToInt32All | PointlessWaymarks.SpatialTools/IgrfMagneticModelTools.cs:723 | succeeds exactly when every number converts to int32, holding the conversions in order; otherwise OverflowException |
| IgrfShc.ParameterEntry | PointlessWaymarks.SpatialTools/IgrfMagneticModelTools.cs:722-723 | a header line contributes the model name followed by its integers, in order |
| IgrfShc.ScanLine | PointlessWaymarks.SpatialTools/IgrfMagneticModelTools.cs:707-728 | a comment line succeeds and, with the comment-name rule, the first one becomes the name; any other line is split and parsed, with a parse failure passing through; seven numbers append the name and their int32 conversions to the parameters (or give the conversion's OverflowException); any other count appends the numbers to the data |
| IgrfShc.ScanLines | PointlessWaymarks.SpatialTools/IgrfMagneticModelTools.cs:705-729 | a successful scan only appends to the starting parameters and data |
| IgrfShc.ScanLinesAppend | PointlessWaymarks.SpatialTools/IgrfMagneticModelTools.cs:705-729 | scanning a + b is scanning a and then b from the state a leaves, and a failure in a ends the scan |
| IgrfShc.ScanGroupsValues | PointlessWaymarks.SpatialTools/IgrfMagneticModelTools.cs:705-729 | after any scan, the values come in whole entries of a name and seven int32 values |
| IgrfShc.ScanShcLines | PointlessWaymarks.SpatialTools/IgrfMagneticModelTools.cs:705-729 | the imperative line loop computes the functional scan |
| IgrfShc.ScanNameIsFirstComment | PointlessWaymarks.SpatialTools/IgrfMagneticModelTools.cs:702-716 | for the embedded texts, the model name is the first comment line verbatim, and only when no comment exists is the starting name kept |
| IgrfShc.ScanKeepsNameWithoutComments | PointlessWaymarks.SpatialTools/IgrfMagneticModelTools.cs:752-758 | the file scan, which skips comments, never changes the name |
| IgrfShc.Parameters | PointlessWaymarks.SpatialTools/IgrfMagneticModelTools.cs:732-733 | the dictionary built by Zip maps the k-th key to the k-th value for k below both lengths, and holds no other key |
| IgrfShc.IntParameter | PointlessWaymarks.SpatialTools/IgrfMagneticModelTools.cs:735 | succeeds exactly when the key is present with an int value; a missing key gives KeyNotFoundException |
| IgrfShc.Take | PointlessWaymarks.SpatialTools/IgrfMagneticModelTools.cs:735 | LINQ Take: min(n, length) leading elements (none for n <= 0), unchanged |
| IgrfShc.ParametersInt32 | PointlessWaymarks.SpatialTools/IgrfMagneticModelTools.cs:731-733 | every int parameter built from scanned values is an int32 |
| IgrfShc.ParametersAreInts | PointlessWaymarks.SpatialTools/IgrfMagneticModelTools.cs:731-737 | every key other than "SHC" holds an int, so reading it succeeds |
| IgrfShc.Skip | PointlessWaymarks.SpatialTools/IgrfMagneticModelTools.cs:736 | LINQ Skip: drops as many elements as Take keeps |
| IgrfShc.TakeSkip | PointlessWaymarks.SpatialTools/IgrfMagneticModelTools.cs:735-736 | Take followed by Skip rebuilds the data |
| IgrfShc.ReshapeError | PointlessWaymarks.SpatialTools/IgrfMagneticModelTools.cs:737 | N = -2 gives DivideByZeroException, any other negative N gives OverflowException (negative array size), and 0 <= N <= int.MaxValue - 2 gives none |
| IgrfShc.ReshapeDropsOnlyPartialRow | PointlessWaymarks.SpatialTools/IgrfMagneticModelTools.cs:737 | the matrix's rows times N + 2 cover the data except a final partial row |
| IgrfShc.ReshapeInBounds | PointlessWaymarks.SpatialTools/IgrfMagneticModelTools.cs:737-740 | every matrix cell reads a position inside the coefficient data |
| IgrfShc.ReshapedSeries | PointlessWaymarks.SpatialTools/IgrfMagneticModelTools.cs:737-740 | every row of the reshaped data has N values, and the rows times N + 2 cover the data except a final partial row |
| IgrfShc.FillCoefficients | PointlessWaymarks.SpatialTools/IgrfMagneticModelTools.cs:737-740 | a fresh rows-by-N matrix whose cell (i, j) is the datum at N + i(N + 2) + j + 2 |
| IgrfShc.CopyRow | PointlessWaymarks.SpatialTools/IgrfMagneticModelTools.cs:739-740 | row i gets its N data values and every other row is untouched |
| IgrfShc.Reshape | PointlessWaymarks.SpatialTools/IgrfMagneticModelTools.cs:735-742 | a missing N passes KeyNotFound through, invalid N gives its exception, otherwise the model holds the first N numbers as times and the reshaped matrix |
| IgrfShc.Unpack | PointlessWaymarks.SpatialTools/IgrfMagneticModelTools.cs:731-742 | builds the parameter dictionary from a scan, and the model is the reshape of the scanned data |
| IgrfShc.LoadInternalShcModel | PointlessWaymarks.SpatialTools/IgrfMagneticModelTools.cs:688-743 | an unknown model gives ArgumentOutOfRangeException; otherwise a scan failure passes through and a scanned model is reshaped |
| IgrfShc.LoadShcFile | PointlessWaymarks.SpatialTools/IgrfMagneticModelTools.cs:745-785 | a scan failure of the file's lines passes through; otherwise the model is the reshape of the scanned data |
| IgrfSynth.ISqrt | PointlessWaymarks.SpatialTools/IgrfMagneticModelTools.cs:817 | the integer square root r of k satisfies r^2 <= k < (r + 1)^2 |
| IgrfSynth.ISqrtUnique | PointlessWaymarks.SpatialTools/IgrfMagneticModelTools.cs:817 | that r is the only number with this property |
| IgrfSynth.NmaxOfFullModel | PointlessWaymarks.SpatialTools/IgrfMagneticModelTools.cs:817 | a vector of exactly k^2 + 2k coefficients has degree k |
| IgrfSynth.NmaxCoeffsIsLargest | PointlessWaymarks.SpatialTools/IgrfMagneticModelTools.cs:817 | the vector is too short for one more degree |
| IgrfSynth.CoefficientsCover | PointlessWaymarks.SpatialTools/IgrfMagneticModelTools.cs:817-828 | every degree up to the computed maximum fits in the vector |
| IgrfSynth.ResolveDegrees | PointlessWaymarks.SpatialTools/IgrfMagneticModelTools.cs:814-828 | a non-positive nmin or nmax is an ArgumentException; nmax above the vector's degree is clamped with a warning; a clamped nmax below nmin is an ArgumentException; success gives 1 <= nmin <= nmax <= the vector's degree |
| IgrfSynth.ShortVectorFails | PointlessWaymarks.SpatialTools/IgrfMagneticModelTools.cs:817-828 | fewer than 3 coefficients never resolve |
| IgrfSynth.DefaultsUseWholeModel | PointlessWaymarks.SpatialTools/IgrfMagneticModelTools.cs:814-826 | with no arguments a full degree-k vector gives degrees 1..k without warning |
| IgrfSynth.MinOf | PointlessWaymarks.SpatialTools/IgrfMagneticModelTools.cs:806 | the minimum is a member of the sequence and no larger than any member |
| IgrfSynth.MaxOf | PointlessWaymarks.SpatialTools/IgrfMagneticModelTools.cs:806 | the maximum is a member of the sequence and no smaller than any member |
| IgrfSynth.ColatitudeCheckAsWritten | PointlessWaymarks.SpatialTools/IgrfMagneticModelTools.cs:806-812 | an empty array gives InvalidOperationException; otherwise it accepts exactly when all colatitudes lie strictly inside (0, 180), or none is negative and one is 0, or none exceeds 180 and one is 180, and it warns exactly when a pole is present |
| IgrfSynth.ColatitudeCheck | PointlessWaymarks.SpatialTools/IgrfMagneticModelTools.cs:806-812 | accepts exactly non-empty colatitudes that all lie in [0, 180], warning exactly when one is a pole |
| IgrfSynth.AsWrittenAcceptsOutOfBounds | PointlessWaymarks.SpatialTools/IgrfMagneticModelTools.cs:806-812 | the check as written only warns for colatitudes [0, 200], which the intended check rejects |
| IgrfSynth.AsWrittenOnlyMoreLenient | PointlessWaymarks.SpatialTools/IgrfMagneticModelTools.cs:806-812 | the check as written agrees with the intended one wherever that one accepts, and wherever it rejects itself |
| IgrfSynth.SinglePointChecksAgree | PointlessWaymarks.SpatialTools/IgrfMagneticModelTools.cs:806-812 | for the single colatitude the evaluator passes, both checks agree, accept exactly [0, 180] and warn exactly at the poles |
| IgrfSynth.SlotIndex | PointlessWaymarks.SpatialTools/IgrfMagneticModelTools.cs:862-889 | the running coefficient index of degree n lies in [n^2 - 1, (n + 1)^2 - 1) |
| IgrfSynth.SlotOf | PointlessWaymarks.SpatialTools/IgrfMagneticModelTools.cs:862-889 | every index belongs to a (degree, order, g/h) slot |
| IgrfSynth.SlotOfIndex | PointlessWaymarks.SpatialTools/IgrfMagneticModelTools.cs:862-889 | the slot of a slot's index is the slot itself |
| IgrfSynth.SlotIndexInjective | PointlessWaymarks.SpatialTools/IgrfMagneticModelTools.cs:862-889 | distinct slots read distinct coefficients |
| IgrfSynth.WalkRange | PointlessWaymarks.SpatialTools/IgrfMagneticModelTools.cs:862-889 | the indices of degrees nmin..nmax are exactly [nmin^2 - 1, (nmax + 1)^2 - 1) |
| IgrfSynth.ResolvedSlotsInBounds | PointlessWaymarks.SpatialTools/IgrfMagneticModelTools.cs:862-889 | after degree resolution every slot visited lies inside the coefficient vector |
| IgrfField.PoleQuotient | PointlessWaymarks.SpatialTools/IgrfMagneticModelTools.cs:882-883 | at colatitude 0 the P/sin theta quotient is dP, at 180 it is -dP, elsewhere the quotient |
| IgrfField.DegreeTables | PointlessWaymarks.SpatialTools/IgrfMagneticModelTools.cs:841-855 | the Legendre, derivative and longitude tables of one degree have that degree's shape |
| IgrfField.PointTables | PointlessWaymarks.SpatialTools/IgrfMagneticModelTools.cs:840-855 | the tables of every degree up to nmax have their degree's shape |
| IgrfField.DegreeStartIsSquare | PointlessWaymarks.SpatialTools/IgrfMagneticModelTools.cs:862 | degree n starts at coefficient n^2 - 1, the slot of (n, 0) |
| IgrfField.FirstSlotOfDegree | PointlessWaymarks.SpatialTools/IgrfMagneticModelTools.cs:862 | the starting index computed for degree n is that start |
| IgrfField.DegreesFit | PointlessWaymarks.SpatialTools/IgrfMagneticModelTools.cs:862-889 | every degree up to nmax + 1 starts inside the vector |
| IgrfField.DegreeReadsItsSlots | PointlessWaymarks.SpatialTools/IgrfMagneticModelTools.cs:862-889 | order 0 reads g at the degree start, order m >= 1 reads g at start + 2m - 1 and h at start + 2m |
| IgrfField.SynthOutcome | PointlessWaymarks.SpatialTools/IgrfMagneticModelTools.cs:799-894 | succeeds exactly for a colatitude in [0, 180] whose degrees resolve, with the source's exception otherwise; the field is the sum over the resolved degrees, and the warnings are the polar one and the clamp one |
| IgrfField.SynthValues | PointlessWaymarks.SpatialTools/IgrfMagneticModelTools.cs:799-894 | the imperative synthesis (Legendre table, longitude tables, loops over degrees and orders) computes SynthOutcome |
| IgrfField.ContributionOfZeroCoefficients | PointlessWaymarks.SpatialTools/IgrfMagneticModelTools.cs:867-885 | zero g and h contribute nothing |
| IgrfField.TermOfZeros | PointlessWaymarks.SpatialTools/IgrfMagneticModelTools.cs:867-885 | a term over an all-zero degree span is zero |
| IgrfField.TermRowsOfZeros | PointlessWaymarks.SpatialTools/IgrfMagneticModelTools.cs:862-892 | every term of every degree is zero when all coefficients are |
| IgrfField.WalkOfZeros | PointlessWaymarks.SpatialTools/IgrfMagneticModelTools.cs:862-892 | summing zero terms gives zero |
| IgrfField.TermRowsReadOnlyItsDegrees | PointlessWaymarks.SpatialTools/IgrfMagneticModelTools.cs:862-892 | the terms depend only on the coefficients of degrees nmin..nmax |
| IgrfField.SumRows | PointlessWaymarks.SpatialTools/IgrfMagneticModelTools.cs:862-892 | the degree loop computes the running sum of all term rows |
| IgrfField.ZeroCoefficientsGiveZeroField | PointlessWaymarks.SpatialTools/IgrfMagneticModelTools.cs:862-894 | all-zero coefficients give a zero field for any tables |
| IgrfField.SynthFieldReadsOnlyItsDegrees | PointlessWaymarks.SpatialTools/IgrfMagneticModelTools.cs:862-894 | two coefficient vectors that agree on degrees nmin..nmax give the same field |
| IgrfField.Harmonics | PointlessWaymarks.SpatialTools/IgrfMagneticModelTools.cs:846-855 | fresh tables holding cos(m phi) and sin(m phi) for every order up to nmax |
| IgrfField.TablesHoldDegrees | PointlessWaymarks.SpatialTools/IgrfMagneticModelTools.cs:841-855 | the filled Legendre and longitude arrays hold every degree's tables |
| IgrfField.TablesHoldAt | PointlessWaymarks.SpatialTools/IgrfMagneticModelTools.cs:841-855 | the arrays hold one degree's tables at one order |
| IgrfField.AddOrder | PointlessWaymarks.SpatialTools/IgrfMagneticModelTools.cs:865-888 | adding one order adds that order's term to the running field |
| IgrfField.SumOrders | PointlessWaymarks.SpatialTools/IgrfMagneticModelTools.cs:865-889 | the order loop adds the degree's whole term row and advances the index by 2n + 1 |
| IgrfField.AddDegree | PointlessWaymarks.SpatialTools/IgrfMagneticModelTools.cs:863-891 | one degree step adds the degree's row, moves the index to the next degree and the radial factor to the next power |
| IgrfField.SumDegrees | PointlessWaymarks.SpatialTools/IgrfMagneticModelTools.cs:857-894 | the degree and order loops compute the synthesised field of degrees nmin..nmax |
| IgrfLegendre.LowerStepsGiveP | PointlessWaymarks.SpatialTools/IgrfMagneticModelTools.cs:655-668 | once the first pass is done, every entry of the lower triangle is the Schmidt function P(n, m) |
| IgrfLegendre.FirstPass | PointlessWaymarks.SpatialTools/IgrfMagneticModelTools.cs:655-668 | the first loop performs the diagonal, sub-diagonal and column steps for every order |
| IgrfLegendre.FillOrder | PointlessWaymarks.SpatialTools/IgrfMagneticModelTools.cs:655-668 | one order step sets the sub-diagonal, the next sectoral entry and the column below by the recurrences, and changes nothing else |
| IgrfLegendre.SectoralEntry | PointlessWaymarks.SpatialTools/IgrfMagneticModelTools.cs:660 | the sectoral entries P(m, m) follow from the steps |
| IgrfLegendre.SubDiagonalEntry | PointlessWaymarks.SpatialTools/IgrfMagneticModelTools.cs:657-658 | the sub-diagonal entries P(m + 1, m) follow from the steps |
| IgrfLegendre.ColumnEntry | PointlessWaymarks.SpatialTools/IgrfMagneticModelTools.cs:662-667 | the column entries P(n, m), n >= m + 2, follow from the steps |
| IgrfLegendre.ColumnIndices | PointlessWaymarks.SpatialTools/IgrfMagneticModelTools.cs:662-667 | the square-root indices of the column recurrence are n^2 - m^2 and n^2 - m^2 - (2n - 1), both inside the root table |
| IgrfLegendre.FillColumn | PointlessWaymarks.SpatialTools/IgrfMagneticModelTools.cs:662-667 | column m below the sub-diagonal satisfies the three-term recurrence; nothing else changes |
| IgrfLegendre.Roots | PointlessWaymarks.SpatialTools/IgrfMagneticModelTools.cs:653 | a fresh table holding the square root of every k below its length |
| IgrfLegendre.DiagonalIndices | PointlessWaymarks.SpatialTools/IgrfMagneticModelTools.cs:657-660 | the diagonal step's root indices lie inside the table |
| IgrfLegendre.FillDiagonal | PointlessWaymarks.SpatialTools/IgrfMagneticModelTools.cs:657-660 | the diagonal step sets the sub-diagonal and the next sectoral entry and changes nothing else |
| IgrfLegendre.FillDerivatives | PointlessWaymarks.SpatialTools/IgrfMagneticModelTools.cs:672-683 | column n + 1 holds the derivatives of degree n for every order; nothing else changes |
| IgrfLegendre.LegendrePoly | PointlessWaymarks.SpatialTools/IgrfMagneticModelTools.cs:644-686 | a fresh (nmax + 1) x (nmax + 2) table whose lower triangle holds P(n, m) and whose column n + 1 holds dP(m, n) |
| IgrfLegendre.LowerTriangle | PointlessWaymarks.SpatialTools/IgrfMagneticModelTools.cs:646-668 | the first pass fills the lower triangle with P(n, m) |
| IgrfLegendre.SecondPass | PointlessWaymarks.SpatialTools/IgrfMagneticModelTools.cs:670-683 | the second loop keeps the lower triangle and fills the derivative columns from each degree's row |
| IgrfLegendreFacts.DegreeOne | PointlessWaymarks.SpatialTools/IgrfMagneticModelTools.cs:650-658 | with exact operations P(1, 0) = cos theta and P(1, 1) = sin theta |
| IgrfLegendreFacts.DegreeTwo | PointlessWaymarks.SpatialTools/IgrfMagneticModelTools.cs:655-667 | with exact operations P(2, 0) = (3c^2 - 1)/2, P(2, 1) = sqrt(3) c s, P(2, 2) = sqrt(3)/2 s^2 |
| IgrfLegendreFacts.ColumnOfZeros | PointlessWaymarks.SpatialTools/IgrfMagneticModelTools.cs:662-667 | a column step whose inputs vanish as at the equator gives zero |
| IgrfLegendreFacts.EquatorStepVanish | PointlessWaymarks.SpatialTools/IgrfMagneticModelTools.cs:662-667 | one induction step of the equator property |
| IgrfLegendreFacts.EquatorOddVanish | PointlessWaymarks.SpatialTools/IgrfMagneticModelTools.cs:655-668 | at the equator, P(n, m) = 0 whenever n - m is odd |
| IgrfLegendreFacts.PolesNonZonalVanish | PointlessWaymarks.SpatialTools/IgrfMagneticModelTools.cs:655-668 | at the poles, P(n, m) = 0 for every order m >= 1 |
| IgrfLegendreFacts.PolesStepVanish | PointlessWaymarks.SpatialTools/IgrfMagneticModelTools.cs:657-667 | one induction step of the poles property |
| ConsoleTools.GetObscuredStringFromConsole | PointlessWaymarks.CommonTools/ConsoleTools.cs:13-44 | reads keys up to and including the first Enter, and returns the obscured fold of exactly those keys |
| ConsoleTools.ReadLine | PointlessWaymarks.CommonTools/ConsoleTools.cs:53-66 | the line is the text of the editor run over the keys before the first Enter, or the editor's exception |
| ConsoleTools.KeyHandler.constructor | PointlessWaymarks.CommonTools/ConsoleTools.cs:112-154 | the handler starts with the initial text and the cursor at its end |
| ConsoleTools.KeyHandler.Backspace | PointlessWaymarks.CommonTools/ConsoleTools.cs:158-172 | removes the character before the cursor, if any, and moves the cursor back |
| ConsoleTools.KeyHandler.ClearLine | PointlessWaymarks.CommonTools/ConsoleTools.cs:181-186 | empties the line |
| ConsoleTools.KeyHandler.Delete | PointlessWaymarks.CommonTools/ConsoleTools.cs:188-201 | removes the character under the cursor, if any |
| ConsoleTools.KeyHandler.Handle | PointlessWaymarks.CommonTools/ConsoleTools.cs:203-210 | stores the key and performs the editor step for it |
| ConsoleTools.KeyHandler.MoveCursorEnd | PointlessWaymarks.CommonTools/ConsoleTools.cs:232-236 | moves the cursor to the end |
| ConsoleTools.KeyHandler.MoveCursorHome | PointlessWaymarks.CommonTools/ConsoleTools.cs:238-242 | moves the cursor to the start |
| ConsoleTools.KeyHandler.MoveCursorLeft | PointlessWaymarks.CommonTools/ConsoleTools.cs:244-255 | moves the cursor one left except at the start; text and limit unchanged |
| ConsoleTools.KeyHandler.MoveCursorRight | PointlessWaymarks.CommonTools/ConsoleTools.cs:257-268 | moves the cursor one right except at the end; text and limit unchanged |
| ConsoleTools.KeyHandler.TransposeChars | PointlessWaymarks.CommonTools/ConsoleTools.cs:270-305 | performs the transposition, or throws and keeps the state for a one-character line with the cursor at its end |
| ConsoleTools.KeyHandler.WriteChar | PointlessWaymarks.CommonTools/ConsoleTools.cs:312-332 | inserts the character at the cursor and moves the cursor past it |
| ConsoleTools.KeyHandler.WriteNewString | PointlessWaymarks.CommonTools/ConsoleTools.cs:334-339 | replaces the line by the string with the cursor at its end |
| ConsoleTools.KeyHandler.WriteString | PointlessWaymarks.CommonTools/ConsoleTools.cs:341-345 | appends the string at the end of the line |
| ConsoleTools.KeyHandler.KillToStart | PointlessWaymarks.CommonTools/ConsoleTools.cs:133-137 | Ctrl+U deletes everything before the cursor |
| ConsoleTools.KeyHandler.KillToEnd | PointlessWaymarks.CommonTools/ConsoleTools.cs:138-144 | Ctrl+K deletes everything from the cursor on |
| ConsoleTools.KeyHandler.KillWord | PointlessWaymarks.CommonTools/ConsoleTools.cs:145-149 | Ctrl+W deletes back to the previous space |
| ConsoleTools.KeyHandler.Invoke | PointlessWaymarks.CommonTools/ConsoleTools.cs:117-151 | runs the action bound in the key table |
| ConsoleEntryTools.GetObscuredStringFromConsole | PointlessWaymarks.VaultfuscationTools/ConsoleEntryTools.cs:11-42 | the same contract as the ConsoleTools copy, and the password holds no control characters |
| LineEditing.Step | PointlessWaymarks.CommonTools/ConsoleTools.cs:203-210 | an unbound key inserts its character; the only failure is Ctrl+T on a one-character line at its end; a result is a valid state |
| LineEditing.StepFailsOnlyOnShortTranspose | PointlessWaymarks.CommonTools/ConsoleTools.cs:203-210 | a step fails exactly for Ctrl+T with the cursor at the end of a one-character line |
| LineEditing.ApplyAction | PointlessWaymarks.CommonTools/ConsoleTools.cs:117-151 | every bound action keeps the state valid, and only the transposition can fail |
| LineEditing.Initial | PointlessWaymarks.CommonTools/ConsoleTools.cs:153 | the initial state holds the text with the cursor at its end |
| LineEditing.MoveLeft | PointlessWaymarks.CommonTools/ConsoleTools.cs:244-255 | keeps the text and a valid cursor; the cursor moves left and stays put exactly at the line start |
| LineEditing.MoveRight | PointlessWaymarks.CommonTools/ConsoleTools.cs:257-268 | keeps the text and a valid cursor; the cursor moves right and stays put exactly at the line end |
| LineEditing.MoveHome | PointlessWaymarks.CommonTools/ConsoleTools.cs:238-242 | keeps the text and puts the cursor at 0 |
| LineEditing.MoveEnd | PointlessWaymarks.CommonTools/ConsoleTools.cs:232-236 | keeps the text and puts the cursor at the end |
| LineEditing.Backspace | PointlessWaymarks.CommonTools/ConsoleTools.cs:158-172 | keeps the state valid; at the line start nothing changes, elsewhere the line loses one character and the cursor moves left |
| LineEditing.Delete | PointlessWaymarks.CommonTools/ConsoleTools.cs:188-201 | keeps the state valid and the cursor; at the line end nothing changes, elsewhere the character at the cursor is removed and the rest is kept |
| LineEditing.ClearLine | PointlessWaymarks.CommonTools/ConsoleTools.cs:181-186 | leaves a valid empty line |
| LineEditing.KillToStartOf | PointlessWaymarks.CommonTools/ConsoleTools.cs:133-137 | keeps exactly the text after the cursor, with the cursor at 0 |
| LineEditing.KillToEndOf | PointlessWaymarks.CommonTools/ConsoleTools.cs:138-144 | keeps exactly the text before the cursor, with the cursor at the end |
| LineEditing.KillWordOf | PointlessWaymarks.CommonTools/ConsoleTools.cs:145-149 | keeps the text before the new cursor and the text after the old one |
| LineEditing.TransposeChars | PointlessWaymarks.CommonTools/ConsoleTools.cs:270-305 | at the line start nothing changes; inside the line the characters at pos - 1 and pos swap and the cursor moves right; at the end of a line of two or more the last two characters swap and the cursor stays; a one-character line with the cursor at its end fails |
| LineEditing.WriteChar | PointlessWaymarks.CommonTools/ConsoleTools.cs:312-332 | keeps the state valid, puts the character at the cursor, lengthens the line by one and moves the cursor past it |
| LineEditing.WordStart | PointlessWaymarks.CommonTools/ConsoleTools.cs:145-149 | the word start is at the line start or just after a space, with no space between it and the cursor |
| LineEditing.KillWordDeletesWord | PointlessWaymarks.CommonTools/ConsoleTools.cs:145-149 | Ctrl+W removes exactly the space-free run before the cursor and keeps the rest |
| LineEditing.Swap | PointlessWaymarks.CommonTools/ConsoleTools.cs:270-305 | exchanges the two characters and keeps all others |
| LineEditing.TransposeIsPermutation | PointlessWaymarks.CommonTools/ConsoleTools.cs:270-305 | transposition permutes the characters of the line |
| LineEditing.TransposeAtEndTwice | PointlessWaymarks.CommonTools/ConsoleTools.cs:270-305 | at the end of a line of two or more characters, transposing twice restores the state |
| LineEditing.Run | PointlessWaymarks.CommonTools/ConsoleTools.cs:53-66 | each step of the run keeps the editor state valid |
| LineEditing.MovementKeepsText | PointlessWaymarks.CommonTools/ConsoleTools.cs:232-268 | cursor moves never change the text, and land one left or right, at the start or at the end |
| LineEditing.BackspaceRemovesPrevious | PointlessWaymarks.CommonTools/ConsoleTools.cs:158-172 | Backspace removes exactly the character before the cursor |
| LineEditing.BackspaceUndoesWriteChar | PointlessWaymarks.CommonTools/ConsoleTools.cs:312-332 | Backspace after inserting a character restores the state |
| LineEditing.WriteCharInserts | PointlessWaymarks.CommonTools/ConsoleTools.cs:312-332 | inserting puts the character at the cursor and shifts the rest right by one |
| LineEditing.DeleteUndoesWriteChar | PointlessWaymarks.CommonTools/ConsoleTools.cs:188-201 | inserting, moving left and Delete restore the state |
| LineEditing.KillsSplitLine | PointlessWaymarks.CommonTools/ConsoleTools.cs:133-144 | Ctrl+K and Ctrl+U split the line at the cursor; doing both clears the line |
| ObscuredInput.ObscuredFold | PointlessWaymarks.CommonTools/ConsoleTools.cs:20-39 | the password is no longer than the keys and holds no control characters |
| ObscuredInput.PrintableAppended | PointlessWaymarks.CommonTools/ConsoleTools.cs:20-39 | a printable key appends its character |
| ObscuredInput.BackspaceDropsLast | PointlessWaymarks.CommonTools/ConsoleTools.cs:20-39 | Backspace drops the last character, and does nothing on an empty password |
| ObscuredInput.OtherControlIgnored | PointlessWaymarks.CommonTools/ConsoleTools.cs:20-39 | any other control key changes nothing |
| ObscuredInput.PrintableKeysKeptInOrder | PointlessWaymarks.CommonTools/ConsoleTools.cs:20-39 | keys without control characters give exactly their characters in order |
| ObscuredInput.EnterNotIncluded | PointlessWaymarks.CommonTools/ConsoleTools.cs:20-39 | the terminating Enter adds nothing to the password |
| ConversionDataEntryHelpers.DateTimeConversion | PointlessWaymarks.WpfCommon/ConversionDataEntry/ConversionDataEntryHelpers.cs:7-17 | blank text fails with the prompt; otherwise the trimmed text's parse decides, and a parsed value is trimmed to seconds; passes exactly when non-blank and parsable |
| ConversionDataEntryHelpers.DateTimeNullableConversion | PointlessWaymarks.WpfCommon/ConversionDataEntry/ConversionDataEntryHelpers.cs:19-29 | blank text passes as no value; a failed parse keeps DateTime.MinValue |
| ConversionDataEntryHelpers.DoubleConversion | PointlessWaymarks.WpfCommon/ConversionDataEntry/ConversionDataEntryHelpers.cs:31-40 | blank text fails with the prompt; passes exactly when the trimmed text parses, with the parsed value |
| ConversionDataEntryHelpers.DoubleNullableConversion | PointlessWaymarks.WpfCommon/ConversionDataEntry/ConversionDataEntryHelpers.cs:42-51 | blank text passes as no value; a failed parse keeps 0 |
| ConversionDataEntryHelpers.IntConversion | PointlessWaymarks.WpfCommon/ConversionDataEntry/ConversionDataEntryHelpers.cs:53-62 | parses the untrimmed text; passes exactly when non-blank and parsable |
| ConversionDataEntryHelpers.IntGreaterThanZeroConversion | PointlessWaymarks.WpfCommon/ConversionDataEntry/ConversionDataEntryHelpers.cs:64-76 | passes exactly for a parsed value > 0, with that value; a parsed value <= 0 fails with the greater-than-0 message and 0; the blank and unparsable messages are those of IntConversion |
| ConversionDataEntryHelpers.IntNullableConversion | PointlessWaymarks.WpfCommon/ConversionDataEntry/ConversionDataEntryHelpers.cs:78-87 | blank text passes as no value; otherwise parses the trimmed text, keeping 0 on failure |
| ConversionDataEntryHelpers.IntGreaterThanZeroRefinesInt | PointlessWaymarks.WpfCommon/ConversionDataEntry/ConversionDataEntryHelpers.cs:53-76 | the positive conversion passes exactly when the plain one passes with a positive value, and then agrees with it |
| ConversionDataEntryHelpers.NullableAgreesOnNonBlank | PointlessWaymarks.WpfCommon/ConversionDataEntry/ConversionDataEntryHelpers.cs:7-87 | on non-blank text each nullable conversion is its non-nullable partner wrapped in a value |
| Text.TrimBlank | PointlessWaymarks.WpfCommon/ConversionDataEntry/ConversionDataEntryHelpers.cs:9-11 | trimmed text is blank exactly when the original is, and then it is empty |
| DataEntryValidation.FirstFailureFrom | PointlessWaymarks.WpfCommon/BoolDataEntry/BoolDataEntryNoChangeIndicatorContext.cs:28-44 | the first failing validator at or after a position: every earlier one passes |
| DataEntryValidation.FirstFailure | PointlessWaymarks.WpfCommon/BoolDataEntry/BoolDataEntryNoChangeIndicatorContext.cs:28-44 | none exactly when every validator passes; otherwise the first failing one |
| DataEntryValidation.Validate | PointlessWaymarks.WpfCommon/BoolDataEntry/BoolDataEntryNoChangeIndicatorContext.cs:28-44 | there are issues exactly when some validator fails; the message is the first failure's explanation, and empty otherwise |
| DataEntryValidation.EvaluatedCount | PointlessWaymarks.WpfCommon/BoolDataEntry/BoolDataEntryNoChangeIndicatorContext.cs:28-44 | the loop stops right after the first failure |
| DataEntryValidation.NoValidatorsNoIssue | PointlessWaymarks.WpfCommon/BoolDataEntry/BoolDataEntryNoChangeIndicatorContext.cs:30-43 | no validators means no issue and an empty message |
| DataEntryValidation.FirstFailureFromIgnoresSuffix | PointlessWaymarks.WpfCommon/BoolDataEntry/BoolDataEntryNoChangeIndicatorContext.cs:31-39 | validators after a failure are never consulted |
| DataEntryValidation.ValidateIgnoresSuffix | PointlessWaymarks.WpfCommon/BoolDataEntry/BoolDataEntryNoChangeIndicatorContext.cs:31-39 | appending validators after a failing one changes neither the outcome nor how many run |
| DataEntryValidation.TriggersIffWatched | PointlessWaymarks.WpfCommon/BoolDataEntry/BoolDataEntryNoChangeIndicatorContext.cs:53-57 | a property change triggers validation exactly for a watched name |
| BoolDataEntryNoChangeIndicatorContext.BoolDataEntryNoChangeIndicatorContext.constructor | PointlessWaymarks.WpfCommon/BoolDataEntry/BoolDataEntryNoChangeIndicatorContext.cs:11-26 | enabled, false values, empty texts, no validators and no issue |
| BoolDataEntryNoChangeIndicatorContext.BoolDataEntryNoChangeIndicatorContext.HasChanges | PointlessWaymarks.WpfCommon/BoolDataEntry/BoolDataEntryNoChangeIndicatorContext.cs:25 | never reports changes |
| BoolDataEntryNoChangeIndicatorContext.BoolDataEntryNoChangeIndicatorContext.UserValueIsNullable | PointlessWaymarks.WpfCommon/BoolDataEntry/BoolDataEntryNoChangeIndicatorContext.cs:22 | the user value is never nullable |
| BoolDataEntryNoChangeIndicatorContext.BoolDataEntryNoChangeIndicatorContext.CheckForChangesAndValidate | PointlessWaymarks.WpfCommon/BoolDataEntry/BoolDataEntryNoChangeIndicatorContext.cs:28-44 | the issue flag and message become Validate of the user value, stopping at the first failure; other fields unchanged |
| BoolDataEntryNoChangeIndicatorContext.BoolDataEntryNoChangeIndicatorContext.OnPropertyChanged | PointlessWaymarks.WpfCommon/BoolDataEntry/BoolDataEntryNoChangeIndicatorContext.cs:51-58 | a watched property revalidates; any other name leaves the outcome unchanged |
| BoolDataEntryNoChangeIndicatorContext.TriggerNames | PointlessWaymarks.WpfCommon/BoolDataEntry/BoolDataEntryNoChangeIndicatorContext.cs:53-57 | the watched names are ReferenceValue, UserValue, ValidationFunctions and IsEnabled |
| StringDataEntryNoChangeIndicatorContext.StringDataEntryNoChangeIndicatorContext.constructor | PointlessWaymarks.WpfCommon/StringDataEntry/StringDataEntryNoChangeIndicatorContext.cs:11-24 | a binding delay of 10, empty texts, no validators and no issue |
| StringDataEntryNoChangeIndicatorContext.StringDataEntryNoChangeIndicatorContext.HasChanges | PointlessWaymarks.WpfCommon/StringDataEntry/StringDataEntryNoChangeIndicatorContext.cs:23 | never reports changes |
| StringDataEntryNoChangeIndicatorContext.StringDataEntryNoChangeIndicatorContext.CheckForChangesAndValidationIssues | PointlessWaymarks.WpfCommon/StringDataEntry/StringDataEntryNoChangeIndicatorContext.cs:26-42 | the issue flag and message become Validate of the user value, stopping at the first failure; other fields unchanged |
| StringDataEntryNoChangeIndicatorContext.StringDataEntryNoChangeIndicatorContext.OnPropertyChanged | PointlessWaymarks.WpfCommon/StringDataEntry/StringDataEntryNoChangeIndicatorContext.cs:49-56 | a watched property revalidates; any other name leaves the outcome unchanged |
| StringDataEntryNoChangeIndicatorContext.TriggerNames | PointlessWaymarks.WpfCommon/StringDataEntry/StringDataEntryNoChangeIndicatorContext.cs:51-55 | the watched names are ReferenceValue, UserValue and ValidationFunctions, but not IsEnabled |
| HelpDisplayContext.HelpMarkdownContent | PointlessWaymarks.WpfCommon/MarkdownDisplay/HelpDisplayContext.cs:8-14 | no help entries give empty content |
| HelpDisplayContext.NonBlankMembers | PointlessWaymarks.WpfCommon/MarkdownDisplay/HelpDisplayContext.cs:13 | the kept entries are exactly the non-blank ones |
| HelpDisplayContext.NonBlankAppend | PointlessWaymarks.WpfCommon/MarkdownDisplay/HelpDisplayContext.cs:13 | filtering keeps the order of the entries |
| HelpDisplayContext.JoinAt | PointlessWaymarks.WpfCommon/MarkdownDisplay/HelpDisplayContext.cs:12-13 | each part appears verbatim at its offset in the joined text |
| HelpDisplayContext.SeparatorAt | PointlessWaymarks.WpfCommon/MarkdownDisplay/HelpDisplayContext.cs:12-13 | consecutive parts are separated by exactly the separator |
| HelpDisplayContext.ContentBlankIffEntriesBlank | PointlessWaymarks.WpfCommon/MarkdownDisplay/HelpDisplayContext.cs:10-13 | the content is blank exactly when every entry is blank, and then it is empty |
| IgrfGeomagneticApiReturn.Validate | PointlessWaymarks.SpatialTools/IgrfGeomagneticApiReturn.cs:10-22 | succeeds exactly when the result, its field value and all seven components are present; otherwise InvalidOperationException with the missing-fields message |
| IgrfGeomagneticApiReturn.ValidateIgnoresOptionalParts | PointlessWaymarks.SpatialTools/IgrfGeomagneticApiReturn.cs:10-22 | the secular variation, coordinates and date do not affect validation |
| IgrfGeomagneticApiReturn.ValidateRejectsEachMissingValue | PointlessWaymarks.SpatialTools/IgrfGeomagneticApiReturn.cs:12-21 | removing any single one of the seven components fails validation |
| ObfuscatedSettingsHelpers.PropertyIsValidIfNotNullOrWhiteSpace | PointlessWaymarks.VaultfuscationTools/ObfuscatedSettingsHelpers.cs:71-80 | a blank property is invalid with "Value can not be blank."; any other is valid with an empty message |
| ObfuscatedSettingsHelpers.PropertyIsValidIfPositiveInt | PointlessWaymarks.VaultfuscationTools/ObfuscatedSettingsHelpers.cs:82-90 | valid exactly for values >= 1; otherwise "Value must be a positive number." |
| ObfuscatedSettingsHelpers.ShouldSetPropertyIfNullOrWhiteSpace | PointlessWaymarks.VaultfuscationTools/ObfuscatedSettingsHelpers.cs:92-100 | a property must be set exactly when it is blank |
| ObfuscatedSettingsHelpers.UserEntryIsValidIfBool | PointlessWaymarks.VaultfuscationTools/ObfuscatedSettingsHelpers.cs:102-112 | blank is rejected first, then unparsable booleans, each with its message; parsable entries are valid |
| ObfuscatedSettingsHelpers.UserEntryIsValidIfInt | PointlessWaymarks.VaultfuscationTools/ObfuscatedSettingsHelpers.cs:114-124 | blank is rejected first, then unparsable numbers, each with its message; parsable entries are valid |
| ObfuscatedSettingsHelpers.UserEntryIsValidIfNotNullOrWhiteSpace | PointlessWaymarks.VaultfuscationTools/ObfuscatedSettingsHelpers.cs:126-134 | valid exactly for non-blank entries, with the blank message otherwise |
| ObfuscatedSettingsHelpers.ValidMeansEmptyMessage | PointlessWaymarks.VaultfuscationTools/ObfuscatedSettingsHelpers.cs:71-134 | for every validator, valid exactly when the message is empty |
| ObfuscatedSettingsHelpers.BlankChecksAgree | PointlessWaymarks.VaultfuscationTools/ObfuscatedSettingsHelpers.cs:71-100 | the property check is valid exactly when the property need not be set, and agrees with the user-entry check |
| ProgramUpdateRule.CompareZeroIffSameFold | PointlessWaymarks.WpfCommon/ProgramUpdateMessage/ProgramUpdateMessageContext.cs:69 | the ordinal ignore-case comparison is zero exactly for strings equal up to case |
| ProgramUpdateRule.CompareIgnoreCase | PointlessWaymarks.WpfCommon/ProgramUpdateMessage/ProgramUpdateMessageContext.cs:69 | the comparison is reduced to its sign: -1, 0 or 1 |
| ProgramUpdateRule.CompareAntisymmetric | PointlessWaymarks.WpfCommon/ProgramUpdateMessage/ProgramUpdateMessageContext.cs:69 | swapping the strings negates the comparison |
| ProgramUpdateRule.StartsWithHttpCases | PointlessWaymarks.WpfCommon/ProgramUpdateMessage/ProgramUpdateMessageContext.cs:75 | the ignore-case "http" prefix test: http and HTTPS URLs match; "htt" and ftp do not |
| ProgramUpdateRule.UpdateMessageFor | PointlessWaymarks.WpfCommon/ProgramUpdateMessage/ProgramUpdateMessageContext.cs:75-77 | an http setup file gives the download message, anything else the local-file message |
| ProgramUpdateRule.SameVersionNotShown | PointlessWaymarks.WpfCommon/ProgramUpdateMessage/ProgramUpdateMessageContext.cs:67-73 | versions equal up to case never show an update |
| ProgramUpdateRule.NoDowngradeOffered | PointlessWaymarks.WpfCommon/ProgramUpdateMessage/ProgramUpdateMessageContext.cs:67-73 | if an update from a to b is shown, one from b to a is not |
| ProgramUpdateMessageWpf.ProgramUpdateMessageContext.constructor | PointlessWaymarks.WpfCommon/ProgramUpdateMessage/ProgramUpdateMessageContext.cs:23-28 | empty versions, setup file and message, not shown |
| ProgramUpdateMessageWpf.ProgramUpdateMessageContext.Dismiss | PointlessWaymarks.WpfCommon/ProgramUpdateMessage/ProgramUpdateMessageContext.cs:30-35 | hides the message and keeps everything else |
| ProgramUpdateMessageWpf.ProgramUpdateMessageContext.LoadData | PointlessWaymarks.WpfCommon/ProgramUpdateMessage/ProgramUpdateMessageContext.cs:61-86 | stores the inputs (null as empty), shows the message exactly when the rule says so, with the matching text |
| ProgramUpdateMessageAvalonia.ProgramUpdateMessageContext.constructor | PointlessWaymarks.AvaloniaToolkit/ProgramUpdateMessage/ProgramUpdateMessageContext.cs:23-28 | empty versions, setup file and message, not shown |
| ProgramUpdateMessageAvalonia.ProgramUpdateMessageContext.Dismiss | PointlessWaymarks.AvaloniaToolkit/ProgramUpdateMessage/ProgramUpdateMessageContext.cs:31-36 | hides the message and keeps everything else |
| ProgramUpdateMessageAvalonia.ProgramUpdateMessageContext.LoadData | PointlessWaymarks.AvaloniaToolkit/ProgramUpdateMessage/ProgramUpdateMessageContext.cs:62-87 | the same contract as the WPF copy |
| ConverterValues.ToStringOrNull | PointlessWaymarks.WpfCommon/ValueConverters/NullOrWhiteSpaceStringToFalseConverter.cs:10 | value?.ToString() is null exactly for null or an object whose ToString gives null |
| VisibleWhenAllFalseOtherwiseCollapsedMultiConverter.Convert | PointlessWaymarks.WpfCommon/ValueConverters/VisibleWhenAllFalseOtherwiseCollapsedMultiConverter.cs:9-21 | Visible exactly for a non-empty list of values that are all boolean false, otherwise Collapsed |
| VisibleWhenAllFalseOtherwiseCollapsedMultiConverter.ConvertBack | PointlessWaymarks.WpfCommon/ValueConverters/VisibleWhenAllFalseOtherwiseCollapsedMultiConverter.cs:23-26 | always NotImplementedException |
| NullOrWhiteSpaceStringToFalseConverter.Convert | PointlessWaymarks.WpfCommon/ValueConverters/NullOrWhiteSpaceStringToFalseConverter.cs:8-13 | false exactly for null or a blank string form |
| NullOrWhiteSpaceStringToFalseConverter.ConvertBack | PointlessWaymarks.WpfCommon/ValueConverters/NullOrWhiteSpaceStringToFalseConverter.cs:15-18 | always NotSupportedException |
| NullOrWhiteSpaceStringToTrueConverter.Convert | PointlessWaymarks.WpfCommon/ValueConverters/NullOrWhiteSpaceStringToTrueConverter.cs:8-13 | true exactly for null or a blank string form |
| NullOrWhiteSpaceStringToTrueConverter.ConvertBack | PointlessWaymarks.WpfCommon/ValueConverters/NullOrWhiteSpaceStringToTrueConverter.cs:15-18 | always NotSupportedException |
| NullOrWhiteSpaceStringToTrueConverter.ConvertNegatesToFalse | PointlessWaymarks.WpfCommon/ValueConverters/NullOrWhiteSpaceStringToTrueConverter.cs:10-12 | the two converters are each other's negation |
| NullOrWhiteSpaceStringToTrueConverter.BooleansAreNotBlank | PointlessWaymarks.WpfCommon/ValueConverters/NullOrWhiteSpaceStringToTrueConverter.cs:10 | a boolean's string form is never blank |

## Left out

- Floating point: square root, sine, cosine, atan2, power, and the products and quotients of computed values are parameters (`FloatOps`). Their laws (exact, or only `0 * x = 0`, `0 / y = 0` and `sqrt(x > 0) > 0`) are stated where a lemma needs them. IEEE rounding is not modelled, and the sums of the synthesis are exact real additions.
- `GgToGeo` (the geodetic-to-geocentric conversion) and MathNet's piecewise-linear interpolator `LinearSpline.Interpolate` are parameters: their numerical bodies are not part of this model. The `interpolate` parameter is total, while `LinearSpline.Interpolate` throws ArgumentException for fewer than two sample points, that is for N < 2 with at least one coefficient row; the embedded texts have N = 26 and N = 27, but the texts are parameters, so that failure is not modelled.
- `IsComment` takes `line.StartsWith("#")` as an ordinal test of the first character; the culture-sensitive comparison the source calls is not modelled.
- Strings are sequences of Unicode scalar values, while C# strings are sequences of UTF-16 code units: for text with surrogate pairs, `pass[..^1]` in the obscured prompt, the line editor's cursor positions and the ordinal ignore-case comparison count differently than modelled.
- `double.Parse` in the SHC scan is a parameter that returns no value when the text is not a number.
- The embedded IGRF-13 and IGRF-14 coefficient texts (PointlessWaymarks.SpatialTools/IgrfMagneticModelTools.cs:230-642) are parameters rather than string literals.
- `File.ReadAllLines` is not modelled: `LoadShcFile` takes the file's lines and name. Its `leapYear` argument is unused by the source and is not modelled.
- The secular-variation interpolations `coeffsSv1`/`coeffsSv2` (PointlessWaymarks.SpatialTools/IgrfMagneticModelTools.cs:118-125) are computed but never used by the source, so they are not modelled.
- IgrfGeomagnetic.FractionalYear: the day fraction uses exact real division rather than double division.
- IgrfGeomagnetic.HorizontalRate requires a non-zero horizontal field; at H = 0 the source divides by zero in doubles.
- IgrfField.SynthValues: only single-point synthesis is modelled. The source's grid and multi-point modes are not, because the evaluator passes one-element arrays for the radius, colatitude and longitude.
- Console I/O: cursor positioning, `Console.Write`, `Console.ReadKey` and the wrapped text-block writers are not modelled. The keys are given as a sequence that must contain an Enter.
- The `KeyHandler` buffer-wrap moves (`IsStartOfBuffer`/`IsEndOfBuffer`) only move the terminal cursor, so they are not modelled.
- IgrfLegendre.LegendrePoly requires nmax >= 1. For nmax = 0 the source writes `Pnm[1, 1]` outside the table, and its only caller guarantees nmax >= 1.
- BearingTools.NormalizeBearing: exact reals, as for NormalizeBearingRange below.
- BearingTools.NormalizeBearingRange: exact reals. In doubles, a tiny negative bearing can normalise to 360.0.
- ProgramUpdateRule.CompareIgnoreCase: case folding covers ASCII letters only, and only the sign of the comparison is modelled.
- The file and directory validators of `ObfuscatedSettingsHelpers` (PointlessWaymarks.VaultfuscationTools/ObfuscatedSettingsHelpers.cs:5-69) need the file system and are not modelled. `ObfuscationTools` is not part of this model.
- The update check's network call, the UI bindings, the logging of `LoadData` (PointlessWaymarks.WpfCommon/ProgramUpdateMessage/ProgramUpdateMessageContext.cs:82-83) and concurrency are not modelled.
- `TrimDateTimeToSeconds` and the `TryParse` methods are parameters.
- StringDataEntryNoChangeIndicatorContext: the async validators are awaited in turn, so they are modelled as a synchronous loop.
- `DateTime` values are modelled as ticks.

## Findings

| source | as written | input that shows it | evidently intended | confidence | as-written member | corrected member |
|---|---|---|---|---|---|---|
| PointlessWaymarks.SpatialTools/IgrfMagneticModelTools.cs:806-812 | when the smallest colatitude is <= 0 or the largest is >= 180, SynthValues only warns if the smallest is exactly 0 or the largest exactly 180, and throws otherwise, so one pole hides any other colatitude that is out of bounds | colatitudes [0, 200] only give the polar warning (IgrfSynth.AsWrittenAcceptsOutOfBounds) | reject every colatitude outside [0, 180] | not executed | IgrfSynth.AsWrittenAcceptsOutOfBounds | IgrfSynth.ColatitudeCheck, which IgrfField.SynthOutcome and IgrfField.SynthValues use |
