# Ephemeris backend: a model of its arithmetic and of the services around it

The repository answers questions about planets and houses from a bundled copy of the Swiss Ephemeris, behind a Go
service with a worker pool, a circuit breaker and a cache. This project models the parts where a mistake would be
hardest to see, and proves what they promise.

- `Calendar`, `TimeZones`, `TimeScales`, `UniversalTime`: calendar dates and Julian days in both calendars, time
  zones, and UTC with its leap seconds against ephemeris time. The reference for the closed forms is a calendar that
  is stepped day by day under the leap-year rules; the Gregorian one is the proleptic calendar of ISO 8601:2004,
  section 3.2.1. Leap seconds are those of ITU-R TF.460-6, Annex 1, section 2.
- `Chebyshev`, `JplFile`, `JplData`, `JplReader`: the reader of JPL ephemeris files. Its polynomial tables, record
  buffer and scratch array survive between calls; the theorem is that, as long as no read fails, none of this can be
  seen in a position. `Reader` has the source's statics and buffers as fields.
- `UnitPair`, `AngleTables`, `MoonTables`, `PlanetTables`: the perturbation sums. Base angles are pairs (c, s) with
  c*c + s*s = 1, so multiples of angles are powers and no transcendental function is needed. `PlanetTables` shows that
  the loop over four tables means the sum of the terms that were encoded into them.
- `TermParser`: the parser for orbital elements that change with time, against a printer.
- `RiseSet`: the search for risings and settings, with the height of the body as an oracle that may fail.
- `Houses`: Porphyry and Pullen SD houses, and the position of a point in them.
- `CircuitBreaker`, `WorkerPool`: protocols as state machines over their steps, for any number of calls and every
  interleaving, next to classes whose methods have the statements of the source.
- `CacheKeys`, `CachedService`: cache keys, and the cached service against the direct one, with cache entries that are
  references to mutable results.
- `Division`, `Numbers`: integer quotients, casts and powers that several modules share.

Numbers are exact integers and reals. Unknown functions (`swe_deltat_ex`, heights, `atof`, MD5, the calculations behind
the service) are parameters. `dafny verify dfyconfig.toml` checks everything.

## Hypotheses

- Leap-second tables (`TimeScales.GoodTable`): legal dates from 1972 on, at least two days apart, at most 100 of them.
  `SourceTableIsGood` and `HalfYearEndsAreGood` show it of the source's table and its extensions. `TracksUtc`: up to a
  last day, after all leap seconds of the table, UT1 stays within one second of UTC, which is what keeps the
  conversions out of their branches for outdated tables. By the yearly values in eph/sweph/src/swephlib.c:2480-2495
  the delta T of the program leaves that band in 2022; the theorems of `TimeScales` speak of labels up to there, those
  of `UniversalTime` of labels before 1972 and of days on which delta T is a second ahead.
- JPL files (`JplFile.GoodHeader`): blocks inside the record with at most 18 coefficients per component, epochs at
  midnight, whole-day segments that fill the span, at most 1500 numbers to a record. The last is the size of the
  source's buffer (eph/sweph/src/swejpl.c:102); the size check of `fsizer` alone would let 2500 pass.
- Cache (`CachedService.Use`): digests have 32 digits and do not collide on the texts in use, a finite set; one list
  of custom bodies goes with each set of other parameters. The second part is exact, see `CustomBodiesClash`.
- The circuit breaker's clock does not run backwards.

## Where the code differs from what it says

- `swe_jdet_to_utc`: 23:59:60.0 sharp reads as 00:00:00 of the next day; any later instant of the leap second is
  right.
- `swe_revjul`: not the inverse of `swe_julday` beyond about 4.8 million years in the Gregorian calendar.
- `swe_utc_to_jd`: the comment on outdated tables names 0.9 seconds where the code compares with 1.0. On days on which
  the table is outdated a second 60 is accepted without a leap second (`Ut1Accepts`).
- `swe_jdet_to_utc`: the limit of 1972 is one of ephemeris time, while `swe_utc_to_jd` has one of the date, so a label
  in the last second of 1971 may be read back as UTC (`EarlyRoundTrip`).
- `swi_pleph`: the rates of librations are not computed, because `state` passes the flag of Venus.
- `state`: after a failed read the record number is already stored, so the next request for that record does not read
  again; one that loads another record is answered from the file.
- `chewm`: a large radius term whose low word is 0 is dropped. No line of the tables in the source is of this kind.
- `moon1` and its tables: one line (eph/sweph/src/swemmoon.c:439) asks for the fifth multiple of an angle tabulated up
  to the fourth; in the cleared table that line adds nothing. It is the only such line, and none has all multiples
  zero.
- `check_t_terms`: a T without a power that is set off by blanks from a signed number takes that number for its power
  (`TPlusThree`).
- `swe_rise_trans_true_hor`: a sample of height exactly 0 hides the crossing at it (eph/sweph/src/swecl.c:4623 skips
  the pairs on both sides), so a later crossing, or none, is reported (`CandidateExactly`, `RiseMissed`).
- `CircuitBreaker`: the successes that close the circuit need not be those of calls sent to test it; each call that
  was in flight when it opened can supply one (`OnlyTestCallsClose`).
- `swe_house_pos`: with the ascendant on the midheaven, Pullen SD houses are taken for retrograde.
- `check_t_terms`: at a character that belongs to no term the loop does not end.
- `CalculateBodies`: custom bodies are not part of the cache key.
- `GetFullChart`: the cached service keeps houses apart from bodies, the direct service merges them. Charts of one
  moment share one cached object, so a chart loses its houses to a later one of the same moment and another place
  (`KeptExactly`).

## Model

| member | source | states |
|---|---|---|
| `Calendar.CenturyTermIsGap` | eph/sweph/src/swedate.c:172-178 | the `fabs` form with its extra day for negative century years is the floor-division gap between the calendars, in every year |
| `Calendar.JulDayIsDayNumber` | eph/sweph/src/swedate.c:160-180 | the real-valued closed form is an integer day number less half a day plus the hour, for every year, month, day and both calendars; the 0.000001 has no effect on exact values |
| `Calendar.SuccAddsOne` | eph/sweph/src/swedate.c:160-180 | the calendar successor of a legal date, under the leap-year rules, has exactly one day more |
| `Calendar.DayNumberCounts` | eph/sweph/src/swedate.c:128-129 | the date reached by stepping n days from day 0 has day number n, so the closed form counts days one by one in both directions |
| `Calendar.DateOfDayNumber` | eph/sweph/src/swedate.c:160-180 | stepping as many days as the closed form says leads back to the date |
| `Calendar.DayNumberIncreases` | eph/sweph/src/swedate.c:160-180 | later legal dates have larger day numbers, over month, year, leap day and century boundaries |
| `Calendar.DayNumberInjective` | eph/sweph/src/swedate.c:160-180 | no two legal dates share a day number |
| `Calendar.EstimateHitsInRange` | eph/sweph/src/swedate.c:206-210 | the two nested century corrections find the right century whenever the calendars are less than 36525 days apart, about 4.8 million years either way |
| `Calendar.RoundTrip` | eph/sweph/src/swedate.c:182-219 | `swe_revjul` gives back date and hour of `swe_julday` if and only if the first century estimate hits; in the Julian calendar that is always |
| `Calendar.EstimateHitsInDays` | eph/sweph/src/swedate.c:206-210 | the estimate hits if and only if it falls short by no more days than have passed since the gap between the calendars last changed, and goes too far by fewer than are left until it changes next |
| `Calendar.RoundTripFails` | eph/sweph/src/swedate.c:206-210 | a date outside the range for which it does fail: 1 March 4870300 comes back as 29 February, which that year does not have |
| `Calendar.RevJulFindsDate` | eph/sweph/src/swedate.c:201-219 | for every Julian day in range, the result is the date that day counting reaches, the hour is in [0, 24), and `swe_julday` leads back to the same Julian day |
| `Calendar.RevJulAfterJulDay` | eph/sweph/src/swedate.c:160-219 | for any integers as year, month and day, legal or not, the round trip ends on the legal date with the same day number |
| `Calendar.DateConversionExact` | eph/sweph/src/swedate.c:91-112 | OK if and only if the date is legal in the chosen calendar; for an overlong day the Julian day still counts on from the start of the month; `g` means the Gregorian calendar and any other letter the Julian one |
| `TimeZones.TimeZoneInverts` | eph/sweph/src/swedate.c:235-268 | shifting by a zone and by its opposite restores date and time of day, for every shift of at most one day's carry |
| `TimeZones.TimeZoneInvertsLeapSecond` | eph/sweph/src/swedate.c:246-267 | inside a leap second the shift is undone if and only if it leaves the label in the last second of a minute, which every zone of whole minutes does |
| `TimeZones.TimeZoneCarries` | eph/sweph/src/swedate.c:250-265 | the shifted label is the time of day `zone` hours earlier, on the same, the previous or the next day of the calendar |
| `TimeScales.SourceTableIsGood` | eph/sweph/src/swedate.c:277-306 | the table in the source has legal dates in order, at least two days apart, as the theorems below need |
| `TimeScales.HalfYearEndsAreGood` | eph/sweph/src/swedate.c:276-306 | so has every table of ends of June and December, however it is extended |
| `TimeScales.TracksUtcCanBeMet` | eph/sweph/src/swedate.c:426-437 | the hypothesis on delta T that the theorems below need can be met for every good table, up to any day after its last leap second |
| `TimeScales.LeapsBeforeSplits` | eph/sweph/src/swedate.c:419-425 | comparing numbers yyyymmdd counts exactly the leap seconds before a day |
| `TimeScales.LeapsBeforeStep` | eph/sweph/src/swedate.c:419-425 | the count goes up by one after a leap day and at no other day |
| `TimeScales.UtcToJdCounts` | eph/sweph/src/swedate.c:376-471 | from 1972 to the last day on which UT1 tracks UTC exactly the valid UTC labels are accepted, a second 60 only in a leap second, and ephemeris time counts their SI seconds |
| `TimeScales.EtCountsSeconds` | eph/sweph/src/swedate.c:458-464 | ephemeris time is the number of UTC seconds since 1972, with 86401 seconds in a day that ends with a leap second: no gap and no overlap at 23:59:60 |
| `TimeScales.EtIncreases` | eph/sweph/src/swedate.c:376-471 | labels in order are instants in order, leap seconds included |
| `TimeScales.JdetToUtcReads` | eph/sweph/src/swedate.c:487-568 | what is read off the n-th day's second s of ephemeris time, in either calendar, although the code counts leap seconds from yesterday's UT1 date and settles the last one by a second conversion |
| `TimeScales.UtcRoundTrip` | eph/sweph/src/swedate.c:376-568 | the label comes back, inside leap seconds too, if and only if it is not exactly second 60.0: line 534 compares strictly, so that instant reads as 00:00:00 of the next day |
| `TimeScales.CountLeapSeconds` | eph/sweph/src/swedate.c:421-425 | the counting loop of both conversions |
| `TimeScales.FindLeapSecond` | eph/sweph/src/swedate.c:441-448 | the loop that looks a date up in the table finds it if and only if it is there |
| `TimeScales.ComputeUtcToJd` | eph/sweph/src/swedate.c:376-471 | the statements of the conversion, loops included, compute the function that the theorems here and in UniversalTime are about |
| `TimeScales.ComputeJdetToUtc` | eph/sweph/src/swedate.c:487-568 | the same for the way back |
| `UniversalTime.Ut1Counts` | eph/sweph/src/swedate.c:403-437 | before 1972, and on days on which delta T is a second or more ahead of the leap seconds, the time of an accepted label is its UT1, and ephemeris time is ahead of it by delta T at that instant, in both calendars |
| `UniversalTime.Ut1Accepts` | eph/sweph/src/swedate.c:376-437 | exactly the legal dates with a clock time are accepted there; a second 60 at the end of any day from 1972 on |
| `UniversalTime.EarlyLabel` | eph/sweph/src/swedate.c:500-516 | before 1972 the way back gives the legal clock label that names the instant with delta T taken off in two rounds of correction |
| `UniversalTime.Ut1Converges` | eph/sweph/src/swedate.c:501-503 | each of these rounds makes the error of UT1 smaller by the factor that delta T changes with |
| `UniversalTime.EarlyRoundTrip` | eph/sweph/src/swedate.c:403-516 | where delta T is constant a label before 1972 comes back, unless its ephemeris time is past the start of 1972 by UTC: then it is in the last second of 1971 and does not, as long as UT1 tracks UTC |
| `UniversalTime.LateIsUtc` | eph/sweph/src/swedate.c:517-568 | from 1972 on, as long as the table is not outdated, what is read off names the instant less 42.184 seconds and a whole number of leap seconds |
| `UniversalTime.OutdatedRoundTrip` | eph/sweph/src/swedate.c:376-568 | where delta T is constant a label of a day with an outdated table comes back, always so after the last leap second of the table; before it if and only if the count of leap seconds does not run ahead, or delta T is exactly one second off or at least two |
| `Chebyshev.Recurrence` | eph/sweph/src/swejpl.c:517-521 | the three-term recurrence holds between the polynomials that are defined by their coefficients |
| `Chebyshev.DerivRecurrence` | eph/sweph/src/swejpl.c:536-540 | the recurrence of the velocity table is satisfied by the formal derivatives of those polynomials |
| `Chebyshev.TIsCosine` | eph/sweph/src/swejpl.c:445-466 | at the cosine of an angle the n-th polynomial is the cosine of n times the angle: these are the Chebyshev polynomials |
| `Chebyshev.SeriesExtended` | eph/sweph/src/swejpl.c:524-527 | one more coefficient adds its polynomial to the series, and its derivative to the derivative |
| `JplFile.SubIntervalFits` | eph/sweph/src/swejpl.c:491-498 | for t in [0, 1], ends included, the sub-interval is in range, the Chebyshev time in [-1, 1], and together they give back t |
| `JplFile.RecordCovers` | eph/sweph/src/swejpl.c:777-791 | for every epoch of a well-formed span the record number is in range, its segment contains the epoch, and the time in it is in [0, 1]; the last epoch belongs to the last record |
| `JplFile.RecordSize` | eph/sweph/src/swejpl.c:269-321 | the size is twice the numbers up to the end of the first of the blocks that start last, with 1546 replaced by 1652; for blocks in file order no block ends later; sizes outside 1000 to 5000 are refused |
| `JplFile.RelativeLaws` | eph/sweph/src/swejpl.c:324-355 | relative positions are antisymmetric and add up along a chain of bodies |
| `JplData.ComponentsFromData` | eph/sweph/src/swejpl.c:490-549 | from a block written out by sub-interval, component and degree, component i is the series of its own coefficients in the sub-interval of the time, and its velocity the derivative of that series times 2 na / intv |
| `JplData.BodyFromData` | eph/sweph/src/swejpl.c:777-832 | the state of a body is found from the header entries and these coefficients alone, at its place in the record, in kilometres and seconds or astronomical units and days |
| `JplData.EarthAndMoon` | eph/sweph/src/swejpl.c:412-439 | Earth and Moon differ by the geocentric Moon and balance at their barycentre, emrat * Earth + Moon = (emrat + 1) * EMB; the other bodies are as on the file |
| `JplData.Heliocentric` | eph/sweph/src/swejpl.c:822-832 | without the flag for barycentric states the planets are as seen from the Sun, and the Moon is left as it is |
| `JplReader.Reader.Open` | eph/sweph/src/swejpl.c:918-946 | opening establishes the memo invariant whatever np, nv and twot were left as |
| `JplReader.Reader.SetTime` | eph/sweph/src/swejpl.c:505-512 | the memo invariant is kept, whether or not the time changed |
| `JplReader.Reader.ExtendPolynomials` | eph/sweph/src/swejpl.c:517-521 | afterwards at least ncf entries are the polynomials of the current time |
| `JplReader.Reader.ExtendDerivatives` | eph/sweph/src/swejpl.c:534-540 | afterwards the first ncf entries are the derivatives at the current time |
| `JplReader.Reader.Interp` | eph/sweph/src/swejpl.c:466-549 | position and velocity are the series over the right row of coefficients and their derivative scaled by 2 na / intv, independent of every memo; nothing else in the output changes |
| `JplReader.Reader.Load` | eph/sweph/src/swejpl.c:793-809 | the buffer holds the record it is marked with, as long as no read fails; the mark moves first |
| `JplReader.Reader.State` | eph/sweph/src/swejpl.c:646-847 | each requested slot holds its body's state from the right record, the others are untouched, the error cases are exact, and librations use the flag of Venus (line 843) |
| `JplReader.Reader.RetryAfterReadError` | eph/sweph/src/swejpl.c:793-809 | after a failed read the same request is answered OK without reading again |
| `JplReader.Reader.CompletedIsBarycentric` | eph/sweph/src/swejpl.c:412-439 | what `swi_pleph` makes of the scratch array is the barycentric state of each body, with Earth = EMB - Moon / (emrat + 1) |
| `JplReader.Reader.PlephBodies` | eph/sweph/src/swejpl.c:393-442 | the answer is the difference of two barycentric states of the record in the buffer, whatever was left in the scratch array |
| `JplReader.Reader.PlephLibrations` | eph/sweph/src/swejpl.c:379-392 | the angles are right and the rates are those an earlier call left behind |
| `JplReader.Reader.AnswerFromFile` | eph/sweph/src/swejpl.c:356-443 | with the buffer in step with the file that record is the one on file for the epoch |
| `JplReader.Reader.Pleph` | eph/sweph/src/swejpl.c:356-443 | for bodies 0 to 12 the answer is P(target) - P(centre) with one function P of file and epoch, so earlier calls cannot be seen, if no read has failed so far or the request loads another record; such a request also makes up for an earlier failed read |
| `JplReader.Reader.Run` | eph/sweph/src/swejpl.c:356-443 | over any run of requests on a file without missing records every answer, its status included, is one function of file and request, whatever state the run starts from |
| `UnitPair.UnitPow` | eph/sweph/src/swemmoon.c:1696-1715 | every power of a unit pair, negative ones included, has norm 1 |
| `UnitPair.MulLaws` | eph/sweph/src/swemplan.c:219-230 | combining angles is commutative and associative, with the conjugate as the opposite angle |
| `AngleTables.Angles.Sscc` | eph/sweph/src/swemmoon.c:1696-1715 | entry i of the row becomes the (i+1)-th power of the angle; no other row changes. `sscc` of the planets has the same text |
| `AngleTables.Angles.Combine` | eph/sweph/src/swemmoon.c:1636-1658 | one step of combining a tabulated multiple, negative multiples conjugated and zero skipped |
| `AngleTables.Angles.CombinedIsSum` | eph/sweph/src/swemmoon.c:1633-1658 | on rows whose multiples are tabulated the combination is the integer combination of the angles |
| `AngleTables.AngleSumUnit` | eph/sweph/src/swemmoon.c:1633-1658 | that combination of unit pairs has norm 1 |
| `AngleTables.Mods3600Reduces` | eph/sweph/src/swemmoon.c:1734-1740 | the reduction has a value in [0, 1296000) and forgets whole turns |
| `MoonTables.CombineLine` | eph/sweph/src/swemmoon.c:1633-1658 | the loop over the angles of a line computes the combination of its multiples |
| `MoonTables.RadiusKept` | eph/sweph/src/swemmoon.c:1661-1671 | a line adds its amplitudes at every angle if and only if it is not a large line with a radius of whole ten-thousands, which is dropped |
| `MoonTables.LineInNumbers` | eph/sweph/src/swemmoon.c:1661-1689 | which numbers of a line of each kind go with the sine to longitude or latitude and with the cosine to the radius, large ones as ten-thousands and rest |
| `MoonTables.ShareIsLinear` | eph/sweph/src/swemmoon.c:1661-1689 | at any other angle a line contributes its amplitudes times sine and cosine |
| `MoonTables.Accumulate` | eph/sweph/src/swemmoon.c:1661-1689 | each of the four kinds of line adds what the source adds for it, amplitude times sine to longitude or latitude and times cosine to radius |
| `MoonTables.Chewm` | eph/sweph/src/swemmoon.c:1628-1691 | the pass over a table adds, per coordinate, these amounts of all its lines |
| `MoonTables.TableSumIsDirect` | eph/sweph/src/swemmoon.c:1628-1691 | if the multiples of all lines lie within the filled harmonics and no radius is dropped, that is the sum of the written amplitudes over the angles themselves |
| `MoonTables.Prepare` | eph/sweph/src/swemmoon.c:1193-1204 | clearing and filling leaves the first 6, 4, 4 and 4 multiples of the four angles, and 0 everywhere else |
| `MoonTables.CombinedWhenCleared` | eph/sweph/src/swemmoon.c:1193-1204 | in such a table any line combines to the sum of its angles if its multiples are filled in and not all zero, and to nothing otherwise |
| `MoonTables.HeardIsExact` | eph/sweph/src/swemmoon.c:1628-1691 | so a line of any kind is added as written at every angle if and only if its multiples are filled in and not all zero and its radius is not dropped, or it has nothing to add: amplitudes 0, or multiples and radius 0 |
| `MoonTables.TableSumWhenCleared` | eph/sweph/src/swemmoon.c:1628-1691 | and every table is summed over the lines that are heard in this sense |
| `MoonTables.FifthMultiple` | eph/sweph/src/swemmoon.c:439 | the line of the main table with the fifth multiple of the third angle adds nothing |
| `PlanetTables.HornerStep` | eph/sweph/src/swemplan.c:176-179 | one step of Horner's scheme extends the value of the polynomial by one coefficient |
| `PlanetTables.Horner` | eph/sweph/src/swemplan.c:174-194 | the loop over one table returns the polynomial's value and stops behind its last coefficient |
| `PlanetTables.HornerPairs` | eph/sweph/src/swemplan.c:232-257 | the same for the interleaved cosine and sine coefficients |
| `PlanetTables.PolynomialTerm` | eph/sweph/src/swemplan.c:171-196 | a polynomial term is read from all four tables and has its meaning, the longitude reduced modulo 1296000 |
| `PlanetTables.PeriodicTerm` | eph/sweph/src/swemplan.c:197-258 | a periodic term is read from all four tables and has its meaning for the combined angle |
| `PlanetTables.Harmonic` | eph/sweph/src/swemplan.c:240-258 | amplitudes r cos(phase) and r sin(phase) stand for r times the cosine of the angle less the phase |
| `PlanetTables.PeriodicAtQuarters` | eph/sweph/src/swemplan.c:233-258 | a periodic term is the polynomial of its cosine amplitudes at angle 0 and that of its sine amplitudes at a quarter of a circle, in each of the three coordinates |
| `PlanetTables.PolynomialAlone` | eph/sweph/src/swemplan.c:170-196 | a polynomial term is its polynomials, the longitude reduced to a full circle |
| `PlanetTables.TotalAdds` | eph/sweph/src/swemplan.c:166-260 | theories add up |
| `PlanetTables.MarkerAhead` | eph/sweph/src/swemplan.c:168-173 | the first number of what is left tells end marker, polynomial and periodic term apart |
| `PlanetTables.Interpret` | eph/sweph/src/swemplan.c:164-259 | for any list of terms encoded into the four tables the loop terminates at the marker, has consumed all four tables exactly, and has added up the meanings of the terms |
| `PlanetTables.TableTotalIsTotal` | eph/sweph/src/swemplan.c:144-259 | with the harmonics filled that sum is the sum over the angles themselves |
| `PlanetTables.FillAngles` | eph/sweph/src/swemplan.c:144-152 | all angles that the planet needs are tabulated; filling one does not spoil another |
| `PlanetTables.Moshplan2` | eph/sweph/src/swemplan.c:134-264 | longitude, latitude and radius are the scaled sums of the encoded theory, the radius around the planet's distance |
| `TermParser.CheckTTerms` | eph/sweph/src/swemplan.c:916-967 | the loop computes the parse value, and returns 1 if and only if the text contains a sign |
| `TermParser.LoopEnds` | eph/sweph/src/swemplan.c:933-965 | the loop reaches the end of a text if and only if the text holds no character but blanks, signs, digits, points, stars and Ts; at any other one it goes on for ever |
| `TermParser.ParseText` | eph/sweph/src/swemplan.c:933-965 | a printed text is read token by token, for any blanks and stars between them |
| `TermParser.BareTExact` | eph/sweph/src/swemplan.c:949-955 | a T without a written power is read as T if and only if the text behind it is empty, starts with a sign, or makes atoi return 0 or 1 |
| `TermParser.TPlusThree` | eph/sweph/src/swemplan.c:949-955 | `T +3` is not such a text: printed for T + 3, it is read as the third power of T plus 3 |
| `TermParser.ReadsWhatWasPrinted` | eph/sweph/src/swemplan.c:916-967 | for such texts the result is the sum of the products that were printed, numbers with decimals included |
| `TermParser.ReadsSignedTerms` | eph/sweph/src/swemplan.c:916-967 | the same if the first term is signed too |
| `RiseSet.CulminationFound` | eph/sweph/src/swecl.c:4150-4163 | for a sample above (or below) both neighbours the result is the vertex of the parabola through the three, its highest (or lowest) point, within half a step of the sample |
| `RiseSet.InsertedSorted` | eph/sweph/src/swecl.c:4565-4571 | inserting a culmination keeps the samples in order if and only if it does not lie before the first one |
| `RiseSet.InsertedContents` | eph/sweph/src/swecl.c:4565-4571 | no sample is lost and the culmination is one more, unless it lies after all of them |
| `RiseSet.InsertedAllSorted` | eph/sweph/src/swecl.c:4565-4618 | the same for all culminations together |
| `RiseSet.InsertCulmination` | eph/sweph/src/swecl.c:4566-4616 | both arrays are shifted alike and h[k] stays the height at tc[k] |
| `RiseSet.BisectKeepsCrossing` | eph/sweph/src/swecl.c:4633-4683 | every halving keeps a sign change in the same direction inside the bracket |
| `RiseSet.BisectHalves` | eph/sweph/src/swecl.c:4633-4683 | n halvings shrink the bracket by 2^n exactly |
| `RiseSet.Refine` | eph/sweph/src/swecl.c:4629-4683 | the loop of twenty halvings |
| `RiseSet.CandidateExactly` | eph/sweph/src/swecl.c:4623-4628 | of the crossings between neighbouring samples exactly those are searched whose later sample is not of height 0; at such a sample both pairs of neighbours are passed over |
| `RiseSet.SamplesReach` | eph/sweph/src/swecl.c:4415-4468 | the fifteen samples reach from two hours before the start to 26 hours after it, two hours apart |
| `RiseSet.NoneIsPassedOver` | eph/sweph/src/swecl.c:4622-4693 | so where no searched crossing leads to a time after the start, there is a crossing after it if and only if one ends at a sample of height 0 |
| `RiseSet.ZeroSkipped` | eph/sweph/src/swecl.c:4623-4624 | samples with heights -1, 0 and 1 rise between the first two and hold nothing to search |
| `RiseSet.RiseMissed` | eph/sweph/src/swecl.c:4564-4694 | for a body that rises steadily two hours after any start the whole search answers that there is no rise |
| `RiseSet.FindCrossing` | eph/sweph/src/swecl.c:4622-4693 | the first time after the start that a searched crossing leads to, not found if there is none; crossings passed over before it, or altogether, are exactly those that end at a sample of height 0 |
| `RiseSet.RiseTrans` | eph/sweph/src/swecl.c:4564-4694 | the same for the whole search, from the samples and culminations on: not found means no crossing after the start exactly if none ends at a sample of height 0; if no culmination lies before the first sample, an OK time is an end of a bracket of the samples' distance / 2^20 in which the body crosses the horizon in a requested direction |
| `RiseSet.FoundCrossing` | eph/sweph/src/swecl.c:4622-4689 | in sorted samples every crossing time is at the end of such a bracket |
| `Houses.DegnormIs` | eph/sweph/src/swedll.h:101 | the reduction to [0, 360) is determined by the value modulo a turn |
| `Houses.DegnormSum` | eph/sweph/src/swedll.h:350-355 | reducing before or after adding or subtracting makes no difference |
| `Houses.QuadrantShape` | eph/sweph/src/swehouse.c:1142-1170 | Porphyry trisects a quadrant; Pullen's middle house deviates from 30 degrees twice as much as its neighbours, and vanishes in quadrants up to 30 degrees |
| `Houses.OffsetsOrdered` | eph/sweph/src/swehouse.c:1142-1204 | the twelve houses are arcs of non-negative width in zodiacal order that sum to 360 degrees, opposite cusps 180 degrees apart |
| `Houses.Cusps.SwapAscendant` | eph/sweph/src/swehouse.c:1145-1150 | afterwards the ascendant is less than 180 degrees ahead of the midheaven |
| `Houses.Cusps.CalcPorphyry` | eph/sweph/src/swehouse.c:1178-1204 | all twelve cusps, with those set by the opposite-cusp step, are where the partition puts them |
| `Houses.Cusps.CalcPullen` | eph/sweph/src/swehouse.c:1142-1170 | the same for Pullen SD, quadrants of at most 30 degrees included |
| `Houses.Cusps.Opposite` | eph/sweph/src/swehouse.c:1850-1856 | six cusps are the opposites of the other six |
| `Houses.OneHouse` | eph/sweph/src/swehouse.c:2739-2774 | every point of the circle lies in exactly one house, also next to houses of width zero |
| `Houses.CuspPosition` | eph/sweph/src/swehouse.c:2174-2184 | a point of latitude 0 within a milliarcsecond of a cusp gets the number of the last such cusp |
| `Houses.PorphyryPosition` | eph/sweph/src/swehouse.c:2250-2265 | counting thirds of a quadrant gives house number plus the fraction of the house behind the point |
| `Houses.SimplifiedPosition` | eph/sweph/src/swehouse.c:2739-2774 | so does the search over the cusps, in the direction in which the houses run |
| `Houses.HousePos` | eph/sweph/src/swehouse.c:2168-2774 | the position of a fraction f through house i is i + f: for Porphyry of the point a milliarcsecond further on, for Pullen SD exactly, provided the ascendant is not on the midheaven |
| `Houses.SameHouse` | eph/sweph/src/swehouse.c:2254-2256 | a point more than a milliarcsecond from all cusps stays in its house, and the added milliarcsecond moves its position by just that part of the house |
| `Houses.RetrogradeWrong` | eph/sweph/src/swehouse.c:2746-2765 | with the ascendant on the midheaven the Pullen houses are taken for retrograde, and every position but that of the ascendant is wrong |
| `CircuitBreaker.Breaker.Begin` | eph/circuit_breaker.go:40-51 | a call is admitted, and changes nothing, whenever the circuit is not open; an open circuit admits it if and only if the timeout after the last failure has passed, and turns half-open with no successes |
| `CircuitBreaker.Breaker.RecordFailure` | eph/circuit_breaker.go:65-72 | the new state is the failure step of the protocol |
| `CircuitBreaker.Breaker.RecordSuccess` | eph/circuit_breaker.go:75-83 | the new state is the success step of the protocol |
| `CircuitBreaker.Breaker.Call` | eph/circuit_breaker.go:40-62 | an undisturbed call is a run of one admission and one outcome |
| `CircuitBreaker.AlwaysConsistent` | eph/circuit_breaker.go:40-83 | in every run with any number of calls in flight, closed means failures below the threshold, open and half-open mean failures at or above it, half-open means fewer than three successes; true if and only if the threshold is positive |
| `CircuitBreaker.TestingIsStrict` | eph/circuit_breaker.go:65-83 | hence a single failure while half-open reopens at once, and only the third success closes |
| `CircuitBreaker.AdmittedUnlessOpen` | eph/circuit_breaker.go:40-62 | after any run, a call that starts while the circuit is closed or half-open is admitted and changes no counter |
| `CircuitBreaker.NoneRefused` | eph/circuit_breaker.go:40-62 | in a run that never finds the circuit open every call that started is in flight until it ends |
| `CircuitBreaker.OpenIsQuiet` | eph/circuit_breaker.go:43-46 | after a failure at or above the threshold no call is admitted until the timeout has passed, whatever calls still in flight do |
| `CircuitBreaker.AdmittedAfterTimeout` | eph/circuit_breaker.go:43-51 | the next call after that is admitted if and only if it comes at least the timeout after the last recorded failure, those of calls still in flight included; only then is the circuit half-open, with no successes counted |
| `CircuitBreaker.StaysClosed` | eph/circuit_breaker.go:65-83 | a closed circuit counts every failure and forgets none: successes in between do not reset the count |
| `CircuitBreaker.ClosedAdmitsAll` | eph/circuit_breaker.go:40-83 | below the threshold no call is refused, however recent the failures |
| `CircuitBreaker.OpensAtThreshold` | eph/circuit_breaker.go:65-72 | it opens at exactly the failure that reaches the threshold |
| `CircuitBreaker.ClosingTakesSuccesses` | eph/circuit_breaker.go:75-83 | every way from open to closed holds at least three successes |
| `CircuitBreaker.PossibleIsMarked` | eph/circuit_breaker.go:40-83 | in any run the calls that end can be told apart into those in flight at its beginning and those admitted since |
| `CircuitBreaker.ClosingTakesNewSuccesses` | eph/circuit_breaker.go:75-83 | from an open circuit with k calls in flight, every run that closes it holds at least 3 - k successes of calls admitted since |
| `CircuitBreaker.OnlyTestCallsClose` | eph/circuit_breaker.go:40-83 | that bound is reached from every such state, so the successes that close the circuit are all of calls sent to test it if and only if no older call is in flight |
| `CircuitBreaker.OpenReached` | eph/circuit_breaker.go:40-83 | for every positive threshold a run leads to an open circuit with any number of calls in flight |
| `CircuitBreaker.AtomicsAddUp` | eph/circuit_breaker.go:65-83 | undisturbed, the atomic operations of the recording functions add up to their steps |
| `CircuitBreaker.NearlyReached` | eph/circuit_breaker.go:40-83 | for every positive threshold a run leads to a half-open circuit one success short of closing, with calls in flight |
| `CircuitBreaker.ClearedTooLate` | eph/circuit_breaker.go:79-80 | there the operations disturb each other: a failure between the two stores leaves the circuit open without failures, and half-open through a failure after that |
| `WorkerPool.AlwaysInvariant` | eph/worker_pool.go:72-136 | conservation, one place per job, one answer per request and no lost request hold in every state of every interleaving of atomic steps, after Stop too |
| `WorkerPool.KeepsConserved` | eph/worker_pool.go:72-136 | every atomic step conserves jobs: active jobs are those being submitted, queued or held; handed-over jobs are queued, in calculation, processed or failed |
| `WorkerPool.KeepsSeparate` | eph/worker_pool.go:72-136 | no job is twice in the queue, with two workers, or in both |
| `WorkerPool.KeepsAnsweredOnce` | eph/worker_pool.go:78-136 | no request is answered twice, or both answered and discarded; only requests whose context is done are discarded |
| `WorkerPool.KeepsNoneLost` | eph/worker_pool.go:72-136 | a request that was handed over or refused is in the queue, with a worker, answered or discarded |
| `WorkerPool.Statistics` | eph/worker_pool.go:192-201 | the counters of the statistics satisfy these equations at any moment, at most `workers` jobs are held and at most twice as many queued |
| `WorkerPool.CountersCount` | eph/worker_pool.go:119-127 | the processed counter is the number of calculations that succeeded, the failed counter the number that failed, in any run |
| `WorkerPool.JudgedOnce` | eph/worker_pool.go:109-127 | no request is calculated twice |
| `WorkerPool.AnswerMeans` | eph/worker_pool.go:84-136 | an answer with an outcome tells how the calculation of its own request ended; any other is for a call whose context was done and whose request was never calculated |
| `WorkerPool.StoppedMeansStop` | eph/worker_pool.go:72-106 | no worker stops before Stop is called |
| `WorkerPool.QuietMeansAnswered` | eph/worker_pool.go:72-136 | when nothing is going on the active count is 0 and every request has exactly one answer, or none if its context is done |
| `WorkerPool.StoppedForEver` | eph/worker_pool.go:72-75 | once all workers have stopped, jobs in the queue stay there, remain counted as active, and are never answered |
| `WorkerPool.LeftBehindExactly` | eph/worker_pool.go:72-75 | once all workers have stopped, a request that was handed over is in the queue if and only if it was neither answered nor discarded |
| `WorkerPool.JobLeftBehind` | eph/worker_pool.go:72-92 | such a state is reachable, with no context done |
| `WorkerPool.WorkerPool.Submit` | eph/worker_pool.go:78-92 | the statements of Submit, undisturbed, are the steps increment and enqueue, or increment, withdraw, decrement and refuse |
| `WorkerPool.WorkerPool.Receive` | eph/worker_pool.go:99-100 | receiving a job is the step that takes the first one from the queue |
| `WorkerPool.WorkerPool.Work` | eph/worker_pool.go:95-106 | the loop of a worker, undisturbed, is a run of the protocol that ends with the worker stopped; the jobs it took, and no others, have left the queue and are no longer active |
| `WorkerPool.WorkerPool.ProcessJob` | eph/worker_pool.go:109-136 | the statements of processJob are the steps tally, reply or discard, and the deferred decrement |
| `CacheKeys.GenerateEphemerisKey` | pkg/cache/keys.go:11-28 | whatever order the map is iterated in, the key is one function of the operation and the map's contents |
| `CacheKeys.SortStrings` | pkg/cache/keys.go:13-17 | the sorted list of the same keys |
| `CacheKeys.OneSortedList` | pkg/cache/keys.go:13-17 | a set of keys has only one sorted list |
| `CacheKeys.ParamStringInjective` | pkg/cache/keys.go:19-24 | parameters without `=` in a name and without `&` can be read off the joined text |
| `CacheKeys.AmpersandClash` | pkg/cache/keys.go:19-24 | with `&` in a value they cannot |
| `CacheKeys.SameKey` | pkg/cache/keys.go:25-27 | keys are equal if and only if operation and digest are |
| `CacheKeys.KeyInjective` | pkg/cache/keys.go:11-28 | so, barring a collision of the digest, the key tells the operation and all parameters |
| `CacheKeys.ShowIntInjective` | pkg/cache/keys.go:21-21 | different integers print differently |
| `CachedService.BodiesParamsTell` | eph/cache.go:138-151 | the parameters of CalculateBodies tell moment, calendar flag and configuration, except for the custom bodies |
| `CachedService.PlaceParamsTell` | eph/cache.go:60-63 | the parameters of houses and charts tell moment and place |
| `CachedService.CachedEphemerisService.GetPlanetsCached` | eph/cache.go:28-57 | hit, entry of another type, and miss with failing deletes and sets; the answer is the direct one and the cache stays sound |
| `CachedService.CachedEphemerisService.GetHousesCached` | eph/cache.go:59-85 | the same for houses |
| `CachedService.CachedEphemerisService.GetChartCached` | eph/cache.go:87-127 | the same for planets and houses together |
| `CachedService.CachedEphemerisService.CalculateBodies` | eph/cache.go:135-189 | a hit hands out the cached object with its metadata changed, a miss a new object with the number of its bodies; its bodies are the direct ones and the cache stays sound, although its objects are shared; the result has no houses if no cached object has any |
| `CachedService.CachedEphemerisService.GetFullChart` | eph/cache.go:270-288 | bodies and houses are the direct ones at the time of return, although the houses are written into the shared object; the houses and metadata of every other object stay, other stored results stay stored, and each result stays under one key |
| `CachedService.CachedEphemerisService.ServeOne` | eph/cache.go:28-288 | one request of any kind, with failing writes or not, is answered as without a cache and keeps the cache sound |
| `CachedService.CachedEphemerisService.Serve` | eph/cache.go:28-288 | over any run of calls, invalidations, expiries, deletions and foreign values, with or without failing writes, every answer is the one given without a cache, as long as one list of custom bodies goes with each set of other parameters |
| `CachedService.CachedEphemerisService.ServeFresh` | eph/cache.go:28-288 | from an empty cache that is every run in which no two requests differ in the custom bodies only |
| `CachedService.CustomBodiesClash` | eph/cache.go:139-151 | for any two requests that do differ in the custom bodies only there is a calculation for which the second is answered wrongly |
| `CachedService.CeresForgotten` | eph/eph.go:383-403 | for one, with the planets cached a request for the planets and Ceres is answered without Ceres |
| `CachedService.AllBodiesAreAll` | eph/eph.go:878-887 | a full chart asks for every body that a configuration without custom bodies can ask for |
| `CachedService.CachedEphemerisService.BodiesAfterChart` | eph/cache.go:163-172 | after a full chart a request for its bodies gets the same object, houses included |
| `CachedService.CachedEphemerisService.TwoCharts` | eph/cache.go:270-288 | two full charts of one moment are one object, and the first loses its houses to the second |
| `CachedService.CachedEphemerisService.RunAfterChart` | eph/cache.go:28-288 | after any run of calls, invalidations and disturbances a chart that was handed out has the houses of the last chart of its moment that was served while its object was in the cache |
| `CachedService.KeptExactly` | eph/cache.go:270-288 | so it keeps its houses all along a run if and only if no chart of the same moment, served before its entry is removed, has other houses |
| `CachedService.CachedEphemerisService.ChartAfterChart` | eph/cache.go:270-288 | for one later chart: the first keeps its houses if and only if the moments or calendar flags differ or both places have the same houses |
| `CachedService.DirectFullChart` | eph/direct.go:117-153 | the direct service puts the houses among the bodies, so its full chart has the bodies of the cached one if and only if there are no houses |

## Left out

- Floating-point rounding: all arithmetic is exact, so `swe_degnorm` has no tolerance near 0 and 360.
- Integer widths: dates as numbers yyyymmdd, record numbers and counters are unbounded here.
- `swe_deltat_ex`, `swe_calc`, sidereal time, nutation, refraction and coordinate rotation: not part of this model;
  where they are needed they are parameters.
- File reading: `seleapsec.txt`, JPL headers, byte order and the length check of a JPL file. Contents are inputs.
- UtcToJd: the value Invalid stands for the array that `swe_jdet_to_utc` leaves unset if the inner conversion fails;
  under the hypotheses it does not fail.
- UtcToJdCounts: says nothing of dates before 1972 or after the last day on which UT1 tracks UTC; where the code takes
  its input for UT1 there, `Ut1Counts` and `Ut1Accepts` do.
- OutdatedRoundTrip: clock labels only; a second 60, which is accepted at the end of any such day, names the first
  second of the next one.
- Interp: acceleration and jerk (flags 3 and 4) are not modelled; their tables are never filled.
- Reader.Open: failing allocations, and what `read_const_jpl` reads besides the header values used here.
- Chewm: tables of 16-bit words are sequences of integers.
- Moshplan2: the mean longitudes from `freqs` and `phases` are inputs, as unit pairs.
- RiseTrans: how culminations are refined before they are inserted; their times are an input, at most four of them, as
  many as the source has room for.
- Houses: the other house systems, cusp speeds, and ascendant and midheaven themselves, which are inputs. For Porphyry
  `swe_house_pos` computes them again; they are taken to be those of the cusps.
- Breaker: one admission and one recording are single steps; only the recording functions are split further.
- WorkerPool: outcomes of calculations are left open, so the breaker inside the pool is not linked to its own model;
  panics of a calculation are not modelled. A send on a response channel that nobody receives is a run that stops
  there.
- CachedEphemerisService: concurrent calls (each call is one step), slices shared with callers, time stamps, and the
  fixed-star, traditional and extended queries, which repeat the same pattern.
- ShowInt: `%v` of floating-point values is not modelled; such arguments are represented by their printed text.
- HTTP handlers, routing, persistence, logging, Redis: thin layers over libraries that are not part of this model.
