# pyPraat parsers, modelled in Dafny

pyPraat reads two of Praat's "long text" file dialects:

- `get_formants.py`, class `Formants`, reads a **Formant 2 report**.
  - `from_praat_text` strips every line and checks the two header lines.
  - It then reads six scalars (`xmin`, `xmax`, `nx`, `dx`, `x1`, `maxnFormants`) with forward-only searches from the cursor `self.i`.
  - Next it walks the `frames [k]:` records. Each frame has one intensity and a number of `formant [m]:` sub-records, which fill two fixed-width rows of `maxnFormants` slots.
  - `to_matlab_literal` renders the resulting dictionary as a `struct(...)` literal.
- `TextGrid.py`, class `TextGrid`, reads a **TextGrid**.
  - `parse` checks the `Object class` line and reads `size = N`.
  - It finds the `    item [j]:` markers and cuts the file into tier ranges.
  - In each range it collects the intervals: every line matching ` +intervals \[[0-9]+\]:` is followed by its `xmin`, `xmax` and `text` lines.

The model keeps the source's form.

- **Formant parser:** the class `FormantParser.Formants` has the fields `f`, `n`, `i`, `lastMatch` and `data`. Its methods and loops follow `from_praat_text` and `_find_line` step by step. Each method is proved to leave the state that a pure reference reading (`FormantReport.ParseReport` and its loops) describes. The properties are proved about that reading:
  - in `FormantProperties`, `FormantFrames` and `FormantSlots`;
  - for regex matching, in `FormantPatterns` and `Numerals`;
  - for Python's `float`, in `Floats`.
- **Serialiser:** `MatlabLiteral` is pure, as in the source.
- **TextGrid parser:** the class `TextGrids.TextGrid` has the fields `content`, `size`, `itemRanges` and `intervals`. `content` holds the raw lines as `readlines` returns them, line ends included. Its loops follow `parse` and `findLineSW`. They are proved against the reference reading `TextGridFormat.ParseGrid`, and `TextGridProperties` proves what that reading guarantees.

Numbers are exact rationals. `float(...)` is Python 2's parser (`Floats.ParseFloat`), and each Formant numeral denotes its exact value (`Numerals.NumeralValue`). The missing slot `numpy.nan` is `None`. Rendering a single number (`str`) is a parameter `show`.

### Where the code and its description differ (the model follows the code)

- **Frame time.** The time of a frame is `x1 + (k-1)*dx`, where `k` is the number on the frame's `frames [k]:` marker. It is not `x1 + j*dx` for the frame's position `j` (get_formants.py:172-174).
- **Cursor before the formant search.** The cursor goes back to the frame's intensity line (`i_frame`), not to the line after the frame marker (get_formants.py:179, 187).
- **Slot index.** `formant [m]:` writes slot `m-1` with Python's list indexing.
  - `formant [0]:` writes the last slot.
  - `m > maxnFormants` raises `IndexError` (get_formants.py:193, 203).
- **Partial data.** A Formant parse that fails after the header leaves the partly filled dictionary in `self.data` (get_formants.py:158-209). The model returns it with the error.
- **Label quotes.** `strip('"')` removes every leading and trailing quote of a label, not one layer (TextGrid.py:48).
- **Missing marker and stale match.**
  - A missing `    item [j]:` marker raises only at the next use of the `None` position (TextGrid.py:29, 34). The model reports it as `MissingItem(j)`. When only the last tier's marker is missing, the range loop first builds the ranges of the other tiers, the one before the missing tier ending at `None`, and the model assigns those.
  - When a Formant file has only its two header lines, the scalar searches examine no line. `last_match` then keeps what an earlier call left (get_formants.py:224-225). The model keeps that stale match too (`FormantReport.ScalarsRead`).
- **Header message.** The error raised for a wrong second header line quotes line 0 in its message (get_formants.py:145). The parser follows the code; the corrected message quotes line 1 (see Findings).

## Model

| member | source | states |
|---|---|---|
| FormantParser.Formants.constructor | get_formants.py:127-129 | a new parser has no lines, the cursor at -1 and no data |
| FormantParser.Formants.FindLine | get_formants.py:217-236 | the cursor moves to the first line at or after `start` that matches the pattern and that line is returned; with no such line the cursor stays put and `last_match` becomes `None` if a regex search examined any line, else it is unchanged |
| FormantPatterns.FirstMatch | get_formants.py:224-234 | the index found is at or after `start`, inside the buffer and matches; no earlier line from `start` matches; `None` only when no line from `start` matches |
| FormantParser.Formants.ReadField | get_formants.py:160-161 | `float(last_match.group(1))` after a field search is the exact value of the numeral on the first matching line; past the end of the buffer a stale match with a group gives its number and any other state raises |
| FormantParser.Formants.ReadMarker | get_formants.py:171-172 | a marker search leaves the cursor on the first marker line and gives the number in its brackets, or leaves the cursor in place when there is none |
| FormantParser.ScalarRead | get_formants.py:159-161 | one scalar keyword: as `ReadField` reports the search, it extends the lines and values found so far by the scan's next line and number, or ends the scan exactly where the reference scan stops |
| FormantParser.Formants.ReadScalars | get_formants.py:159-161 | the six scalars are read as the reference scan reads them (success exactly when all six are found, the cursor on the last line found); a stale match past the end gives all six the same number; a failure names the first keyword not found |
| FormantParser.Formants.ReadScalar | get_formants.py:160-161 | one keyword turn of the scalar loop: a value found extends the prefix of the reference scan by one line and one number; no value ends the loop exactly where the reference scan fails, with the last match cleared inside the buffer and left alone past its end |
| FormantReport.ScanScalars | get_formants.py:159-161 | at most one line and one value per keyword, and the scan is complete exactly when every keyword was found |
| FormantReport.ScanScalarsAt | get_formants.py:159-161 | the line of keyword `m` is the first line carrying it at or after the previous keyword's line, and its value is that line's number |
| FormantReport.ScanScalarsStop | get_formants.py:159-161 | an incomplete scan stopped at a keyword that no line from the previous match on carries |
| FormantProperties.ScanScalarsOrdered | get_formants.py:159-161 | the scalar lines all lie at or after the starting line and are non-decreasing, in the order xmin, xmax, nx, dx, x1, maxnFormants |
| FormantReport.ScalarsRead | get_formants.py:159-161 | at most six values, and complete exactly when all six are read |
| FormantReport.PyInt | get_formants.py:162-163 | `int(x)` on a float truncates toward zero: the result lies within one of `x` on the side of zero |
| FormantProperties.FirstReport | get_formants.py:162-168 | the data set before the first frame has four empty lists |
| FormantReport.StripLines | get_formants.py:138 | one stripped line per line of the file, in order |
| FormantReport.HeaderError | get_formants.py:142-145 | the header passes exactly when line 0 is `File type = "ooTextFile"` and line 1 is `Object class = "Formant 2"`; otherwise the error names the offending line |
| FormantReport.HeaderErrorAsWritten | get_formants.py:142-145 | the header check the parser runs: it rejects exactly the files the corrected check rejects, with the same error for a wrong first line; for a wrong second line its message quotes line 0 where the corrected one quotes line 1 |
| FormantReport.HeaderMessageNamesFirstLine | get_formants.py:144-145 | as written, the second header error always quotes the valid first header, while the corrected check quotes line 1 |
| FormantReport.TextGridHeaderMisreported | get_formants.py:144-145 | a TextGrid handed to the parser is reported with the `File type` line instead of its `Object class` line |
| FormantPatterns.MatchFacts | get_formants.py:150-155 | a matched line starts with the pattern's keyword; a field captures a whole numeral of `[0-9]+(\.[0-9]+)?(e[+-]?[0-9]+)?`, an indexed marker a non-empty digit string, and only these two have a group |
| FormantPatterns.Exclusive | get_formants.py:150-155 | two patterns whose keywords differ at a shared position never match the same line |
| FormantReport.FormantNotFrequency | get_formants.py:153-155 | no line is both a `formant [m]:` marker and a `frequency` field |
| FormantReport.FramesNotIntensity | get_formants.py:151-153 | no line is both a `frames [k]:` marker and an `intensity` field |
| FormantReport.FormantNotFrames | get_formants.py:153-155 | no line is both a `formant [m]:` marker and a `frames [k]:` marker |
| FormantReport.FrequencyNotBandwidth | get_formants.py:150-151 | no line is both a `frequency` field and a `bandwidth` field |
| Numerals.NumeralLenLongest | get_formants.py:151 | the regex group takes the longest prefix of the value text that is a numeral of the grammar |
| Floats.ParseFloatNumeral | get_formants.py:161 | Python's `float` reads every numeral the field regex captures as exactly the value the model gives it |
| Floats.ParseFloatNat | TextGrid.py:46-47 | `float` of a decimal digit string is its integer value |
| FormantReport.PySlot | get_formants.py:203 | an index is accepted exactly in `-len .. len-1`, and a negative one counts from the end |
| FormantReport.FormantSlotWraps | get_formants.py:193 | `formant [m]:` writes slot `m-1` when `1 <= m <= maxn`; `formant [0]:` writes the last slot; a larger `m` raises |
| FormantReport.NaNs | get_formants.py:190-191 | a row of `maxnFormants` missing values, empty for a negative count |
| FormantReport.FormantLoop | get_formants.py:192-199 | the formant loop keeps both rows at their width, and it ends with the cursor on the frame bound, where it began, or further down the buffer |
| FormantReport.FormantWrite | get_formants.py:201-203 | each write keeps the width of the rows and moves the cursor past the marker |
| FormantReport.BandwidthWrite | get_formants.py:207-209 | each write keeps the width of the rows and moves the cursor past the frequency line |
| FormantSlots.EmptySlotsSound | get_formants.py:190-191 | rows that start all missing have no written slot |
| FormantSlots.FormantLoopSound | get_formants.py:192-209 | after the formant loop, a slot holds a frequency exactly when it holds a bandwidth, and both come from the next `frequency` and `bandwidth` lines after a `formant [m]:` marker that names the slot and lies between the loop's start and the frame bound |
| FormantSlots.FormantLoopFills | get_formants.py:192-209 | when the formant loop finishes, every `formant [m]:` marker it turned at (within the frame bound, with its `frequency` and `bandwidth` lines found) has filled its slot, a slot filled before the loop stays filled, and each slot's source is never moved back and is either unchanged or one of those markers |
| FormantSlots.FormantWriteSound | get_formants.py:201-209 | the frequency write keeps that invariant: the frequency and bandwidth of the slot come from one marker |
| FormantSlots.BandwidthWriteSound | get_formants.py:207-209 | the bandwidth write completes the slot whose frequency was just written and leaves the other slots sound |
| FormantSlots.SlotsWiden | get_formants.py:192-209 | a sound row stays sound for a wider range of marker lines |
| FormantReport.BoundAfter | get_formants.py:181-184 | the bound of a frame is the first `frames [k]:` line after the cursor, or the line count; no frame marker lies between the cursor and it |
| FormantParser.Formants.FrameBound | get_formants.py:179-187 | the bound is the first frame marker after the cursor or the line count, and the cursor returns to the intensity line |
| FormantReport.Stamped | get_formants.py:172-174 | a frame appends the single time `x1 + frame*dx` and changes nothing else in the data set |
| FormantFrames.ClosedStamp | get_formants.py:171-174 | visiting a marker after every earlier one appends its time and keeps the markers increasing |
| FormantFrames.ClosedIntensity | get_formants.py:176-177 | reading the frame's intensity appends the first intensity at or after its marker |
| FormantFrames.ClosedRows | get_formants.py:213-214 | completing a frame appends its two rows, which are sound for the lines after its marker |
| FormantFrames.ClosedWiden | get_formants.py:170-214 | the loop invariant survives moving the end of the last frame further down |
| FormantFrames.FrameLoopClosed | get_formants.py:170-214 | the invariant holds at the end of the frame loop. Times are `x1 + (k-1)*dx` from increasing markers. Each intensity is the first one after its marker. Each completed frame's rows have `maxnFormants` slots, all written from inside that frame. The scalars are unchanged, and a loop ending without error completes every frame it visited |
| FormantFrames.FrameBodyClosed | get_formants.py:176-214 | the same for the body of a frame after its marker |
| FormantFrames.FormantsOfClosed | get_formants.py:179-214 | the same for the formant part of a frame after its intensity |
| FormantProperties.FinishedFrame | get_formants.py:171-177 | in a finished scan, frame `j`'s marker is a `frames [k]:` line, its time is `x1 + (k-1)*dx`, its intensity is the first one at or after the marker, and markers come in line order |
| FormantProperties.FinishedSlot | get_formants.py:165-214 | in a finished scan, `t`, `intensity`, `formants` and `bandwidths` have one entry per visited marker, every row has `maxnFormants` slots, and a slot holds a frequency exactly when it holds a bandwidth, both read after a `formant [m]:` marker naming the slot that lies strictly after the frame's marker, no later than the next visited one and no later than the first `frames [k]:` line after the frame's intensity (`next_frame`) |
| FormantProperties.FinishedSlotFilled | get_formants.py:187-209 | in a finished scan, a slot of a frame's row is filled exactly when some marker the frame's formant loop turned at names it; then its values come from the last such marker, read from the `frequency` and `bandwidth` lines after it (last marker wins) |
| FormantProperties.FormantsOfResumes | get_formants.py:171-199 | when a frame's formant loop leaves the cursor at or before `next_frame`, the next `frames [k]:` line the outer loop finds is `next_frame` itself, so no frame is skipped; the outer loop goes on with that frame, appending its time, or ends when `next_frame` is the line count |
| FormantProperties.FrameLoopResumes | get_formants.py:171-182 | from any cursor between a frame's intensity line and its `next_frame`, the next `frames [k]:` line found is `next_frame`, or there is none when `next_frame` is the line count, so the outer loop takes up exactly that frame or ends |
| FormantProperties.ParseReportSound | get_formants.py:142-214 | a parse reaches the frames exactly when both headers are right and all six scalars are found; it then leaves all ten keys in place, reports the frame loop's error, and the frame scan satisfies everything the loop invariant states |
| FormantReport.ParseReport | get_formants.py:134-214 | the header rejects the file exactly when no dictionary is produced, and then the failure is the header error as the code words it; a parse without failure has a frame scan and the dictionary built from it |
| FormantReport.ScalarDict | get_formants.py:158-161 | while the scalars are read, the dictionary holds the keys read so far, in order |
| FormantReport.ReportDict | get_formants.py:158-168 | the finished dictionary holds xmin, xmax, nx, dx, x1, maxnFormants, t, formants, bandwidths, intensity in insertion order |
| FormantParser.Formants.ReadFormantTurn | get_formants.py:192-199 | one turn of the formant loop ends the loop exactly as the reference loop does, or moves the cursor strictly forward with the rest of the loop still to run |
| FormantParser.Formants.ReadFormantAt | get_formants.py:195-203 | at a `formant [m]:` marker past the frame bound the loop stops with the cursor on the bound, as the reference loop does; otherwise the turn continues exactly as the reference's write of slot `m-1` |
| FormantParser.Formants.ReadFormantWrite | get_formants.py:191-203 | at a marker within the frame the turn writes slot `m-1` and then either fails as the reference loop does, with the last match the frequency line for an index out of range, or leaves the cursor further on with the rest of the reference loop still to run |
| FormantParser.FormantAtWrite | get_formants.py:191-203 | at a marker within the frame, on line `pm` with number `index + 1`, the reference loop yields whatever the write of slot `index` yields |
| FormantParser.Formants.ReadFrequency | get_formants.py:201-203 | the frequency half of a turn writes slot `m-1` as the reference does, or fails with a missing field or an index out of range |
| FormantParser.Formants.ReadBandwidth | get_formants.py:207-209 | the bandwidth half writes the same slot as the reference does, or fails with a missing field |
| FormantParser.Formants.ReadFormants | get_formants.py:190-209 | the inner loop returns the rows, the cursor and the error of the reference formant loop on rows of `maxnFormants` missing values |
| FormantParser.Formants.ReadFormantsOf | get_formants.py:179-214 | the formant part of a frame does what the reference does: it bounds, moves, loops and appends both rows |
| FormantParser.Formants.ReadFrameBody | get_formants.py:176-214 | the frame body reads the intensity and then the formants, as the reference does |
| FormantParser.Formants.ReadFrameTurn | get_formants.py:171-174 | one turn of the outer loop ends it or moves the cursor forward as the reference loop does |
| FormantParser.Formants.ReadFrames | get_formants.py:170-214 | the outer loop returns the data set and error of the reference frame loop |
| FormantParser.Formants.ReadFrameArray | get_formants.py:170-214 | the `frames []:` search and the frame loop after it give the data set and error of the reference frame loop from where that search leaves the cursor, with `last_match` ending as for `ReadReport` |
| FormantParser.Formants.ReadReport | get_formants.py:147-214 | after the header: the dictionary and failure are those of the reference parse; `last_match` ends as `None`, except after a slot index out of range, when it is the match of the frequency line under the cursor; with only the two header lines the cursor stays at 2 and `last_match` is unchanged |
| FormantParser.Formants.ParseStripped | get_formants.py:140-214 | on the stripped lines: the failure and dictionary of the reference parse, the header checked as the code words it; a rejected header keeps the old data, the cursor at -1 and `last_match`; past the header, `last_match` ends as for `ReadReport` |
| FormantParser.Formants.FromPraatText | get_formants.py:134-214 | the buffer is the stripped lines of the file; the failure and dictionary are those of the reference parse; a rejected header leaves the data, the cursor at -1 and the last match as before; past the header, `last_match` ends as `None` except after a slot index out of range, when it is the match of the frequency line under the cursor |
| MatlabLiteral.ListToMatlab | get_formants.py:252-260 | a scalar renders as its text and every list as a bracketed literal |
| MatlabLiteral.ListToMatlabAsWritten | get_formants.py:256 | the renderer as written indexes `a[0]`, so an empty list raises |
| MatlabLiteral.VectorLayout | get_formants.py:258 | a non-empty 1-D list renders as a bracketed list whose inside, split on `,`, gives back the text of each element in order, when no number renders with a `,` |
| MatlabLiteral.ListToMatlabAgrees | get_formants.py:252-260 | the as-written renderer fails exactly on the empty lists and otherwise gives the corrected renderer's text |
| MatlabLiteral.EmptyListNotRendered | get_formants.py:256 | an empty list cannot be rendered as written, and renders as `[]` once corrected |
| MatlabLiteral.MatrixLayout | get_formants.py:258 | a non-empty 2-D list is row-major: between the brackets, splitting on `;` gives one piece per row and splitting a piece on `,` gives that row's elements, when no number renders with `,` or `;` and no row is empty |
| MatlabLiteral.EntryParts | get_formants.py:244-248 | the flat list holds the quoted key then the value's text for every item, in dictionary order |
| MatlabLiteral.StructLiteral | get_formants.py:250 | the literal starts with `struct(` and ends with `)` |
| MatlabLiteral.StructLiteralAsWritten | get_formants.py:244-250 | the export as written fails exactly when some value cannot be rendered, and otherwise gives the corrected literal |
| MatlabLiteral.ScalarStructLayout | get_formants.py:244-250 | for a dictionary of scalars, splitting the text inside `struct(...)` on `,` recovers every quoted key and value |
| FormantReport.NoFramesNotExportable | get_formants.py:256 | a report without frames cannot be exported as written |
| FormantParser.Formants.ToMatlabLiteral | get_formants.py:239-250 | exporting before any data raises; otherwise the result is the `struct(...)` literal of the dictionary |
| FormantParser.Formants.ToMatlabLiteralAsWritten | get_formants.py:239-260 | the same with the renderer as written, which fails on an empty list |
| TextGridFormat.FirstWithPrefix | TextGrid.py:55-61 | the line found lies in `[start, end)` and the file and starts with the prefix, and no earlier line from `start` does; `None` only when no line of the range does |
| TextGrids.TextGrid.FindLineSW | TextGrid.py:55-61 | returns the first line from `start` up to `end` (the file's end when absent) that starts with the prefix, with that line, or nothing |
| TextGridProperties.IntervalHeaderMeaning | TextGrid.py:6 | a line matches ` +intervals \[[0-9]+\]:` exactly when it starts with one or more spaces, `intervals [`, one or more digits and `]:` |
| TextGridProperties.HeaderFromMatch | TextGrid.py:6 | a match consists of the leading spaces, the word, the digit run and `]:` |
| TextGridProperties.MatchFromHeader | TextGrid.py:6 | every line of that shape matches, whatever follows it |
| TextGrids.TextGrid.CheckHeader | TextGrid.py:16-18 | the header passes exactly when the first line starting with `Object class` strips to `Object class = "TextGrid"`, and otherwise the parse raises with nothing assigned |
| TextGridProperties.ParseGridHeader | TextGrid.py:16-18 | the parse raises `NotTextGrid` exactly when the first `Object class` line is missing or does not strip to `Object class = "TextGrid"`, and then assigns nothing |
| TextGrids.TextGrid.ReadSize | TextGrid.py:21-24 | the size is the integer left after removing `size = ` from the first line that starts with it; no such line or no integer raises, with nothing assigned |
| TextGridProperties.ParseGridSize | TextGrid.py:21-24 | after the header: no `size = ` line fails with `NoSize`, an unreadable number with `BadSize`, and otherwise the parse goes on from that line with that size |
| TextGridProperties.ParseGridSizeErrors | TextGrid.py:21-24 | `NoSize` exactly when there is no `size = ` line, `BadSize` exactly when its number does not read, and `size` is assigned exactly when it reads, to that number |
| Numerals.IntParseNatToString | TextGrid.py:24 | `int` reads a decimal numeral as its value |
| Numerals.IntParseNegative | TextGrid.py:24 | `int` accepts a minus sign |
| Numerals.IntParseSpacedSign | TextGrid.py:24 | Python 2's `int` skips whitespace between the sign and the digits: a sign, blanks and a digit string read as the digits' value, negated after `-` (`size = - 3` gives -3) |
| Numerals.IntParseBareSign | TextGrid.py:24 | a sign followed only by whitespace is not a number and raises |
| TextGrids.TextGrid.FindItems | TextGrid.py:27-30 | the marker search returns what the reference search does; when only the last tier's marker is missing, it also returns the `size - 1` markers found before it, those of the reference search for one tier fewer |
| TextGridProperties.ItemLinesSound | TextGrid.py:27-30 | a full search finds one line per tier, each the first line from the previous marker's next line that starts with `    item [j+1]:`; a failed one names a missing tier between 1 and `size` |
| TextGridProperties.ItemLinesAt | TextGrid.py:27-30 | a successful search has `size` lines (none for a negative size), and the `m`-th is the first marker line from its search start |
| TextGridProperties.ItemLinesErrors | TextGrid.py:27-30 | the search fails only by naming a tier that is still to be found |
| TextGridProperties.ItemChainIncreasing | TextGrid.py:27-30 | the marker lines start with their markers, are strictly increasing and all follow the line the search began at |
| TextGridProperties.ItemLinesLastMissing | TextGrid.py:27-30 | the search misses exactly the last tier's marker when the search for one tier fewer succeeds with `size - 1` lines and no line after the last of them starts with the last marker |
| TextGrids.TextGrid.BuildRanges | TextGrid.py:31-34 | with every marker found, `itemRanges` becomes one range per tier, from the line after its marker up to the next marker or the end of the file; with the last marker missing, it holds the ranges of the tiers before it, the last of them ending at `None`, and the loop stops at the missing tier |
| TextGridProperties.RangesFollow | TextGrid.py:31-34 | each range starts on the line after its marker and ends on the next marker, one range follows another with only that marker between, and the last ends at the end of the file |
| TextGridProperties.OpenRangesAgree | TextGrid.py:31-34 | the ranges built before a missing last marker are the complete ranges of the markers found, except that the last one ends at `None` instead of the end of the file |
| TextGridProperties.ItemsRanges | TextGrid.py:27-34 | after a successful search, the ranges assigned are those of the markers: `size` of them (none for a negative size), starting after the `size = ` line, following one another and ending at the end of the file |
| TextGrids.TextGrid.ReadFields | TextGrid.py:45-49 | the interval read from the three lines after a header is that of the reference: `xmin` and `xmax` through `float`, the text with its key removed and its quotes stripped, or the error of the first field that is beyond the file or does not read |
| TextGrids.TextGrid.ReadTier | TextGrid.py:40-53 | the scan of one tier appends to the tier's list the intervals of the reference scan and stops with its error |
| TextGridProperties.ScanTierSound | TextGrid.py:42-53 | the intervals of a tier are what its header lines read to; the headers lie in the range, match the pattern and are at least four lines apart, so no field line is read as a header |
| TextGridProperties.TierInterval | TextGrid.py:42-53 | interval `m` of a tier comes from header line `m`, which lies in the range, matches the pattern and reads to it through its three field lines, and follows header `m-1` by at least four lines |
| TextGridProperties.ScanTierComplete | TextGrid.py:42-53 | a tier scan that ends without error misses no header: every matching line of the range is a header it read or a field line of one |
| TextGridProperties.TierErrors | TextGrid.py:43-49 | a tier scan fails only with a field line beyond the file or a number that does not read |
| TextGrids.TextGrid.ReadTiers | TextGrid.py:37-53 | `intervals` becomes the tier lists of the reference, one per tier up to the first that fails, with that tier's error |
| TextGridProperties.CollectAt | TextGrid.py:37-53 | without error there is one list per range, each the full scan of its range |
| TextGridProperties.CollectFailed | TextGrid.py:37-53 | after an error, the last list is the failed tier's partial scan and carries its error |
| TextGridProperties.CollectBefore | TextGrid.py:37-53 | after an error, every earlier tier was scanned without error and kept whole |
| TextGridProperties.ItemsTiers | TextGrid.py:27-39 | the size is assigned; ranges are assigned exactly when every marker was found or only the last tier's is missing; a missing marker fails with `MissingItem` naming a tier in `1..size` and leaves no intervals; with only the last missing, the markers before it form the search for one tier fewer and the ranges are theirs, the last ending at `None` |
| TextGridProperties.ItemsIntervals | TextGrid.py:37-53 | in a successful parse there are as many interval lists as ranges, one per tier (none for size 0), each the scan of its tier's range |
| TextGridProperties.ItemsFailedTier | TextGrid.py:37-53 | in a parse that fails inside a tier, the last interval list is that tier's partial scan and carries its error |
| TextGridProperties.LaterErrors | TextGrid.py:27-53 | after the size, the parse fails only with a missing marker, a field line beyond the file or a number that does not read |
| TextGridProperties.ParseGridComplete | TextGrid.py:14-53 | a parse without error assigns `size`, `itemRanges` and `intervals` |
| TextGrids.TextGrid.ParseItems | TextGrid.py:26-53 | after the size line: `size` is assigned, then the ranges (also when only the last marker is missing) and the intervals, as far as the reference reading reaches, with its error |
| TextGrids.TextGrid.Parse | TextGrid.py:14-53 | the parse raises exactly the reference's error and assigns `size`, `itemRanges` and `intervals` as far as the reference reaches |
| TextGrids.TextGrid.constructor | TextGrid.py:9-11 | the object holds the lines of the file and nothing parsed yet |
| TextGrids.TextGrid.Load | TextGrid.py:9-12 | `TextGrid(fname)` yields an object exactly when the parse does not raise, holding the file's lines and the size, ranges and intervals of the reference reading |
| Text.RemoveKeyword | TextGrid.py:46-48 | `replace(key, '')` on the key followed by a value that does not contain it gives the value |

## Left out

- Reading files (`open`, `readlines`): the model takes the lines. That means stripped lines for a Formant report (through `StripLines`) and raw lines for a TextGrid.
- `call()`, the Praat script, `subprocess`, platform detection, `from_wav_file`, argparse, the JSON export and the `__main__` blocks: these run external programs or do I/O.
- `to_matlab_mat`: a call into scipy.
- `TextGrid.matlabDisp` and the module-level script: printing and `%f` formatting.
- IEEE floating point. Numbers are exact rationals, with no rounding, overflow or signed zero. `str` of a number is the parameter `show`. `numpy.nan` is `None` in the rows and `NaN` in the rendered data.
- The dictionary `self.data` is a sequence of entries in insertion order. Python 3.7's insertion-ordered `dict` gives the same order.
- Unicode whitespace: `Strip` and `Blank` drop only ASCII whitespace (space, tab, newline, vertical tab, form feed, carriage return), for both parsers. Python 3's `str.strip` in get_formants.py also drops other Unicode spaces.
- FormantParser.Formants.constructor: `last_match` does not exist before the first search in the source (reading it raises `AttributeError`); the model starts it as `None`, which raises at the same uses.
- TextGrids.TextGrid.Parse: the source's constructor raises, so a failed parse never yields a usable object. The model still states the fields `parse` assigned before it raised; the error it raises is named `MissingItem` rather than Python's `TypeError`.
- TextGrids.TextGrid.FindItems: a missing marker raises `TypeError` at the next use of the `None` position: in the next search, or in the range loop when the last marker is missing, after the ranges up to `(idx[size-2]+1, None)` were built (`OpenRanges`). The model reports `MissingItem` at the failed search and builds those same ranges.
- TextGrids.TextGrid.constructor: before `parse`, the source's object has no `size`, `itemRanges` or `intervals` at all; the model starts them at 0, `[]` and `[]`, and no contract depends on those values, since `Load` discards the object when `Parse` raises.
- FormantParser.Formants.FromPraatText: the final position of the cursor is stated only for a rejected header, a file of only the two header lines and a slot index out of range.

## Findings

| source | as written | input that shows it | evidently intended | confidence | as-written member | corrected member |
|---|---|---|---|---|---|---|
| get_formants.py:145 | the error for a wrong second header quotes `self.f[0]`, the valid `File type` line | a TextGrid: `File type = "ooTextFile"` then `Object class = "TextGrid"` | quote the offending line `self.f[1]` | high, not executed | FormantReport.TextGridHeaderMisreported | FormantReport.HeaderError |
| get_formants.py:256 | `_list_to_matlab_string` reads `a[0]`, which raises `IndexError` on an empty list | any report without frames, whose `t`, `formants`, `bandwidths` and `intensity` are empty | render an empty list as `[]` | medium, not executed | FormantReport.NoFramesNotExportable | MatlabLiteral.ListToMatlab |
