# Braille printer application: a verified model of its decision logic

`brf-printer-app.c` is a printer application built on the PAPPL framework.
It serves Braille embossers that take BRF (Braille Ready Format) data.
Most of the file hands callbacks to PAPPL and CUPS. This project models the
parts that make decisions of their own, and proves what they promise:

- **Driver selection for a discovered device** (`match_id`, `autoadd_cb`):
  the parsed IEEE 1284 device ID is scored against each driver's match
  string. An exact value scores 2. A comma-delimited field scores 1.
  Anything else scores 0 and stops. The first driver with the strictly
  highest positive score is chosen (modules `DeviceId`, `Drivers`).
- **Auto-adding a printer** (`printer_cb`): the printer name is the device
  information cut at the first `" ("` within the 128-byte buffer. When that
  name is taken, `" 2"` to `" 99"` are appended, shortening the name so it
  still fits in 127 characters (module `PrinterNames`). The suffix is
  written with `memcpy` into a reused `newname` array.
- **Job set-up** (`BRFTestFilterCB`): the first spooling conversion whose
  source type equals the job format is chosen. The filter chain is its
  filters followed by one "Backend" stage (module `FilterChain`).
- **The Backend stage** (`brf_print_filter_function`): a read / tee to the
  debug copy / write to the device loop. A failed debug write only closes
  the debug copy. A failed device write ends the stage with 1 (module
  `Backend`).
- **Option rules**: the log level and server port that `system_cb` accepts
  (module `SystemOptions`). The `page-ranges` and `orientation-requested`
  filter options that `_brfCreateJobData` derives (module `JobOptions`).

Support modules model the C library calls the code relies on:

- `CStrings`: `papplCopyString` (strlcpy), `strstr`, ASCII `strcasecmp`, and
  reading the NUL-terminated string out of a buffer.
- `Decimal`: `snprintf("%d")` and `atoi`.
- `CupsOptions`: CUPS option lists as name/value pairs, and `cupsGetOption`.
- `Wrappers`: `Option` and `Result`.

Outside influences are parameters:

- The device ID and the match string are taken already parsed into
  key/value pairs. `cupsGetOption` is the lookup of the first pair whose
  name matches ignoring ASCII case.
- `papplPrinterCreate` is a set of names it refuses.
- `read` is the sequence of chunks it returns before end of file.
- Each `write` and `papplDeviceWrite` outcome is an oracle value per chunk.
- Opening the job file is a boolean.
- The status returned by `cfFilterChain` is an integer.
- `debugLevel` is whether `papplSystemGetLogLevel` reports the debug level
  (line 775). That call reads through `global_data`, which is never set
  (declared at line 596, passed on at line 714).
- `debugOpens` is whether the `open` of the debug copy succeeds (line 787).

## Where the model departs from the code

- `match_id` falls off its end without a `return` after the loop
  (line 264), so its result is undefined. The model returns the accumulated
  score, as the comment above the function (lines 200-205) documents.
- In `autoadd_cb` the `for` over the driver list is commented out and `i`
  is never initialised (lines 175-180). The model loops over the whole
  catalog, as intended.
- `brf_print_filter_function` has an unconditional `return (false)` right
  after the debug write (line 802). As written, the stage reads one chunk
  and returns 0 without writing anything to the device. The model's
  `Backend.PrintFilterFunction` is the intended stage, in which every chunk
  continues to the device. The code as written is modelled too, under
  "Findings".
- The partial-match test looks only at the first `strstr` occurrence
  (lines 240-245). The model does the same, so `X100` against
  `X1000,X100` scores 0 (`DeviceId.FirstOccurrenceOnly`).
- The built-in catalog has one driver, `gen_brf`, whose match string is
  NULL (lines 115-120). Auto-adding therefore never picks a driver, and
  `printer_cb` never creates a printer (`Drivers.AutoAddBuiltIn`,
  `PrinterNames.PrinterCbBuiltIn`).
- `autoadd_cb` looks up the manufacturer (`MANUFACTURER`, then `MANU`, then
  `MFG`, lines 170-172) and never uses it, so the model leaves that lookup
  out.
- A `read` error (-1) ends the Backend loop exactly like end of file: the
  device is flushed and the stage returns 0. The model's input is simply
  the chunks read before the loop ends.
- `papplDeviceWrite` counts as failed only when it returns a negative
  value, so a short device write goes unnoticed. A debug write fails
  whenever it writes fewer bytes than asked for.

## Model

| member | source | states |
|---|---|---|
| CStrings.FindFirst | braille-printer-app/brf-printer-app.c:240 | `strstr`: the position of the first occurrence of the needle, with no earlier occurrence; none exactly when it occurs nowhere |
| CStrings.CopyString | braille-printer-app/brf-printer-app.c:358 | `papplCopyString`: the copy is a prefix of the source shorter than the buffer size; it is the whole source when that fits, and otherwise exactly its first size−1 characters |
| CStrings.EqualIgnoringCase | braille-printer-app/brf-printer-app.c:235 | `strcasecmp(a, b) == 0`: equal strings compare equal, and strings that compare equal have the same length |
| CStrings.EqualIgnoringCaseIsCaseVariant | braille-printer-app/brf-printer-app.c:235 | two strings compare equal exactly when they have the same length and each pair of characters is equal or the same ASCII letter in the two cases |
| CStrings.EqualIgnoringCaseSymmetric | braille-printer-app/brf-printer-app.c:235 | the comparison gives the same answer with its arguments swapped |
| CStrings.EqualIgnoringCaseExamples | braille-printer-app/brf-printer-app.c:228 | `MFG` and `mfg` compare equal; `X100` and `X1OO` do not |
| CStrings.TakeCString | braille-printer-app/brf-printer-app.c:382-385 | the string left in a buffer is the prefix before its first NUL and holds no NUL |
| CStrings.TakeCStringOf | braille-printer-app/brf-printer-app.c:360-361 | writing a NUL after a NUL-free string makes the buffer hold exactly that string, whatever follows |
| CStrings.TakeCStringAt | braille-printer-app/brf-printer-app.c:382-385 | a buffer whose first NUL is at `n` holds its first `n` characters |
| Decimal.NatToString | braille-printer-app/brf-printer-app.c:377 | `%d` of a non-negative number: only digits, no leading zero, a single digit exactly for numbers below 10 |
| Decimal.IntToString | braille-printer-app/brf-printer-app.c:898-899 | `%d` of any int: the digits of the magnitude, after a minus sign for negative numbers |
| Decimal.LeadingDigits | braille-printer-app/brf-printer-app.c:455 | what `atoi` reads is the longest prefix of digits |
| Decimal.ParseNatToString | braille-printer-app/brf-printer-app.c:377 | reading back the digits `%d` printed gives the number |
| Decimal.NatToStringInjective | braille-printer-app/brf-printer-app.c:377 | different numbers print differently |
| Decimal.LeadingDigitsStop | braille-printer-app/brf-printer-app.c:455 | `atoi` stops at the first non-digit after a run of digits |
| Decimal.Atoi | braille-printer-app/brf-printer-app.c:455 | `atoi` of text without leading blanks or sign, as at its one call: the decimal value when the text is all digits, and 0 when it does not start with a digit |
| Decimal.LeadingDigitsOfDigits | braille-printer-app/brf-printer-app.c:455 | `atoi` reads a string made only of digits whole |
| Decimal.AtoiNatToString | braille-printer-app/brf-printer-app.c:455 | `atoi` undoes `%d` on non-negative numbers, whatever non-digit text follows |
| CupsOptions.GetOption | braille-printer-app/brf-printer-app.c:228 | `cupsGetOption`: none exactly when no pair has the name ignoring case; otherwise the value of such a pair |
| DeviceId.Classify | braille-printer-app/brf-printer-app.c:228-262 | the case one match pair takes: key missing exactly when the lookup finds nothing; exact exactly when the values are equal ignoring case; no occurrence only when the match value occurs nowhere in the device value; partial exactly when the first occurrence is a whole comma-delimited field |
| DeviceId.Points | braille-printer-app/brf-printer-app.c:235-262 | an exact match is worth 2, a partial match 1, anything else nothing and ends the scoring |
| DeviceId.MatchId | braille-printer-app/brf-printer-app.c:207-264 | the loop computes the documented score; no match pairs give 0; a match key missing from the device ID gives 0 whatever matched before |
| DeviceId.ScoreAppend | braille-printer-app/brf-printer-app.c:226-262 | one more match pair adds exactly 2 for an exact match and 1 for a partial one, and any other outcome makes the whole score 0 |
| DeviceId.SumPointsBounds | braille-printer-app/brf-printer-app.c:235-249 | the points lie between 1 and 2 per pair when every pair scores, and never exceed 2 per pair |
| DeviceId.ScoreBounds | braille-printer-app/brf-printer-app.c:200-264 | a score is at most 2 per match pair; a positive score is at least 1 per pair; it is positive exactly when there are pairs and each matches or partially matches |
| DeviceId.AllExactScore | braille-printer-app/brf-printer-app.c:235-239 | when every pair matches exactly, the score is twice the number of pairs |
| DeviceId.FirstOccurrenceOnly | braille-printer-app/brf-printer-app.c:240-254 | only the first occurrence is examined: `X100` against `X1000,X100` scores 0 |
| DeviceId.ExactAndPartial | braille-printer-app/brf-printer-app.c:235-249 | an exact manufacturer and a model that is one field of a list score 2 + 1 |
| Drivers.AutoAdd | braille-printer-app/brf-printer-app.c:149-196 | no driver is chosen exactly when every driver scores 0; otherwise the choice is the first driver with the highest positive score, and it has a match string |
| Drivers.NoMatchStringNeverSelected | braille-printer-app/brf-printer-app.c:180-190 | a driver without a match string is never the choice |
| Drivers.FirstBestUnique | braille-printer-app/brf-printer-app.c:185-189 | at most one driver is first with the highest score, so the replace-only-when-greater rule determines the choice |
| Drivers.AutoAddBuiltIn | braille-printer-app/brf-printer-app.c:115-120 | with the application's own catalog no driver is ever chosen |
| FilterChain.FindConversion | braille-printer-app/brf-printer-app.c:654-674 | none exactly when no conversion's source type equals the format byte for byte; otherwise the first one that does |
| FilterChain.BuildChain | braille-printer-app/brf-printer-app.c:696-718 | the chain is the conversion's filters in order, then the Backend stage: one longer than the filter list |
| FilterChain.OneDeviceStage | braille-printer-app/brf-printer-app.c:696-718 | when the conversion's filters are external programs, the chain has exactly one device stage |
| FilterChain.NoDeviceStage | braille-printer-app/brf-printer-app.c:561-581 | filters that are external programs contain no device stage |
| FilterChain.TestFilterCB | braille-printer-app/brf-printer-app.c:631-744 | an unopenable job file and a format without a conversion fail before any chain exists; otherwise the job takes the first matching conversion's formats and chain, and succeeds exactly when the chain returns 0 |
| FilterChain.PdfJobSetup | braille-printer-app/brf-printer-app.c:561-581 | a PDF job is converted to paged BRF through texttobrf, then Backend |
| FilterChain.TextJobSetup | braille-printer-app/brf-printer-app.c:668-674 | a plain-text job has no conversion and fails |
| Backend.FirstFailure | braille-printer-app/brf-printer-app.c:804-815 | the first device write that fails lies among the chunks, or is the end of the input |
| Backend.TeeStop | braille-printer-app/brf-printer-app.c:792-801 | the chunk at which the debug copy stops lies among the chunks offered |
| Backend.FirstFailureIsFirst | braille-printer-app/brf-printer-app.c:804-815 | the first failing device write is preceded only by accepted writes |
| Backend.FirstFailureStep | braille-printer-app/brf-printer-app.c:804-815 | an accepted write moves past one chunk; a refused one is the first failure |
| Backend.TeeStopIsFirst | braille-printer-app/brf-printer-app.c:792-801 | the debug copy stops at the first short debug write, and every earlier one was complete |
| Backend.TeeStopAllComplete | braille-printer-app/brf-printer-app.c:792-801 | with no short debug write, the copy never stops |
| Backend.Written | braille-printer-app/brf-printer-app.c:793 | a debug write that returned `w >= 0` put exactly the first `w` bytes of the chunk in the file (the whole chunk when complete); one that returned -1 put nothing |
| Backend.TeeCopyClosedForm | braille-printer-app/brf-printer-app.c:790-801 | the debug copy is every chunk before the first short debug write, then what that write managed |
| Backend.TeeAdvance | braille-printer-app/brf-printer-app.c:792-801 | offering one chunk: a complete write extends the copy, a short one adds what it wrote and logs the failure, and after that nothing changes |
| Backend.TeeStep | braille-printer-app/brf-printer-app.c:792-801 | one tee step keeps the debug copy, its open flag and its log in their specified state |
| Backend.OfferToDebugCopy | braille-printer-app/brf-printer-app.c:792-801 | an open copy receives what the write managed; a short write logs the byte count and closes the copy; a closed copy is untouched |
| Backend.CopyLoop | braille-printer-app/brf-printer-app.c:790-816 | the loop stops right after the first failing device write, logging its byte count, or at the end of the input, with the debug state as specified |
| Backend.PrintFilterFunction | braille-printer-app/brf-printer-app.c:747-825 | status 1 exactly when a device write fails; the device receives the chunks before that write, in order; no write follows a failure; flush happens exactly on success; the debug copy and the log are as specified |
| Backend.ConcatPrefix | braille-printer-app/brf-printer-app.c:790-816 | the bytes of the first chunks are a prefix of the job's bytes |
| Backend.DeviceGetsInputPrefix | braille-printer-app/brf-printer-app.c:790-824 | the device gets the job's bytes cut at a chunk boundary, and all of them on success |
| Backend.DebugCopyIsPrefix | braille-printer-app/brf-printer-app.c:790-801 | the debug copy is a verbatim prefix of the bytes offered to it |
| Backend.DebugCopyComplete | braille-printer-app/brf-printer-app.c:790-801 | when every debug write is complete, the debug copy is exactly the bytes offered |
| Backend.PrintFilterAsWritten | braille-printer-app/brf-printer-app.c:790-803 | the code as written returns 0 and, on non-empty input, neither writes to the device nor flushes it |
| Backend.StrayReturnLosesJob | braille-printer-app/brf-printer-app.c:802 | one chunk to a willing device: the code as written reports success while the device gets nothing |
| PrinterNames.BaseName | braille-printer-app/brf-printer-app.c:357-361 | the first name is a prefix of the device information, under 128 characters, with no `" ("`; it is cut short only where a `" ("` begins within the copied buffer |
| PrinterNames.BaseNameHeld | braille-printer-app/brf-printer-app.c:357-361 | after the copy and the NUL written over the first `" ("`, the buffer holds exactly the base name, whatever it held beyond the copy |
| PrinterNames.BaseNameIdempotent | braille-printer-app/brf-printer-app.c:357-361 | deriving the name again from a derived name changes nothing |
| PrinterNames.Suffix | braille-printer-app/brf-printer-app.c:377-378 | the suffix is a blank and the decimal number, 2 or 3 characters |
| PrinterNames.Candidate | braille-printer-app/brf-printer-app.c:375-384 | a numbered name is at most 127 characters |
| PrinterNames.CandidateShape | braille-printer-app/brf-printer-app.c:375-384 | a numbered name ends with its suffix, and before it is the longest prefix of the base name that fits |
| PrinterNames.CandidatesDistinct | braille-printer-app/brf-printer-app.c:373-384 | different numbers give different names, whatever the base |
| PrinterNames.CopyInto | braille-printer-app/brf-printer-app.c:382-384 | `memcpy`: the target range holds the source, the rest of the buffer is unchanged |
| PrinterNames.FormatCandidate | braille-printer-app/brf-printer-app.c:376-386 | building the name in the reused buffer yields the numbered name, whatever the buffer held, and the buffer then holds exactly that name as a C string, which is what `papplPrinterCreate` reads |
| PrinterNames.HeldString | braille-printer-app/brf-printer-app.c:380-384 | a buffer holding a name prefix, the suffix and a NUL holds that string |
| PrinterNames.Attempts | braille-printer-app/brf-printer-app.c:363-389 | the first `n` names tried number `n` |
| PrinterNames.AttemptsElements | braille-printer-app/brf-printer-app.c:363-389 | the names tried are the base name, then the numbered names in order |
| PrinterNames.CreateWithUniqueName | braille-printer-app/brf-printer-app.c:363-389 | the base name is tried first, then `" 2"` onwards; every name before the last tried was refused; the last is the created one exactly when it was accepted; with none accepted all 99 were tried |
| PrinterNames.PrinterCb | braille-printer-app/brf-printer-app.c:345-394 | without a driver no name is tried; with one, the name derived from the device information is made unique as above |
| PrinterNames.PrinterCbBuiltIn | braille-printer-app/brf-printer-app.c:115-120 | with the application's own catalog no printer is ever created |
| SystemOptions.ParseLogLevel | braille-printer-app/brf-printer-app.c:422-441 | no value gives the unspecified level; a value is accepted only as one of the five names, case-sensitively, and otherwise refused with itself as the error |
| SystemOptions.ParseLogLevelExactly | braille-printer-app/brf-printer-app.c:422-441 | a level is chosen exactly by its own name, and the unspecified level exactly by the absence of a value |
| SystemOptions.ParseServerPort | braille-printer-app/brf-printer-app.c:447-456 | no value gives port 0; a value is refused exactly when it is empty or does not start with a digit; accepted ports are non-negative |
| SystemOptions.ServerPortRoundTrip | braille-printer-app/brf-printer-app.c:447-456 | a port written in decimal reads back, even with text after the digits |
| SystemOptions.ReadSettings | braille-printer-app/brf-printer-app.c:421-456 | the log level is checked before the port, and the first bad one is the error; otherwise the settings hold the parsed level and port and the three text options as given |
| SystemOptions.NoOptionsDefaults | braille-printer-app/brf-printer-app.c:421-456 | no options give the unspecified level, port 0 and no text options |
| SystemOptions.UpperCaseLevelRefused | braille-printer-app/brf-printer-app.c:424-437 | level names are case-sensitive: `DEBUG` is refused |
| JobOptions.NormalizePages | braille-printer-app/brf-printer-app.c:892-895 | an unset first page becomes 1 and an unset last page `INT_MAX`; pages that were set are kept |
| JobOptions.NormalizePagesIdempotent | braille-printer-app/brf-printer-app.c:892-895 | filling in the defaults twice is filling them in once |
| JobOptions.PageRanges | braille-printer-app/brf-printer-app.c:892-901 | the option is present exactly when the range does not cover every page, and is written `first-last` |
| JobOptions.WholeDocumentNoRange | braille-printer-app/brf-printer-app.c:892-901 | unset pages and the range 1 to `INT_MAX` both mean no option |
| JobOptions.ReadDashed | braille-printer-app/brf-printer-app.c:898-899 | `a-b` printed with `%d-%d` reads back as `a` before the dash and `b` after it |
| JobOptions.DigitsBeforeDash | braille-printer-app/brf-printer-app.c:898-899 | the digits in front of the dash are read as a whole |
| JobOptions.PageRangesReadBack | braille-printer-app/brf-printer-app.c:892-901 | for non-negative pages the option value reads back as the normalised range |
| JobOptions.Orientation | braille-printer-app/brf-printer-app.c:967-973 | the option is present exactly for orientations 3 to 6, written as the single digit that reads back as the orientation |
| JobOptions.FilterOptions | braille-printer-app/brf-printer-app.c:892-973 | the options added are exactly the page range and the orientation, each present when its rule says so |
| JobOptions.DefaultJobNoOptions | braille-printer-app/brf-printer-app.c:892-973 | all pages with no orientation add no option |
| JobOptions.RangeAndLandscape | braille-printer-app/brf-printer-app.c:892-973 | pages 2 to 5 in landscape give `page-ranges=2-5` and `orientation-requested=4` |

## Left out

- `main`, `papplMainloop` and the rest of `system_cb` after the options: system creation, listeners, DNS-SD, the web footer, versions, the state file and its path chosen from environment variables (lines 458-516). These are framework calls and depend on the process environment.
- `papplDeviceParseID`: parsing the raw IEEE 1284 string. The model takes the parsed pairs. A match string that parses to no pairs is the empty pair list.
- `cupsGetOption` beyond "the first pair whose name matches ignoring ASCII case". CUPS is not part of this model.
- `cfFilterChain` and `cfFilterExternal`: they run `texttobrf` through pipes and child processes. The model stops at the stage list, and the chain's exit status is a parameter.
- In `BRFTestFilterCB`: the `cups:` device hookup (lines 683-690), the print parameters, the impressions count, opening `/dev/null` and the debug file name. These only connect data structures and do I/O; they make no decision (`global_data` is also read uninitialised at line 714).
- `_brfCreateJobData` apart from the page-range and orientation rules: `media-col`, the `ColorModel` branch (which reads the uninitialised `pcm`, line 975), the `print-scaling` list (its result depends on how `cupsAddOption` replaces and orders entries), the option log, `setenv`, and the filter data fields.
- The manufacturer lookup in `autoadd_cb` (lines 170-172): its result is never used.
- `driver_cb`, with its capability constants and its dispatch to the external `brf_gen`, and `mime_cb`, which returns a constant.
- Closing file descriptors, and the `if (log)` guards in the Backend stage. The log function is always set (line 1063), so the model always logs.
- Decimal.Atoi: unbounded, and reads no leading blanks or sign (C's `atoi` skips blanks and takes a sign, so `atoi(" 7")` is 7 and `atoi("-7")` is -7). Its only call, at line 455, passes text that starts with a digit. It also does not model `atoi`'s undefined behaviour on values outside `int`.
- Backend.PrintFilterFunction: the device receives whole chunks, because a short `papplDeviceWrite` is not detected by the code; the byte stream inside a chunk is not modelled further.
- PrinterNames.PrinterCb: other reasons `papplPrinterCreate` can fail are part of the `taken` oracle.
- SystemOptions.ReadSettings: `system_cb` prints an error message and returns no system on a bad value; the model returns the error without the message.

## Findings

| source | as written | input that shows it | evidently intended | confidence | as-written member | corrected member |
|---|---|---|---|---|---|---|
| braille-printer-app/brf-printer-app.c:802 | an unconditional `return (false)` after the debug write ends the stage after reading the first chunk, with status 0 and nothing sent to the device | one chunk of job data, any device, debug logging off | write each chunk to the device, return 1 on a failed device write, flush and return 0 at end of input | not executed | Backend.PrintFilterAsWritten, Backend.StrayReturnLosesJob | Backend.PrintFilterFunction |
