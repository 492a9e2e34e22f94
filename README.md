# SnappySense core, modelled in Dafny

SnappySense is a small environmental sensor. It is built from several
sequential pieces, and this project models them and proves properties of
the models:

- **Configuration compiler and decoder.** `util/config-compiler/confcomp.go`
  compiles the line-oriented configuration language into a binary blob.
  The blob is a START record `[1, major, minor, bugfix, clear]`, then the
  SETI `[3, slot, 4 bytes LE]` and SETS `[4, slot, 2 bytes LE length,
  bytes]` records, and finally a STOP record `[2, save]`. The device reads
  the blob back in `firmware-idf/main/config.c`.
- **Arduino firmware.**
  - The text configuration interpreter (`config.cpp`).
  - String utilities (`util.cpp`) and the intrusive FIFO `List<T>`
    (`util.h`).
  - The microtask scheduler, which keeps a deadline-sorted queue and a
    blocked queue.
  - The web server's header state machine and handler list.
  - Button press classification.
- **IDF firmware.**
  - The monochrome framebuffer and the SSD1306 display buffer, which are
    two copies of the same pixel, glyph and rectangle logic.
  - The slideshow.
- **Melodies and serial input.**
  - The RTTTL melody compiler (`music-compiler/main.go`).
  - The on-device RTTTL player parser (`src/piezo.cpp`).
  - The serial command buffer (`src/SerialCommands.cpp`).
- **Cloud side.**
  - The Python backend's history entries, device lookups and actuator
    triggering (`snappy_data.py`, `snappy_reading.py`).
  - The dashboard's query de-duplication, observation filtering and
    sorting, and time bucketing (`aws/lambda/snappy.js`).

Files and modules:

| file | module | models |
|---|---|---|
| bytes.dfy | Bytes | bytes, little-endian fields and decimal text |
| wrappers.dfy | Wrappers | `Option` and `Result` |
| list.dfy | FifoList | `List<T>` from util.h, as a class |
| util.dfy | Util | util.cpp |
| prefs.dfy | Prefs | firmware-arduino/src/config.cpp |
| confcomp.dfy | ConfComp | the configuration compiler |
| devconfig.dfy | DevConfig | firmware-idf/main/config.c, as written and corrected |
| microtask.dfy | Microtask | the scheduler |
| pixels.dfy, framebuf.dfy, ssd1306.dfy | Pixels, Framebuf, Ssd1306 | the display buffers |
| slideshow.dfy, button.dfy | Slideshow, Button | the slideshow and the button |
| music.dfy, piezo.dfy | Music, Piezo | the two RTTTL parsers |
| serialcmd.dfy, webserver.dfy | SerialCmd, WebServer | serial commands and the HTTP poller |
| snappydata.dfy, snappyreading.dfy, snappyjs.dfy | SnappyData, SnappyReading, SnappyJs | the backend and the dashboard logic |

Some parts of the source change state in place:

- C globals and structs;
- C++ objects;
- Python lists mutated by `insert`, `pop` and `append`.

These are modelled as classes whose methods `modify` them. Each such
method is specified by functions on the old state, and the lemmas about
those functions carry the properties. Pure parts are modelled as functions
and lemmas. Hardware, NVRAM, the clock, the file system and the network
are parameters or recorded events.

## Model

| member | source | states |
|---|---|---|
| Bytes.LE32OfBytes | util/config-compiler/confcomp.go:339 | the four bytes that Go's shifts take from an integer value, read back little-endian, are the value modulo 2^32 (negative values included) |
| Bytes.LE16OfBytes | util/config-compiler/confcomp.go:343 | the two length bytes, read back little-endian, are the length modulo 2^16 |
| FifoList.Node.constructor | firmware-arduino/src/util.h:48-52 | a new node holds its value and has no successor |
| FifoList.List.constructor | firmware-arduino/src/util.h:57-58 | a new list is valid and empty |
| FifoList.List.IsEmpty | firmware-arduino/src/util.h:61-63 | `first` is null exactly when the list holds no values |
| FifoList.List.AddBack | firmware-arduino/src/util.h:71-79 | the value is appended after the last one, and the three link invariants still hold |
| FifoList.List.PeekFront | firmware-arduino/src/util.h:81-86 | the oldest value, or the panic outcome on an empty list |
| FifoList.List.PopFront | firmware-arduino/src/util.h:88-100 | the oldest value is removed and returned, the rest keep their order, popping the only node nulls both ends, and an empty list gives the panic outcome and is unchanged |
| FifoList.List.Clear | firmware-arduino/src/util.h:65-69 | popping until empty leaves a valid empty list |
| Util.SkipSpaces | firmware-arduino/src/util.cpp:11-13 | the skip loop stops at the first character that is not `isspace`, or at the end |
| Util.ScanWord | firmware-arduino/src/util.cpp:24-42 | an unquoted word runs to the first space, or to the end |
| Util.FindChar | firmware-arduino/src/util.cpp:24-42 | a quoted word runs to the first copy of its quote, or to the end |
| Util.NextWord | firmware-arduino/src/util.cpp:10-46 | a word exists exactly when something other than space is left, and finding it moves strictly forward |
| Util.ScanOne | firmware-arduino/src/util.cpp:11-46 | one turn of the `get_word` loop, with the rescan `goto`, finds the next word of the reference splitter, between its quotes when it was quoted |
| Util.GetWord | firmware-arduino/src/util.cpp:7-62 | `*flag` is true exactly when word n exists, the result is that word, and otherwise it is "" |
| Util.WordsOfJoin | firmware-arduino/src/util.cpp:7-62 | words without spaces or quotes, joined by single blanks, split back into the same words |
| Util.QuotedWord | firmware-arduino/src/util.cpp:16-22 | a word between matching quotes is returned without them, whatever spaces it holds |
| Util.UnclosedQuote | firmware-arduino/src/util.cpp:25-31 | a word whose quote is never closed is scanned again as a plain word, quote included |
| Util.HexValOfDigit | firmware-arduino/src/util.cpp:111-119 | `hexval` gives back the value of each upper-case and lower-case hex digit |
| Util.EscapeOfDigits | firmware-arduino/src/util.cpp:142 | `%` followed by two hex digits decodes to the byte they spell |
| Util.FindEither | firmware-arduino/src/util.cpp:123-125 | the scan stops at the first `=` (or `&`) or NUL, and no earlier character is either |
| Util.PostedField | firmware-arduino/src/util.cpp:121-153 | there is no field exactly when a NUL comes before any `=`; otherwise the key is the text before the first `=`, it holds no `=` or NUL, and the position moves forward |
| Util.GetPostedField | firmware-arduino/src/util.cpp:121-153 | the pointer loops compute the posted-field relation, including the no-field case that leaves `*p` unchanged |
| Util.ScanTo | firmware-arduino/src/util.cpp:123-134 | the scan loop stops at the first wanted character or NUL, which lies inside the memory |
| Util.DecodeRange | firmware-arduino/src/util.cpp:135-147 | the decoding loop computes the URL decoding of the value, `+` as a blank and `%XX` as one byte |
| Util.DecodeFormEncode | firmware-arduino/src/util.cpp:135-147 | round trip: a value encoded as a browser sends form data decodes back to itself |
| Util.PostedFieldOfForm | firmware-arduino/src/util.cpp:121-153 | `key=encoded-value` followed by `&` or NUL gives that key, the original value, and a position just past the `&` |
| Util.FormatTime | firmware-arduino/src/util.cpp:90-104 | the timestamp ends with `/` and the three-letter weekday name |
| Util.Printf0dInRange | firmware-arduino/src/util.cpp:96 | `%0Nd` of a number below 10^N is exactly N digits that read back as the number |
| Util.FormatTimeLayout | firmware-arduino/src/util.cpp:90-104 | for calendar fields in range the timestamp is the 20 characters `YYYY-MM-DDTHH:MM/ddd`, each field reading back as the year + 1900, month + 1, day, hour and minute |
| Button.PressMs | firmware-arduino/src/button.cpp:42-45 | the press length is the 64-bit unsigned difference of the two microsecond stamps, divided by 1000 and rounded down, including when the clock wrapped around |
| Button.Classify | firmware-arduino/src/button.cpp:46-50 | a press of more than 100 ms and at most 1999 ms is a short press; 3000 ms or more is a long press; anything else reports nothing (each case is an if-and-only-if) |
| Button.ButtonState.constructor | firmware-arduino/src/button.cpp:9-11 | the statics start false or zero, with no timer |
| Button.ButtonState.Init | firmware-arduino/src/button.cpp:13-24 | the timer exists exactly when it was created, and it is not yet running |
| Button.ButtonState.Down | firmware-arduino/src/button.cpp:26-34 | without a timer nothing changes; otherwise the button is down, the stamp is the current time and the timer is running |
| Button.ButtonState.Up | firmware-arduino/src/button.cpp:36-51 | a release of a button that is not down reports nothing; otherwise the timer stops, the button is up and the event is the classified press length |
| Button.ButtonState.TimerExpired | firmware-arduino/src/button.cpp:18-23 | the timer callback reports a long press only if the button is still down, and then releases it |
| Button.HeldPress | firmware-arduino/src/button.cpp:18-23 | a press held until the timer fires reports exactly one long press, and the release after it reports nothing |
| Slideshow.Co2Text | firmware-idf/main/slideshow.c:122-134 | each CO2 range of the data-sheet scale gets its word; the bounds 600, 800, 1000 and 1500 ppm belong to the better word |
| Slideshow.TvocText | firmware-idf/main/slideshow.c:142-154 | each volatile-organics range gets its word; the bounds 50, 200, 750 and 6000 ppb belong to the worse word |
| Slideshow.SlideScreen | firmware-idf/main/slideshow.c:84-197 | a slide that has something to show yields a sensor screen, never a message, the splash screen or a blank; it reads outside the six-entry text table (`OutOfTable`) exactly when it is the air-quality slide with an index of 6 or more or the sound slide with a level of 6 or more |
| Slideshow.FirstSlide | firmware-idf/main/slideshow.c:84-205 | the fall-through chain stops at the first slide from the entry slide on that has something to show, and every slide it passes has nothing to show; it stops at slide 11 when none has |
| Slideshow.Show.constructor | firmware-idf/main/slideshow.c:15-23 | the statics start at index 0 with no data and no message |
| Slideshow.Show.Reset | firmware-idf/main/slideshow.c:44-46 | only the slide index changes, and it becomes 0 |
| Slideshow.Show.NewData | firmware-idf/main/slideshow.c:48-58 | the first data becomes current; later data replaces the pending data and leaves current data alone |
| Slideshow.Show.ShowMessageOnce | firmware-idf/main/slideshow.c:60-63 | the new message replaces the old one and nothing else changes |
| Slideshow.Show.Next | firmware-idf/main/slideshow.c:65-207 | a pending message is shown once and nothing else moves; slide 0 shows the splash screen and swaps in pending data; any other index shows the first slide from there that has data and leaves the index just past it, or wraps to 0 |
| Slideshow.NoDataOnlySplash | firmware-idf/main/slideshow.c:84-205 | without current data no sensor slide is shown, so the walk always reaches the end of the cycle |
| Slideshow.TemperatureOnlyCycle | firmware-idf/main/slideshow.c:73-205 | with only a temperature reading the ticks show splash, temperature, then nothing, and the index is back at 0 |
| ConfComp.IntLimits | util/config-compiler/confcomp.go:75-84 | exactly the first four integer slots have limits; `mqtt-use-tls` has none |
| ConfComp.Variables | util/config-compiler/confcomp.go:94-124 | a name the table knows maps to a slot in range, and the pair is an entry of the table |
| ConfComp.RegistryInSlots | util/config-compiler/confcomp.go:32-59 | every variable of the table has an index within the five integer or sixteen string slots |
| ConfComp.RegistryDistinct | util/config-compiler/confcomp.go:99-124 | the table names each variable once, so it is a map |
| ConfComp.RegistryCoversSlots | util/config-compiler/confcomp.go:99-124 | every integer and string slot has a name that looks up to exactly that slot |
| ConfComp.LookupFromFinds | util/config-compiler/confcomp.go:185 | a lookup returns the entry of the first key that matches |
| ConfComp.TrimLeftSuffix | util/config-compiler/confcomp.go:397 | trimming on the left leaves a suffix and drops exactly a run of white-space characters in front of it: ASCII white space and the UTF-8 encodings of U+0085, U+00A0, U+1680, U+2000 to U+200A, U+2028, U+2029, U+202F, U+205F and U+3000; what is left does not start with one |
| ConfComp.TrimRightPrefix | util/config-compiler/confcomp.go:397 | trimming on the right leaves a prefix and drops exactly a run of the same white-space characters behind it; what is left does not end with one |
| ConfComp.TrimNoBreakSpace | util/config-compiler/confcomp.go:397 | a trailing no-break space (the bytes C2 A0) is trimmed off a line, and a line holding only one is blank |
| ConfComp.ReadLines | util/config-compiler/confcomp.go:366-387 | the input is cut into at least one piece, and no piece holds a newline before its end |
| ConfComp.ReadLinesConcat | util/config-compiler/confcomp.go:373-385 | the pieces `ReadString('\n')` returns, joined, are the whole file |
| ConfComp.SigFromLines | util/config-compiler/confcomp.go:391-406 | the significant lines are the trimmed lines that are not blank and not comments, in order, each numbered by its position counted from 1 |
| ConfComp.Input.constructor | util/config-compiler/confcomp.go:366-387 | a new input holds the lines of the text and starts at line 0 |
| ConfComp.Input.Next | util/config-compiler/confcomp.go:391-406 | returns the next significant line, trimmed, with its line number, and removes it from what is pending; at the end it returns ("", 0, false) and stays at the end |
| ConfComp.MatchPreamble | util/config-compiler/confcomp.go:241-265 | a line is not a preamble exactly when it does not start with the keyword; an accepted version has all three parts at most 255 |
| ConfComp.MatchPreambleLine | util/config-compiler/confcomp.go:241-265 | the preamble line of any byte-sized version is matched and gives that version |
| ConfComp.MatchPreambleTooLarge | util/config-compiler/confcomp.go:254-258 | a preamble with a part above 255 is the bad-version-value error |
| ConfComp.ReadIndirect | util/config-compiler/confcomp.go:294-321 | an indirect value is the contents of a file the environment holds; its errors are the missing HOME, the empty name, the unopenable file and the unreadable file, each carrying the statement's line (the empty-name message prints none; see Findings) |
| ConfComp.SetValue | util/config-compiler/confcomp.go:278-323 | the value keeps the variable's name, and every failure carries the statement's line (the bad-value and empty-name messages print none; see Findings) |
| ConfComp.SetValueUnclosed | util/config-compiler/confcomp.go:284-287 | a value that opens a quote and does not close it is the bad-value error |
| ConfComp.MatchSet | util/config-compiler/confcomp.go:267-276 | a line is not a `set` exactly when it does not start with `set`; a matched name is a valid name |
| ConfComp.SetArguments | util/config-compiler/confcomp.go:267-277 | a matched name is a valid name (a letter, then letters, digits, `_` or `-`), and every failure carries the statement's line |
| ConfComp.MatchSetPlain | util/config-compiler/confcomp.go:290-293 | `set NAME VALUE` with a plain value gives that value unchanged |
| ConfComp.MatchSetQuoted | util/config-compiler/confcomp.go:284-288 | a quoted value gives the text between the quotes |
| ConfComp.SetIndirectNoHome | util/config-compiler/confcomp.go:296-303 | `@~/path` without HOME is the HOME-undefined error |
| ConfComp.SetIndirectFile | util/config-compiler/confcomp.go:306-321 | `@path` of a readable file gives that file's contents |
| ConfComp.Atoi | util/config-compiler/confcomp.go:192 | an accepted integer is non-empty text and within the signed 64-bit range |
| ConfComp.AtoiFormatInt | util/config-compiler/confcomp.go:192 | every 64-bit integer written in decimal is read back as itself |
| ConfComp.SetStatement | util/config-compiler/confcomp.go:184-215 | an accepted statement starts with `set`, names a slot in range, holds an integer within its limits or a string of at most 65535 bytes; every failure carries the statement's line |
| ConfComp.Assignment | util/config-compiler/confcomp.go:185-207 | an accepted assignment names the variable the table gives; an integer is the parsed value and within its limits; a string is the value itself and at most 65535 bytes |
| ConfComp.SetIntStatement | util/config-compiler/confcomp.go:191-201 | an integer statement is accepted exactly when the value is within the variable's limits, and otherwise is out of range |
| ConfComp.SetIntNotNumeric | util/config-compiler/confcomp.go:192-195 | a non-numeric value for an integer variable is the bad-integer error |
| ConfComp.SetStrStatement | util/config-compiler/confcomp.go:203-207 | a string statement is accepted exactly when the string has at most 65535 bytes, and otherwise is too long |
| ConfComp.ReportedLine | util/config-compiler/confcomp.go:286 | the printed diagnostic shows the failure's line number, except for the empty-program message (confcomp.go:162), which has no `%d`, and the bad-value and empty-filename messages, whose format calls pass no line |
| ConfComp.EmptyProgramNoLine | util/config-compiler/confcomp.go:158-163 | a file of only a comment and a blank line fails as an empty program, and its message shows no line number |
| ConfComp.BadValueLineLost | util/config-compiler/confcomp.go:286 | `set ssid1 "abc` on line 7 fails with the bad-value error at line 7, and its message shows no line number (as written) |
| ConfComp.EmptyFilenameLineLost | util/config-compiler/confcomp.go:307 | `set ssid1 @` on line 7 fails with the empty-filename error at line 7, and its message shows no line number (as written) |
| ConfComp.ParseProgramShape | util/config-compiler/confcomp.go:154-239 | an accepted program has version 1.0.0 and consists of the preamble, an optional `clear`, one line per statement and then `save` or `end` as the last line |
| ConfComp.ParseProgramAccepts | util/config-compiler/confcomp.go:154-239 | conversely, every input of that shape is accepted, with the statements, flags and version read from it |
| ConfComp.ParsedProgramFits | util/config-compiler/confcomp.go:154-239 | every statement of an accepted program fits the device's tables |
| ConfComp.ParseBodyShape | util/config-compiler/confcomp.go:182-231 | the statement loop accepts a run of statement lines and one terminator, and keeps the header fields |
| ConfComp.ParseBodyNeedsTerminator | util/config-compiler/confcomp.go:220-222 | input without `save` or `end` is rejected, either by a statement error or by the missing-terminator error |
| ConfComp.ParseBodyTrailing | util/config-compiler/confcomp.go:233-236 | a line after the terminator is the trailing-input error, reported at that line |
| ConfComp.Statement | util/config-compiler/confcomp.go:184-217 | the imperative statement step computes the statement relation |
| ConfComp.Parse | util/config-compiler/confcomp.go:154-239 | the imperative parser over the line input returns exactly what the grammar gives for the pending lines |
| ConfComp.ParseStatements | util/config-compiler/confcomp.go:182-238 | the statement loop returns exactly what the body grammar gives |
| ConfComp.SetiRecord | util/config-compiler/confcomp.go:339 | a SETI record is six bytes: the opcode, the slot and the value modulo 2^32 in little-endian order |
| ConfComp.SetsRecord | util/config-compiler/confcomp.go:343-344 | a SETS record is the opcode, the slot, the length modulo 2^16 in little-endian order and the string's bytes |
| ConfComp.RecordBytes | util/config-compiler/confcomp.go:336-345 | each statement's record holds exactly the bytes Go's conversions and shifts produce |
| ConfComp.EncodeBodyAppend | util/config-compiler/confcomp.go:336-349 | the encoding of a body is the concatenation of its statements' encodings |
| ConfComp.EncodeLayout | util/config-compiler/confcomp.go:330-355 | the output is START with the version and the clear flag, then the body, then STOP with the save flag |
| ConfComp.Output.constructor | util/config-compiler/confcomp.go:416-418 | a new output is empty |
| ConfComp.Output.Emit | util/config-compiler/confcomp.go:420-426 | emitting appends the bytes |
| ConfComp.EmitRecord | util/config-compiler/confcomp.go:336-348 | one statement's record is appended to the output |
| ConfComp.Codegen | util/config-compiler/confcomp.go:330-355 | the imperative code generator appends exactly the encoding of the program |
| ConfComp.ParseText | util/config-compiler/confcomp.go:145-146 | a program parsed from any text has version 1.0.0 and only statements that fit the device's tables |
| ConfComp.CompileExample | util/config-compiler/confcomp.go:139-150 | `snappysense-compiled-config 1.0.0`, `set enabled 1`, `save` compiles to START 1 0 0 0, SETI 0 1 0 0 0, STOP 1 |
| DevConfig.Int32Of | firmware-idf/main/config.c:123 | the signed 32-bit integer of a bit pattern is in range and has that pattern modulo 2^32 |
| DevConfig.Int32OfLow | firmware-idf/main/config.c:123 | a 32-bit integer survives the round trip through its unsigned bit pattern |
| DevConfig.ScanBody | firmware-idf/main/config.c:112-168 | the body loop leaves at a STOP opcode or at the end of the buffer, and each record it accepts names a slot inside its table (corrected reader) |
| DevConfig.Run | firmware-idf/main/config.c:89-194 | a bad START rejects with nothing read; an accepted stream starts with a valid START, ends with STOP and a flag of 0 or 1, and its flags are the clear and save flags (corrected reader) |
| DevConfig.Cleared | firmware-idf/main/config.c:64-73 | the defaults: every integer zero and every string null |
| DevConfig.ApplyAllSnoc | firmware-idf/main/config.c:131-161 | applying records one more at a time is applying the longer body |
| DevConfig.ApplyAllLastWrite | firmware-idf/main/config.c:131-161 | last write wins: after a body every slot holds what the last record for it wrote, and a slot no record names keeps its value |
| DevConfig.Device.constructor | firmware-idf/main/config.c:47-52 | the static tables start cleared, with no NVRAM calls |
| DevConfig.Device.ClearConfiguration | firmware-idf/main/config.c:64-73 | both loops leave every integer zero and every string null |
| DevConfig.Device.RunConfiguration | firmware-idf/main/config.c:89-194 | the result says whether the stream is valid; a checking pass changes nothing; a performing pass clears when asked, applies the records read in order, and calls the NVRAM routines for a valid STOP with save set |
| DevConfig.Device.RunBody | firmware-idf/main/config.c:112-168 | the imperative body loop stops exactly where the scan does and applies exactly the records it reads |
| DevConfig.Device.ReadSeti | firmware-idf/main/config.c:117-136 | one SETI step: a short or out-of-range record fails the scan; otherwise the scan continues after six bytes and the slot is written when performing |
| DevConfig.Device.ReadSets | firmware-idf/main/config.c:138-163 | one SETS step: a short record fails the scan; otherwise the scan continues after the payload and the slot is written when performing |
| DevConfig.Device.AcceptConfiguration | firmware-idf/main/config.c:58-61 | the tables and the NVRAM change only if the checking pass accepts, and then by exactly one performing pass |
| DevConfig.Translate | firmware-idf/main/config.c:117-163 | each compiled statement becomes the record the reader stores, one for one |
| DevConfig.ScanEncodedBody | firmware-idf/main/config.c:112-168 | the reader reads back every record of an encoded body, in order, as the translated statements |
| DevConfig.DecodeEncode | firmware-idf/main/config.c:89-194 | round trip: the reader accepts every encoding of a version 1.0.0 program whose statements fit, with its clear flag, its statements and its save flag |
| DevConfig.CompiledConfigAccepted | firmware-idf/main/config.c:58-61 | every configuration the compiler produces is accepted by the reader, with its own clear flag, statements and save flag |
| DevConfig.IntValueSurvives | firmware-idf/main/config.c:123 | an integer within the compiler's limits reaches the device's table unchanged |
| DevConfig.TlsValueTruncated | firmware-idf/main/config.c:123 | `mqtt-use-tls`, which has no limits, accepts 2^32, and the device stores it as 0 |
| DevConfig.BodyAsWritten | firmware-idf/main/config.c:112-168 | the loop exits only at the end of the buffer, and it can spin only when the byte past the buffer is STOP (as written) |
| DevConfig.AsWrittenNeverAccepts | firmware-idf/main/config.c:112-115 | as written, `run_configuration` never accepts any input |
| DevConfig.CompiledConfigAsWritten | firmware-idf/main/config.c:112-115 | every compiled configuration is accepted by the corrected reader, while the reader as written hangs on it when the byte past the buffer is 2 and rejects it otherwise |
| DevConfig.SetiValueAsWrittenDiffers | firmware-idf/main/config.c:123 | SETI 0 = 1 followed by the byte 7: the record means 1, and the code as written reads 117440513 |
| DevConfig.SetsPayloadAsWritten | firmware-idf/main/config.c:150 | the payload as written is copied from four bytes past the start of the data |
| DevConfig.SetsPayloadAsWrittenDiffers | firmware-idf/main/config.c:150 | SETS of the one byte 65 followed by 0 0 0 66: the record means [65], and the code as written stores [66] |
| DevConfig.SetsSlotAsWritten | firmware-idf/main/config.c:143-160 | a SETS into string slot 16 passes the checks as written, while the corrected reader rejects it |
| Prefs.Live | firmware-arduino/src/config.cpp:36 | a scan from any slot stops at the first null `long_key`, and every slot before it holds a preference |
| Prefs.FindPref | firmware-arduino/src/config.cpp:83-90 | `get_pref` finds the first live entry whose long key equals the name; when it finds nothing, no live entry has that name |
| Prefs.Reset | firmware-arduino/src/config.cpp:68-81 | every factory entry is copied into its slot, and the terminator slot is left as it was |
| Prefs.FindFactoryKey | firmware-arduino/src/config.cpp:38-60 | after a reset each factory name is found at its own factory position |
| Prefs.FactoryKeysDistinct | firmware-arduino/src/config.cpp:38-60 | the factory table names each preference once |
| Prefs.ScanDec | firmware-arduino/src/config.cpp:216 | a `%d` conversion that succeeds consumes at least one character |
| Prefs.ScanDecimal | firmware-arduino/src/config.cpp:216 | `%d` reads back a decimal rendering of a natural number |
| Prefs.ScanNegative | firmware-arduino/src/config.cpp:216 | `%d` reads back a minus sign followed by a decimal rendering as the negative number |
| Prefs.AtolIntText | firmware-arduino/src/config.cpp:250 | `toInt` reads back the rendering of any integer as that integer |
| Prefs.ScanVersionText | firmware-arduino/src/config.cpp:216 | `%d.%d.%d` reads a version text back as its three numbers |
| Prefs.VersionAccepted | firmware-arduino/src/config.cpp:214-228 | a version is accepted exactly when the major number is 1 and the minor number is at most 1; otherwise it is "Bad version" |
| Prefs.VersionCheck | firmware-arduino/src/config.cpp:214-228 | no error exactly when the text scans as three numbers with major 1 and minor at most 1; an unscannable text is "Bad statement", a wrong version "Bad version" |
| Prefs.Trim | firmware-arduino/src/config.cpp:284 | `trim` gives a slice of the text with no white space at either end |
| Prefs.FirstEnd | firmware-arduino/src/config.cpp:271-283 | the certificate loop stops at the first line that starts with `-----END `, and no line before it does |
| Prefs.SetStatement | firmware-arduino/src/config.cpp:229-251 | `set` succeeds exactly when there is a name, a value, and the name is a known preference that is not a certificate; then only that slot changes, a string verbatim or an integer through `toInt`; the errors are "Missing name", "Missing value" and "Bad name" |
| Prefs.CertStatement | firmware-arduino/src/config.cpp:252-290 | `cert` can fail only with "Missing name", "EOF in cert", "Missing BEGIN" or "Bad name" |
| Prefs.CertStore | firmware-arduino/src/config.cpp:285-290 | storing a certificate under a name that is not a certificate preference fails with "Bad name" and changes nothing |
| Prefs.CertEarly | firmware-arduino/src/config.cpp:253-268 | no name gives "Missing name"; no next line gives "EOF in cert"; a next line without `-----BEGIN ` gives "Missing BEGIN" after counting that line |
| Prefs.CertUnended | firmware-arduino/src/config.cpp:271-275 | a certificate without an end line reads all the input, counts every line, and gives "EOF in cert" |
| Prefs.CertEnded | firmware-arduino/src/config.cpp:269-290 | a certificate with an end line stores the trimmed text from the BEGIN line through the END line, each line followed by a newline, after counting all of them |
| Prefs.StatementCases | firmware-arduino/src/config.cpp:205-304 | each keyword's statement: `end` finishes, `clear` resets, `save` writes the table to NVRAM and sets the saved flag, `version` and `set` check, `cert` reads a block, blank and comment lines are skipped, anything else is "Bad statement" |
| Prefs.StepConsumes | firmware-arduino/src/config.cpp:198-305 | one statement reads a prefix of the rest of the input, counts each line it reads, keeps the table's names, never clears the saved flag and only appends to NVRAM; only `end` finishes successfully |
| Prefs.ResetKeys | firmware-arduino/src/config.cpp:68-81 | a reset keeps every factory name at its position |
| Prefs.SetKeepsKeys | firmware-arduino/src/config.cpp:247-251 | `set` changes values, never names or flags |
| Prefs.EvaluateConsumes | firmware-arduino/src/config.cpp:195-308 | a whole run reads a prefix of its input and counts every line, plus one for a missing `end`; it succeeds only on an `end` line, keeps the table's names, never forgets a `save`, and only appends to NVRAM |
| Prefs.EvaluateAtEnd | firmware-arduino/src/config.cpp:199-203 | running out of input is "Missing END", counted as one more line |
| Prefs.AccessPointKeys | firmware-arduino/src/config.cpp:443-475 | with the factory names in place, `ssidN` and `passwordN` are found at their factory positions for N from 1 to 3 |
| Prefs.SetStringGet | firmware-arduino/src/config.cpp:104-106 | setting one string preference changes what that name reads and no other name's value or position |
| Prefs.AsStep | firmware-arduino/src/config.cpp:195-305 | a statement goes on with the same state and input exactly when there is no error; otherwise the run stops with that error |
| Prefs.Config.constructor | firmware-arduino/src/config.cpp:66 | the static table starts with every slot null and nothing written to NVRAM |
| Prefs.Config.ResetConfiguration | firmware-arduino/src/config.cpp:68-81 | the copy loop leaves the reset table, with every factory name in place |
| Prefs.Config.SaveConfiguration | firmware-arduino/src/config.cpp:111-128 | the current table is appended to the NVRAM writes and nothing else changes |
| Prefs.Config.GetPref | firmware-arduino/src/config.cpp:83-90 | the search loop returns the first live slot with the name, or none |
| Prefs.Config.GetStringPref | firmware-arduino/src/config.cpp:100-102 | returns the string value of the named preference |
| Prefs.Config.SetStringPref | firmware-arduino/src/config.cpp:104-106 | replaces the string value of the named preference only, and keeps the factory names |
| Prefs.Config.AccessPointSsid | firmware-arduino/src/config.cpp:443-450 | SSID 1 to 3 is the matching preference's value; any other number gives "" |
| Prefs.Config.SetAccessPointSsid | firmware-arduino/src/config.cpp:452-458 | SSID 1 to 3 sets the matching preference; any other number changes nothing |
| Prefs.Config.AccessPointPassword | firmware-arduino/src/config.cpp:460-467 | password 1 to 3 is the matching preference's value; any other number gives "" |
| Prefs.Config.SetAccessPointPassword | firmware-arduino/src/config.cpp:469-475 | password 1 to 3 sets the matching preference; any other number changes nothing |
| Prefs.Config.RunSet | firmware-arduino/src/config.cpp:229-251 | the imperative `set` changes the table exactly as the statement relation says, or reports its error and changes nothing |
| Prefs.Config.ReadBlock | firmware-arduino/src/config.cpp:269-283 | the certificate loop pops lines through the first END line and joins them with newlines; without an END line it empties the input |
| Prefs.Config.StoreCert | firmware-arduino/src/config.cpp:284-290 | stores the certificate exactly when the name is a certificate preference, and otherwise reports "Bad name" with the table unchanged |
| Prefs.Config.RunCert | firmware-arduino/src/config.cpp:252-290 | the imperative `cert` statement does what the statement relation says, including the line count and the lines it pops |
| Prefs.Config.RunCertBlock | firmware-arduino/src/config.cpp:258-290 | the block-reading part of `cert` does what the statement relation says |
| Prefs.Config.RunStatement | firmware-arduino/src/config.cpp:204-304 | one pass of the loop body does exactly what the statement relation says to the table, the saved flag, the line count, NVRAM and the input list |
| Prefs.Config.CheckVersion | firmware-arduino/src/config.cpp:214-228 | the `version` statement checks its second word as the version relation says |
| Prefs.Config.IsIgnorable | firmware-arduino/src/config.cpp:292-303 | the white-space loop recognises exactly the blank and comment lines |
| Prefs.Config.EvaluateConfiguration | firmware-arduino/src/config.cpp:195-308 | the imperative interpreter over the popped list ends with the status, table, saved flag, line number, NVRAM writes and remaining input of the reference run |
| Prefs.Config.Round | firmware-arduino/src/config.cpp:198-205 | one turn of the loop counts a line and runs it, or reports "Missing END" on an empty list |
| Microtask.Wrap | firmware-arduino/src/microtask.cpp:41 | `unsigned long` addition stays below 2^32 and changes nothing that already fits |
| Microtask.LeadingAtMost | firmware-arduino/src/microtask.cpp:26-29 | the walk stops after exactly the leading deadlines not later than the new one, and the next one is later |
| Microtask.LeadingAtMostIs | firmware-arduino/src/microtask.cpp:26-29 | that stopping position is the only one with these properties |
| Microtask.InsertSorted | firmware-arduino/src/microtask.cpp:23-36 | `add_task` keeps the queue sorted by deadline, and the task lands after every earlier-or-equal deadline and before every later one (first in, first out among equals) |
| Microtask.InsertMembers | firmware-arduino/src/microtask.cpp:23-36 | `add_task` adds exactly the one task, and the queue stays free of duplicates |
| Microtask.InsertZero | firmware-arduino/src/microtask.cpp:18-21 | on the blocked queue, where every deadline is 0, `add_task` appends at the end |
| Microtask.AddTask | firmware-arduino/src/microtask.cpp:23-36 | the pointer walk of `add_task` splices the task in where the sorted insertion says |
| Microtask.ScheduleAfter | firmware-arduino/src/microtask.cpp:38-43 | `sched_microtask_after` makes the task one-shot and rescheduled, with deadline now + delay wrapped at 2^32, puts it on the run queue and keeps the scheduler invariant; no other task changes |
| Microtask.SchedulePeriodically | firmware-arduino/src/microtask.cpp:45-50 | `sched_microtask_periodically` makes the task periodic with deadline now and the interval as its delay, and queues it |
| Microtask.BlockTask | firmware-arduino/src/microtask.cpp:164-168 | `block_microtask` sets `blocked` exactly when the task is periodic and touches nothing else |
| Microtask.Execute | firmware-arduino/src/microtask.cpp:108 | a task's own `execute` leaves it alone, blocks it, or reschedules it, and the scheduler invariant holds after each |
| Microtask.Settle | firmware-arduino/src/microtask.cpp:117-132 | after its turn, a blocked periodic task goes to the end of the blocked queue with deadline 0, an unblocked one back on the run queue at now + delay, a rescheduled one-shot task stays where it is, and any other one-shot task is deleted |
| Microtask.Process | firmware-arduino/src/microtask.cpp:95-132 | one task's turn keeps the scheduler invariant and changes no other task |
| Microtask.NotRunSettles | firmware-arduino/src/microtask.cpp:99-116 | a blocked task, or one that needs the device enabled when it is not, is not executed and is only settled |
| Microtask.BlockedParks | firmware-arduino/src/microtask.cpp:99-123 | a periodic task that is blocked when its turn comes lands on the blocked queue with deadline 0 |
| Microtask.Eligible | firmware-arduino/src/microtask.cpp:99-116 | the tasks executed are exactly those due, not blocked, and enabled if they need to be |
| Microtask.ProcessStep | firmware-arduino/src/microtask.cpp:94-133 | after one turn the rest of the slice is still off both queues and unchanged |
| Microtask.Due | firmware-arduino/src/microtask.cpp:80-91 | the slice is the longest prefix of the run queue whose deadlines have passed |
| Microtask.SliceSliced | firmware-arduino/src/microtask.cpp:88-91 | the sliced-off tasks are off both queues and distinct |
| Microtask.UnblockFrom | firmware-arduino/src/microtask.cpp:52-71 | `schedule_unblocked_tasks` keeps the scheduler invariant |
| Microtask.UnblockStep | firmware-arduino/src/microtask.cpp:55-70 | a task still blocked is stepped over; an unblocked one is unlinked and added to the run queue with deadline now |
| Microtask.UnblockFromResult | firmware-arduino/src/microtask.cpp:52-71 | afterwards the blocked queue holds exactly the still-blocked tasks in their order, the unblocked ones are on the run queue with deadline now, and nothing else changes |
| Microtask.StillBlocked | firmware-arduino/src/microtask.cpp:55-70 | the tasks left on the blocked queue are exactly those still blocked |
| Microtask.Moved | firmware-arduino/src/microtask.cpp:55-70 | the tasks moved are exactly those on the blocked queue no longer blocked |
| Microtask.SleepTime | firmware-arduino/src/microtask.cpp:139-161 | the sleep time is 1000 ms for an empty queue (or an `ULONG_MAX` head), 0 when the head is due, and otherwise the time left until the head's deadline |
| Microtask.SleepUntilDue | firmware-arduino/src/microtask.cpp:139-161 | when no task is due the caller sleeps a positive time that ends exactly at the head's deadline |
| Microtask.RoundsStep | firmware-arduino/src/microtask.cpp:78-137 | while the head of the run queue is due, the scheduler runs one more round and then unblocks |
| Microtask.RoundsDone | firmware-arduino/src/microtask.cpp:78 | the loop ends once the head is not due |
| Microtask.Scheduler.constructor | firmware-arduino/src/microtask.cpp:16-21 | both queues start empty |
| Microtask.Scheduler.Create | firmware-arduino/src/microtask.cpp:16-21 | a new task starts with the member initialisers' fields and on no queue |
| Microtask.Scheduler.SchedAfter | firmware-arduino/src/microtask.cpp:38-43 | the scheduler's state becomes that of `ScheduleAfter` |
| Microtask.Scheduler.SchedPeriodically | firmware-arduino/src/microtask.cpp:45-50 | the scheduler's state becomes that of `SchedulePeriodically` |
| Microtask.Scheduler.Link | firmware-arduino/src/microtask.cpp:23-36 | `add_task` on the run queue, keeping the invariant |
| Microtask.Scheduler.ParkTask | firmware-arduino/src/microtask.cpp:121-123 | `add_task` on the blocked queue |
| Microtask.Scheduler.Block | firmware-arduino/src/microtask.cpp:164-168 | the task's fields become `BlockTask` of the old ones, nothing else changes |
| Microtask.Scheduler.Unblock | firmware-arduino/src/microtask.cpp:170-172 | `unblock_microtask` clears `blocked` and changes nothing else |
| Microtask.Scheduler.ScheduleUnblocked | firmware-arduino/src/microtask.cpp:52-71 | the loop over the blocked queue computes `UnblockFrom` |
| Microtask.Scheduler.RunTask | firmware-arduino/src/microtask.cpp:95-132 | one task's turn, and it executes exactly when it is not blocked and enabled if it must be |
| Microtask.Scheduler.ExecuteTask | firmware-arduino/src/microtask.cpp:108 | the state after `execute` is that of `Execute` |
| Microtask.Scheduler.SettleTask | firmware-arduino/src/microtask.cpp:117-132 | the re-queueing or deletion is that of `Settle` |
| Microtask.Scheduler.SliceDue | firmware-arduino/src/microtask.cpp:80-91 | the loop slices off exactly the due prefix, and the run queue keeps the rest |
| Microtask.Scheduler.RunRound | firmware-arduino/src/microtask.cpp:80-133 | one round processes the slice in order, and the tasks executed are the eligible ones |
| Microtask.Scheduler.Turn | firmware-arduino/src/microtask.cpp:78-137 | one pass of the outer loop: a round and then `schedule_unblocked_tasks` |
| Microtask.Scheduler.RunScheduler | firmware-arduino/src/microtask.cpp:73-162 | `run_scheduler` unblocks, runs rounds while the head is due and returns the sleep time; when it stops before the fuel runs out no task is due and the sleep time is positive |
| Microtask.EligibleAppend | firmware-arduino/src/microtask.cpp:94-116 | the executed tasks of two slices are those of each in turn |
| Pixels.IndexInBuffer | firmware-idf/main/framebuf.c:48-60 | every on-screen pixel's byte `x + (y / 8) * width` lies inside a buffer that holds all pages of the screen |
| Pixels.HeaderSizeTooSmall | firmware-idf/main/oled.c:16-20 | with the `(width*height+7)/8` bytes that the header asks for, the 100 x 100 buffer puts pixel (99, 99) at byte 1299 of a 1250-byte buffer |
| Pixels.SetPixelIs | firmware-idf/main/framebuf.c:48-60 | drawing off screen changes nothing; on screen, white ORs and black clears bit `y % 8` of byte `x + (y / 8) * width` |
| Pixels.SetPixelBits | firmware-idf/main/framebuf.c:48-60 | a pixel write changes one byte only, and only its bit `y % 8`, and the pixel then reads as the colour drawn |
| Pixels.SetPixelFrame | firmware-idf/main/framebuf.c:48-60 | a pixel write leaves every other pixel as it was |
| Pixels.PaintPixel | firmware-idf/main/framebuf.c:48-60 | after a sequence of pixel writes each pixel shows the colour of the last write to it, or its old value if none |
| Pixels.GridPixel | firmware-idf/main/framebuf.c:64-118 | drawing a block of cells (glyph, bitmap or rectangle) sets exactly the pixels its cells draw and leaves the rest |
| Framebuf.Walk | firmware-idf/main/framebuf.c:145-157 | the pixels `fb_line`'s loop draws are in the bounding box of the segment, each next to the one before, the last next to the end point |
| Framebuf.LineShape | firmware-idf/main/framebuf.c:135-159 | `fb_line` draws the end point first, then the start point, then a chain of neighbouring pixels inside the box |
| Framebuf.StepKeepsTrack | firmware-idf/main/framebuf.c:147-156 | each step of Bresenham's loop moves at least one way and keeps the error term in step with the pixels left in each direction |
| Framebuf.WriteCount | firmware-idf/main/framebuf.c:121-126 | the number of characters `fb_write_string` writes is at most the length of the string |
| Framebuf.WriteTextStops | firmware-idf/main/framebuf.c:121-126 | the string is written up to the first character that is not printable or does not fit, and every character before it is printable and fits |
| Framebuf.FilledPixels | firmware-idf/main/framebuf.c:34-40 | after a fill every pixel reads as the fill colour |
| Framebuf.RectPixels | firmware-idf/main/framebuf.c:364-377 | a filled rectangle sets exactly the on-screen pixels between the normalised corners and leaves every other pixel |
| Framebuf.GlyphPixels | firmware-idf/main/framebuf.c:104-114 | a written character paints its whole cell: a font bit in the colour and every other cell pixel in the inverse colour |
| Framebuf.BitmapPixels | firmware-idf/main/framebuf.c:64-87 | a bitmap draws exactly the pixels whose bits are set, in the colour, and leaves the rest |
| Framebuf.Framebuf.constructor | firmware-idf/main/oled.c:20-28 | a framebuffer of the given size, with the cursor at (0, 0) and every byte zero |
| Framebuf.Framebuf.Fill | firmware-idf/main/framebuf.c:34-40 | `fb_fill` sets every byte to 0x00 for black and 0xFF for white |
| Framebuf.Framebuf.FillBuffer | firmware-idf/main/framebuf.c:42-46 | `fb_fill_buffer` copies the bytes to the front when they fit, and otherwise changes nothing |
| Framebuf.Framebuf.DrawPixel | firmware-idf/main/framebuf.c:48-60 | `fb_draw_pixel` is the pixel write (no-op off screen, one bit on screen) |
| Framebuf.Framebuf.DrawBitmap | firmware-idf/main/framebuf.c:64-87 | nothing happens when the origin is off screen; otherwise the bitmap's set bits are drawn row by row, loading a byte every 8 columns and shifting it |
| Framebuf.Framebuf.WriteChar | firmware-idf/main/framebuf.c:89-119 | `fb_write_char` succeeds exactly for a printable character that fits at the cursor; then it paints the glyph and moves the cursor by the font width, and otherwise changes nothing |
| Framebuf.Framebuf.WriteString | firmware-idf/main/framebuf.c:121-126 | `fb_write_string` stops at the first character not written, whose position it returns, paints the characters before it and moves the cursor past them |
| Framebuf.Framebuf.SetCursor | firmware-idf/main/framebuf.c:128-131 | `fb_set_cursor` sets both cursor fields |
| Framebuf.Framebuf.Line | firmware-idf/main/framebuf.c:135-159 | `fb_line` leaves the buffer its Bresenham pixel sequence leaves |
| Framebuf.Framebuf.FillRectangle | firmware-idf/main/framebuf.c:364-377 | `fb_fill_rectangle` draws the cells between the normalised corners, cut off at the screen edge |
| Framebuf.NextByte | firmware-idf/main/framebuf.c:75-79 | the bitmap byte in hand is always the row's byte shifted by the column within it |
| Ssd1306.PagedBufferFits | firmware-idf/main/ssd1306.c:50 | for a height that is a whole number of pages, `width*height/8` bytes hold every pixel |
| Ssd1306.CLength | firmware-idf/main/ssd1306.c:272 | the C string ends at its first NUL, or at the end of the text |
| Ssd1306.WriteStringResult | firmware-idf/main/ssd1306.c:271-282 | the character `ssd1306_WriteString` returns is NUL exactly when the whole C string was written; otherwise it is the first character that is not printable or does not fit |
| Ssd1306.Device.constructor | firmware-idf/main/ssd1306.c:43-57 | `ssd1306_i2c_init` sets the size, `buffer_size = width*height/8`, a zeroed buffer, and zero cursor and flags |
| Ssd1306.Device.Init | firmware-idf/main/ssd1306.c:168-180 | after `ssd1306_Init` the display is on and marked initialised, the buffer is black and the cursor at (0, 0) |
| Ssd1306.Device.FillBuffer | firmware-idf/main/ssd1306.c:70-77 | `ssd1306_FillBuffer` returns OK exactly when the bytes fit, and then copies them to the front; on ERR the buffer is unchanged |
| Ssd1306.Device.Fill | firmware-idf/main/ssd1306.c:184-190 | every byte becomes 0x00 for black and 0xFF for white |
| Ssd1306.Device.DrawPixel | firmware-idf/main/ssd1306.c:214-226 | the same single-bit pixel write as the framebuffer |
| Ssd1306.Device.WriteChar | firmware-idf/main/ssd1306.c:234-268 | returns the character and paints it, advancing `CurrentX` by the font width, exactly when it is printable and fits; otherwise returns 0 and changes nothing |
| Ssd1306.Device.DrawGlyph | firmware-idf/main/ssd1306.c:250-261 | the glyph loops paint the character cell, font bits in the colour and the rest inverted |
| Ssd1306.Device.WriteString | firmware-idf/main/ssd1306.c:271-282 | returns the first character not written (NUL when all were), paints those before it and advances the cursor past them |
| Ssd1306.Device.SetCursor | firmware-idf/main/ssd1306.c:285-288 | sets both cursor fields and nothing else |
| Ssd1306.Device.FillRectangle | firmware-idf/main/ssd1306.c:527-540 | draws the cells between the normalised corners, cut off at the screen edge |
| Ssd1306.Device.SetDisplayOn | firmware-idf/main/ssd1306.c:575-585 | `DisplayOn` becomes 1 for a nonzero argument and 0 otherwise; nothing else changes |
| Ssd1306.Device.GetDisplayOn | firmware-idf/main/ssd1306.c:587-589 | returns `DisplayOn`, which is 0 or 1 |
| Music.NoteNumber | music-compiler/main.go:246-265 | the letters `cdefgabp` get note numbers 1..14 and every other character 0 |
| Music.ScanEnd | music-compiler/main.go:316-324 | `scan_int` stops at the first character that is not a digit, or at the end |
| Music.ScanInt | music-compiler/main.go:316-324 | the loop returns the value of the digit run and the index after it (unbounded; the 64-bit wrap is under Left out) |
| Music.ScanIntFits | music-compiler/main.go:316-324 | a run of at most 18 digits has a value below 2^63, so Go's `int` does not wrap there and the unbounded value is Go's |
| Music.ScanDecimal | music-compiler/main.go:316-324 | round trip: a number written in decimal and followed by a non-digit scans back to itself |
| Music.Tempo | music-compiler/main.go:209-212 | with the intended guard a positive tempo is never replaced by 0 |
| Music.NameEnd | music-compiler/main.go:159-162 | the preamble runs to the first `:` |
| Music.DurationField | music-compiler/main.go:172-184 | `d=` sets the default duration only when the number is positive, and the field ends after its comma |
| Music.OctaveField | music-compiler/main.go:186-202 | `o=` sets the default octave only for a digit in 3..7 |
| Music.TempoField | music-compiler/main.go:204-216 | `b=` is read up to its `:` |
| Music.ParseHeader | music-compiler/main.go:143-220 | an accepted header has a positive duration, an octave in 3..7, a positive tempo and `wholenote = (60000/bpm) << 2` |
| Music.ReadHeader | music-compiler/main.go:147-220 | the `idx` loop with its `goto borked` exits computes the header parse, including `Bad tune at location idx` and the division by zero |
| Music.ReadDuration | music-compiler/main.go:172-184 | the duration field, as an imperative read |
| Music.ReadOctave | music-compiler/main.go:186-202 | the octave field, as an imperative read |
| Music.ReadTempo | music-compiler/main.go:204-216 | the tempo field, as an imperative read, with the `bpm != 0` guard as written |
| Music.Marks | music-compiler/main.go:267-290 | the optional `#`, `.`, octave digit and comma after a note letter only move forward |
| Music.ParseNote | music-compiler/main.go:233-297 | a parsed note consumes at least one character |
| Music.ReadNote | music-compiler/main.go:233-297 | the body of the note loop computes the note parse |
| Music.ReadMarks | music-compiler/main.go:267-290 | the mark reads compute `Marks` |
| Music.Lookup | music-compiler/main.go:292-295 | a pause-free note is looked up in the note table at `(scale-4)*12+note`, an unknown letter sounds 440 Hz, and an index outside the table is a run-time panic |
| Music.ReadNotes | music-compiler/main.go:228-298 | the note loop appends the tones the note parser gives, and stops at the first error |
| Music.CompileLine | music-compiler/main.go:143-314 | `main` succeeds exactly when the compiler function does, printing its melody as C, and otherwise fails with the same error |
| Music.DurText | music-compiler/main.go:316-324 | the digit text of a duration reads back as that duration |
| Music.DurationFieldRoundTrip | music-compiler/main.go:172-184 | `d=N,` gives back N when positive and the old default otherwise |
| Music.OctaveFieldRoundTrip | music-compiler/main.go:186-202 | `o=D,` gives back D when in 3..7 and the old default otherwise |
| Music.TempoFieldRoundTrip | music-compiler/main.go:204-216 | `b=N:` gives back N for a positive N |
| Music.HeaderRoundTrip | music-compiler/main.go:143-220 | round trip: a header printed from a name, duration, octave and tempo parses back to them, with `(no name)` for an empty name |
| Music.MarksRoundTrip | music-compiler/main.go:267-290 | the marks printed for a note (sharp, dot, octave, comma) parse back to its semitone, lengthened duration and octave |
| Music.NoteRoundTrip | music-compiler/main.go:233-297 | a printed note parses back to its tone: the table frequency and `wholenote/num` (or the default), lengthened by half when dotted |
| Music.NotesRoundTrip | music-compiler/main.go:228-298 | a comma-separated list of printed notes parses back to their tones in order |
| Music.TuneRoundTrip | music-compiler/main.go:143-298 | round trip of a whole tune: header and notes printed as RTTTL compile back to the melody |
| Music.ToneListCount | music-compiler/main.go:304-308 | the C initialiser has one `{frequency,duration}` entry per tone, matching the printed length |
| Music.EmptyTempoDividesByZero | music-compiler/main.go:209-220 | as written, `b=` with no digits sets the tempo to 0 and the whole-note division panics, where the intended guard keeps 63 |
| Music.IntendedTempo | music-compiler/main.go:209-220 | with the guard on the number read, no header parse divides by zero, and it agrees with the code wherever the code succeeds or fails otherwise |
| Music.OctaveThreeOutOfTable | music-compiler/main.go:292-295 | a note in octave 3 indexes before the start of the table, a run-time panic |
| Music.PauseSounds | music-compiler/main.go:263-295 | `p` is note 14, which sounds as C#7 (2217 Hz) rather than silence |
| Music.TrailingNewlineTone | music-compiler/main.go:246-297 | the newline that `ReadString` keeps is parsed as one more note, a 440 Hz tone of the default duration; the newline comes from the read at line 145 |
| Piezo.At | src/piezo.cpp:159-200 | reading a C string yields NUL exactly at its end |
| Piezo.Begin | src/piezo.cpp:133-210 | `start_playing` leaves the 8-bit fields in range, and when it reaches the end a positive tempo and the matching whole note; a bad tune leaves `wholenote` as it was |
| Piezo.NoteStep | src/piezo.cpp:214-280 | `get_note` reports the end exactly at the NUL, and each note moves strictly forward |
| Piezo.ReadNumber | src/piezo.cpp:222-223 | the digit loop yields the value of the run and stops after it; the loop at lines 170-172 is the same |
| Piezo.Player.constructor | src/piezo.cpp:126-131 | the player starts with no tune and zeroed fields |
| Piezo.Player.StartPlaying | src/piezo.cpp:133-210 | the state the header reads leave is `Begin` of the melody |
| Piezo.Player.ReadDurationField | src/piezo.cpp:166-177 | `d=` read into the 8-bit `default_dur` |
| Piezo.Player.ReadOctaveField | src/piezo.cpp:179-188 | `o=` read into `default_oct` |
| Piezo.Player.ReadTempoField | src/piezo.cpp:190-206 | `b=` read into the 8-bit `bpm`, then the whole note |
| Piezo.Player.GetNote | src/piezo.cpp:214-280 | `get_note` returns the step of the reference parse and advances `tune` only when it plays a note |
| Piezo.DurationAgrees | src/piezo.cpp:166-177 | the player's duration field agrees with the compiler's, up to 8-bit truncation |
| Piezo.OctaveAgrees | src/piezo.cpp:179-188 | the octave fields agree |
| Piezo.TempoAgrees | src/piezo.cpp:190-206 | the tempo fields agree, up to truncation, and a tempo of 0 divides by zero |
| Piezo.StartAgrees | src/piezo.cpp:133-210 | the player's header parse rejects exactly the tunes the compiler rejects, at the same position, and otherwise yields the same defaults |
| Piezo.NoteAgrees | src/piezo.cpp:214-280 | a note the player plays is the note the compiler emits; they differ only where the player reads outside the note table |
| Piezo.SongAgrees | src/piezo.cpp:214-280 | the whole sequence of notes the player plays is the melody the compiler emits |
| Piezo.NoteMeaning | src/piezo.cpp:214-280 | a printed note plays its table frequency for its duration and moves past it |
| Piezo.UnknownLetter | src/piezo.cpp:253-278 | a letter outside `cdefgabp` plays 440 Hz |
| Piezo.EmptyTempoUndefined | src/piezo.cpp:194-205 | `b=` with no digits divides by zero |
| Piezo.TruncatedDuration | src/piezo.cpp:173-175 | `d=256` wraps the 8-bit default duration to 0, and the first note without its own duration divides by zero; the default is the `uint8_t` of line 127 and the division is at line 225 |
| SerialCmd.SkipDelims | src/SerialCommands.cpp:68 | `strtok_r` skips the leading delimiters |
| SerialCmd.TokenEnd | src/SerialCommands.cpp:68 | a token runs to the next delimiter or the end |
| SerialCmd.Token | src/SerialCommands.cpp:131-134 | a token is non-empty and free of delimiters, and there is none exactly when only delimiters are left; the delimiters are those of line 68 |
| SerialCmd.Feed | src/SerialCommands.cpp:34-62 | a stored character extends the buffer; a completed terminator yields the line without the terminator and clears the buffer |
| SerialCmd.FeedTracks | src/SerialCommands.cpp:43-64 | each character keeps the terminator match in step with the tail of the buffer, and a completed line plus the terminator is exactly what was buffered |
| SerialCmd.ReadAll | src/SerialCommands.cpp:32-100 | reading stops only at the end of the input (SUCCESS) or at a full buffer (BUFFER_FULL, buffer cleared), and keeps the match invariant |
| SerialCmd.ReadAllFirst | src/SerialCommands.cpp:32-98 | reading is one character's step followed by reading the rest |
| SerialCmd.DoubledReturnMissed | src/SerialCommands.cpp:56-60 | with terminator `\r\n`, the input `\r\r\n` is not recognised as the end of a line: the second `\r` resets the match without restarting it |
| SerialCmd.OneLine | src/SerialCommands.cpp:32-98 | a line without terminator characters, followed by the terminator, comes out as exactly that line |
| SerialCmd.TermRead | src/SerialCommands.cpp:56-64 | once the line is buffered, the rest of the terminator completes it |
| SerialCmd.Codes | src/SerialCommands.cpp:34 | the bytes `read()` returns for a text are its characters' codes |
| SerialCmd.FindCommand | src/SerialCommands.cpp:74-89 | the first registered command whose name equals the word, or none when no name does |
| SerialCmd.DispatchRegistered | src/SerialCommands.cpp:68-94 | a line whose first word is registered runs the first command of that name, and `Next()` then yields the remaining words |
| SerialCmd.SerialCommands.constructor | src/SerialCommands.h:49-61 | the buffer keeps one byte for the NUL, and there are no commands and an empty buffer |
| SerialCmd.SerialCommands.AddCommand | src/SerialCommands.cpp:11-23 | a command is appended while fewer than `MAX_COMMANDS-1` are registered, and otherwise silently dropped |
| SerialCmd.SerialCommands.SetDefaultHandler | src/SerialCommands.cpp:119-122 | sets the default handler only |
| SerialCmd.SerialCommands.AttachSerial | src/SerialCommands.cpp:109-117 | attaches or detaches the stream only |
| SerialCmd.SerialCommands.ClearBuffer | src/SerialCommands.cpp:124-129 | empties the buffer and resets the terminator match |
| SerialCmd.SerialCommands.Next | src/SerialCommands.cpp:131-134 | `Next` returns the next word of the line, or none, and moves past it |
| SerialCmd.SerialCommands.DispatchLine | src/SerialCommands.cpp:64-94 | a completed line runs the action `Dispatch` gives |
| SerialCmd.SerialCommands.Receive | src/SerialCommands.cpp:34-97 | one character read from the stream changes the state as `Feed` says and dispatches the completed line |
| SerialCmd.SerialCommands.ReadSerial | src/SerialCommands.cpp:25-101 | with no stream returns NO_SERIAL and changes nothing; otherwise returns what reading the input gives, leaves its state, and runs the actions of the completed lines in order |
| SerialCmd.DispatchAllAppend | src/SerialCommands.cpp:32-98 | the actions of two runs of lines are those of each in turn |
| WebServer.Progress | firmware-arduino/src/web_server.cpp:91-127 | how much of CR LF CR LF the text read so far ends with, the longest such suffix |
| WebServer.SuffixStep | firmware-arduino/src/web_server.cpp:91-127 | one more byte extends a partial terminator match exactly when it is the terminator's next byte |
| WebServer.NextTracks | firmware-arduino/src/web_server.cpp:91-122 | each transition of the switch moves to the state of the longest terminator prefix the bytes end with, so the machine recognises exactly the first blank line |
| WebServer.FeedCollects | firmware-arduino/src/web_server.cpp:88-129 | without an event all available bytes are appended to the request; with one, the handler is complete, the bytes before the final one are appended, and a WEB_REQUEST comes exactly after the closing LF in state CRLFCRLF |
| WebServer.PollSpec | firmware-arduino/src/web_server.cpp:84-142 | `poll` never marks a handler dead, posts only once it has set `complete`, and always posts when the client is gone |
| WebServer.FeedReads | firmware-arduino/src/web_server.cpp:88-129 | a handler still reading posts only WEB_REQUEST, and only when its bytes end with CR LF CR LF |
| WebServer.DisconnectFails | firmware-arduino/src/web_server.cpp:134-141 | a client that disconnects before the blank line yields WEB_REQUEST_FAILED with what was collected |
| WebServer.Handler.constructor | firmware-arduino/src/web_server.cpp:30-52 | a new handler is in state TEXT with an empty request, neither dead nor complete |
| WebServer.Handler.Poll | firmware-arduino/src/web_server.cpp:84-142 | `poll` changes the handler and posts the event as the specification of a poll says |
| WebServer.Polled | firmware-arduino/src/web_server.cpp:164-168 | complete and dead handlers are skipped; a posted event marks the handler complete, and `dead` is never changed |
| WebServer.PostsOnce | firmware-arduino/src/web_server.cpp:136-165 | once a handler has posted, no later poll posts for it again |
| WebServer.PostsStep | firmware-arduino/src/web_server.cpp:164-168 | the server's poll loop posts each handler's event in list order |
| WebServer.PostsFromLive | firmware-arduino/src/web_server.cpp:164-168 | every posted message comes from a handler that was neither complete nor dead, and is its poll's event |
| WebServer.LiveMembers | firmware-arduino/src/web_server.cpp:170-195 | after garbage collection a handler is kept exactly when it is on the list and not dead |
| WebServer.LiveConcat | firmware-arduino/src/web_server.cpp:170-195 | garbage collection of two parts of the list is that of each |
| WebServer.LiveDistinct | firmware-arduino/src/web_server.cpp:170-195 | garbage collection keeps the list free of duplicates |
| WebServer.Server.constructor | firmware-arduino/src/web_server.cpp:54-55 | no server and no handlers at first |
| WebServer.Server.Init | firmware-arduino/src/web_server.cpp:58-66 | a first `web_server_init` starts the server on the port; a second is refused (the code panics) |
| WebServer.Server.Accept | firmware-arduino/src/web_server.cpp:149-159 | each accepted client gets a fresh reading handler pushed on the front of the list |
| WebServer.Server.PollHandlers | firmware-arduino/src/web_server.cpp:164-168 | each handler's state becomes its polled state, and the messages are those of `Posts` in list order |
| WebServer.Server.Collect | firmware-arduino/src/web_server.cpp:170-195 | the list keeps exactly the handlers not dead, in order |
| WebServer.Server.RequestCompleted | firmware-arduino/src/web_server.cpp:198-207 | the handler for the request is marked dead and nothing else of it changes |
| WebServer.Server.Poll | firmware-arduino/src/web_server.cpp:144-196 | without a server nothing happens; otherwise the new clients get fresh handlers in front of the old list, each handler that was neither complete nor dead is polled in list order, the posts are exactly their events in that order, every handler ends in its polled state, and the list becomes the handlers that are not dead, keeping every live old one |
| SnappyData.PyInt | aws-iot-backend/lambda/snappy_data.py:70 | Python's `int` of a string succeeds exactly for an optionally signed, non-empty run of digits |
| SnappyData.IntOfStr | aws-iot-backend/lambda/snappy_data.py:131-139 | round trip: `int(str(n)) == n`, which lets stored numbers be kept as numbers |
| SnappyData.FirstActuator | aws-iot-backend/lambda/snappy_data.py:40-45 | no actuator is found exactly when none at the location has the factor; one found has it |
| SnappyData.FirstActuatorIsFirst | aws-iot-backend/lambda/snappy_data.py:42-44 | the actuator found is the first with the factor |
| SnappyData.FindActuatorDevice | aws-iot-backend/lambda/snappy_data.py:40-45 | the loop returns the first matching actuator's device and ideal function, or `(None, None)` |
| SnappyData.DeviceReadingInterval | aws-iot-backend/lambda/snappy_data.py:68-71 | the stored interval as `int` of its numeral, or 5 seconds when the record has none |
| SnappyData.DisabledMeans | aws-iot-backend/lambda/snappy_data.py:65-66 | a device is disabled exactly when it has `enabled` and its numeral is the string `"0"` (not `"00"`); without it the device is enabled |
| SnappyData.IndexOfFactor | aws-iot-backend/lambda/snappy_data.py:164-169 | the index of the first entry for the factor, or the length when there is none |
| SnappyData.WithFactor | aws-iot-backend/lambda/snappy_data.py:171-174 | after the lookup an entry for the factor exists at that index |
| SnappyData.AddToMeaning | aws-iot-backend/lambda/snappy_data.py:134-162 | adding puts the new item first in its factor's list (a new entry at the end when the factor is new), keeps at most the limit, drops the oldest, and leaves every other factor alone |
| SnappyData.FindForFactor | aws-iot-backend/lambda/snappy_data.py:164-176 | `find_for_factor` finds the first entry for the factor, or appends an empty one |
| SnappyData.Retire | aws-iot-backend/lambda/snappy_data.py:141-162 | the `pop` loop keeps the newest items, at most the limit, and changes nothing when there are not too many |
| SnappyData.ReadingRows | aws-iot-backend/lambda/snappy_data.py:129-131 | one row per stored reading of a factor, in stored order, with its time and value |
| SnappyData.ActionRows | aws-iot-backend/lambda/snappy_data.py:148-151 | one row per stored action, with its time, reading and ideal |
| SnappyData.ReadingsConcat | aws-iot-backend/lambda/snappy_data.py:125-132 | the rows of two lists of factors are those of each in turn |
| SnappyData.NewestReadingFirst | aws-iot-backend/lambda/snappy_data.py:125-142 | after adding a reading, `history_readings` lists the factors before it unchanged and then the new reading first of its factor |
| SnappyData.HistoryEntry.constructor | aws-iot-backend/lambda/snappy_data.py:94-101 | the record a history entry holds |
| SnappyData.HistoryEntry.SetLastContact | aws-iot-backend/lambda/snappy_data.py:106-107 | only `last_contact` changes |
| SnappyData.HistoryEntry.AddReading | aws-iot-backend/lambda/snappy_data.py:134-142 | the readings become the list with the new reading added, keeping at most 10 per factor |
| SnappyData.HistoryEntry.AddAction | aws-iot-backend/lambda/snappy_data.py:154-162 | the actions become the list with the new action added, keeping at most 5 per factor |
| SnappyReading.Split | aws-iot-backend/lambda/snappy_reading.py:134 | `str.split` always gives at least one piece |
| SnappyReading.SplitJoin | aws-iot-backend/lambda/snappy_reading.py:134 | round trip: joining the pieces with the separator gives back the string, and no piece holds the separator |
| SnappyReading.SplitAt | aws-iot-backend/lambda/snappy_reading.py:134 | a string with one separator splits into the part before it and the pieces after it |
| SnappyReading.EvaluateIdeal | aws-iot-backend/lambda/snappy_reading.py:133-160 | the result is `None` exactly when the function name is unknown or the number of arguments is not its arity |
| SnappyReading.ConstantIdeal | aws-iot-backend/lambda/snappy_reading.py:162-170 | `constant/N` evaluates to N |
| SnappyReading.BadArgumentRaises | aws-iot-backend/lambda/snappy_reading.py:156 | `constant/` with a non-numeral argument raises Python's `ValueError` |
| SnappyReading.IgnoredReading | aws-iot-backend/lambda/snappy_reading.py:51-64 | a reading from a missing or disabled device, or one without a history record, changes nothing and sends nothing, and the caller at lines 34-36 then returns no responses |
| SnappyReading.RecordedReading | aws-iot-backend/lambda/snappy_reading.py:51-71 | otherwise the reading is recorded first in its factor's history, `last_contact` becomes its time, and no other record changes |
| SnappyReading.TriggerActsOnDifference | aws-iot-backend/lambda/snappy_reading.py:89-127 | at most one command is sent; a command goes to the first actuator for the factor at the location, only when its ideal differs from the reading, on topic `snappy/control/<class>/<device>` with QoS 1, and the action is recorded first in that actuator's history; when nothing is sent nothing is written |
| SnappyReading.ConstantActuator | aws-iot-backend/lambda/snappy_reading.py:27-127 | with an enabled actuator whose ideal is `constant/N`, a reading sends exactly one command when it differs from N and none when it equals N |
| SnappyReading.SpecsKeepKeys | aws-iot-backend/lambda/snappy_reading.py:27-71 | handling a reading keeps every history stored under its own device name |
| SnappyReading.TriggerKeepsKeys | aws-iot-backend/lambda/snappy_reading.py:89-127 | so does triggering an actuator |
| SnappyReading.Database.constructor | aws-iot-backend/lambda/snappy_data.py:22-23 | a database holding the given tables |
| SnappyReading.Database.GetHistoryEntry | aws-iot-backend/lambda/snappy_data.py:79-83 | `None` exactly when the device has no history; otherwise a fresh record with the stored value |
| SnappyReading.Database.WriteHistoryEntry | aws-iot-backend/lambda/snappy_data.py:88-89 | stores the record under its device, replacing any old one |
| SnappyReading.RecordTimestampAndReading | aws-iot-backend/lambda/snappy_reading.py:51-71 | the method's result and the new tables are those of the recording specification |
| SnappyReading.TriggerActuatorIfNecessary | aws-iot-backend/lambda/snappy_reading.py:89-127 | the responses and the new tables are those of the trigger specification |
| SnappyReading.HandleReadingEvent | aws-iot-backend/lambda/snappy_reading.py:27-39 | the responses and the new tables are those of the handling specification: record, then trigger at the device's location |
| SnappyJs.BelowIrreflexive | aws/lambda/snappy.js:103 | the JavaScript string order `<` is irreflexive |
| SnappyJs.BelowAsymmetric | aws/lambda/snappy.js:103 | … asymmetric |
| SnappyJs.BelowTransitive | aws/lambda/snappy.js:103 | … transitive |
| SnappyJs.BelowTotal | aws/lambda/snappy.js:103 | … and total, so the comparator `x < y ? -1 : (x > y ? 1 : 0)` is a total order |
| SnappyJs.InsertByName | aws/lambda/snappy.js:189-190 | inserting into a list sorted by name keeps it sorted and adds exactly the one item, using the comparator of line 103 |
| SnappyJs.SortByName | aws/lambda/snappy.js:189-190 | sorting by name gives a sorted permutation, using the comparator of line 103 |
| SnappyJs.InsertByNameStable | aws/lambda/snappy.js:189-190 | an inserted item lands before every item with the same name |
| SnappyJs.SortByNameStable | aws/lambda/snappy.js:189-190 | the sort is stable: the items with any one name are in their input order |
| SnappyJs.AscendingDistinct | aws/lambda/snappy.js:102-110 | in a strictly ascending list any two entries differ |
| SnappyJs.Dedup | aws/lambda/snappy.js:102-110 | compressing runs of the sorted ids leaves them strictly ascending, with exactly the ids there were |
| SnappyJs.QueryStage2 | aws/lambda/snappy.js:93-122 | no query is made exactly when no device is selected, no factor is selected or the factor is empty; otherwise it asks for each selected device once, in ascending order, with the selected factor |
| SnappyJs.TimeCutoffMs | aws/lambda/snappy.js:151-173 | an unknown time range gives no cutoff |
| SnappyJs.RangesNest | aws/lambda/snappy.js:155-170 | the cutoffs lie a day, two days, a week, 31 days and 365 days back, each earlier than the last |
| SnappyJs.Filter | aws/lambda/snappy.js:146-149 | `filter` keeps only items that pass the test; line 187 filters the same way |
| SnappyJs.FilterCount | aws/lambda/snappy.js:146-149 | `filter` keeps every passing item as often as it occurred and drops all the others; line 187 filters the same way |
| SnappyJs.FilterConcat | aws/lambda/snappy.js:148 | filtering two parts is filtering each |
| SnappyJs.InsertByTime | aws/lambda/snappy.js:178 | inserting into a list sorted by time keeps it sorted and adds exactly the one observation |
| SnappyJs.SortByTime | aws/lambda/snappy.js:178 | sorting by time gives a sorted permutation |
| SnappyJs.InsertByTimeStable | aws/lambda/snappy.js:178 | an inserted observation lands before every observation sent at the same time |
| SnappyJs.SortByTimeStable | aws/lambda/snappy.js:178 | the sort is stable: the observations sent at any one time are in their input order |
| SnappyJs.SkipBefore | aws/lambda/snappy.js:179-182 | the loop stops at the first observation not before the cutoff, all before it being earlier |
| SnappyJs.SortedSuffix | aws/lambda/snappy.js:179-183 | on sorted observations the slice from there is exactly the observations not before the cutoff |
| SnappyJs.Ascending | aws/lambda/snappy.js:178 | sorted by time means every earlier observation is no later |
| SnappyJs.KeptMeans | aws/lambda/snappy.js:146-184 | each device keeps, sorted by time, exactly the observations sent at or after the launder date and not before the cutoff, each as often as it occurred |
| SnappyJs.FirstAtOrAfter | aws/lambda/snappy.js:179-182 | the position of the first observation not before the cutoff |
| SnappyJs.NonEmpty | aws/lambda/snappy.js:187 | the devices kept are exactly those with observations left |
| SnappyJs.Laundered | aws/lambda/snappy.js:146-184 | each device keeps its name and the filtered, sorted observations |
| SnappyJs.PrepareDatas | aws/lambda/snappy.js:143-190 | the loops compute the devices' filtered observations, drop the empty ones and sort by name |
| SnappyJs.PreparedMeans | aws/lambda/snappy.js:143-190 | the prepared list is sorted by name, holds only non-empty filtered devices, and holds every device that has observations left |
| SnappyJs.CloseSnoc | aws/lambda/snappy.js:222-223 | an observation closer than DELTA to the last one continues the stretch |
| SnappyJs.CutExtend | aws/lambda/snappy.js:222-223 | the bucket grows while the gap is below DELTA |
| SnappyJs.CutBreak | aws/lambda/snappy.js:224-226 | a gap of DELTA or more closes the bucket and starts a new one |
| SnappyJs.CutFinish | aws/lambda/snappy.js:229-231 | after the last bucket is pushed the buckets are the observations in order |
| SnappyJs.Buckets | aws/lambda/snappy.js:215-234 | the buckets concatenate to the observations, none is empty, gaps inside a bucket are below DELTA and gaps between buckets are at least DELTA |

## Left out

- The configuration compiler's command line and file I/O are not modelled directly:
  - `main`'s argument check, `read_input`, `dump`, and `os.Open`/`ReadAll` for file values are not modelled;
  - `HOME` is an `Env` parameter that holds the file system as a map and an optional home directory, and a read can fail.
- config.c's `save_configuration` and `nuke_nvram` have empty bodies in the source, and `read_configuration` is a `bool` function with an empty body, so it returns no value. The model records the three only as events.
- Some of firmware-arduino/src/config.cpp is not modelled:
  - `read_configuration` and `save_configuration` write to NVRAM `Preferences`. They are modelled only as appended events.
  - `show_configuration` and `cert_first_line` only produce output.
  - The timing accessors and the development-build factory values are not modelled.
- Prefs.Config.EvaluateConfiguration: the model does not wrap `toInt` to 32 bits. `toInt` is modelled as an unbounded decimal value of the digits.
  - The `%d` conversions of `sscanf` in the version check (Prefs.ScanDec, Prefs.ScanVersionText) are unbounded too. In C a number beyond `int` is undefined behaviour.
- Util: `blocking_read_nonempty_line`, `fmt` and `panic` are console and abort I/O.
  - `get_posted_field` can read past the end of the input after a trailing `%`. That case is the `Overrun` outcome, not a model of memory.
- FifoList.List: the nodes are heap objects linked through `next`. `delete` of a popped node is not modelled, because Dafny's heap is garbage-collected. `peek_front` returns the value, not a reference into the node.
- Microtask: the clock is not read directly.
  - `millis()` becomes the `now` parameter, read once per `run_scheduler` call. All rounds, reschedulings and unblockings of one call see the same time, where the source reads `millis()` again in each round's loop test and slice, for each rescheduled periodic task and when unblocking.
  - Task bodies become the `Effect` parameter.
  - `RunScheduler` runs a bounded number of rounds (`fuel`) instead of looping forever.
  - The linked task queues are sequences.
- The framebuffer and SSD1306 drawing routines below are left out:
  - `polyline`, `draw_rectangle`, the circles and the arcs (the arcs use floating-point sine and cosine);
  - in ssd1306.c, the bitmap drawing;
  - the SSD1306 I2C command sequences sent by `ssd1306_i2c_init` and `UpdateScreen`.
- Ssd1306.Device.constructor: requires the height to be a multiple of 8. The driver is built only for 32, 64 or 128 lines.
  - It also requires width and height below 256, so that every coordinate fits the driver's `uint8_t` coordinates. `ssd1306_i2c_init` takes them as `unsigned`.
- Music: the program reads the tune from standard input and adds a random suffix to the generated name. The model takes the tune and the suffix as parameters.
- Music.ScanInt and Music.ScanValue: the value of a digit run is unbounded. Go's `scan_int` accumulates in 64-bit `int`, so a run of more than 18 digits can wrap, possibly to a zero or negative duration or tempo. Music.ScanIntFits proves that up to 18 digits the two agree.
- Piezo: the FreeRTOS player task, its queue, `vPlayerTask` and `play_song` are left out. So is `int` overflow in the tempo and duration numbers, which are unbounded here.
- SerialCmd.SerialCommands.constructor: requires a buffer of positive length. The source falls back to a buffer length of 0 for a null or empty buffer.
- WebServer: timers, WiFi, the request handlers' bodies and `panic` are left out.
  - WebServer.Server.Init returns false where the source panics.
  - The linked list of handlers is a sequence.
  - Each poll's `connected` and `available` answers come from a `Traffic` parameter.
- Button: the FreeRTOS long-press timer is modelled as state that the `Timer` event fires.
- Slideshow: `printf` and the display timer are left out. The slide shown is the model's output.
- SnappyData and SnappyReading: the boto3 DynamoDB and IoT calls are an abstract `Database` class, and MQTT publishing is a recorded message.
  - `reading_event` is not modelled. It calls `handle_startup_event`, which snappy_reading.py does not define.
  - Python `int()` also accepts surrounding whitespace and `_` separators. The model accepts optional sign and decimal digits only.
  - Readings are integers.
- SnappyReading.EvaluateIdeal: the `alen == 0` branch cannot be reached after the earlier empty check, so it is not modelled.
- SnappyJs: the dashboard's DOM, `fetch`, canvas, `Date` and plotting are left out, and so are the plot scaling and labels, which use floating point.
  - The launder date and the current time are parameters.
  - `Array.prototype.sort` is modelled by a stable insertion sort with the same comparator. The proved properties are those the library sort has: sorted, a permutation, and stable.
  - SnappyJs.Below: names are compared by Unicode code point. JavaScript compares UTF-16 code units, which orders differently only for characters outside the Basic Multilingual Plane.
  - Times are integer seconds, and cutoffs are milliseconds.

## Findings

| source | as written | input that shows it | evidently intended | confidence | as-written member | corrected member |
|---|---|---|---|---|---|---|
| firmware-idf/main/config.c:112-115 | the body loop switches on `*limit`, the byte past the end, instead of `*config`; `STOP` breaks only the switch | any blob from the compiler: it is never accepted, and it hangs when the byte past its end is 2 and is rejected otherwise | dispatch on the record at `config` and leave the loop at STOP | not executed | DevConfig.CompiledConfigAsWritten | DevConfig.CompiledConfigAccepted |
| firmware-idf/main/config.c:123 | the SETI value's top byte is read from `config[6]` | the SETI record `[3, 0, 1, 0, 0, 0]` followed by the byte 7 reads 1 + 7·2^24 instead of 1 | `config[5]` | not executed | DevConfig.SetiValueAsWrittenDiffers | DevConfig.DecodeEncode |
| firmware-idf/main/config.c:150 | the SETS payload pointer is `config + 4` after `config` has already been advanced by 4 | the SETS record `[4, 0, 1, 0, 65]` followed by `[0, 0, 0, 66]` stores `[66]` instead of `[65]` | `config` | not executed | DevConfig.SetsPayloadAsWrittenDiffers | DevConfig.ScanEncodedBody |
| firmware-idf/main/config.c:143-160 | the SETS slot is never checked against the number of string variables | the SETS record `[4, 16, 0, 0]` after START: slot 16 of 16 passes, where the corrected reader rejects it | reject `var >= NUM_SVARS` | not executed | DevConfig.SetsSlotAsWritten | DevConfig.ScanBody |
| firmware-idf/main/oled.c:20 | the buffer is `(W*H+7)/8` bytes, as framebuf.h:39 asks | the 100 x 100 framebuffer: pixel (99, 99) is at byte 1299 of 1250 | `W * ((H+7)/8)` bytes, one byte per column per page | not executed | Pixels.HeaderSizeTooSmall | Pixels.IndexInBuffer |
| util/config-compiler/confcomp.go:286 | the bad-value message `"Line %d: Bad value: %s"` is passed only `v`, so it prints the value where the line number belongs and no value | `set ssid1 "abc` on line 7 | pass `lineno, v` | not executed | ConfComp.BadValueLineLost | ConfComp.SetValue |
| util/config-compiler/confcomp.go:307 | the empty-filename message `"Line %d: Empty filename"` is passed no line number | `set ssid1 @` on line 7 | pass `lineno` | not executed | ConfComp.EmptyFilenameLineLost | ConfComp.ReadIndirect |
| music-compiler/main.go:210-212 | `if bpm != 0 { bpm = num }` always replaces the default, so an empty `b=` sets the tempo to 0 | `x:d=4,o=6,b=:c` divides by zero | `if num != 0` keeps the default 63 | not executed | Music.EmptyTempoDividesByZero | Music.IntendedTempo |
