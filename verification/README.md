# Verified models of the client foundation's vendored and core algorithms

The project models the parts of the repository that carry state, codecs or modular arithmetic, and proves what
they are for. `dafny verify dfyconfig.toml` checks it. Every component is a module of its own; where the code
changes state in loops the module has methods with loops, tied to functions about which the properties are
proved.

* **Command lines for Windows** (`WindowsArguments`): quoting of argument lists, and the parsing rules it targets.
* **Asset hash** (`Words`, `AssetHash`, `AssetHashTells`, `AssetHashValues`): 32-bit mixing functions as bijections,
  the block loop as a permutation of its state, which bytes of the text are read, that every word read reaches the
  result, and what the result is on one text of each length class.
* **UUIDs** (`SoleUuid`, `SoleClock`, `Vectors`, `UuidVector`): base-62 and hex codecs, the clock that makes
  versions 0 and 1 distinct, and the vector code of the fast codec, instruction by instruction.
* **Configuration text** (`CliEscapes`, `CliBrackets`, `CliSplit`, `CliBinary`, `CliValues`, `CliLines`, `CliLayout`,
  `CliSections`, `CliSectionValues`): escapes, bracket matching, cutting, binary strings, the value printer and its
  reader on one line and on several, arrays broken over lines, comments, the section markers, and the keys with their
  values.
* **Command-line loop** (`CheckedMultiply`, `CliArguments`, `CliAccounts`, `CliClusters`, `CliTokens`,
  `CliCommandLine`): options, clusters, positionals; what a token's text means; a log accounts for every token.
* **Child processes on Unix** (`UnixProcess`): who owns which pipe end, over every failure path.
* **Workers of the script engine** (`Timers`, `TimerRuns`, `WorkerChannel`, `RefCounts`, `WorkerRefs`, `WorkerCounts`,
  `WorkerRuns`, `WorkerLinks`, `WorkerRuntime`): timers owned jointly by a list and an object and what scripts get from
  them, the queue with its wake-up pipe as interleaved steps, reference counts against the pointers in the program's own
  records, statement by statement, and which worker objects are connected.

## Where the code differs from its purpose

The models follow the code. Each of these has a lemma with a concrete input or an exact condition:

* `binary_escape_string` deletes too much after a single quote that is not the first character, and does not mark
  text that already looks like `\xHH` (`CliBinary.BinaryRoundTrip`, `CliBinary.QuoteInMiddleIsLost`).
* A `[default]` header after a section of two or more parts leaves ancestors open, and a key named `++` or `--` is
  taken for a marker unless it repeats the item before it (`CliSections.MarkersMatch`, `CliSections.DefaultLeavesOpen`,
  `CliSections.MarkerKeyBreaks`).
* A single long value that is written between triple quotes loses a newline at its beginning or end and a backslash at
  the end of a line, and does not come back at all without a newline (`CliLines.RoundTrip`, `CliLines.OneLineFails`).
* In the first line of an array that goes on, a comment is not cut off but becomes part of a value, and an array whose
  bracket stands alone on its line does not go on (`CliLayout.CommentBecomesValue`, `CliLayout.BracketAlone`).
* Values of a key named `--` that repeats a closing marker are lost when the next header takes that marker back
  (`CliSectionValues.ClosingValuesLost`).
* Two texts of four bytes that differ in one byte can have the same hash, although the word that the loop makes of the
  bytes differs (`AssetHashValues.FirstByteLost`, `AssetHashTells.Hash0to4Exactly`).
* A child that a signal ends is reported like one that exits with the signal's number (`UnixProcess.ExitCodes`).
* An empty list is written as nothing and read as one empty value (`CliValues.EmptyList`).
* `split_up` drops the character after a quoted or bracketed piece, whatever it is
  (`CliSplit.CharacterAfterRunIsLost`).
* `\U` escapes above 10FFFF are neither refused nor written (`CliEscapes.LongUnicodeEscape`).
* `close_string_quote` returns one more than the length after a trailing backslash (`CliBrackets.StringQuotePastEnd`,
  `CliBrackets.BackslashAtEndOverruns`).
* The retry test after the one-byte write in `js_worker_postMessage` gives up on every error, so a write that fails on
  an empty queue is never tried again; then no thread finds the pipe readable any more, and only threads already past
  their select may still take a message (`WorkerChannel.WakeMatchesQueue`, `WorkerChannel.StuckForever`,
  `WorkerChannel.OneFailedWrite`).
* The clock of version-1 UUIDs starts over when its 64-bit counter is full (`SoleClock.FullCounterRepeats`).
* `uuid::rebuild` takes any character as a digit, and values above 64 bits wrap (`SoleUuid.WrapsModulo`,
  `SoleUuid.Base62TextOfRebuilt`).

Inputs of the models: clock readings, process ids, hardware addresses, outcomes of `pipe`, `fork`, `waitpid` and of
the write to the wake-up pipe, the numeric conversion of the value printer, and the names, validators and flag values
of a command line.

## Model

| member | source | states |
|---|---|---|
| `WindowsArguments.RoundTrip` | ThirdParty/tiny-process-library/process_win.cpp:57-103 | for every list of strings, parsing the joined command line by the rules of the C runtime (2n backslashes and a quote, 2n+1 and a quote, other backslashes literal) returns the list |
| `WindowsArguments.JoinArguments` | ThirdParty/tiny-process-library/process_win.cpp:57-103 | the writer as nested loops over the arguments: it produces the specified text, and that text parses to the arguments |
| `WindowsArguments.WriteArgument` | ThirdParty/tiny-process-library/process_win.cpp:66-99 | an argument is written bare only when it is not empty and holds no white space or quote |
| `WindowsArguments.WriteEscaped` | ThirdParty/tiny-process-library/process_win.cpp:73-97 | the loop that counts runs of backslashes computes the specified escape, also at the end of the argument |
| `WindowsArguments.ParseEscaped` | ThirdParty/tiny-process-library/process_win.cpp:73-99 | the escaped text of any string, followed by a quote, is read as that string and the quote as a closing one, whatever was pending and whatever follows |
| `WindowsArguments.ParseBare` | ThirdParty/tiny-process-library/process_win.cpp:66-69 | an unquoted argument, trailing backslashes included, is read as itself up to the next blank |
| `AssetHash.FmixBijective` | Library/src/AssetHash.cpp:76-84 | `fmix` has a two-sided inverse on 32-bit words |
| `AssetHash.MurBijective` | Library/src/AssetHash.cpp:94-103 | with either argument fixed `Mur` has a two-sided inverse in the other |
| `AssetHash.StepBijective` | Library/src/AssetHash.cpp:183-209 | for every block the loop body is a permutation of the states (f, g, h) |
| `AssetHash.RunInjective` | Library/src/AssetHash.cpp:183-209 | over any sequence of blocks distinct states stay distinct |
| `AssetHash.StepSeesEveryWord` | Library/src/AssetHash.cpp:183-209 | changing exactly one of the five words of a block changes the state after it |
| `AssetHash.ChangeSurvives` | Library/src/AssetHash.cpp:183-209 | and no sequence of later blocks hides that change |
| `AssetHash.LongTextsTellWordsApart` | Library/src/AssetHash.cpp:159-209 | two long texts of one length with the same last twenty bytes, whose blocks differ in exactly one word, reach different states |
| `AssetHash.BswapUndo` | Library/src/AssetHash.cpp:43 | swapping the bytes of a word twice gives the word |
| `AssetHash.LoopBody` | Library/src/AssetHash.cpp:185-207 | the statements of the loop body in their order, three-way permutation included, compute the step |
| `AssetHash.Reader.Fetch32` | Library/src/AssetHash.cpp:68-73 | a four-byte fetch must lie inside the string; it reads exactly those four bytes |
| `AssetHash.Hash32Len0to4` | Library/src/AssetHash.cpp:105-118 | exactly the bytes of the string are read, and the loop over them, with signed bytes, computes the hash |
| `AssetHash.Hash32Len5to12` | Library/src/AssetHash.cpp:120-127 | every fetch lies inside the string, and every byte is read |
| `AssetHash.Hash32Len13to24` | Library/src/AssetHash.cpp:129-140 | every fetch lies inside the string, and every byte is read |
| `AssetHash.FetchSeed` | Library/src/AssetHash.cpp:160-180 | the seed comes from the last twenty bytes, all read |
| `AssetHash.FetchBlock` | Library/src/AssetHash.cpp:185-189 | a block is twenty bytes inside the string, all read |
| `AssetHash.HashLong` | Library/src/AssetHash.cpp:160-222 | the counted loop runs to its end exactly, with all blocks inside the string; blocks and last twenty bytes cover every byte |
| `AssetHash.GenerateAssetHash` | Library/src/AssetHash.cpp:147-223 | for every length the result is the hash of the (32-bit truncated) length and exactly the bytes of the text are read |
| `AssetHashTells.Hash13to24Tells` | Library/src/AssetHash.cpp:129-140 | before the last shift: two texts of 13 to 24 bytes and one length that differ in exactly one of the six fetched words have different values |
| `AssetHashTells.Hash5to12Tells` | Library/src/AssetHash.cpp:120-127 | the same for 5 to 12 bytes and three words |
| `AssetHashTells.ShortLoopTells` | Library/src/AssetHash.cpp:110-115 | in the word b of the loop two texts of one length that differ in one byte differ |
| `AssetHashTells.Hash0to4Exactly` | Library/src/AssetHash.cpp:105-118 | two texts of one length up to four have the same value if and only if the scrambled b and the mixed c cancel alike |
| `AssetHashTells.SeededTells` | Library/src/AssetHash.cpp:160-180 | tails of long texts that differ in one word give different states before the first block |
| `AssetHashTells.FinishTells` | Library/src/AssetHash.cpp:211-220 | the final mixing tells apart states that differ in one of f, g and h |
| `AssetHashValues.XorIs` | Library/src/AssetHash.cpp:78-82 | exclusive or of two words, hexadecimal digit by digit |
| `AssetHashValues.AbcValue` | Library/src/AssetHash.cpp:105-118 | the value and the hash of "abc", by arithmetic alone |
| `AssetHashValues.PublisherValue` | Library/src/AssetHash.cpp:120-127 | of "publisher" |
| `AssetHashValues.IdValue` | Library/src/AssetHash.cpp:129-140 | of "507f1f77bcf86cd799439011" |
| `AssetHashValues.PangramValue` | Library/src/AssetHash.cpp:160-222 | of "The quick brown fox jumps over the lazy dog", with two blocks |
| `AssetHashValues.FirstByteLost` | Library/src/AssetHash.cpp:105-118 | two texts of four bytes that differ in the first one and have the same hash |
| `Words.RotateBack` | Library/src/AssetHash.cpp:88-92 | a rotation is undone by the opposite rotation, shift 0 included |
| `Words.XorUndo` | Library/src/AssetHash.cpp:78-82 | exclusive or with the same word twice changes nothing |
| `Words.MulUndo` | Library/src/AssetHash.cpp:79-81 | multiplication by a constant modulo 2^32 is undone by a constant whose product with it is 1 |
| `SoleUuid.WordDigits` | ThirdParty/sole/sole.hpp:376-396 | a 64-bit word has at most eleven base-62 digits, and the largest words need all of them |
| `SoleUuid.WriteDigits` | ThirdParty/sole/sole.hpp:384-394 | one digit loop writes the digits of the word and never steps below its share of the buffer |
| `SoleUuid.Base62` | ThirdParty/sole/sole.hpp:376-396 | the text is the digits of both words with a dash between; 24 bytes suffice |
| `SoleUuid.Rebase62` | ThirdParty/sole/sole.hpp:774-785 | the digit loop of the reader, modulo 2^64 |
| `SoleUuid.NoWrap` | ThirdParty/sole/sole.hpp:781-784 | when the value of the digits fits in 64 bits no multiplication wraps on the way |
| `SoleUuid.WrapsModulo` | ThirdParty/sole/sole.hpp:781-784 | in general the loop computes the value modulo 2^64 |
| `SoleUuid.Base62RoundTrip` | ThirdParty/sole/sole.hpp:768-813 | rebuilding the base-62 text of any UUID gives the UUID |
| `SoleUuid.Base62TextOfRebuilt` | ThirdParty/sole/sole.hpp:768-788 | for every text with one dash: printing what was rebuilt gives the text back if and only if both halves are canonical |
| `SoleUuid.Str` | ThirdParty/sole/sole.hpp:351-374 | both loops over the template, which skip the dashes, write the plain hex text |
| `SoleUuid.Rebuild` | ThirdParty/sole/sole.hpp:768-814 | the choice of notation by the number of dashes, and both readers, for every text in which no character after the terminator is looked at |
| `SoleUuid.ReadHex` | ThirdParty/sole/sole.hpp:798-809 | the hex loops: four bits a character, the dashes skipped, other characters as zero |
| `SoleUuid.HexRoundTrip` | ThirdParty/sole/sole.hpp:351-374 | rebuilding the hex text of any UUID gives the UUID |
| `SoleUuid.HexTextOfRebuilt` | ThirdParty/sole/sole.hpp:789-811 | for every such text with two dashes or more: printing what was rebuilt gives the text back if and only if it is lower-case 8-4-4-4-12 hex |
| `SoleUuid.UpperCaseReadsAlike` | ThirdParty/sole/sole.hpp:789-811 | the classic form with any of its letters in upper case is read as the same UUID, which prints in lower case |
| `SoleUuid.Alphabet` | ThirdParty/sole/sole.hpp:378-394 | which base-62 digit stands for which number, and that the first digit counts most |
| `SoleUuid.UnitsLast` | ThirdParty/sole/sole.hpp:351-374 | in the classic form the last digit of each half counts least |
| `SoleClock.Clock.GetTime` | ThirdParty/sole/sole.hpp:478-497 | the counter becomes the reading, or one more than it was when the reading is not later; the offset is added modulo 2^64 |
| `SoleClock.Clock.Make` | ThirdParty/sole/sole.hpp:691-760 | a UUID of version 0 or 1 from the advanced counter |
| `SoleClock.Clock.MakeAll` | ThirdParty/sole/sole.hpp:691-760 | over a run of calls all UUIDs made are pairwise distinct, while the counter is not full and its readings stay within 2^60 |
| `SoleClock.Fields1` | ThirdParty/sole/sole.hpp:326-346 | the fields `pretty` takes out of a version-1 UUID are those packed: timestamp modulo 2^60, clock sequence, 48-bit node, version and variant (sections 4.1.1 to 4.1.4 of RFC 4122) |
| `SoleClock.Fields0` | ThirdParty/sole/sole.hpp:326-345 | the same for version 0: timestamp, process id and node |
| `SoleClock.TickAdvances` | ThirdParty/sole/sole.hpp:487-492 | a call moves the counter up, whatever the clock says, if and only if it was not full |
| `SoleClock.CounterIncreases` | ThirdParty/sole/sole.hpp:487-492 | over any run each call moves the counter up by at least one |
| `SoleClock.EqualExactly` | ThirdParty/sole/sole.hpp:697-723 | two version-1 UUIDs are equal if and only if the nodes are and the timestamps agree modulo 2^60 |
| `SoleClock.AllDistinct` | ThirdParty/sole/sole.hpp:478-497 | for any readings, repeated or backwards, any mix of versions, nodes and process ids, no two UUIDs of a run are equal |
| `SoleClock.DistinctByReadings` | ThirdParty/sole/sole.hpp:478-497 | the same from the readings alone: no reading beyond a bound, and the bound with one tick for each call within 2^60 of the first reading |
| `SoleClock.FullCounterRepeats` | ThirdParty/sole/sole.hpp:489-490 | with a full 64-bit counter the promise fails: a concrete run of four calls repeats a UUID |
| `SoleClock.GregorianEpoch` | ThirdParty/sole/sole.hpp:693 | the offset is the number of days from 15 October 1582 to 1 January 1970 in the Gregorian calendar, in units of 100 ns (section 4.1.4 of RFC 4122) |
| `SoleClock.TimestampIsReading` | ThirdParty/sole/sole.hpp:487-497 | a call whose reading lies beyond the counter gives a UUID of exactly that time |
| `SoleClock.CounterExactly` | ThirdParty/sole/sole.hpp:487-492 | over any run that never fills it, the counter is the largest of its first value plus the number of calls and of each reading plus the number of calls after it |
| `UuidVector.M128itos` | MultiplayerTestRunner/thirdparty/uuid_v4.h:49-81 | the vector code with its wide store and two small stores leaves exactly the plain lower-case 8-4-4-4-12 text in 36 bytes and nothing beyond (section 3 of RFC 4122), whatever the undefined upper half of the cast holds |
| `UuidVector.ExpandedAt` | MultiplayerTestRunner/thirdparty/uuid_v4.h:60-65 | digit k of the expanded vector is nibble k of the value, high nibble first |
| `UuidVector.TranslatedAt` | MultiplayerTestRunner/thirdparty/uuid_v4.h:66-68 | every nibble becomes its ASCII digit, by additions and a blend only |
| `UuidVector.StoredInPlace` | MultiplayerTestRunner/thirdparty/uuid_v4.h:72-80 | shuffle and stores put every digit and every dash in its place |
| `UuidVector.GatheredAt` | MultiplayerTestRunner/thirdparty/uuid_v4.h:90-95 | the reader gathers the 32 digits without the dashes |
| `UuidVector.UntranslatedAt` | MultiplayerTestRunner/thirdparty/uuid_v4.h:111-114 | every digit becomes its value |
| `UuidVector.PackedAt` | MultiplayerTestRunner/thirdparty/uuid_v4.h:115-120 | unweaving, shifting and the horizontal addition join the digits in pairs, in order |
| `UuidVector.StomUndoesText` | MultiplayerTestRunner/thirdparty/uuid_v4.h:87-121 | reading the printed form of any 128-bit value gives the value |
| `UuidVector.TextOfStom` | MultiplayerTestRunner/thirdparty/uuid_v4.h:87-121 | printing what was read from 36 characters gives them back if and only if they are well formed |
| `UuidVector.StampedText` | MultiplayerTestRunner/thirdparty/uuid_v4.h:312-316 | a generated UUID prints with version digit 4 and variant digit 8, 9, a or b, the other digits unchanged |
| `CliEscapes.AddEscapedCharacters` | MultiplayerTestRunner/thirdparty/CLI11.hpp:1013-1031 | the loop writes the escaped form |
| `CliEscapes.RemoveEscapedCharacters` | MultiplayerTestRunner/thirdparty/CLI11.hpp:1093-1172 | the loop over escape sequences computes the unescaped text or the exception, for every string |
| `CliEscapes.ReadHex` | MultiplayerTestRunner/thirdparty/CLI11.hpp:1119-1130 | the digit loop accepts exactly hex digits, and its sum stays below 2^32 |
| `CliEscapes.Utf8Encodes` | MultiplayerTestRunner/thirdparty/CLI11.hpp:1060-1091 | every scalar value is written as a well-formed UTF-8 sequence that decodes to it (section 3 of RFC 3629) |
| `CliEscapes.Utf8Decodes` | MultiplayerTestRunner/thirdparty/CLI11.hpp:1060-1091 | every well-formed UTF-8 sequence is what is written for its code point |
| `CliEscapes.UnescapeEscaped` | MultiplayerTestRunner/thirdparty/CLI11.hpp:1013-1172 | removing escapes undoes adding them on every string |
| `CliEscapes.UnescapeEscapedThen` | MultiplayerTestRunner/thirdparty/CLI11.hpp:1013-1172 | and does so whatever text follows |
| `CliEscapes.LongUnicodeEscape` | MultiplayerTestRunner/thirdparty/CLI11.hpp:1134-1155 | the eight-digit escape of a scalar value gives its UTF-8, surrogates are refused, and above the last code point nothing is written and nothing refused |
| `CliEscapes.ShortUnicodeEscape` | MultiplayerTestRunner/thirdparty/CLI11.hpp:1112-1133 | the same for the four-digit escape |
| `CliEscapes.EscapeLetters` | MultiplayerTestRunner/thirdparty/CLI11.hpp:1013-1031 | exactly seven characters are escaped, each with its own letter |
| `CliEscapes.OtherEscapes` | MultiplayerTestRunner/thirdparty/CLI11.hpp:1157-1165 | `\0` stands for NUL; a letter that is no escape, and a backslash at the end, are refused |
| `CliEscapes.EscapeCaseAlike` | MultiplayerTestRunner/thirdparty/CLI11.hpp:1112-1155 | upper-case hex digits in an escape mean the same as lower-case ones |
| `CliBrackets.CloseSequence` | MultiplayerTestRunner/thirdparty/CLI11.hpp:1198-1251 | the loop with its stack of expected closers computes the scan; started inside the text, it always advances |
| `CliBrackets.CloseStringQuote` | MultiplayerTestRunner/thirdparty/CLI11.hpp:1174-1190 | the loop computes the search for a closing double quote |
| `CliBrackets.ScanContent` | MultiplayerTestRunner/thirdparty/CLI11.hpp:1216-1245 | grammatical content is passed over with the stack as it was |
| `CliBrackets.ScanFinds` | MultiplayerTestRunner/thirdparty/CLI11.hpp:1216-1245 | a scan that ends inside the text has passed over grammatical content up to the closer for the top of the stack |
| `CliBrackets.BracketEnd` | MultiplayerTestRunner/thirdparty/CLI11.hpp:1198-1251 | for `]`, `)`, `>`, `}` the result is r inside the text if and only if r holds the closer and everything before it is content in the grammar of nested brackets and quoted runs |
| `CliBrackets.BracketUnmatched` | MultiplayerTestRunner/thirdparty/CLI11.hpp:1198-1251 | the result is the length if and only if the grammar has no matching closer |
| `CliBrackets.StringQuoteFinds` | MultiplayerTestRunner/thirdparty/CLI11.hpp:1174-1190 | a double quote ends at the first quote that no backslash takes along |
| `CliBrackets.StringQuotePastEnd` | MultiplayerTestRunner/thirdparty/CLI11.hpp:1174-1190 | the search returns one more than the length if and only if the text ends in a backslash that takes nothing along and no quote closes before it |
| `CliBrackets.BackslashAtEndOverruns` | MultiplayerTestRunner/thirdparty/CLI11.hpp:1182-1187 | the shortest such text, a quote and a backslash |
| `CliBrackets.LiteralQuoteFinds` | MultiplayerTestRunner/thirdparty/CLI11.hpp:1192-1196 | a literal quote ends at the first such quote |
| `CliBrackets.RunEndsItself` | MultiplayerTestRunner/thirdparty/CLI11.hpp:1198-1251 | where a quoted or bracketed run ends does not depend on what follows it |
| `CliBrackets.EachPairCloses` | MultiplayerTestRunner/thirdparty/CLI11.hpp:1005-1006 | plain text after each of the seven opening characters ends at its own partner |
| `CliSplit.SplitUp` | MultiplayerTestRunner/thirdparty/CLI11.hpp:1253-1305 | the loop of trimming and cutting computes the pieces, and ends |
| `CliSplit.NextPiece` | MultiplayerTestRunner/thirdparty/CLI11.hpp:1263-1302 | one turn: a quoted or bracketed piece whole, else up to the delimiter; the rest is shorter |
| `CliSplit.CharacterAfterRunIsLost` | MultiplayerTestRunner/thirdparty/CLI11.hpp:1268-1287 | after a quoted or bracketed piece one character is dropped, whatever it is |
| `CliBinary.BinaryEscapeString` | MultiplayerTestRunner/thirdparty/CLI11.hpp:1322-1360 | the hex loop, the quote loop and the frame together |
| `CliBinary.ReplaceQuotes` | MultiplayerTestRunner/thirdparty/CLI11.hpp:1346-1355 | the quote loop with its too long deletion computes the specified text, and ends |
| `CliBinary.ExtractBinaryString` | MultiplayerTestRunner/thirdparty/CLI11.hpp:1372-1417 | the reader of binary strings, for every text |
| `CliBinary.RequotedIs` | MultiplayerTestRunner/thirdparty/CLI11.hpp:1346-1355 | what the quote loop makes of the hex form of any string is the quoteless hex form of a damaged string: each quote not at the start takes what follows it along |
| `CliBinary.ExtractedIs` | MultiplayerTestRunner/thirdparty/CLI11.hpp:1384-1416 | the reader turns a quoteless hex form into the string with every `\xHH` lookalike collapsed |
| `CliBinary.CollapsedIs` | MultiplayerTestRunner/thirdparty/CLI11.hpp:1394-1412 | collapsing leaves a string alone or makes it shorter |
| `CliBinary.MangledIs` | MultiplayerTestRunner/thirdparty/CLI11.hpp:1346-1355 | the quote loop leaves a string alone if no quote is damaged, and else shortens its hex form |
| `CliBinary.BinaryShape` | MultiplayerTestRunner/thirdparty/CLI11.hpp:1322-1417 | a binary string is recognised as one, and read as the collapsed damaged string |
| `CliBinary.BinaryRoundTrip` | MultiplayerTestRunner/thirdparty/CLI11.hpp:1322-1417 | a string with unprintable characters comes back if and only if its single quotes stand at its two ends only and nothing in it looks like `\xHH` |
| `CliBinary.QuoteInMiddleIsLost` | MultiplayerTestRunner/thirdparty/CLI11.hpp:1351 | a concrete string that does not come back |
| `CliBinary.FormOfOne` | MultiplayerTestRunner/thirdparty/CLI11.hpp:1322-1360 | the printed form of the shortest binary string |
| `CliValues.ConvertArgForIni` | MultiplayerTestRunner/thirdparty/CLI11.hpp:12274-12364 | the branches of the printer, for every string |
| `CliValues.Forms` | MultiplayerTestRunner/thirdparty/CLI11.hpp:12274-12364 | for each kind of value one printed form, character by character |
| `CliValues.IniJoin` | MultiplayerTestRunner/thirdparty/CLI11.hpp:12366-12394 | the loop of the list printer |
| `CliValues.ProcessQuotedString` | MultiplayerTestRunner/thirdparty/CLI11.hpp:1436-1462 | the branches of the reader, exceptions included |
| `CliValues.FaithfulExactly` | MultiplayerTestRunner/thirdparty/CLI11.hpp:12352-12354 | a value comes back if and only if it needs no binary form or survives it |
| `CliValues.EmptyList` | MultiplayerTestRunner/thirdparty/CLI11.hpp:12366-12394 | an empty list is read as one empty value |
| `CliValues.ArrayStaysWhole` | MultiplayerTestRunner/thirdparty/CLI11.hpp:12634-12640 | a printed array is one bracketed run to its last character, so cutting a comment off leaves it whole |
| `CliLines.ReadValue` | MultiplayerTestRunner/thirdparty/CLI11.hpp:12634-12760 | what the reader makes of the text after the equals sign and of the lines after it: comments cut off, arrays continued on the next lines, values between triple quotes read over several lines, lists cut and their quotes processed |
| `CliLines.ReadMulti` | MultiplayerTestRunner/thirdparty/CLI11.hpp:12641-12716 | the loop over the lines of a value between triple quotes, with line extension by a backslash, the newline lost at an empty beginning and at an empty end |
| `CliValues.ReadItem` | MultiplayerTestRunner/thirdparty/CLI11.hpp:12721-12760 | the cutting of an item that is complete, and the reading of each piece |
| `CliLines.MultiExactly` | MultiplayerTestRunner/thirdparty/CLI11.hpp:12661-12716 | a value printed over several lines is read up to its last line at the latest, and gets shorter unless no newline and no backslash is lost and no line between ends it |
| `CliLines.SeveralLines` | MultiplayerTestRunner/thirdparty/CLI11.hpp:12641-12716 | a long value with newlines comes back if and only if its first and last lines are not empty, none but the last ends in a backslash, none between ends in three quotes, and no quotes stand round the whole |
| `CliLines.OneLineFails` | MultiplayerTestRunner/thirdparty/CLI11.hpp:12357-12360 | a long value without a newline never comes back: its closing quotes are looked for from the next line on only |
| `CliLines.RoundTrip` | MultiplayerTestRunner/thirdparty/CLI11.hpp:12274-12394 | for every list of values, printed at the end of a file: it is read as itself if and only if it is not empty, each value survives its form, and a single long value survives its lines |
| `CliLayout.BrokenArrayReads` | MultiplayerTestRunner/thirdparty/CLI11.hpp:12717-12734 | for every list of two or more faithful values: printed as an array, broken into lines after its separators with any blanks round the lines and blank lines between, and whatever lines follow, it is read as that list; comment characters in its values do no harm, not even in the first line |
| `CliLayout.ChunksJoin` | MultiplayerTestRunner/thirdparty/CLI11.hpp:12366-12394 | such a break takes one blank after a separator away and nothing else |
| `CliLayout.CommentBecomesValue` | MultiplayerTestRunner/thirdparty/CLI11.hpp:12634-12640 | a concrete array with a comment in its first line, which becomes part of a value |
| `CliLayout.BracketAlone` | MultiplayerTestRunner/thirdparty/CLI11.hpp:12717-12718 | a bracket alone on its line is read as a value, and the next lines are not |
| `CliLayout.CommentIgnored` | MultiplayerTestRunner/thirdparty/CLI11.hpp:12634-12640 | for every printed list of faithful values: a comment behind it, after any blanks, is not read, nor are the next lines |
| `CliLayout.BracketsOptional` | MultiplayerTestRunner/thirdparty/CLI11.hpp:12736-12739 | a list of two or more is read the same without its brackets |
| `CliLayout.SpacedReads` | MultiplayerTestRunner/thirdparty/CLI11.hpp:12740-12743 | and, when no value holds a separator, with blanks in place of the separators |
| `CliLayout.ExtendedLineIsOneLine` | MultiplayerTestRunner/thirdparty/CLI11.hpp:12661-12714 | a line that ends in a backslash and the next one mean the same as one line with the second one without its blanks |
| `CliLayout.EscapedBlock` | MultiplayerTestRunner/thirdparty/CLI11.hpp:12674-12702 | a value between triple double quotes, with its characters escaped, is read as itself |
| `CliLayout.TrimIs` | MultiplayerTestRunner/thirdparty/CLI11.hpp:12632 | trimming takes the blanks at both ends and nothing else |
| `CliSections.CheckParentSegments` | MultiplayerTestRunner/thirdparty/CLI11.hpp:12429-12489 | the function with its loops that close and open ancestors, on the vector of items |
| `CliSections.CloseAncestors` | MultiplayerTestRunner/thirdparty/CLI11.hpp:12436-12441 | the closing loop leaves an item with fewer segments at the end |
| `CliSections.OpenAncestors` | MultiplayerTestRunner/thirdparty/CLI11.hpp:12467-12472 | the opening loop |
| `CliSections.CommonSegments` | MultiplayerTestRunner/thirdparty/CLI11.hpp:12445-12454 | the loop counts exactly the leading segments that agree |
| `CliSections.FromConfig` | MultiplayerTestRunner/thirdparty/CLI11.hpp:12554-12588 | the loop over headers and entries with the closing at the end computes the specified items |
| `CliSections.ClosesTo` | MultiplayerTestRunner/thirdparty/CLI11.hpp:12436-12441 | replayed, closing down leaves exactly the chain of the shortened section open |
| `CliSections.OpensFrom` | MultiplayerTestRunner/thirdparty/CLI11.hpp:12467-12472 | replayed, opening from common segments on leaves the chain of the parent open |
| `CliSections.PreparesChain` | MultiplayerTestRunner/thirdparty/CLI11.hpp:12429-12484 | before any header exactly the chain of its ancestors is open: what is common stays, all else is closed |
| `CliSections.HarmlessStep` | MultiplayerTestRunner/thirdparty/CLI11.hpp:12554-12588 | a harmless line keeps the stack equal to the chain of prefixes of the current section |
| `CliSections.HarmfulStep` | MultiplayerTestRunner/thirdparty/CLI11.hpp:12554-12588 | and every other line breaks that |
| `CliSections.FinishCloses` | MultiplayerTestRunner/thirdparty/CLI11.hpp:12796-12808 | at the end of a balanced input everything gets closed |
| `CliSections.BalancedExactly` | MultiplayerTestRunner/thirdparty/CLI11.hpp:12554-12588 | after every line of a run the markers are balanced if and only if all lines so far were harmless |
| `CliSections.MarkersMatch` | MultiplayerTestRunner/thirdparty/CLI11.hpp:12429-12808 | for every input: the markers replay as the chain of the current section after each line if and only if the input has no `[default]` header in a section of two parts or more and no key with a marker's name that counts, unless it repeats the section and name of what counted last before it; and then the stack ends empty |
| `CliSections.LinesTell` | MultiplayerTestRunner/thirdparty/CLI11.hpp:12554-12588 | the current section and the last item are what the lines alone say |
| `CliSections.MarkerKeyBreaks` | MultiplayerTestRunner/thirdparty/CLI11.hpp:12784-12794 | a concrete input with a key `++` whose items no stack explains |
| `CliSections.MarkerKeyAfterHeader` | MultiplayerTestRunner/thirdparty/CLI11.hpp:12784-12794 | and one where such a key does no harm, since it repeats the marker before it |
| `CliSections.DefaultLeavesOpen` | MultiplayerTestRunner/thirdparty/CLI11.hpp:12569-12576 | a concrete input after which a section stays open |
| `CliSectionValues.KeysAreRuns` | MultiplayerTestRunner/thirdparty/CLI11.hpp:12763-12794 | for every input: apart from the markers, the items are exactly the runs of consecutive equal keys that lie not too deep, in order, each with its parents, its name and the values of all its lines in order |
| `CliSectionValues.EveryRunBegins` | MultiplayerTestRunner/thirdparty/CLI11.hpp:12784-12794 | every such run has a line that begins it |
| `CliSectionValues.OpenValuesKept` | MultiplayerTestRunner/thirdparty/CLI11.hpp:12784-12794 | values of keys named `++` are neither lost nor made up, and keep their order |
| `CliSectionValues.MarkerCollects` | MultiplayerTestRunner/thirdparty/CLI11.hpp:12784-12788 | keys that repeat the marker of the header before them add their values to it |
| `CliSectionValues.ClosingValuesLost` | MultiplayerTestRunner/thirdparty/CLI11.hpp:12455-12472 | a concrete input whose key repeats a closing marker: the next header takes the marker back, and the values are lost |
| `CheckedMultiply.Multiply` | MultiplayerTestRunner/thirdparty/CLI11.hpp:4737-4754 | true if and only if the mathematical product fits the type; then it is stored, else the operand stays |
| `CheckedMultiply.SignedExact` | MultiplayerTestRunner/thirdparty/CLI11.hpp:4722-4729 | the overflow test by truncating division is exact for all signed operands it is applied to |
| `CheckedMultiply.LeastOverflows` | MultiplayerTestRunner/thirdparty/CLI11.hpp:4743-4747 | the early exits for the least value refuse only products that do not fit |
| `CheckedMultiply.Quotient` | MultiplayerTestRunner/thirdparty/CLI11.hpp:4726-4733 | every division of the overflow tests has operands and quotient in the type |
| `CheckedMultiply.Abs` | MultiplayerTestRunner/thirdparty/CLI11.hpp:4726-4728 | every absolute value taken is in the type |
| `CliArguments.ParseSingle` | MultiplayerTestRunner/thirdparty/CLI11.hpp:11334-11380 | every step leaves fewer characters and tokens, also when `-abc` goes back as `-bc` |
| `CliArguments.ParseArg` | MultiplayerTestRunner/thirdparty/CLI11.hpp:11626-11885 | the same for an option with its values and the rest of its cluster |
| `CliArguments.GatherMinimum` | MultiplayerTestRunner/thirdparty/CLI11.hpp:11809-11825 | collecting stops short of the minimum only when no token is left |
| `CliArguments.GatherOptional` | MultiplayerTestRunner/thirdparty/CLI11.hpp:11828-11851 | collecting optional values leaves as many tokens as the required positionals still need, and stops only at a token it may not take or when it is satisfied |
| `CliArguments.ChoosePositional` | MultiplayerTestRunner/thirdparty/CLI11.hpp:11411-11469 | the positional chosen wants the token; without positionals at the end it is the first that does; none is chosen only when none does |
| `CliArguments.ParsePositional` | MultiplayerTestRunner/thirdparty/CLI11.hpp:11411-11553 | a step with a positional or a missing token leaves fewer tokens |
| `CliArguments.SplitToken` | MultiplayerTestRunner/thirdparty/CLI11.hpp:3874-3925 | only a cluster of short options has a rest, and then no attached value; the laws of `CliTokens` say what name and value are |
| `CliArguments.ParseAll` | MultiplayerTestRunner/thirdparty/CLI11.hpp:11149-11152 | an accepted command line is read to its end |
| `CliAccounts.EveryTokenAccounted` | MultiplayerTestRunner/thirdparty/CLI11.hpp:11142-11154 | undoing the log of an accepted command line gives exactly its tokens in order, a token put back being the one read next; each was an option's name, a value of the option named before it, a positional, a `--` or missing, for the reason given by `FairRole`; a value beyond the minimum is no option, is within the maximum, and leaves the required positionals the tokens they need; each option got its attached text, minimum, default, filler and rest before anything else was read; the results and the missing list are those of the log, in order |
| `CliAccounts.ParseSingleExplained` | MultiplayerTestRunner/thirdparty/CLI11.hpp:11334-11380 | one step keeps all of that |
| `CliAccounts.TakeValuesExplained` | MultiplayerTestRunner/thirdparty/CLI11.hpp:11761-11885 | so does serving an option: attached value, minimum, optional values, mark, default, filler and rest, each when it is due and only then |
| `CliAccounts.ParsePositionalExplained` | MultiplayerTestRunner/thirdparty/CLI11.hpp:11411-11553 | and a positional, which goes to the first option that wants it unless positionals come at the end |
| `CliAccounts.PutBackIsNext` | MultiplayerTestRunner/thirdparty/CLI11.hpp:11880-11884 | in a log that can be undone the token after one that was put back is that token |
| `CliAccounts.RestIsNotDropped` | MultiplayerTestRunner/thirdparty/CLI11.hpp:11880-11884 | a flag with a rest of its cluster is not done before the rest has gone back |
| `CliAccounts.RemainingShrinks` | MultiplayerTestRunner/thirdparty/CLI11.hpp:11382-11396 | collecting values never makes the required positionals need more tokens |
| `CliClusters.ClusterMeansFlagsApart` | MultiplayerTestRunner/thirdparty/CLI11.hpp:11788-11885 | for every command line a cluster of flags gives the same results, missing tokens and refusals as the flags written apart |
| `CliClusters.FlagStep` | MultiplayerTestRunner/thirdparty/CLI11.hpp:11788-11885 | one flag of a cluster: its value is added and the rest of the cluster is the next token |
| `CliClusters.ParseAllAlike` | MultiplayerTestRunner/thirdparty/CLI11.hpp:11142-11154 | what the loop does does not depend on the log the model keeps |
| `CliTokens.LongWithValue` | MultiplayerTestRunner/thirdparty/CLI11.hpp:3885-3903 | for every name without `=` and every value, `--name=value` has that name and that value |
| `CliTokens.LongAlone` | MultiplayerTestRunner/thirdparty/CLI11.hpp:3885-3903 | `--name` has that name and no value |
| `CliTokens.WindowsWithValue` | MultiplayerTestRunner/thirdparty/CLI11.hpp:3905-3923 | the same for `/name:value` |
| `CliTokens.WindowsAlone` | MultiplayerTestRunner/thirdparty/CLI11.hpp:3905-3923 | and `/name` |
| `CliTokens.ShortWithRest` | MultiplayerTestRunner/thirdparty/CLI11.hpp:3874-3883 | `-c` and whatever follows: the name is the letter, the rest is what follows |
| `CliTokens.EveryOptionToken` | MultiplayerTestRunner/thirdparty/CLI11.hpp:10662-10686 | every token taken for an option is one of these |
| `CliTokens.AttachedMeansApart` | MultiplayerTestRunner/thirdparty/CLI11.hpp:11788-11819 | for every command line and every option that demands a value: the value attached to the name in any of the three ways or written as the next token gives the same results, missing tokens and refusals |
| `CliTokens.OneValueStep` | MultiplayerTestRunner/thirdparty/CLI11.hpp:11794-11807 | an option with exactly one value gets exactly the results of that value; nothing else changes |
| `CliTokens.OneValueLine` | MultiplayerTestRunner/thirdparty/CLI11.hpp:11142-11154 | a command line of one such option, in both forms, is accepted with exactly the results of the value and nothing missing |
| `CliTokens.FlagWithValue` | MultiplayerTestRunner/thirdparty/CLI11.hpp:11788-11793 | a flag with an attached value has its result made of that value, and takes no token |
| `CliTokens.ValueLeftOut` | MultiplayerTestRunner/thirdparty/CLI11.hpp:11857-11862 | an option whose value may be left out, with no plain token after it, gets what the program has for it without a value |
| `CliTokens.MarkEndsValues` | MultiplayerTestRunner/thirdparty/CLI11.hpp:11853-11855 | a `--` after the values of an option that could take more is dropped, and what follows is read as before |
| `CliTokens.PositionalsInOrder` | MultiplayerTestRunner/thirdparty/CLI11.hpp:11438-11461 | for every list of plain tokens: each positional takes as many as it expects, in order, one with extra values all the rest, and the tokens beyond are missing |
| `CliTokens.AllPositionalAfterMark` | MultiplayerTestRunner/thirdparty/CLI11.hpp:11334-11380 | after `--` that holds of any tokens |
| `CliTokens.RemainingIsExact` | MultiplayerTestRunner/thirdparty/CLI11.hpp:11382-11396 | the number of tokens kept back for required positionals is exactly the number they take |
| `CliTokens.ScarceTokens` | MultiplayerTestRunner/thirdparty/CLI11.hpp:11418-11450 | with positionals at the end, once the tokens are no more than the required ones need, the next one goes to the first required positional that lacks some |
| `CliTokens.ItemLimits` | MultiplayerTestRunner/thirdparty/CLI11.hpp:11777-11785 | the least and the largest number of values of an option, in terms of its type and of what is expected |
| `CliCommandLine.CommandLine.Parse` | MultiplayerTestRunner/thirdparty/CLI11.hpp:11142-11154 | the loop on the changing vectors computes `ParseAll`, and ends |
| `CliCommandLine.CommandLine.ParseOne` | MultiplayerTestRunner/thirdparty/CLI11.hpp:11334-11380 | one step on the changing vectors |
| `CliCommandLine.CommandLine.ParseArgument` | MultiplayerTestRunner/thirdparty/CLI11.hpp:11626-11885 | an option token |
| `CliCommandLine.CommandLine.ServeOption` | MultiplayerTestRunner/thirdparty/CLI11.hpp:11777-11885 | the values of an option |
| `CliCommandLine.CommandLine.CollectMinimum` | MultiplayerTestRunner/thirdparty/CLI11.hpp:11811-11819 | the first collecting loop |
| `CliCommandLine.CommandLine.CollectOptional` | MultiplayerTestRunner/thirdparty/CLI11.hpp:11831-11850 | the second collecting loop with its two early exits |
| `CliCommandLine.CommandLine.ParsePositionalArgument` | MultiplayerTestRunner/thirdparty/CLI11.hpp:11411-11553 | a positional token on the changing vectors |
| `CliCommandLine.CommandLine.FindPositional` | MultiplayerTestRunner/thirdparty/CLI11.hpp:11425-11468 | the searches through the options |
| `CliCommandLine.CommandLine.CountRemainingRequired` | MultiplayerTestRunner/thirdparty/CLI11.hpp:11382-11396 | the count of values required positionals still lack |
| `UnixProcess.Kernel.MakePipe` | ThirdParty/tiny-process-library/process_unix.cpp:129-138 | a pipe gives two new descriptors or none |
| `UnixProcess.Kernel.Close` | ThirdParty/tiny-process-library/process_unix.cpp:443-449 | only an open descriptor is closed, so none is closed twice |
| `UnixProcess.Process.MakePipes` | ThirdParty/tiny-process-library/process_unix.cpp:119-148 | after a failed pipe all descriptors made before it are closed again |
| `UnixProcess.Process.CloseAll` | ThirdParty/tiny-process-library/process_unix.cpp:152-166 | after a failed fork all pipe ends are closed |
| `UnixProcess.Process.KeepOwnEnds` | ThirdParty/tiny-process-library/process_unix.cpp:206-218 | after a fork the parent closes the child's ends and holds exactly its own |
| `UnixProcess.Process.Open` | ThirdParty/tiny-process-library/process_unix.cpp:119-223 | for every outcome of the pipes and the fork: the object holds exactly the descriptors still open for it, none after a failure |
| `UnixProcess.Process.CloseStdin` | ThirdParty/tiny-process-library/process_unix.cpp:476-483 | closes the input end once |
| `UnixProcess.Process.CloseFds` | ThirdParty/tiny-process-library/process_unix.cpp:436-452 | closes exactly what the object still holds, and holds nothing afterwards |
| `UnixProcess.Process.GetExitStatus` | ThirdParty/tiny-process-library/process_unix.cpp:374-402 | for every outcome of waiting |
| `UnixProcess.Process.TryGetExitStatus` | ThirdParty/tiny-process-library/process_unix.cpp:404-434 | for every outcome of waiting; a running process keeps its descriptors |
| `UnixProcess.ExitCodes` | ThirdParty/tiny-process-library/process_unix.cpp:374-402 | every exit code from 0 to 255 comes out as it is; the status of a child that a signal ends is that of an exit with the signal's number, or 128 more with a core dump |
| `UnixProcess.Process.Do` | ThirdParty/tiny-process-library/process_unix.cpp:374-483 | any call keeps the object holding exactly its open descriptors |
| `UnixProcess.Lifetime` | ThirdParty/tiny-process-library/process.cpp:43-45 | over any outcome of opening and any sequence of later calls up to the destructor, exactly the descriptors open before are open after |
| `Timers.NextValid` | ThirdParty/quickjs/quickjs-libc.c:1995-2069 | every step keeps: a record is live if and only if it is linked or has an object, freed once, its callback released once |
| `Timers.ReachableOwnership` | ThirdParty/quickjs/quickjs-libc.c:1995-2069 | so in every reachable state of any sequence of set, clear, expire, finalize and shutdown |
| `Timers.NothingLeaks` | ThirdParty/quickjs/quickjs-libc.c:3850-3855 | after shutdown and the last finalizer every timer ever set was freed once and its callback released once |
| `Timers.ExpiresOnce` | ThirdParty/quickjs/quickjs-libc.c:2281-2292 | a timer that is not pending never gets pending again, and its callback is not called again |
| `TimerRuns.ClearedNeverRuns` | ThirdParty/quickjs/quickjs-libc.c:2061-2069 | in every run: a timer that was cleared is not pending, and in no continuation is its callback called, unless it is running already; all other timers keep their place, time and callback |
| `TimerRuns.SetRunsItsCallback` | ThirdParty/quickjs/quickjs-libc.c:2030-2059 | in every run: a timer that was set is pending, last, and due from exactly its time on; whenever a step starts its handler its time has come and what is called is exactly the callback it was set with |
| `TimerRuns.StaysPending` | ThirdParty/quickjs/quickjs-libc.c:2011-2019 | it stays pending, also without its object, until it is cleared, it expires or everything is shut down |
| `TimerRuns.FirstDueExpires` | ThirdParty/quickjs/quickjs-libc.c:2276-2292 | a poll takes out exactly the first pending timer in list order whose time has come, calls its callback and leaves the others as they are |
| `Timers.TimerQueue.SetTimeout` | ThirdParty/quickjs/quickjs-libc.c:2030-2059 | the new record is linked and owned by its object |
| `Timers.TimerQueue.ClearTimeout` | ThirdParty/quickjs/quickjs-libc.c:2061-2069 | unlinks only; `TimerRuns.ClearedNeverRuns` says what that means |
| `Timers.TimerQueue.Finalize` | ThirdParty/quickjs/quickjs-libc.c:2011-2019 | the object goes; the record too unless it is linked |
| `Timers.TimerQueue.Poll` | ThirdParty/quickjs/quickjs-libc.c:2276-2299 | the first expired timer in list order is taken; else the delay is positive, at most ten seconds and at most the remaining time of any pending timer, and it is one of these |
| `Timers.TimerQueue.PollAndCall` | ThirdParty/quickjs/quickjs-libc.c:2276-2299 | with the call of the handler, which may set and clear timers itself: at most one timer expires, its callback is released after the call, and ownership is as before |
| `Timers.TimerQueue.FreeHandlers` | ThirdParty/quickjs/quickjs-libc.c:3850-3855 | shutdown unlinks all timers and frees those without an object |
| `WorkerChannel.FirstInFirstOut` | ThirdParty/quickjs/quickjs-libc.c:2181-2235 | in every interleaving, even when writes fail: messages are taken in the order they were linked, each once, and one thread is in a critical section |
| `WorkerChannel.WakeMatchesQueue` | ThirdParty/quickjs/quickjs-libc.c:3514-3530 | in every interleaving, whenever the mutex is free: the pipe holds one byte if the queue is not empty, and none otherwise, if and only if no write has failed on an empty queue |
| `WorkerChannel.NoLostWakeup` | ThirdParty/quickjs/quickjs-libc.c:2181-2199 | until then a thread at rest finds the pipe readable if and only if a message waits; afterwards a message waits and no thread finds it readable |
| `WorkerChannel.OwnerNeverBlocks` | ThirdParty/quickjs/quickjs-libc.c:2189-2199 | until then the owner of the mutex can always go on; the draining read always finds its byte |
| `WorkerChannel.NextWake` | ThirdParty/quickjs/quickjs-libc.c:3514-3529 | each step of posting and handling keeps the pipe and the queue matched |
| `WorkerChannel.FailedWriteSticks` | ThirdParty/quickjs/quickjs-libc.c:3520-3526 | a failed write to an empty queue is not tried again: the byte is lost, whoever is past its select |
| `WorkerChannel.StuckForever` | ThirdParty/quickjs/quickjs-libc.c:3517-3528 | from then on no thread ever finds the pipe readable, and no more messages are taken than threads were past their select |
| `WorkerChannel.LostNext` | ThirdParty/quickjs/quickjs-libc.c:2181-2199 | no statement brings a lost byte back |
| `WorkerChannel.FailedWriteIsFinal` | ThirdParty/quickjs/quickjs-libc.c:3520-3526 | so from the first failed write on an empty queue in any run |
| `WorkerChannel.OneFailedWrite` | ThirdParty/quickjs/quickjs-libc.c:3517-3528 | the shortest such run, one post: its message waits, and none is ever taken |
| `WorkerChannel.MessagePipe.PostMessage` | ThirdParty/quickjs/quickjs-libc.c:3514-3530 | the message is appended; queue and pipe stay matched if and only if no byte was due or the write succeeded |
| `WorkerChannel.MessagePipe.HandlePostedMessage` | ThirdParty/quickjs/quickjs-libc.c:2181-2235 | the oldest message is taken if there is one, and the byte with the last one |
| `RefCounts.CreatedCounted` | ThirdParty/quickjs/quickjs-libc.c:3191-3199 | a new object counts its first pointer |
| `RefCounts.DuppedCounted` | ThirdParty/quickjs/quickjs-libc.c:3213-3218 | one more pointer, one more count |
| `RefCounts.DroppedCounted` | ThirdParty/quickjs/quickjs-libc.c:3201-3211 | one pointer less; the object is freed if and only if no other points to it |
| `RefCounts.MovedCounted` | ThirdParty/quickjs/quickjs-libc.c:3327-3328 | a pointer that moves to another field needs no counting |
| `WorkerRuns.NextValid` | ThirdParty/quickjs/quickjs-libc.c:3283-3466 | every statement of the constructor with its failure exits, of the thread start, of `Worker.parent`, of handlers, finalizers, thread exit, posting and handling keeps each count equal to the number of fields that point to the object |
| `WorkerRuns.PipeCounts` | ThirdParty/quickjs/quickjs-libc.c:3242-3281 | in every reachable state the count of a pipe is the number of fields pointing to it, over constructor calls, thread states, worker objects and their handlers |
| `WorkerRuns.HeldPipesLive` | ThirdParty/quickjs/quickjs-libc.c:3355-3385 | every such field points to a live pipe |
| `WorkerRuns.NothingDeadIsTouched` | ThirdParty/quickjs/quickjs-libc.c:3260-3281 | in no run is a count taken below zero, a pipe or buffer freed twice, or a message posted to a pipe that is gone |
| `WorkerRuns.BuffersInTransitLive` | ThirdParty/quickjs/quickjs-libc.c:3509-3528 | a shared buffer in a queued or handled message is live and its count includes every entry |
| `WorkerRuns.LastPointerFreesQueue` | ThirdParty/quickjs/quickjs-libc.c:3260-3281 | freeing a pointer frees the pipe if and only if no other field points to it, and with it exactly the messages in its queue |
| `WorkerRuns.NothingLeaks` | ThirdParty/quickjs/quickjs-libc.c:3835-3865 | when constructor calls are over, threads have freed their handlers and worker objects are finalized, no pipe, message or buffer outside scripts is left |
| `WorkerLinks.ParentCrossesWorker` | ThirdParty/quickjs/quickjs-libc.c:3387-3449 | in every run: the object that a constructor call returns and the object `Worker.parent` of the thread it starts send and receive on the same two pipes, crossed |
| `WorkerLinks.PostedToPeer` | ThirdParty/quickjs/quickjs-libc.c:3470-3530 | a message posted through one of two such objects goes to the end of the queue that the other one's handler takes from |
| `WorkerLinks.TablesKept` | ThirdParty/quickjs/quickjs-libc.c:3509-3528 | no statement changes the table of a message that exists |
| `WorkerLinks.BuffersArrive` | ThirdParty/quickjs/quickjs-libc.c:2201-2215 | the buffers put into a message are those read from it, entry by entry |
| `WorkerCounts.PipeFreed` | ThirdParty/quickjs/quickjs-libc.c:3260-3281 | freeing a pipe keeps the counts of buffers and the queues right |
| `WorkerCounts.FreeMessageValid` | ThirdParty/quickjs/quickjs-libc.c:3248-3258 | freeing a message releases each of its entries once |
| `WorkerRuntime.CountsDetermined` | ThirdParty/quickjs/quickjs-libc.c:3185-3281 | two states with the same pointers have the same counts and the same live pipes |
| `WorkerRuntime.Runtime.Constructor` | ThirdParty/quickjs/quickjs-libc.c:3387-3466 | the constructor in place, for every outcome of its allocations and of the thread creation: after a failure all records and counts are what they were; else the object's pipes are the thread's, crossed |
| `WorkerRuntime.Runtime.Fail` | ThirdParty/quickjs/quickjs-libc.c:3454-3465 | the label `fail`: arguments and object release their pointers |
| `WorkerRuntime.Runtime.MakeWorker` | ThirdParty/quickjs/quickjs-libc.c:3355-3385 | the object with its two copied pointers |
| `WorkerRuntime.Runtime.AdoptArguments` | ThirdParty/quickjs/quickjs-libc.c:3309-3328 | the pointers of the arguments move to the thread state |
| `WorkerRuntime.Runtime.FreeHandlers` | ThirdParty/quickjs/quickjs-libc.c:3857-3861 | the end of a thread |
| `WorkerRuntime.Runtime.SetOnMessage` | ThirdParty/quickjs/quickjs-libc.c:3561-3574 | a handler takes a pointer of its own, once |
| `WorkerRuntime.Runtime.ClearOnMessage` | ThirdParty/quickjs/quickjs-libc.c:3555-3559 | and gives it back |
| `WorkerRuntime.Runtime.Finalize` | ThirdParty/quickjs/quickjs-libc.c:3293-3302 | a finalizer frees both pipes and the handler |
| `WorkerRuntime.Runtime.FreeOneMessage` | ThirdParty/quickjs/quickjs-libc.c:3248-3258 | the loop over the table of a message |
| `WorkerRuntime.Runtime.FreeMessagePipe` | ThirdParty/quickjs/quickjs-libc.c:3260-3281 | the count, and the loop over the queue when it reaches zero |
| `WorkerRuntime.Runtime.PostMessage` | ThirdParty/quickjs/quickjs-libc.c:3509-3528 | the references are taken before the message is linked |

## Left out

- CliLines.RoundTrip: takes the value as the last entry of its file, with a name of plain characters; what follows an unclosed value would be read into it.
- CliSections.MarkersMatch: takes headers as lists of segments and entries as read; quoting and letter case in `generate_parents`, comments, multi-line items and the filters for sections are not modelled.
- CliBrackets.CloseStringQuote: the position past the length is kept as a number; 64-bit wrap-around of positions is not modelled.
- SoleUuid.Rebuild: leaves out the texts with two dashes or more for which the code reads characters after the terminator, where its behaviour is undefined.
- SoleClock.AllDistinct: asks that the counter never fills and the counter values of the run lie within 2^60, the width of the timestamp field; `DistinctByReadings` asks the same of the readings, and `EqualExactly` says when two UUIDs are equal beyond that.
- CliClusters.ClusterMeansFlagsApart: is about flags, options that never take a value; a cluster that ends in an option with a value is covered by `EveryTokenAccounted`.
- CliTokens.AttachedMeansApart: leaves out the empty value, since the code takes `--name=` for the name without a value.
- CliTokens.PositionalsInOrder: is about apps without positional validators, prefix commands and positionals at the end, and about texts that give one result each; `EveryTokenAccounted` covers the others.
- CliArguments.ParseAll: subcommands, option groups, fallthrough, callbacks, injected separators and options that run on parse are not modelled; how one text is cut into several results is a parameter; the product of type size and expected count is taken without `int` overflow.
- WorkerRuns.NextValid: a post takes its references and links its message in one statement; the lock order of these is that of `WorkerChannel`. Which scripts can reach an object, and the order in which a runtime finalizes its objects, are free.
- Reading and writing of script objects: a faithful codec whose reader takes references of its own.
- The command name rule for `argv[0]` on Windows and the quoting for MSYS shells.
- INI and other formatting characters; only the default brackets, separator and quotes are modelled.
- Locale behaviour beyond ASCII, floating-point conversion, help texts, files and environment variables.
- Version-4 UUIDs of the first library, big-endian byte orders, and where the random bytes come from.
- The collision quality of the hash beyond texts that differ in one word.
- Threads that read a child's output, signals, and what the child process does after the fork.
- In `get_exit_status` an error of `waitpid` other than a missing child leaves the status uninitialised; the model takes it as an input.
- Service calls, the wrapper generator and the build tooling.
