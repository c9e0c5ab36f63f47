# ffmbc core, modelled in Dafny

This project models four small pieces of ffmbc, an FFmpeg derivative, and proves
what they promise:

- **The raw ADTS AAC demuxer** (`aacdec.dfy`, module `AacDemuxer`). `adts_aac_probe`
  scores a byte prefix by chaining ADTS frame headers. A header is a 0xFFF
  syncword with layer 00, plus a 13-bit `frame_length`. `adts_aac_read_header`
  creates the single audio stream with a 1/28224000 time base. The module also
  holds the demuxer's descriptor.
- **The `setsar` video filter** (`vf_aspect.dfy`, module `Aspect`). `init` reads
  `N:D` or a decimal ratio, rejects anything else, and reduces the fraction by
  its gcd. `setsar_config_props` copies the result onto the input link.
  `rational.dfy` (module `Rationals`) holds the fraction type and `av_gcd`.
- **libavutil logging** (`log.dfy`, module `Log`). It covers the global level and
  flags, the default callback's level gate and repeated-line suppression, the
  control-byte scrub `sanitize`, and the row layout of `hex_dump_internal`.
- **The command-line layer** (`cmdutils.dfy`, module `CmdUtils`). It covers
  `find_option`, the argv loop of `parse_options` and the `-loglevel` handler
  `opt_loglevel`.

`ctext.dfy` (module `CText`) models the C library text handling this code
relies on. That is `isspace`, `strtol` in base 10, and the `%d`, `%lf` and `%c`
conversions of `sscanf`. `wrappers.dfy` holds `Option`.

Code that changes state step by step is modelled as methods. Each method is
proved equal to a specification function, and the properties are proved as
lemmas about that function:

- `adts_aac_probe` is `AdtsAacProbe` over a read-only array, proved equal to
  `ProbeScore`.
- `sanitize` works in place on an array and is proved to leave `Sanitized` of
  the old contents.
- The logger's statics and globals are fields of the class `Log.Logger`.
- The filter's private context is the class `Aspect.AspectContext`.
- `parse_options` is a loop over argv, proved equal to `Parse`.

Every effect `parse_options` has on the program is recorded as an `Action`, in
order. What `stderr` receives from the logger is recorded as a list of
`Emission`s.

## Model

| member | source | states |
|---|---|---|
| AacDemuxer.LengthField | libavformat/aacdec.c:47 | the 13-bit frame_length taken from the 32 bits read three bytes into the header is below 0x2000 |
| AacDemuxer.RunFrom | libavformat/aacdec.c:43-51 | a chain of n frames from p stops at least 7n bytes later, and it is empty exactly when it stops where it started |
| AacDemuxer.RunStop | libavformat/aacdec.c:44-49 | with no frame at p (past end, no syncword, or frame_length below 7) the chain from p counts 0 frames and stops at p |
| AacDemuxer.RunStep | libavformat/aacdec.c:43-51 | a frame at p adds one to the chain that continues at p + frame_length, which stops at the same place |
| AacDemuxer.RunStopsAtNoFrame | libavformat/aacdec.c:43-51 | a chain stops at the first offset that is past end or holds no frame |
| AacDemuxer.RunAdvance | libavformat/aacdec.c:43-51 | the inner loop's invariant (frames so far plus the chain from buf2) survives one more frame |
| AacDemuxer.RB16Value | libavformat/aacdec.c:44 | AV_RB16 is the number 256 * buf[p] + buf[p+1]: the first byte is the high one |
| AacDemuxer.RB32Halves | libavformat/aacdec.c:47 | AV_RB32 is 65536 times the 16-bit word at p plus the one at p + 2 |
| AacDemuxer.RB32Value | libavformat/aacdec.c:47 | AV_RB32 is the number with buf[p] .. buf[p+3] as its base-256 digits, most significant first |
| AacDemuxer.ReadRB16 | libavformat/aacdec.c:44 | the word read at p has the value 256 * buf[p] + buf[p+1] |
| AacDemuxer.ReadRB32 | libavformat/aacdec.c:47 | the word read at p has the big-endian value of buf[p] .. buf[p+3] |
| AacDemuxer.IsSyncWord | libavformat/aacdec.c:45 | the header test (header & 0xFFF6) == 0xFFF0 |
| AacDemuxer.SyncAt | libavformat/aacdec.c:44-46 | the header test on the 16 bits read at p |
| AacDemuxer.SyncAtBytes | libavformat/aacdec.c:44-46 | a header starts at p exactly when buf[p] is 0xFF and buf[p+1] has its top four bits set and bits 2 and 1 clear |
| AacDemuxer.FrameLength | libavformat/aacdec.c:47 | the frame_length of the header at p, below 0x2000 |
| AacDemuxer.FrameAt | libavformat/aacdec.c:44-49 | the inner loop goes on at p: a header is there and its frame_length is at least 7 |
| AacDemuxer.FrameHere | libavformat/aacdec.c:44-49 | the two tests of the inner loop find a frame exactly when a syncword is there and frame_length is at least 7, and then give that length |
| AacDemuxer.ChainFrames | libavformat/aacdec.c:43-51 | the inner loop returns the frame count and the stop offset of the chain from its start |
| AacDemuxer.AdtsAacProbe | libavformat/aacdec.c:29-61 | the probe returns ProbeScore of the buffer, reading the buffer only and only inside it |
| AacDemuxer.ProbeScoreLevels | libavformat/aacdec.c:56-60 | the score is one of five values, chosen by first_frames and max_frames in the order the ladder tests them |
| AacDemuxer.ShortBufferScoresZero | libavformat/aacdec.c:36-40 | a buffer shorter than 8 bytes has no offset below end and scores 0 |
| AacDemuxer.MaxRunFrom | libavformat/aacdec.c:40-55 | the outer loop from p gives 0 when p is not below end, and otherwise at least the chain counted at p |
| AacDemuxer.MaxRunCoversRun | libavformat/aacdec.c:40-52 | the chain counted at any start the outer loop from p visits (p, then one past each chain's stop) is at most the loop's maximum |
| AacDemuxer.MaxRunAttained | libavformat/aacdec.c:40-52 | the maximum is the chain of some start the outer loop visits |
| AacDemuxer.MaxFramesIsLongest | libavformat/aacdec.c:40-55 | max_frames is the longest chain over the starts the scan from buf0 visits, and one of them reaches it |
| AacDemuxer.FirstFrames | libavformat/aacdec.c:53-54 | first_frames never exceeds max_frames |
| AacDemuxer.Score | libavformat/aacdec.c:56-60 | the ladder gives one of five values, and, when AVPROBE_SCORE_MAX is at least 4, 0 exactly when first_frames is below 3 and max_frames is 0 |
| AacDemuxer.ProbeScore | libavformat/aacdec.c:29-61 | when AVPROBE_SCORE_MAX is at least 4, the probe's score is 0 exactly when max_frames is 0 |
| AacDemuxer.MaxRunPositiveIff | libavformat/aacdec.c:40-55 | the outer loop from p counts a frame exactly when a frame starts at some offset from p up to end |
| AacDemuxer.ProbeZeroIffNoFrame | libavformat/aacdec.c:29-61 | the probe scores 0 exactly when no ADTS frame starts at any offset below end |
| AacDemuxer.ThreeFramesFromStart | libavformat/aacdec.c:43-56 | three frames chained from offset 0 give AVPROBE_SCORE_MAX/2+1 |
| AacDemuxer.TimebaseDividesByEveryRate | libavformat/aacdec.c:78-79 | 28224000 is a multiple of every ADTS sampling rate |
| AacDemuxer.TimebaseIsLeast | libavformat/aacdec.c:78-79 | every common multiple of the ADTS sampling rates is a multiple of 28224000, so it is the least one |
| AacDemuxer.OpenAac | libavformat/aacdec.c:63-93 | a context opened with ff_aac_demuxer (name "aac", codec CODEC_ID_AAC, read_header adts_aac_read_header) fails with ENOMEM and no stream, or holds one audio stream of codec AAC with full parsing and time base 1/28224000 |
| AacDemuxer.Stream.constructor | libavformat/aacdec.c:68 | a new stream has the requested index and id and no codec yet |
| AacDemuxer.FormatContext.ReadHeader | libavformat/aacdec.c:63-82 | without memory: ENOMEM and the streams unchanged; otherwise one fresh stream is appended, audio, with the format's codec id, full parsing, 64-bit timestamps and time base 1/28224000 |
| Rationals.Gcd | libavfilter/vf_aspect.c:51 | av_gcd is 0 only for two zeros, and never exceeds a positive second argument |
| Rationals.GcdReducedCoprime | libavfilter/vf_aspect.c:51-55 | av_gcd of two numbers, not both zero, is positive, divides both, leaves coprime quotients, and keeps a positive number positive |
| CText.SignedDecimal | cmdutils.c:354 | a digit scan that converts something ends after at least one character inside the text, at the end or before a non-digit |
| CText.ScanInt | libavfilter/vf_aspect.c:41 | %d fails on input exactly when only white space is left; a conversion that succeeds consumes at least one character, stays inside the text and stops at its end or before a non-digit |
| CText.ScanFloat | libavfilter/vf_aspect.c:42 | a %lf conversion that succeeds consumes a non-empty literal inside the text |
| CText.ScanChar | libavfilter/vf_aspect.c:41-42 | %c reads the character at the position and moves past it, or fails at the end of the text |
| CText.FloatEnd | libavfilter/vf_aspect.c:42 | the decimal literal %lf reads from k is non-empty, stays inside the text and ends at its end or before a non-digit |
| CText.SignedDecimalOfText | cmdutils.c:354 | strtol's digit scan reads printf's text of n back as n, ending right after it |
| CText.StrToL | cmdutils.c:354 | strtol gives 0 with tail at the start when it converts nothing; otherwise tail is right after the digits and the value is the number read, clamped to LONG_MIN or LONG_MAX when it does not fit a 64-bit long |
| CText.ScanIntOfText | libavfilter/vf_aspect.c:41 | sscanf's %d reads printf's text of n back as n, ending right after it |
| Aspect.ScanIntPair | libavfilter/vf_aspect.c:41 | sscanf "%d:%d%c" returns EOF or 0 to 3, having assigned exactly the first that many targets |
| Aspect.ScanRatio | libavfilter/vf_aspect.c:42 | sscanf "%lf%c" returns EOF or 0 to 2, having assigned exactly the first that many targets |
| Aspect.Unset | libavfilter/vf_aspect.c:58-59 | a zero denominator becomes 0/1; any other aspect is kept |
| Aspect.InitOutcome | libavfilter/vf_aspect.c:33-63 | init returns 0 or EINVAL; on success the denominator is non-zero, and for a given argument the aspect is a positive reduced fraction; a NULL argument only replaces an unset aspect by 0/1 |
| Aspect.ScanIntPairOfText | libavfilter/vf_aspect.c:41 | "N:D" reads back as exactly two conversions; followed by any text that does not start with a digit, that text's first character is read into c |
| Aspect.InitExactPair | libavfilter/vf_aspect.c:41-55 | exactly "N:D" with N, D > 0 succeeds with N/g : D/g, g = gcd(N, D) |
| Aspect.InitTrailingText | libavfilter/vf_aspect.c:41-48 | any non-empty text after "N:D" that does not extend D, a single space included, gives EINVAL |
| Aspect.InitSuccessNeedsWholeText | libavfilter/vf_aspect.c:41-48 | from the zeroed context, init succeeds only when "%d:%d%c" made exactly two conversions or "%lf%c" exactly one, so c was never assigned |
| Aspect.InitDecimal | libavfilter/vf_aspect.c:41-55 | text that "%d:%d%c" does not read past its first number and "%lf%c" reads as one number alone succeeds with av_d2q's ratio reduced by its gcd, when both terms are positive |
| Aspect.InitRatioTrailing | libavfilter/vf_aspect.c:42-48 | a decimal literal followed by any character gives EINVAL |
| Aspect.InitNonPositive | libavfilter/vf_aspect.c:45-48 | "N:D" with N <= 0 or D <= 0 gives EINVAL |
| Aspect.InitUnparsable | libavfilter/vf_aspect.c:41-48 | text neither sscanf can convert leaves the zeroed aspect and gives EINVAL |
| Aspect.InitLetters | libavfilter/vf_aspect.c:41-48 | "abc" gives EINVAL |
| Aspect.AspectContext.constructor | libavfilter/vf_aspect.c:29-31 | the private context starts zero-filled |
| Aspect.AspectContext.Init | libavfilter/vf_aspect.c:33-63 | init's return value and the aspect it leaves are those of InitOutcome for the argument and the previous aspect |
| Aspect.FilterLink.ConfigProps | libavfilter/vf_aspect.c:66-73 | the link's sample aspect ratio becomes the filter's aspect, and 0 is returned |
| Log.IsScrubbed | libavutil/log.c:84 | the bytes sanitize replaces: below 0x08, or from 0x0E to 0x1F |
| Log.Scrub | libavutil/log.c:84-85 | a scrubbed byte becomes '?', which is not itself scrubbed; every other byte is kept |
| Log.NulIndex | libavutil/log.c:83 | the index of the first NUL, or the length when there is none |
| Log.Sanitized | libavutil/log.c:82-88 | sanitize keeps the length and the position of the first NUL |
| Log.SanitizedAt | libavutil/log.c:82-88 | sanitize keeps the length and the terminator's position, scrubs each byte before the terminator, and leaves the rest alone |
| Log.SanitizedClean | libavutil/log.c:84-85 | after sanitize no byte below 0x08 or in 0x0E..0x1F is left before the terminator |
| Log.SanitizedIdempotent | libavutil/log.c:82-88 | sanitizing twice is sanitizing once |
| Log.SanitizedAppend | libavutil/log.c:82-88 | sanitizing a NUL-free text followed by more text sanitizes each part |
| Log.Sanitize | libavutil/log.c:82-88 | the array is left holding Sanitized of its old contents |
| Log.SanitizedCopy | libavutil/log.c:138 | the terminated copy of a line, sanitized in place, is Sanitized of the line |
| Log.HexDigits | libavutil/log.c:190 | %0Nx gives N lowercase hex digits |
| Log.HexDigitsValue | libavutil/log.c:190-193 | %08x and %02x digits read back as the value when it fits |
| Log.Cells | libavutil/log.c:191-196 | j hex columns are 3j characters |
| Log.Shown | libavutil/log.c:199-201 | a byte is shown as itself when it is printable ASCII (0x20 to 0x7E) and as '.' otherwise, so the column is always printable |
| Log.ShownText | libavutil/log.c:198-203 | the text column has one character per byte: the byte if printable ASCII, '.' otherwise |
| Log.HexDumpRow | libavutil/log.c:190-204 | a row is 59 characters plus one per byte it shows |
| Log.HexDumpFrom | libavutil/log.c:186-205 | the rows from byte i are empty exactly when i is past the data |
| Log.HexDumpIsRows | libavutil/log.c:186-205 | the dump is ceil(n/16) rows in order, row k showing the bytes from offset 16k |
| Log.HexDumpLength | libavutil/log.c:186-205 | a dump of n bytes is 59 characters per row plus n |
| Log.HexColumns | libavutil/log.c:191-196 | the sixteen-column loop prints Cells of the row's bytes |
| Log.TextColumn | libavutil/log.c:198-203 | the text loop prints ShownText of the row's bytes |
| Log.HexDumpLine | libavutil/log.c:190-204 | one pass of the outer loop prints HexDumpRow for offset i and its bytes |
| Log.DumpStep | libavutil/log.c:186-205 | the outer loop's invariant survives one more row |
| Log.HexDumpInternal | libavutil/log.c:180-207 | a size of 0 or less prints nothing; otherwise the output is the row-by-row dump of the first size bytes |
| Log.ColorIndex | libavutil/log.c:139 | the colour is level>>3 clipped to 0..6 |
| Log.ComposeLine | libavutil/log.c:101-117 | the formatted line fits the 1024-byte buffer and has no NUL if its parts have none |
| Log.CallbackStep | libavutil/log.c:90-140 | the callback never changes level or flags, keeps prev within the buffer and the count non-negative, and changes the count only for a message at or below the level |
| Log.LineStep | libavutil/log.c:123-139 | the same for the part after formatting; is_atty is kept |
| Log.SkipRepeated | libavutil/log.c:126 | AV_LOG_SKIP_REPEATED is bit 0 of the flags word |
| Log.PrintPrefix | libavutil/log.c:103-104 | a prefix is printed when the previous line is empty or ended in '\n' or '\r' |
| Log.LineBreakBefore | libavutil/log.c:123-124 | one newline is printed first exactly when prev (over one byte) ended in '\r' and the non-empty new line does not; otherwise nothing |
| Log.PrintStep | libavutil/log.c:132-139 | level, flags and is_atty are kept, a pending count is printed (two emissions) and reset to 0, and the sanitized line in its level's colour is printed last |
| Log.LevelGate | libavutil/log.c:99-100 | a message above the level prints nothing and changes nothing |
| Log.RepeatCounted | libavutil/log.c:126-131 | under SKIP_REPEATED, a line equal to prev at a line start adds 1 to the count, keeps prev and prints no text |
| Log.NewLinePrinted | libavutil/log.c:132-139 | otherwise a pending count is printed and reset, a non-empty line becomes prev, and the line is printed last, sanitized, in its level's colour |
| Log.Repeat | libavutil/log.c:90-140 | k calls of the callback in a row keep the level and the flags, and keep prev within the buffer |
| Log.RepeatsOnlyCount | libavutil/log.c:126-131 | k more copies of the last line print only repeat counters and add k to the count |
| Log.Logger.constructor | libavutil/log.c:32-33 | the level starts at AV_LOG_INFO and the flags and the callback's statics at zero |
| Log.Logger.GetLevel | libavutil/log.c:160-163 | av_log_get_level returns the stored level |
| Log.Logger.SetLevel | libavutil/log.c:160-168 | av_log_get_level returns the level set by av_log_set_level |
| Log.Logger.SetFlags | libavutil/log.c:170-173 | av_log_set_flags stores its argument as the flags |
| Log.Logger.DefaultCallback | libavutil/log.c:90-140 | the new state and what is appended to stderr are those of CallbackStep |
| Log.Logger.EmitLine | libavutil/log.c:123-139 | the new state and the output are those of LineStep |
| Log.Logger.PrintLine | libavutil/log.c:132-139 | the new state and the output are those of PrintStep |
| CmdUtils.LookupFrom | cmdutils.c:158-165 | the walk returns the first entry from i on that is named name or is the terminator |
| CmdUtils.Lookup | cmdutils.c:158-165 | find_option returns the first entry named name, or the terminator when no earlier entry has that name |
| CmdUtils.LookupFinds | cmdutils.c:158-165 | find_option finds a named entry exactly when the name occurs before the terminator, and then the first occurrence |
| CmdUtils.FindOption | cmdutils.c:158-165 | the loop returns Lookup of the table |
| CmdUtils.Resolve | cmdutils.c:250-264 | a resolved entry is a real named entry, with boolean value 0 or 1 |
| CmdUtils.ResolveKnown | cmdutils.c:250 | a name in the table resolves to its first entry, with boolean value 1 |
| CmdUtils.ResolveNoPrefix | cmdutils.c:251-257 | an unknown noX resolves exactly when X is a boolean option, with value 0; "default" is not consulted |
| CmdUtils.ResolveFallback | cmdutils.c:258-264 | any other unknown name resolves to "default" exactly when the table has it, and is unrecognized otherwise |
| CmdUtils.ResolveOption | cmdutils.c:244-264 | the find_option calls of parse_options give Resolve |
| CmdUtils.Dispatch | cmdutils.c:273-290 | every effect names the option's entry; there is none exactly when no value flag is set and the option has no function |
| CmdUtils.Governing | cmdutils.c:273-285 | a set flag of the order with no set flag before it, or none when no flag of the order is set |
| CmdUtils.GoverningPrecedence | cmdutils.c:273-285 | the flags are tested in the order string, bool, int, int64, float |
| CmdUtils.DispatchPrecedence | cmdutils.c:273-290 | the first value flag set decides the effect; with none set, the option's function is called if it has one |
| CmdUtils.OptionStep | cmdutils.c:250-292 | an option either continues past its argument with option handling on, or stops; it only adds actions, each naming a real entry |
| CmdUtils.Step | cmdutils.c:240-298 | each argv element moves the loop forward or stops it, adding only actions that name real entries |
| CmdUtils.ValidExtends | cmdutils.c:240-298 | actions added to valid actions keep them valid |
| CmdUtils.ParseFrom | cmdutils.c:239-299 | the loop from argv[i] only adds actions, and keeps them valid |
| CmdUtils.Parse | cmdutils.c:228-300 | every action parse_options takes names a real entry of the table |
| CmdUtils.ParseOptions | cmdutils.c:228-300 | the loop's outcome is Parse of the table and argv |
| CmdUtils.HandleArgument | cmdutils.c:241-298 | one pass of the loop gives Step |
| CmdUtils.HandleOption | cmdutils.c:249-292 | the option branch gives OptionStep |
| CmdUtils.AllPositional | cmdutils.c:293-297 | the run never exits with 0, only adds actions, and finishes exactly when there is no parse_arg_function or it accepts every argument |
| CmdUtils.FirstRefused | cmdutils.c:293-297 | the first argument parse_arg_function refuses |
| CmdUtils.FirstRefusedUnique | cmdutils.c:293-297 | a refused argument with nothing refused before it is the first refused one |
| CmdUtils.FirstRefusedTail | cmdutils.c:293-297 | with the first argument accepted, the first refusal in the rest is one place earlier |
| CmdUtils.CallsCons | cmdutils.c:293-297 | the calls for a prefix are the first call, then those for the rest |
| CmdUtils.AllPositionalRefusedHead | cmdutils.c:294-296 | a refused first argument stops the run with exit(1), recording nothing |
| CmdUtils.AllPositionalAllAccepted | cmdutils.c:293-297 | an accepted first argument is recorded and the rest follow |
| CmdUtils.AllPositionalLaterRefused | cmdutils.c:293-297 | the same when a later argument is refused |
| CmdUtils.AllPositionalCons | cmdutils.c:293-297 | the first argument is recorded and the rest follow if it is accepted, and it is fatal otherwise |
| CmdUtils.DoubleDash | cmdutils.c:245-248 | a literal "--" turns option handling off and records nothing |
| CmdUtils.AfterDoubleDash | cmdutils.c:243-248 | after "--" every argument, whatever it starts with, goes to parse_arg_function, until one is refused |
| CmdUtils.NonOptionWord | cmdutils.c:243 | a lone "-" or a word without a leading '-' is positional whether or not options are handled |
| CmdUtils.HasArgConsumesNext | cmdutils.c:265-272 | an option with HAS_ARG takes exactly the next element as its argument; at the end of argv it is fatal |
| CmdUtils.BooleanValues | cmdutils.c:244-278 | -X stores 1 into a boolean option X and -noX stores 0 |
| CmdUtils.OptionHandled | cmdutils.c:265-292 | an option whose argument is present and whose effect is unchecked or accepted records that effect, then exits with 0 if it has OPT_EXIT and otherwise continues after its argument |
| CmdUtils.OptionFails | cmdutils.c:265-290 | a missing argument or a refused checked effect exits with 1, recording nothing for the option |
| CmdUtils.LevelNamed | cmdutils.c:347-352 | the name lookup finds a level exactly when the name is in the table |
| CmdUtils.LevelNamedFinds | cmdutils.c:347-352 | the lookup returns the level of the first entry with the name |
| CmdUtils.FirstLettersDiffer | cmdutils.c:333-342 | the eight names start with eight different letters |
| CmdUtils.Wrap32 | cmdutils.c:354 | storing a long into an int keeps the value modulo 2^32 in the int range, and keeps a value that fits |
| CmdUtils.LoglevelArgument | cmdutils.c:347-362 | a level is set exactly for a level name, an empty argument, or a base-10 number filling the whole argument; a number in the int range sets exactly itself; every level set is an int |
| CmdUtils.LoglevelNames | cmdutils.c:333-352 | each of the eight names sets its level |
| CmdUtils.NamesAreWords | cmdutils.c:333-342 | no level name starts with a digit or '-' |
| CmdUtils.LoglevelNumber | cmdutils.c:354-362 | a number that fits an int, in decimal, sets exactly that level |
| CmdUtils.LoglevelTrailing | cmdutils.c:354-361 | a number followed by a non-digit is an invalid level |
| CmdUtils.LoglevelEmpty | cmdutils.c:354-362 | an empty argument sets level 0, because strtol leaves tail on the terminator |
| CmdUtils.OptLoglevel | cmdutils.c:331-364 | the handler fails exactly when LoglevelArgument is None, keeping the level; otherwise it sets that level |

## Left out

- `ff_raw_read_partial_packet`, the demuxer's packet reader, is not part of this model.
- `ff_id3v1_read` in `adts_aac_read_header` is file I/O. It is left out.
- `av_new_stream` allocates memory. Whether it succeeds is the parameter `streamAllocated`.
- `av_set_pts_info` is represented by the two fields it sets, 64 wrap bits and time base 1/28224000. 1/28224000 is already reduced.
- `AVPROBE_SCORE_MAX` is the parameter `scoreMax`. The header defining it is not part of this model.
- AacDemuxer.AdtsAacProbe: the model's `end` is the integer `|buf| - 7`. The C code compares addresses with `buf0 + buf_size - 7`, which lies before the buffer when it holds fewer than 7 bytes.
- `av_d2q(strtod(text), 100)` in the decimal branch of `init` is the parameter `d2q`, which maps the literal's text to a rational. Floating point is not modelled.
- `sscanf`'s `%lf` accepts decimal literals only. Hexadecimal floats, `inf` and `nan` are not modelled.
- `sscanf`'s `%d` on a value beyond the int range is undefined in C. The model keeps the exact value.
- The `av_log` messages of `init` and `opt_loglevel`'s list of valid names are output only. They are left out.
- The `AVFilter` descriptor and the filter framework that calls `init` and `setsar_config_props` are not part of this model.
- `colored_fputs` prints a line in a colour chosen by environment variables and `isatty`. The model records the colour index with the line. The escape sequences and the terminal test are not modelled.
- The `"[name @ %p] "` context prefix and `vsnprintf` formatting are inputs: `context` and `msg`. ComposeLine cuts them to the buffer size.
- The text of "Last message repeated %d times" is recorded as `Repeated(count, terminator)`.
- `isatty(2)` is the parameter `stderrIsTty`, asked only while `is_atty` is 0.
- `av_log`, `av_vlog`, the context's log-level offset, `av_log_set_callback` and the default item name are not part of this model. The callback modelled is always the default one.
- `hex_dump_internal` writes to a FILE or through `av_log`. The model returns the concatenated text.
- Log.HexDumpInternal: `i += 16` near INT_MAX would overflow a C int. The model requires `size < 2^31` and uses unbounded integers.
- `av_hex_dump` and `av_hex_dump_log` only pass a FILE or a context. They are not modelled separately.
- `prepare_app_arguments` converts Windows arguments. It is not modelled.
- `parse_number_or_die`, the options' `func_arg` and `parse_arg_function` are code outside the loop. Whether each call succeeds is the `accepts` oracle. Their values and the stores through the union are recorded as `Action`s.
- `exit(0)` and `exit(1)` are the outcomes `Exited` and `Fatal`. The messages printed before them are not modelled.
- The help printers, `opt_default`, `opt_timelimit` and the rest of cmdutils.c are not part of this model.
