/**
 * libavutil's logging: the global level and flags with their getter and
 * setters, the default callback's level gate and repeated-line suppression,
 * the control-character scrub applied to every printed line, and the layout
 * of a hex dump. Bytes are C chars read as unsigned.
 */
module Log {
  import opened Wrappers

  type byte = b: int | 0 <= b < 256

  const AV_LOG_QUIET: int := -8
  const AV_LOG_PANIC: int := 0
  const AV_LOG_FATAL: int := 8
  const AV_LOG_ERROR: int := 16
  const AV_LOG_WARNING: int := 24
  const AV_LOG_INFO: int := 32
  const AV_LOG_VERBOSE: int := 40
  const AV_LOG_DEBUG: int := 48

  /** The flag bit that turns on repeated-line suppression. */
  const AV_LOG_SKIP_REPEATED: int := 1

  const NUL: byte := 0
  const LF: byte := 0x0A
  const CR: byte := 0x0D
  const QUESTION_MARK: byte := 0x3F

  /** char line[1024]: a formatted line holds at most 1023 bytes before its terminator. */
  const LINE_MAX: nat := 1023

  predicate NoNul(s: seq<byte>) {
    forall k | 0 <= k < |s| :: s[k] != NUL
  }

  // ---------------------------------------------------------------- sanitize

  /** The control bytes sanitize replaces: below 0x08, or 0x0E to 0x1F. Backspace to carriage return are kept. */
  predicate IsScrubbed(b: byte) {
    b < 0x08 || (0x0D < b < 0x20)
  }

  function Scrub(b: byte): (r: byte)
    ensures !IsScrubbed(r)
    ensures r == b <==> !IsScrubbed(b)
    ensures IsScrubbed(b) ==> r == QUESTION_MARK
  {
    if IsScrubbed(b) then QUESTION_MARK else b
  }

  /** The index of the first NUL, or the length when there is none. */
  function NulIndex(s: seq<byte>): (n: nat)
    ensures n <= |s|
    ensures forall k | 0 <= k < n :: s[k] != NUL
    ensures n < |s| ==> s[n] == NUL
    ensures n == |s| ==> NoNul(s)
  {
    if s == [] || s[0] == NUL then 0 else 1 + NulIndex(s[1..])
  }

  /** What sanitize leaves in a buffer: each byte before the first NUL scrubbed, the rest as it was. */
  function Sanitized(s: seq<byte>): (r: seq<byte>)
    ensures |r| == |s|
    ensures NulIndex(r) == NulIndex(s)
  {
    if s == [] || s[0] == NUL then s else [Scrub(s[0])] + Sanitized(s[1..])
  }

  /**
   * sanitize keeps the length and the position of the terminator, replaces
   * exactly the scrubbed control bytes before it, and touches nothing after it.
   */
  lemma {:induction false} SanitizedAt(s: seq<byte>)
    ensures |Sanitized(s)| == |s|
    ensures NulIndex(Sanitized(s)) == NulIndex(s)
    ensures forall k | 0 <= k < |s| ::
      Sanitized(s)[k] == if k < NulIndex(s) then Scrub(s[k]) else s[k]
  {
    if s != [] && s[0] != NUL {
      SanitizedAt(s[1..]);
      var r := Sanitized(s);
      assert r[1..] == Sanitized(s[1..]);
      forall k | 0 < k < |s|
        ensures r[k] == if k < NulIndex(s) then Scrub(s[k]) else s[k]
      {
        assert r[k] == Sanitized(s[1..])[k - 1];
      }
    }
  }

  /** After sanitize, no scrubbed byte is left before the terminator. */
  lemma SanitizedClean(s: seq<byte>)
    ensures forall k | 0 <= k < NulIndex(Sanitized(s)) :: !IsScrubbed(Sanitized(s)[k])
  {
    SanitizedAt(s);
  }

  /** sanitize is idempotent: '?' is not a byte it replaces. */
  lemma {:induction false} SanitizedIdempotent(s: seq<byte>)
    ensures Sanitized(Sanitized(s)) == Sanitized(s)
  {
    if s != [] && s[0] != NUL {
      var r := Sanitized(s);
      assert r[0] == Scrub(s[0]) && r[0] != NUL;
      assert r[1..] == Sanitized(s[1..]);
      SanitizedIdempotent(s[1..]);
    }
  }

  /** Scrubbing a NUL-free text followed by more text scrubs each part. */
  lemma {:induction false} SanitizedAppend(s: seq<byte>, t: seq<byte>)
    requires NoNul(s)
    ensures Sanitized(s + t) == Sanitized(s) + Sanitized(t)
  {
    if s != [] {
      assert (s + t)[0] == s[0] && (s + t)[1..] == s[1..] + t;
      SanitizedAppend(s[1..], t);
    } else {
      assert s + t == t;
    }
  }

  /** A buffer holding a NUL has its first NUL inside it. */
  lemma NulIndexFound(s: seq<byte>)
    requires exists k | 0 <= k < |s| :: s[k] == NUL
    ensures NulIndex(s) < |s|
  {
  }

  /** sanitize(line): replaces, in place, the control bytes before the terminating NUL. */
  method Sanitize(line: array<byte>)
    requires exists k | 0 <= k < line.Length :: line[k] == NUL
    modifies line
    ensures line[..] == Sanitized(old(line[..]))
  {
    ghost var s := line[..];
    NulIndexFound(s);
    var i := 0;
    while line[i] != NUL
      invariant 0 <= i <= NulIndex(s) < line.Length
      invariant forall k | 0 <= k < i :: line[k] == Scrub(s[k])
      invariant forall k | i <= k < line.Length :: line[k] == s[k]
      decreases line.Length - i
    {
      if line[i] < 0x08 || (line[i] > 0x0D && line[i] < 0x20) {
        line[i] := QUESTION_MARK;
      }
      i := i + 1;
    }
    assert i == NulIndex(s);
    SanitizedAt(s);
    assert forall k | 0 <= k < line.Length :: line[k] == Sanitized(s)[k];
  }

  /** The NUL-terminated copy of a line, scrubbed by sanitize: what the default callback prints. */
  method SanitizedCopy(line: seq<byte>) returns (t: seq<byte>)
    requires NoNul(line)
    ensures t == Sanitized(line)
  {
    var buffer := new byte[|line| + 1](k => if 0 <= k < |line| then line[k] else NUL);
    assert buffer[..] == line + [NUL];
    assert buffer[|line|] == NUL;
    Sanitize(buffer);
    SanitizedAppend(line, [NUL]);
    assert buffer[..|line|] == Sanitized(line);
    t := buffer[..|line|];
  }

  // ---------------------------------------------------------------- hex dump

  predicate IsHexDigit(c: char) {
    '0' <= c <= '9' || 'a' <= c <= 'f'
  }

  /** The lowercase hexadecimal digit for d. */
  function HexDigit(d: nat): (c: char)
    requires d < 16
    ensures IsHexDigit(c)
  {
    if d < 10 then ('0' as int + d) as char else ('a' as int + d - 10) as char
  }

  function HexDigitValue(c: char): (d: nat)
    requires IsHexDigit(c)
    ensures d < 16
  {
    if c <= '9' then c as int - '0' as int else c as int - 'a' as int + 10
  }

  /** The lowest `width` hexadecimal digits of v, most significant first: %0*x for a value that fits. */
  function HexDigits(v: nat, width: nat): (t: string)
    ensures |t| == width
    ensures forall k | 0 <= k < width :: IsHexDigit(t[k])
  {
    if width == 0 then [] else HexDigits(v / 16, width - 1) + [HexDigit(v % 16)]
  }

  /** The value of a string of lowercase hexadecimal digits. */
  function HexValue(t: string): nat
    requires forall k | 0 <= k < |t| :: IsHexDigit(t[k])
  {
    if t == [] then 0 else HexValue(t[..|t| - 1]) * 16 + HexDigitValue(t[|t| - 1])
  }

  function Pow16(n: nat): nat {
    if n == 0 then 1 else 16 * Pow16(n - 1)
  }

  /** %08x and %02x print a value that fits in full: the digits read back as the value. */
  lemma {:induction false} HexDigitsValue(v: nat, width: nat)
    requires v < Pow16(width)
    ensures HexValue(HexDigits(v, width)) == v
  {
    if width > 0 {
      var t := HexDigits(v, width);
      assert t[..|t| - 1] == HexDigits(v / 16, width - 1);
      assert v / 16 < Pow16(width - 1);
      HexDigitsValue(v / 16, width - 1);
      assert HexDigitValue(t[|t| - 1]) == v % 16;
    }
  }

  /** Column j of a row: " %02x" for a byte of the row, three spaces past its end. */
  function Cell(chunk: seq<byte>, j: nat): string {
    if j < |chunk| then " " + HexDigits(chunk[j], 2) else "   "
  }

  /** Columns 0 to j - 1. */
  function Cells(chunk: seq<byte>, j: nat): (t: string)
    ensures |t| == 3 * j
  {
    if j == 0 then [] else Cells(chunk, j - 1) + Cell(chunk, j - 1)
  }

  /** How a byte appears in the text column: itself when printable ASCII, '.' otherwise. */
  function Shown(b: byte): (c: char)
    ensures ' ' <= c <= '~'
    ensures 0x20 <= b <= 0x7E ==> c as int == b as int
    ensures !(0x20 <= b <= 0x7E) ==> c == '.'
  {
    if b < 0x20 || b > 0x7E then '.' else b as char
  }

  /** The text column for the first j bytes. */
  function ShownText(chunk: seq<byte>, j: nat): (t: string)
    requires j <= |chunk|
    ensures |t| == j
    ensures forall k | 0 <= k < j :: t[k] == Shown(chunk[k])
  {
    if j == 0 then [] else ShownText(chunk, j - 1) + [Shown(chunk[j - 1])]
  }

  /** One row of a hex dump: the offset, sixteen columns, a space, the text column and a newline. */
  function HexDumpRow(offset: nat, chunk: seq<byte>): (r: string)
    requires |chunk| <= 16
    ensures |r| == 59 + |chunk|
  {
    HexDigits(offset, 8) + " " + Cells(chunk, 16) + " " + ShownText(chunk, |chunk|) + "\n"
  }

  function Min(a: int, b: int): int {
    if a < b then a else b
  }

  /** The rows of the dump from byte i on, sixteen bytes a row. */
  function HexDumpFrom(data: seq<byte>, i: nat): (r: string)
    ensures r == [] <==> i >= |data|
    decreases |data| - i
  {
    if i >= |data| then [] else HexDumpRow(i, data[i..Min(i + 16, |data|)]) + HexDumpFrom(data, i + 16)
  }

  /** How many rows a dump of n bytes has: n / 16 rounded up. */
  function RowCount(n: nat): nat {
    (n + 15) / 16
  }

  /** Row k exists exactly when byte 16k does. */
  lemma RowExists(n: nat, k: nat)
    ensures (k < RowCount(n)) == (16 * k < n)
  {
  }

  /** Row k of the dump of data. */
  function RowAt(data: seq<byte>, k: nat): string
    requires k < RowCount(|data|)
  {
    RowExists(|data|, k);
    HexDumpRow(16 * k, data[16 * k..Min(16 * k + 16, |data|)])
  }

  /** The rows of a dump as a list. */
  function Rows(data: seq<byte>): seq<string> {
    seq(RowCount(|data|), k requires 0 <= k < RowCount(|data|) => RowAt(data, k))
  }

  function Concat(rows: seq<string>): string {
    if rows == [] then [] else rows[0] + Concat(rows[1..])
  }

  /**
   * A dump is its rows in order: ceil(n / 16) of them, row k showing the bytes
   * from offset 16k, the last one possibly short.
   */
  lemma {:induction false} HexDumpIsRows(data: seq<byte>, k: nat)
    requires k <= RowCount(|data|)
    ensures HexDumpFrom(data, 16 * k) == Concat(Rows(data)[k..])
    decreases RowCount(|data|) - k
  {
    if k < RowCount(|data|) {
      HexDumpIsRows(data, k + 1);
      DumpHead(data, k);
      RowsHead(data, k);
      var rest := Rows(data)[k + 1..];
      assert ([RowAt(data, k)] + rest)[1..] == rest;
    } else {
      RowExists(|data|, k);
      assert Rows(data)[k..] == [];
    }
  }

  /** The dump from byte 16k is row k followed by the dump from byte 16(k + 1). */
  lemma DumpHead(data: seq<byte>, k: nat)
    requires k < RowCount(|data|)
    ensures HexDumpFrom(data, 16 * k) == RowAt(data, k) + HexDumpFrom(data, 16 * (k + 1))
  {
    RowExists(|data|, k);
  }

  /** The rows from k on are row k followed by the rows from k + 1 on. */
  lemma RowsHead(data: seq<byte>, k: nat)
    requires k < RowCount(|data|)
    ensures Rows(data)[k..] == [RowAt(data, k)] + Rows(data)[k + 1..]
  {
  }

  /** A dump of n bytes is 59 characters per row plus one per byte. */
  lemma {:induction false} HexDumpLength(data: seq<byte>, i: nat)
    requires i <= |data|
    ensures |HexDumpFrom(data, i)| == 59 * RowCount(|data| - i) + (|data| - i)
    decreases |data| - i
  {
    if i < |data| {
      var chunk := data[i..Min(i + 16, |data|)];
      if i + 16 <= |data| {
        HexDumpLength(data, i + 16);
        assert RowCount(|data| - i) == 1 + RowCount(|data| - (i + 16));
      } else {
        assert RowCount(|data| - i) == 1;
      }
    }
  }

  /** One row of hex_dump_internal: the PRINTs for the len bytes at offset i. */
  method HexDumpLine(buf: array<byte>, i: nat, len: nat) returns (row: string)
    requires i + len <= buf.Length && len <= 16
    ensures row == HexDumpRow(i, buf[i..i + len])
  {
    var hex := HexColumns(buf, i, len);
    var text := TextColumn(buf, i, len);
    row := HexDigits(i, 8) + " " + hex + " " + text + "\n";
  }

  /** The sixteen hex columns of a row: " %02x" for each of the len bytes at i, blanks after them. */
  method HexColumns(buf: array<byte>, i: nat, len: nat) returns (row: string)
    requires i + len <= buf.Length && len <= 16
    ensures row == Cells(buf[i..i + len], 16)
  {
    ghost var chunk := buf[i..i + len];
    row := [];
    var j := 0;
    while j < 16
      invariant 0 <= j <= 16
      invariant row == Cells(chunk, j)
    {
      var cell := if j < len then " " + HexDigits(buf[i + j], 2) else "   ";
      assert cell == Cell(chunk, j);
      row := row + cell;
      j := j + 1;
    }
  }

  /** The text column of a row: each of the len bytes at i, non-printable ones as '.'. */
  method TextColumn(buf: array<byte>, i: nat, len: nat) returns (row: string)
    requires i + len <= buf.Length
    ensures row == ShownText(buf[i..i + len], len)
  {
    ghost var chunk := buf[i..i + len];
    row := [];
    var j := 0;
    while j < len
      invariant 0 <= j <= len
      invariant row == ShownText(chunk, j)
    {
      var c := buf[i + j];
      if c < 0x20 || c > 0x7E {
        c := 0x2E;  // '.'
      }
      assert c as char == Shown(chunk[j]);
      row := row + [c as char];
      j := j + 1;
    }
  }

  /** The invariant of hex_dump_internal's loop survives printing one more row. */
  lemma DumpStep(data: seq<byte>, i: nat, out: string, row: string)
    requires i < |data| && row == HexDumpRow(i, data[i..Min(i + 16, |data|)])
    ensures out + HexDumpFrom(data, i) == HexDumpFrom(data, 0) ==>
      (out + row) + HexDumpFrom(data, i + 16) == HexDumpFrom(data, 0)
  {
    assert HexDumpFrom(data, i) == row + HexDumpFrom(data, i + 16);
    assert (out + row) + HexDumpFrom(data, i + 16) == out + (row + HexDumpFrom(data, i + 16));
  }

  /**
   * hex_dump_internal: what it prints for the first `size` bytes of buf,
   * whether to a FILE or through av_log. `size` is a C int.
   */
  method HexDumpInternal(buf: array<byte>, size: int) returns (out: string)
    requires size <= buf.Length && size < 0x8000_0000
    ensures size <= 0 ==> out == []
    ensures size > 0 ==> out == HexDumpFrom(buf[..size], 0)
  {
    out := [];
    if size <= 0 {
      return;
    }
    ghost var data := buf[..size];
    var i := 0;
    while i < size
      invariant 0 <= i
      invariant out + HexDumpFrom(data, i) == HexDumpFrom(data, 0)
      decreases size - i
    {
      var len := size - i;
      if len > 16 {
        len := 16;
      }
      var row := HexDumpLine(buf, i, len);
      assert data[i..Min(i + 16, size)] == buf[i..i + len];
      DumpStep(data, i, out, row);
      out := out + row;
      i := i + 16;
    }
  }

  // ---------------------------------------------------------------- levels and the default callback

  /** The flags word has AV_LOG_SKIP_REPEATED set (bit 0 of the two's-complement int). */
  predicate SkipRepeated(flags: int) {
    flags % 2 == 1
  }

  /** print_prefix: the previous line was empty or ended a line. */
  predicate PrintPrefix(prev: seq<byte>) {
    |prev| == 0 || prev[|prev| - 1] == LF || prev[|prev| - 1] == CR
  }

  /** av_clip(level >> 3, 0, 6): the colour a line is printed in. >> on a negative int rounds down, as / does here. */
  function ColorIndex(level: int): (c: int)
    ensures 0 <= c <= 6
    ensures 0 <= level < 56 ==> c == level / 8
    ensures level < 0 ==> c == 0
    ensures level >= 48 ==> c == 6
  {
    var v := level / 8;
    if v < 0 then 0 else if v > 6 then 6 else v
  }

  /** What stderr receives from the default callback. */
  datatype Emission =
    | LineBreak                            // "\n" ending a line that closed with '\r'
    | Repeated(count: int, final: byte)    // "    Last message repeated %d times" and '\r' or '\n'
    | Text(color: int, line: seq<byte>)    // colored_fputs(color, line)

  /** The state the logger keeps across calls: the globals av_log_level and flags, and the callback's statics. */
  datatype LogState = LogState(level: int, flags: int, count: int, prev: seq<byte>, isAtty: int)

  /** The line the callback formats: the context prefix when a line starts, then the message, cut to fit the buffer. */
  function ComposeLine(printPrefix: bool, context: Option<seq<byte>>, msg: seq<byte>): (line: seq<byte>)
    ensures |line| <= LINE_MAX
    ensures NoNul(msg) && (context.Some? ==> NoNul(context.value)) ==> NoNul(line)
  {
    var full := (if printPrefix && context.Some? then context.value else []) + msg;
    if |full| <= LINE_MAX then full else full[..LINE_MAX]
  }

  datatype CallResult = CallResult(state: LogState, emitted: seq<Emission>)

  /**
   * The newline printed first when the previous line ended in '\r' (a repeat
   * counter left on screen) and the new line does not.
   */
  function LineBreakBefore(prev: seq<byte>, line: seq<byte>): (r: seq<Emission>)
    ensures r == [] || r == [LineBreak]
    ensures r != [] <==> |prev| > 1 && prev[|prev| - 1] == CR && |line| > 0 && line[|line| - 1] != CR
  {
    if |line| > 0 && line[|line| - 1] != CR && |prev| > 1 && prev[|prev| - 1] == CR then [LineBreak] else []
  }

  /**
   * The end of the callback for a line that is not suppressed: a pending
   * repeat count is printed and reset, a non-empty line becomes prev, and the
   * line is printed scrubbed in its level's colour.
   */
  function PrintStep(s: LogState, level: int, line: seq<byte>): (r: CallResult)
    ensures r.state.level == s.level && r.state.flags == s.flags && r.state.isAtty == s.isAtty
    ensures s.count >= 0 ==> r.state.count == 0
    ensures |r.emitted| > 0 && r.emitted[|r.emitted| - 1] == Text(ColorIndex(level), Sanitized(line))
    ensures s.count > 0 <==> |r.emitted| == 2
  {
    var flush := if s.count > 0 then [Repeated(s.count, LF)] else [];
    CallResult(s.(count := if s.count > 0 then 0 else s.count, prev := if |line| > 0 then line else s.prev),
               flush + [Text(ColorIndex(level), Sanitized(line))])
  }

  /**
   * One call of av_log_default_callback at `level`. `context` is the
   * "[name @ address] " prefix the caller's context would print (None for a NULL
   * context), `msg` the formatted message, and `stderrIsTty` what isatty(2)
   * answers the first time it is asked.
   */
  function CallbackStep(s: LogState, level: int, context: Option<seq<byte>>, msg: seq<byte>, stderrIsTty: bool): (r: CallResult)
    ensures r.state.level == s.level && r.state.flags == s.flags
    ensures |s.prev| <= LINE_MAX ==> |r.state.prev| <= LINE_MAX
    ensures s.count >= 0 ==> r.state.count >= 0
    ensures r.state.count != s.count ==> level <= s.level
  {
    if level > s.level then CallResult(s, [])
    else
      var printPrefix := PrintPrefix(s.prev);
      var isAtty := if s.isAtty == 0 then (if stderrIsTty then 1 else -1) else s.isAtty;
      LineStep(s.(isAtty := isAtty), level, printPrefix, ComposeLine(printPrefix, context, msg))
  }

  /**
   * The callback once the line is formatted and is_atty is known: a line
   * break if one is owed, then either the repeat is counted or the line printed.
   */
  function LineStep(s: LogState, level: int, printPrefix: bool, line: seq<byte>): (r: CallResult)
    ensures r.state.level == s.level && r.state.flags == s.flags && r.state.isAtty == s.isAtty
    ensures |s.prev| <= LINE_MAX && |line| <= LINE_MAX ==> |r.state.prev| <= LINE_MAX
    ensures s.count >= 0 ==> r.state.count >= 0
  {
    var lineBreak := LineBreakBefore(s.prev, line);
    if printPrefix && SkipRepeated(s.flags) && line == s.prev then
      CallResult(s.(count := s.count + 1), lineBreak + if s.isAtty == 1 then [Repeated(s.count + 1, CR)] else [])
    else
      var p := PrintStep(s, level, line);
      CallResult(p.state, lineBreak + p.emitted)
  }

  /** A message above the current level is dropped: nothing printed, nothing remembered. */
  lemma LevelGate(s: LogState, level: int, context: Option<seq<byte>>, msg: seq<byte>, tty: bool)
    requires level > s.level
    ensures CallbackStep(s, level, context, msg, tty) == CallResult(s, [])
  {
  }

  /**
   * With SKIP_REPEATED, a line equal to the previous one at the start of a line
   * is counted and not printed; prev stays.
   */
  lemma RepeatCounted(s: LogState, level: int, context: Option<seq<byte>>, msg: seq<byte>, tty: bool)
    requires level <= s.level && PrintPrefix(s.prev) && SkipRepeated(s.flags)
    requires ComposeLine(true, context, msg) == s.prev
    ensures var r := CallbackStep(s, level, context, msg, tty);
      r.state.count == s.count + 1 && r.state.prev == s.prev
      && forall e | e in r.emitted :: !e.Text?
  {
  }

  /**
   * Otherwise a pending repeat count is flushed and reset, a non-empty line
   * becomes prev, and the line is printed scrubbed, last, in its level's colour.
   */
  lemma NewLinePrinted(s: LogState, level: int, context: Option<seq<byte>>, msg: seq<byte>, tty: bool)
    requires level <= s.level
    requires !(PrintPrefix(s.prev) && SkipRepeated(s.flags) && ComposeLine(true, context, msg) == s.prev)
    ensures var line := ComposeLine(PrintPrefix(s.prev), context, msg);
      var r := CallbackStep(s, level, context, msg, tty);
      && (s.count > 0 ==> r.state.count == 0 && Repeated(s.count, LF) in r.emitted)
      && (s.count <= 0 ==> r.state.count == s.count && forall e | e in r.emitted :: !e.Repeated?)
      && r.state.prev == (if |line| > 0 then line else s.prev)
      && |r.emitted| > 0 && r.emitted[|r.emitted| - 1] == Text(ColorIndex(level), Sanitized(line))
  {
  }

  /** The same call made k times in a row. */
  function Repeat(s: LogState, level: int, context: Option<seq<byte>>, msg: seq<byte>, tty: bool, k: nat): (r: CallResult)
    ensures r.state.level == s.level && r.state.flags == s.flags
    ensures |s.prev| <= LINE_MAX ==> |r.state.prev| <= LINE_MAX
    decreases k
  {
    if k == 0 then CallResult(s, [])
    else
      var first := CallbackStep(s, level, context, msg, tty);
      var rest := Repeat(first.state, level, context, msg, tty, k - 1);
      CallResult(rest.state, first.emitted + rest.emitted)
  }

  /**
   * Once a complete line has been printed, k more copies of it under
   * SKIP_REPEATED print nothing but repeat counters and add k to the count.
   */
  lemma {:induction false} RepeatsOnlyCount(s: LogState, level: int, context: Option<seq<byte>>, msg: seq<byte>, tty: bool, k: nat)
    requires level <= s.level && PrintPrefix(s.prev) && SkipRepeated(s.flags)
    requires ComposeLine(true, context, msg) == s.prev
    ensures var r := Repeat(s, level, context, msg, tty, k);
      r.state.count == s.count + k && r.state.prev == s.prev
      && forall e | e in r.emitted :: e.Repeated?
    decreases k
  {
    if k > 0 {
      var first := CallbackStep(s, level, context, msg, tty);
      RepeatCounted(s, level, context, msg, tty);
      RepeatsOnlyCount(first.state, level, context, msg, tty, k - 1);
    }
  }

  /** The process-wide logging state: av_log_level, flags, and av_log_default_callback's statics. */
  class Logger {
    var level: int
    var flags: int
    var count: int
    var prev: seq<byte>
    var isAtty: int
    /** Everything the default callback has written to stderr. */
    var output: seq<Emission>

    /** The statics as the program starts: level AV_LOG_INFO, everything else zero. */
    constructor ()
      ensures State() == LogState(AV_LOG_INFO, 0, 0, [], 0) && output == []
    {
      level, flags, count, prev, isAtty := AV_LOG_INFO, 0, 0, [], 0;
      output := [];
    }

    function State(): LogState
      reads this
    {
      LogState(level, flags, count, prev, isAtty)
    }

    /** av_log_get_level */
    function GetLevel(): int
      reads this
    {
      level
    }

    /** av_log_set_level: a later av_log_get_level returns the level set. */
    method SetLevel(l: int)
      modifies this`level
      ensures GetLevel() == l
    {
      level := l;
    }

    /** av_log_set_flags: stores the word as given. */
    method SetFlags(arg: int)
      modifies this`flags
      ensures flags == arg
    {
      flags := arg;
    }

    /** av_log_default_callback. */
    method DefaultCallback(lvl: int, context: Option<seq<byte>>, msg: seq<byte>, stderrIsTty: bool)
      requires NoNul(msg) && (context.Some? ==> NoNul(context.value))
      modifies this
      ensures var r := CallbackStep(old(State()), lvl, context, msg, stderrIsTty);
        State() == r.state && output == old(output) + r.emitted
    {
      if lvl > level {
        return;
      }
      var printPrefix := PrintPrefix(prev);
      var line := ComposeLine(printPrefix, context, msg);
      if isAtty == 0 {
        isAtty := if stderrIsTty then 1 else -1;
      }
      EmitLine(lvl, printPrefix, line);
    }

    /** The rest of av_log_default_callback, from the owed line break on. */
    method EmitLine(lvl: int, printPrefix: bool, line: seq<byte>)
      requires NoNul(line)
      modifies this`count, this`prev, this`output
      ensures var r := LineStep(old(State()), lvl, printPrefix, line);
        State() == r.state && output == old(output) + r.emitted
    {
      ghost var out0 := output;
      var lineBreak := LineBreakBefore(prev, line);
      output := output + lineBreak;
      if printPrefix && SkipRepeated(flags) && line == prev {
        count := count + 1;
        ghost var counter: seq<Emission> := [];
        if isAtty == 1 {
          output := output + [Repeated(count, CR)];
          counter := [Repeated(count, CR)];
        }
        assert output == out0 + (lineBreak + counter);
        return;
      }
      PrintLine(lvl, line);
    }

    /** The end of av_log_default_callback for a line that is not a suppressed repeat. */
    method PrintLine(lvl: int, line: seq<byte>)
      requires NoNul(line)
      modifies this`count, this`prev, this`output
      ensures var p := PrintStep(old(State()), lvl, line);
        State() == p.state && output == old(output) + p.emitted
    {
      ghost var out0 := output;
      ghost var flush: seq<Emission> := [];
      if count > 0 {
        output := output + [Repeated(count, LF)];
        flush := [Repeated(count, LF)];
        count := 0;
      }
      if |line| > 0 {
        prev := line;
      }
      var scrubbed := SanitizedCopy(line);
      output := output + [Text(ColorIndex(lvl), scrubbed)];
      assert output == out0 + (flush + [Text(ColorIndex(lvl), Sanitized(line))]);
    }
  }
}
