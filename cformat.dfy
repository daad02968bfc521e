/**
 * The C library formatting the watchface relies on, for the conversions it
 * uses: `printf`-style formatting with `%d`, `%c` and `%%` followed by the
 * truncation of `snprintf` (section 7.21.6 of ISO/IEC 9899:2011), and
 * `strftime` with `%H`, `%I`, `%M` and `%%` (section 7.27.3.5 of the same
 * standard). `None` marks a format outside the model: one with a
 * conversion, flag, field width or precision the model does not know, or
 * one that needs an argument that is missing. C defines most of these
 * formats. Some are undefined, for example an invalid conversion specifier,
 * a missing argument, or a precision given with `%c`.
 */
module CFormat {
  import opened Numerals

  datatype Option<T> = None | Some(value: T)

  /** C's `uint8_t`. */
  type uint8 = x: int | 0 <= x < 256

  /** An argument passed to `printf` after the format string. A `char`
      argument is promoted to `int`, its character code. */
  datatype PrintfArg = IntArg(i: int) | CharArg(c: char)

  /** The `int` an argument is passed as, after the default argument
      promotions. */
  function Promoted(arg: PrintfArg): int {
    match arg
    case IntArg(i) => i
    case CharArg(c) => c as int
  }

  /** `%c`: the `int` argument converted to `unsigned char`. */
  function FormatChar(i: int): (c: char)
    ensures c as int < 256 && (c as int) % 256 == i % 256
  {
    (i % 256) as char
  }

  /** `%d`: an optional minus sign and the unpadded decimal numeral. */
  function FormatInt(i: int): string
  {
    if i < 0 then "-" + Decimal(-i) else Decimal(i)
  }

  function Prepend(prefix: string, rest: Option<string>): Option<string>
  {
    match rest
    case None => None
    case Some(s) => Some(prefix + s)
  }

  predicate NoConversions(fmt: string) {
    forall i :: 0 <= i < |fmt| ==> fmt[i] != '%'
  }

  /** The characters `printf` produces for `fmt` and `args`, before any
      truncation. Ordinary characters are copied, each conversion consumes
      the next argument, and arguments left over are ignored. A format
      without conversions prints itself, whatever the arguments. */
  function Printf(fmt: string, args: seq<PrintfArg>): (r: Option<string>)
    ensures NoConversions(fmt) ==> r == Some(fmt)
    decreases |fmt|
  {
    if fmt == [] then Some([])
    else if fmt[0] != '%' then
      assert fmt == [fmt[0]] + fmt[1..];
      Prepend([fmt[0]], Printf(fmt[1..], args))
    else if |fmt| == 1 then None
    else if fmt[1] == '%' then Prepend("%", Printf(fmt[2..], args))
    else if fmt[1] == 'd' then
      if args != [] then Prepend(FormatInt(Promoted(args[0])), Printf(fmt[2..], args[1..]))
      else None
    else if fmt[1] == 'c' then
      if args != [] then Prepend([FormatChar(Promoted(args[0]))], Printf(fmt[2..], args[1..]))
      else None
    else None
  }

  /** `"%d%c"` prints the integer and then the character, for a character
      that fits C's one-byte `char`. */
  lemma PrintfIntChar(i: int, c: char)
    requires c as int < 256
    ensures Printf("%d%c", [IntArg(i), CharArg(c)]) == Some(FormatInt(i) + [c])
  {
    var args := [IntArg(i), CharArg(c)];
    assert "%d%c"[2..] == "%c" && "%c"[2..] == [];
    assert args[1..] == [CharArg(c)] && args[1..][1..] == [];
    assert "%c"[0] == '%' && "%c"[1] == 'c' && |"%c"| == 2;
    assert Printf([], []) == Some([]);
    assert FormatChar(Promoted(CharArg(c))) == c;
    assert [c] + [] == [c];
    assert Printf("%c", [CharArg(c)]) == Some([c]);
  }

  /** The default argument promotions at work: `%d` prints a character's
      code, and `%c` prints an `int` as the byte it converts to. */
  lemma PrintfPromotions(c: char, i: int)
    ensures Printf("%d", [CharArg(c)]) == Some(FormatInt(c as int))
    ensures Printf("%c", [IntArg(i)]) == Some([FormatChar(i)])
  {
    assert "%d"[0] == '%' && "%d"[1] == 'd' && "%d"[2..] == [];
    assert "%c"[0] == '%' && "%c"[1] == 'c' && "%c"[2..] == [];
    assert [IntArg(i)][1..] == [] && [CharArg(c)][1..] == [];
    assert Printf([], []) == Some([]);
    assert FormatInt(c as int) + [] == FormatInt(c as int);
    assert [FormatChar(i)] + [] == [FormatChar(i)];
  }

  /** For instance, `printf("%d", 'a')` prints "97" and `printf("%c", 37)`
      prints "%". */
  lemma PrintfPromotionExamples()
    ensures Printf("%d", [CharArg('a')]) == Some("97")
    ensures Printf("%c", [IntArg(37)]) == Some("%")
  {
    PrintfPromotions('a', 37);
    assert Decimal(9) == "9" && Decimal(97) == "97";
    assert FormatChar(37) == '%';
  }

  /** What a call `snprintf(buf, n, ...)` stores in `buf` (without the
      terminating null) and what it returns. For `n == 0` nothing is stored
      and `buf` keeps what it held; `written` is then empty. */
  datatype SnprintfResult = SnprintfResult(written: string, count: int)

  /** `snprintf` into an `n`-byte buffer: at most `n - 1` characters are
      stored, the rest are discarded, and the result is the number of
      characters that would have been written had `n` been large enough. */
  function Snprintf(n: nat, formatted: string): (r: SnprintfResult)
    ensures r.count == |formatted|
    ensures r.written <= formatted
    ensures n == 0 ==> r.written == []
    ensures n > 0 ==> |r.written| == if |formatted| < n then |formatted| else n - 1
  {
    var stored := if n == 0 then 0 else if |formatted| < n then |formatted| else n - 1;
    SnprintfResult(formatted[..stored], |formatted|)
  }

  /** The output was stored whole exactly when the returned count is below
      the buffer size, the test C programs use to detect truncation. */
  lemma SnprintfComplete(n: nat, formatted: string)
    requires n > 0
    ensures Snprintf(n, formatted).written == formatted <==> Snprintf(n, formatted).count < n
  {
  }

  /** The broken-down time fields `strftime` reads for `%H`, `%I` and `%M`,
      with the seconds field, which those conversions do not read. */
  datatype Tm = Tm(hour: int, minute: int, second: int)

  /** The normal ranges of `struct tm` (a leap second allows 60). */
  predicate ValidTm(t: Tm) {
    0 <= t.hour <= 23 && 0 <= t.minute <= 59 && 0 <= t.second <= 60
  }

  /** The hour on a 12-hour clock, 01 to 12: midnight is 12, the morning
      hours are kept, noon is 12 and the afternoon hours lose 12. */
  function Hour12(hour: int): (h: int)
    requires 0 <= hour <= 23
    ensures 1 <= h <= 12 && h % 12 == hour % 12
    ensures hour == 0 ==> h == 12
    ensures 1 <= hour <= 12 ==> h == hour
    ensures 13 <= hour ==> h == hour - 12
  {
    if hour % 12 == 0 then 12 else hour % 12
  }

  /** The characters `strftime` produces for `fmt`, before the size check.
      Ordinary characters are copied unchanged, so a format without
      conversions expands to itself. */
  function StrftimeExpand(fmt: string, t: Tm): (r: Option<string>)
    requires ValidTm(t)
    ensures NoConversions(fmt) ==> r == Some(fmt)
    decreases |fmt|
  {
    if fmt == [] then Some([])
    else if fmt[0] != '%' then
      assert fmt == [fmt[0]] + fmt[1..];
      Prepend([fmt[0]], StrftimeExpand(fmt[1..], t))
    else if |fmt| == 1 then None
    else if fmt[1] == '%' then Prepend("%", StrftimeExpand(fmt[2..], t))
    else if fmt[1] == 'H' then Prepend(TwoDigits(t.hour), StrftimeExpand(fmt[2..], t))
    else if fmt[1] == 'I' then Prepend(TwoDigits(Hour12(t.hour)), StrftimeExpand(fmt[2..], t))
    else if fmt[1] == 'M' then Prepend(TwoDigits(t.minute), StrftimeExpand(fmt[2..], t))
    else None
  }

  /** `strftime(buf, maxsize, fmt, t)`: when the characters produced and the
      terminating null fit in `maxsize` bytes they are stored (and their
      number returned); otherwise `strftime` returns zero and the contents of
      the buffer are indeterminate, which the model writes `None`. */
  function Strftime(maxsize: nat, fmt: string, t: Tm): (r: Option<string>)
    requires ValidTm(t)
    ensures r.Some? <==> StrftimeExpand(fmt, t).Some? && |StrftimeExpand(fmt, t).value| + 1 <= maxsize
    ensures r.Some? ==> StrftimeExpand(fmt, t) == r
  {
    match StrftimeExpand(fmt, t)
    case Some(s) => if |s| + 1 <= maxsize then Some(s) else None
    case None => None
  }

  /** `"%X:%M"` for one hour conversion `X` in `H` or `I`: the hour field,
      a colon and the minute field. */
  lemma StrftimeHourMinute(conv: char, t: Tm)
    requires ValidTm(t) && (conv == 'H' || conv == 'I')
    ensures var hour := if conv == 'H' then t.hour else Hour12(t.hour);
            StrftimeExpand(['%', conv, ':', '%', 'M'], t)
              == Some(TwoDigits(hour) + ":" + TwoDigits(t.minute))
  {
    var fmt := ['%', conv, ':', '%', 'M'];
    assert fmt[2..] == ":%M" && ":%M"[1..] == "%M" && "%M"[2..] == [];
    assert "%M"[0] == '%' && "%M"[1] == 'M' && |"%M"| == 2;
    assert StrftimeExpand([], t) == Some([]);
    assert TwoDigits(t.minute) + [] == TwoDigits(t.minute);
    assert StrftimeExpand("%M", t) == Some(TwoDigits(t.minute));
    assert StrftimeExpand(":%M", t) == Some(":" + TwoDigits(t.minute));
    var hour := if conv == 'H' then t.hour else Hour12(t.hour);
    assert fmt[0] == '%' && fmt[1] == conv && |fmt| == 5;
    assert StrftimeExpand(fmt, t) == Prepend(TwoDigits(hour), StrftimeExpand(":%M", t));
    assert TwoDigits(hour) + (":" + TwoDigits(t.minute)) == TwoDigits(hour) + ":" + TwoDigits(t.minute);
  }
}
