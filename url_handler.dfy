/** The URL check and the snapshot timestamp of handlers/url_handler.py, and
    the guard that opens the summarise and backup commands. Fetching,
    summarising, uploading and the chat replies are left out. Which
    characters the regular expression's `\w` accepts is a parameter. */
module UrlHandler {
  import opened Common
  import RedisCommands

  /** The length of the `https?:/{2}` prefix of `url`, or 0 without one. */
  function SchemeLength(url: string): (n: nat)
    ensures n == 0 || n == 7 || n == 8
    ensures n <= |url|
    ensures n == 8 <==> StartsWith(url, "https://")
    ensures n == 7 <==> StartsWith(url, "http://")
  {
    if StartsWith(url, "https://") then
      assert url[..8][4] == url[..7][4] == 's';
      8
    else if StartsWith(url, "http://") then 7
    else 0
  }

  /** `.+$`: at least one character other than a newline up to the end of
      the string, or up to a single final newline (which `$` also accepts). */
  predicate LineTail(t: string)
  {
    || (t != [] && '\n' !in t)
    || (|t| >= 2 && t[|t| - 1] == '\n' && '\n' !in t[..|t| - 1])
  }

  /** `is_url`: `re.match(r'^https?:/{2}\w.+$', url)` succeeds. */
  function IsUrl(url: string, isWord: char -> bool): (b: bool)
    ensures b ==> StartsWith(url, "http://") || StartsWith(url, "https://")
    ensures b ==> |url| >= 9
  {
    var n := SchemeLength(url);
    n != 0 && n < |url| && isWord(url[n]) && LineTail(url[n + 1..])
  }

  /** Behind either scheme, a URL is accepted exactly when a word character
      is followed by at least one more character of a single line. */
  lemma IsUrlExactly(scheme: string, first: char, rest: string, isWord: char -> bool)
    requires scheme == "http://" || scheme == "https://"
    ensures IsUrl(scheme + [first] + rest, isWord) <==> isWord(first) && LineTail(rest)
  {
    var url := scheme + [first] + rest;
    assert url[..|scheme|] == scheme;
    if scheme == "http://" {
      assert url[4] == ':' && "https://"[4] == 's';
    }
    assert SchemeLength(url) == |scheme|;
    assert url[|scheme|] == first && url[|scheme| + 1..] == rest;
  }

  /** "http://a" is refused: a word character alone is not enough. */
  lemma OneCharacterHostRefused(first: char, isWord: char -> bool)
    ensures !IsUrl("http://" + [first], isWord)
  {
    IsUrlExactly("http://", first, [], isWord);
  }

  /** A newline inside the URL is refused, a single final one is not. */
  lemma NewlinesInUrl(first: char, line: string, isWord: char -> bool)
    requires isWord(first) && line != [] && '\n' !in line
    ensures IsUrl("https://" + [first] + line, isWord)
    ensures IsUrl("https://" + [first] + (line + "\n"), isWord)
    ensures !IsUrl("https://" + [first] + (line + "\n" + line), isWord)
  {
    IsUrlExactly("https://", first, line, isWord);
    IsUrlExactly("https://", first, line + "\n", isWord);
    IsUrlExactly("https://", first, line + "\n" + line, isWord);
    FinalNewline(line);
    InnerNewline(line);
  }

  lemma FinalNewline(line: string)
    requires line != [] && '\n' !in line
    ensures LineTail(line + "\n")
  {
    assert (line + "\n")[..|line|] == line;
  }

  lemma InnerNewline(line: string)
    requires line != [] && '\n' !in line
    ensures !LineTail(line + "\n" + line)
  {
    var t := line + "\n" + line;
    assert t[|line|] == '\n';
    assert t[|t| - 1] == line[|line| - 1];
  }

  /** What the summarise and backup commands do with their arguments before
      any fetch: go on with the URL, or answer that it is not one. */
  datatype UrlCommand = Proceed(url: string) | InvalidUrl

  /** The opening of `summarize_url_text` and `save_url`: the first argument
      is the URL (none at all raises IndexError), and anything `is_url`
      refuses gets the error reply. */
  function UrlGuard(args: seq<string>, isWord: char -> bool): (r: Result<UrlCommand>)
    ensures args == [] <==> r == Err(IndexError)
    ensures r.Ok? && r.value.Proceed? ==> args != [] && r.value.url == args[0] && IsUrl(args[0], isWord)
    ensures r == Ok(InvalidUrl) <==> args != [] && !IsUrl(args[0], isWord)
  {
    if args == [] then Err(IndexError)
    else if IsUrl(args[0], isWord) then Ok(Proceed(args[0]))
    else Ok(InvalidUrl)
  }

  function Pow10(k: nat): (p: nat)
    ensures p >= 1
  {
    if k == 0 then 1 else 10 * Pow10(k - 1)
  }

  /** `n` written with exactly `width` digits: zero-padded on the left, and
      reduced modulo 10^width when it is longer. */
  function Pad(n: nat, width: nat): (s: string)
    ensures |s| == width
    ensures RedisCommands.AllDigits(s)
    ensures n < Pow10(width) ==> RedisCommands.DigitsValue(s) == n
    decreases width
  {
    if width == 0 then []
    else
      var s := Pad(n / 10, width - 1) + [RedisCommands.Digit(n % 10)];
      assert s[..|s| - 1] == Pad(n / 10, width - 1);
      s
  }

  lemma PadDropsLastDigit(n: nat, width: nat)
    ensures Pad(n, width + 1)[..width] == Pad(n / 10, width)
  {
  }

  /** `%f` cut to its first three digits is the millisecond count. */
  lemma MillisecondDigits(microsecond: nat)
    ensures Pad(microsecond, 6)[..3] == Pad(microsecond / 1000, 3)
  {
    PadDropsLastDigit(microsecond, 5);
    PadDropsLastDigit(microsecond / 10, 4);
    PadDropsLastDigit(microsecond / 100, 3);
    DivideByTen(microsecond);
    PrefixOfPrefix(Pad(microsecond, 6), 5, 4);
    PrefixOfPrefix(Pad(microsecond, 6), 4, 3);
  }

  lemma DivideByTen(n: nat)
    ensures n / 10 / 10 == n / 100 && n / 100 / 10 == n / 1000
  {
  }

  lemma PrefixOfPrefix(s: string, k: nat, l: nat)
    requires l <= k <= |s|
    ensures s[..k][..l] == s[..l]
  {
  }

  /** A moment of `datetime.now()`, with the ranges of its fields. */
  predicate IsMoment(year: nat, month: nat, day: nat, hour: nat, minute: nat, second: nat, microsecond: nat)
  {
    && 1000 <= year <= 9999 && 1 <= month <= 12 && 1 <= day <= 31
    && hour < 24 && minute < 60 && second < 60 && microsecond < 1000000
  }

  lemma DigitsAppend(a: string, b: string)
    requires RedisCommands.AllDigits(a) && RedisCommands.AllDigits(b)
    ensures RedisCommands.AllDigits(a + b)
  {
    assert forall i :: |a| <= i < |a + b| ==> (a + b)[i] == b[i - |a|];
  }

  /** `strftime("%Y%m%d%H%M%S%f")`: each field zero-padded to its width. */
  function StrfTime(year: nat, month: nat, day: nat, hour: nat, minute: nat, second: nat, microsecond: nat)
    : (s: string)
    ensures |s| == 20
    ensures RedisCommands.AllDigits(s)
  {
    var date := Pad(year, 4) + Pad(month, 2) + Pad(day, 2);
    DigitsAppend(Pad(year, 4), Pad(month, 2));
    DigitsAppend(Pad(year, 4) + Pad(month, 2), Pad(day, 2));
    var time := Pad(hour, 2) + Pad(minute, 2) + Pad(second, 2);
    DigitsAppend(Pad(hour, 2), Pad(minute, 2));
    DigitsAppend(Pad(hour, 2) + Pad(minute, 2), Pad(second, 2));
    DigitsAppend(date, time);
    DigitsAppend(date + time, Pad(microsecond, 6));
    date + time + Pad(microsecond, 6)
  }

  /** `transfer_now_time`: the `strftime` text without its last three
      characters. */
  function TransferNowTime(year: nat, month: nat, day: nat, hour: nat, minute: nat, second: nat, microsecond: nat)
    : (s: string)
    requires IsMoment(year, month, day, hour, minute, second, microsecond)
    ensures |s| == 17
    ensures RedisCommands.AllDigits(s)
  {
    var full := StrfTime(year, month, day, hour, minute, second, microsecond);
    DigitsPrefix(full, |full| - 3);
    full[..|full| - 3]
  }

  lemma DigitsPrefix(s: string, k: nat)
    requires RedisCommands.AllDigits(s) && k <= |s|
    ensures RedisCommands.AllDigits(s[..k])
  {
  }

  lemma DigitsSlice(s: string, i: nat, j: nat)
    requires RedisCommands.AllDigits(s) && i <= j <= |s|
    ensures RedisCommands.AllDigits(s[i..j])
  {
  }

  /** The fields of a 17-digit timestamp. */
  function ReadTimestamp(s: string): (fields: (nat, nat, nat, nat, nat, nat, nat))
    requires |s| == 17 && RedisCommands.AllDigits(s)
  {
    DigitsSlice(s, 0, 4); DigitsSlice(s, 4, 6); DigitsSlice(s, 6, 8); DigitsSlice(s, 8, 10);
    DigitsSlice(s, 10, 12); DigitsSlice(s, 12, 14); DigitsSlice(s, 14, 17);
    (RedisCommands.DigitsValue(s[0..4]), RedisCommands.DigitsValue(s[4..6]), RedisCommands.DigitsValue(s[6..8]),
     RedisCommands.DigitsValue(s[8..10]), RedisCommands.DigitsValue(s[10..12]), RedisCommands.DigitsValue(s[12..14]),
     RedisCommands.DigitsValue(s[14..17]))
  }

  /** Where each field sits in the `strftime` text. */
  lemma StrfTimeFields(year: nat, month: nat, day: nat, hour: nat, minute: nat, second: nat, microsecond: nat)
    ensures var full := StrfTime(year, month, day, hour, minute, second, microsecond);
      && full[0..4] == Pad(year, 4) && full[4..6] == Pad(month, 2) && full[6..8] == Pad(day, 2)
      && full[8..10] == Pad(hour, 2) && full[10..12] == Pad(minute, 2) && full[12..14] == Pad(second, 2)
      && full[14..20] == Pad(microsecond, 6)
  {
    FieldsAt(Pad(year, 4), Pad(month, 2), Pad(day, 2), Pad(hour, 2), Pad(minute, 2), Pad(second, 2),
             Pad(microsecond, 6));
  }

  lemma FieldsAt(y: string, mo: string, d: string, h: string, mi: string, s: string, f: string)
    requires |y| == 4 && |mo| == 2 && |d| == 2 && |h| == 2 && |mi| == 2 && |s| == 2 && |f| == 6
    ensures var full := (y + mo + d) + (h + mi + s) + f;
      && full[0..4] == y && full[4..6] == mo && full[6..8] == d
      && full[8..10] == h && full[10..12] == mi && full[12..14] == s && full[14..20] == f
  {
    var date := y + mo + d;
    var time := h + mi + s;
    var full := date + time + f;
    assert full[0..8] == date && full[8..14] == time;
    assert full[0..4] == date[0..4] == y;
    assert full[4..6] == date[4..6] == mo;
    assert full[6..8] == date[6..8] == d;
    assert full[8..10] == time[0..2] == h;
    assert full[10..12] == time[2..4] == mi;
    assert full[12..14] == time[4..6] == s;
  }

  lemma ReadTimestampOf(s: string, a: nat, b: nat, c: nat, d: nat, e: nat, f: nat, g: nat)
    requires |s| == 17 && RedisCommands.AllDigits(s)
    requires RedisCommands.DigitsValue(s[0..4]) == a && RedisCommands.DigitsValue(s[4..6]) == b
    requires RedisCommands.DigitsValue(s[6..8]) == c && RedisCommands.DigitsValue(s[8..10]) == d
    requires RedisCommands.DigitsValue(s[10..12]) == e && RedisCommands.DigitsValue(s[12..14]) == f
    requires RedisCommands.DigitsValue(s[14..17]) == g
    ensures ReadTimestamp(s) == (a, b, c, d, e, f, g)
  {
  }

  lemma PrefixOfSlice(s: string, i: nat, j: nat, k: nat)
    requires i + k <= j <= |s|
    ensures s[i..j][..k] == s[i..i + k]
  {
  }

  /** A field of the `strftime` text, read from the cut timestamp. */
  lemma FieldReadsBack(s: string, full: string, i: nat, j: nat, width: nat, v: nat)
    requires i + width == j <= 17 <= |full| && s == full[..17]
    requires full[i..j] == Pad(v, width) && v < Pow10(width)
    ensures s[i..j] == Pad(v, width) && RedisCommands.DigitsValue(s[i..j]) == v
  {
    assert |s[i..j]| == |full[i..j]|;
    assert forall t :: 0 <= t < j - i ==> s[i..j][t] == full[i + t] == full[i..j][t];
  }

  /** The timestamp reads back as the moment it was made from, with the
      microseconds truncated (not rounded) to milliseconds. */
  lemma TransferNowTimeReadsBack(year: nat, month: nat, day: nat, hour: nat, minute: nat, second: nat,
                                 microsecond: nat)
    requires IsMoment(year, month, day, hour, minute, second, microsecond)
    ensures ReadTimestamp(TransferNowTime(year, month, day, hour, minute, second, microsecond))
         == (year, month, day, hour, minute, second, microsecond / 1000)
  {
    var s := TransferNowTime(year, month, day, hour, minute, second, microsecond);
    var full := StrfTime(year, month, day, hour, minute, second, microsecond);
    StrfTimeFields(year, month, day, hour, minute, second, microsecond);
    assert Pow10(2) == 100 && Pow10(3) == 1000 && Pow10(4) == 10000;
    FieldReadsBack(s, full, 0, 4, 4, year);
    FieldReadsBack(s, full, 4, 6, 2, month);
    FieldReadsBack(s, full, 6, 8, 2, day);
    FieldReadsBack(s, full, 8, 10, 2, hour);
    FieldReadsBack(s, full, 10, 12, 2, minute);
    FieldReadsBack(s, full, 12, 14, 2, second);
    MillisecondDigits(microsecond);
    PrefixOfSlice(full, 14, 20, 3);
    FieldReadsBack(s, full, 14, 17, 3, microsecond / 1000);
    ReadTimestampOf(s, year, month, day, hour, minute, second, microsecond / 1000);
  }
}
