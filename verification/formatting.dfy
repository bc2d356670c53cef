/** The text tiltgap.c produces: the `snprintf`-built directory, summary
    and record paths, the decimal form of the timestamp, the JSON record
    and the summary line. Each format comes with a reader that recovers
    what was written, as far as the unescaped formats allow. */
module Formatting {
  import opened Wrappers

  /** `snprintf(buf, size, ...)` keeps at most `size - 1` characters of the
      formatted text, leaving room for the terminator. */
  function Snprintf(size: nat, text: string): (r: string)
    requires size >= 1
    ensures |r| == if |text| < size then |text| else size - 1
    ensures r == text[..|r|]
  {
    if |text| < size then text else text[..size - 1]
  }

  // ----- `%li`: a signed decimal number -----

  function DigitChar(d: nat): (c: char)
    requires d < 10
    ensures '0' <= c <= '9' && (c == '0' <==> d == 0)
  {
    ('0' as int + d) as char
  }

  predicate IsDigit(c: char) { '0' <= c <= '9' }

  predicate AllDigits(s: string) { forall i :: 0 <= i < |s| ==> IsDigit(s[i]) }

  /** Decimal digits of `n`, most significant first, without leading zeros. */
  function Digits(n: nat): (s: string)
    ensures |s| > 0 && AllDigits(s)
    ensures n > 0 ==> s[0] != '0'
    decreases n
  {
    if n < 10 then [DigitChar(n)] else Digits(n / 10) + [DigitChar(n % 10)]
  }

  /** The `%li` conversion. */
  function FormatLong(x: int): (r: string)
    ensures |r| > 0 && (r[0] == '-' <==> x < 0)
    ensures x < 0 ==> |r| > 1 && AllDigits(r[1..]) && r[1] != '0'
    ensures x >= 0 ==> AllDigits(r) && (x > 0 ==> r[0] != '0')
  {
    if x < 0 then "-" + Digits(-x) else Digits(x)
  }

  /** The value of a non-empty string of digits. */
  function DigitsValue(s: string): nat
    requires |s| > 0 && AllDigits(s)
    decreases |s|
  {
    var last := (s[|s| - 1] as int - '0' as int) as nat;
    if |s| == 1 then last else DigitsValue(s[..|s| - 1]) * 10 + last
  }

  /** Reads a decimal number as `%li` writes it. */
  function ParseLong(s: string): Option<int> {
    if |s| > 1 && s[0] == '-' && AllDigits(s[1..]) then Some(0 - DigitsValue(s[1..]) as int)
    else if |s| > 0 && AllDigits(s) then Some(DigitsValue(s))
    else None
  }

  lemma {:induction false} DigitsRoundTrip(n: nat)
    ensures |Digits(n)| > 0 && AllDigits(Digits(n)) && DigitsValue(Digits(n)) == n
    decreases n
  {
    if n >= 10 {
      DigitsRoundTrip(n / 10);
      var s := Digits(n);
      assert s[..|s| - 1] == Digits(n / 10);
    }
  }

  /** `%li` output reads back as the number written. */
  lemma FormatLongRoundTrip(x: int)
    ensures ParseLong(FormatLong(x)) == Some(x)
  {
    if x < 0 {
      DigitsRoundTrip(-x);
      assert FormatLong(x)[1..] == Digits(-x);
    } else {
      DigitsRoundTrip(x);
    }
  }

  function Pow10(k: nat): nat {
    if k == 0 then 1 else 10 * Pow10(k - 1)
  }

  lemma {:induction false} DigitsLength(n: nat, k: nat)
    requires 1 <= k && n < Pow10(k)
    ensures |Digits(n)| <= k
    decreases k
  {
    if n >= 10 {
      DigitsLength(n / 10, k - 1);
    }
  }

  /** A 64-bit `time_t` prints in at most 20 characters. */
  lemma LongLength(x: int)
    requires -0x8000_0000_0000_0000 <= x < 0x8000_0000_0000_0000
    ensures |FormatLong(x)| <= 20
  {
    assert Pow10(1) == 10;
    assert Pow10(2) == 100;
    assert Pow10(3) == 1000;
    assert Pow10(4) == 10000;
    assert Pow10(5) == 100000;
    assert Pow10(6) == 1000000;
    assert Pow10(7) == 10000000;
    assert Pow10(8) == 100000000;
    assert Pow10(9) == 1000000000;
    assert Pow10(10) == 10000000000;
    assert Pow10(11) == 100000000000;
    assert Pow10(12) == 1000000000000;
    assert Pow10(13) == 10000000000000;
    assert Pow10(14) == 100000000000000;
    assert Pow10(15) == 1000000000000000;
    assert Pow10(16) == 10000000000000000;
    assert Pow10(17) == 100000000000000000;
    assert Pow10(18) == 1000000000000000000;
    assert Pow10(19) == 10000000000000000000;
    DigitsLength(if x < 0 then -x else x, 19);
  }

  // ----- the paths -----

  /** `"tiltgap-%s-%li"` before truncation. */
  function DirText(currency: string, ts: int): string {
    "tiltgap-" + currency + "-" + FormatLong(ts)
  }

  /** `out_dir`: the output directory, built with `snprintf(out_dir, 255, ...)`. */
  function DirName(currency: string, ts: int): (r: string)
    ensures |r| <= 254
    ensures |r| <= |DirText(currency, ts)| && r == DirText(currency, ts)[..|r|]
    ensures |DirText(currency, ts)| <= 254 ==> r == DirText(currency, ts)
  {
    Snprintf(255, DirText(currency, ts))
  }

  /** `out_txt`: the summary file, built with `snprintf(out_txt, 255, ...)`
      in the working directory, beside the output directory. */
  function CsvName(currency: string, ts: int): (r: string)
    ensures |r| <= 254
    ensures |r| <= |DirText(currency, ts)| + 4 && r == (DirText(currency, ts) + ".csv")[..|r|]
    ensures |DirText(currency, ts)| + 4 <= 254 ==> r == DirText(currency, ts) + ".csv"
  {
    Snprintf(255, DirText(currency, ts) + ".csv")
  }

  /** `out_json`: a record's path, built with `snprintf(out_json, 511, ...)`.
      The directory and its slash always survive the truncation. */
  function JsonPath(dir: string, currency: string, addr: string): (r: string)
    ensures |r| <= 510
    ensures |r| <= |dir + "/" + currency + "." + addr + ".json"|
    ensures r == (dir + "/" + currency + "." + addr + ".json")[..|r|]
    ensures |dir| < 510 ==> |r| > |dir| && r[..|dir| + 1] == dir + "/"
    ensures |dir + "/" + currency + "." + addr + ".json"| <= 510 ==>
              r == dir + "/" + currency + "." + addr + ".json"
  {
    var text := dir + "/" + currency + "." + addr + ".json";
    assert text[..|dir| + 1] == dir + "/";
    Snprintf(511, text)
  }

  /** A directory name as `snprintf(out_dir, 255, ...)` leaves it, and a
      currency and address of up to 249 characters together, give the whole
      record path `<dir>/<currency>.<addr>.json`. */
  lemma RecordPathNotTruncated(dir: string, currency: string, addr: string)
    requires |dir| <= 254 && |currency| + |addr| <= 249
    ensures JsonPath(dir, currency, addr) == dir + "/" + currency + "." + addr + ".json"
  {
  }

  /** Once the directory, the currency and their separators fill the 510
      characters, the address is cut off entirely: every address of the
      batch gets the same record path. */
  lemma LongPrefixSharesRecordPath(dir: string, currency: string, a1: string, a2: string)
    requires |dir + "/" + currency + "."| >= 510
    ensures JsonPath(dir, currency, a1) == JsonPath(dir, currency, a2)
  {
    var p := dir + "/" + currency + ".";
    assert (p + a1 + ".json")[..510] == p[..510];
    assert (p + a2 + ".json")[..510] == p[..510];
  }

  /** When the directory text alone reaches the 254 characters `snprintf`
      keeps, the ".csv" suffix is cut off and the summary file gets the
      directory's own name. */
  lemma SummaryNameIsDirName(currency: string, ts: int)
    requires |DirText(currency, ts)| >= 254
    ensures CsvName(currency, ts) == DirName(currency, ts)
  {
    var t := DirText(currency, ts);
    assert (t + ".csv")[..254] == t[..254];
  }

  /** For C strings of up to 221 characters and a 64-bit timestamp nothing
      is truncated: the directory is `tiltgap-<currency>-<ts>` and the
      summary is that name plus ".csv", beside it and not inside it. */
  lemma NamesNotTruncated(currency: string, ts: int)
    requires |currency| <= 221
    requires -0x8000_0000_0000_0000 <= ts < 0x8000_0000_0000_0000
    ensures DirName(currency, ts) == DirText(currency, ts)
    ensures CsvName(currency, ts) == DirName(currency, ts) + ".csv"
    ensures !(|DirName(currency, ts) + "/" | <= |CsvName(currency, ts)| &&
              CsvName(currency, ts)[..|DirName(currency, ts)| + 1] == DirName(currency, ts) + "/")
  {
    LongLength(ts);
    var d := DirName(currency, ts);
    assert CsvName(currency, ts)[|d|] == '.';
  }

  /** Runs started at different seconds get different directories, as long
      as their names are not truncated. */
  lemma DirNamesDiffer(currency: string, t1: int, t2: int)
    requires |DirText(currency, t1)| <= 254 && |DirText(currency, t2)| <= 254
    requires t1 != t2
    ensures DirName(currency, t1) != DirName(currency, t2)
  {
    var p := "tiltgap-" + currency + "-";
    if DirName(currency, t1) == DirName(currency, t2) {
      assert DirText(currency, t1)[|p|..] == FormatLong(t1);
      assert DirText(currency, t2)[|p|..] == FormatLong(t2);
      FormatLongRoundTrip(t1);
      FormatLongRoundTrip(t2);
    }
  }

  // ----- the record and the summary line -----

  const RecordHead: string := "{\"currency\":\""
  const AfterCurrency: string := "\",\"address\":\""
  const AfterAddress: string := "\",\"plain_wif\":\""
  const RecordTail: string := "\"}"

  /** The record file's content: `{"currency":"C","address":"A","plain_wif":"W"}`,
      with nothing escaped and no newline. */
  function JsonRecord(currency: string, addr: string, wif: string): string {
    RecordHead + currency + AfterCurrency + addr + AfterAddress + wif + RecordTail
  }

  /** `currency,address` and a newline. */
  function CsvLine(currency: string, addr: string): string {
    currency + "," + addr + "\n"
  }

  /** The record is 43 characters of fixed framing around the three values:
      it opens with `{"currency":"` and the currency, holds the address
      between the two inner separators, and closes with the key and `"}`. */
  lemma RecordLayout(currency: string, addr: string, wif: string)
    ensures var r := JsonRecord(currency, addr, wif);
            var a0 := |RecordHead| + |currency| + |AfterCurrency|;
            |r| == |currency| + |addr| + |wif| + 43 &&
            r[..|RecordHead| + |currency|] == RecordHead + currency &&
            r[a0..a0 + |addr|] == addr &&
            r[a0 + |addr|..a0 + |addr| + |AfterAddress|] == AfterAddress &&
            r[|r| - |wif| - |RecordTail|..] == wif + RecordTail
  {
    var r := JsonRecord(currency, addr, wif);
    var a0 := |RecordHead| + |currency| + |AfterCurrency|;
    assert r == (RecordHead + currency + AfterCurrency) + addr + (AfterAddress + wif + RecordTail);
  }

  /** The summary line is the currency, a comma, the address and a newline,
      and nothing else. */
  lemma CsvLineLayout(currency: string, addr: string)
    ensures var r := CsvLine(currency, addr);
            |r| == |currency| + |addr| + 2 && r[..|currency|] == currency && r[|currency|] == ',' &&
            r[|currency| + 1..|r| - 1] == addr && r[|r| - 1] == '\n'
  {
    var r := CsvLine(currency, addr);
    assert r[|currency| + 1..|r| - 1] == addr;
  }

  datatype RecordFields = RecordFields(currency: string, address: string, plainWif: string)

  function StripPrefix(p: string, s: string): (r: Option<string>)
    ensures r.Some? <==> |p| <= |s| && s[..|p|] == p
    ensures r.Some? ==> s == p + r.value
  {
    if |p| <= |s| && s[..|p|] == p then Some(s[|p|..]) else None
  }

  /** Index of the first occurrence of `c`, or the length when there is none. */
  function IndexOf(s: string, c: char): (r: nat)
    ensures r <= |s|
    ensures forall i :: 0 <= i < r ==> s[i] != c
    ensures r < |s| ==> s[r] == c
  {
    if |s| == 0 || s[0] == c then 0 else 1 + IndexOf(s[1..], c)
  }

  function StripSuffix(t: string, s: string): (r: Option<string>)
    ensures r.Some? <==> |t| <= |s| && s[|s| - |t|..] == t
    ensures r.Some? ==> s == r.value + t
  {
    if |t| <= |s| && s[|s| - |t|..] == t then Some(s[..|s| - |t|]) else None
  }

  /** Splits off the text before the first double quote. */
  function ReadQuoted(s: string): (r: (string, string))
    ensures r.0 + r.1 == s && '"' !in r.0
    ensures r.1 == [] || r.1[0] == '"'
  {
    var i := IndexOf(s, '"');
    (s[..i], s[i..])
  }

  lemma ReadQuotedAt(field: string, rest: string)
    requires '"' !in field && |rest| > 0 && rest[0] == '"'
    ensures ReadQuoted(field + rest) == (field, rest)
  {
    var s := field + rest;
    var i := IndexOf(s, '"');
    assert s[|field|] == '"';
    assert i == |field|;
  }

  lemma StripPrefixOf(p: string, rest: string)
    ensures StripPrefix(p, p + rest) == Some(rest)
  {
    assert (p + rest)[..|p|] == p;
  }

  lemma StripSuffixOf(w: string, t: string)
    ensures StripSuffix(t, w + t) == Some(w)
  {
    assert (w + t)[|w|..] == t;
  }

  /** Reads a record back the way a reader that only splits at double
      quotes does: the currency and the address run to the next double
      quote, the key to the closing `"}`. Unlike the JSON reader
      `Json.ParseJsonRecord`, it takes backslashes and control characters
      literally, so it recovers records whose fields hold them. */
  function ParseRecord(s: string): Option<RecordFields> {
    match StripPrefix(RecordHead, s)
    case None => None
    case Some(s1) =>
      var (c, r1) := ReadQuoted(s1);
      ParseAddress(c, r1)
  }

  /** The record from the quote that closes the currency onwards. */
  function ParseAddress(c: string, r1: string): Option<RecordFields> {
    match StripPrefix(AfterCurrency, r1)
    case None => None
    case Some(s2) =>
      var (a, r2) := ReadQuoted(s2);
      ParseKey(c, a, r2)
  }

  /** The record from the quote that closes the address onwards. */
  function ParseKey(c: string, a: string, r2: string): Option<RecordFields> {
    match StripPrefix(AfterAddress, r2)
    case None => None
    case Some(s3) =>
      match StripSuffix(RecordTail, s3)
      case None => None
      case Some(w) => Some(RecordFields(c, a, w))
  }

  lemma ParseKeyOf(c: string, a: string, wif: string)
    ensures ParseKey(c, a, AfterAddress + (wif + RecordTail)) == Some(RecordFields(c, a, wif))
  {
    StripPrefixOf(AfterAddress, wif + RecordTail);
    StripSuffixOf(wif, RecordTail);
  }

  lemma ParseAddressOf(c: string, a: string, r2: string)
    requires '"' !in a && |r2| > 0 && r2[0] == '"'
    ensures ParseAddress(c, AfterCurrency + (a + r2)) == ParseKey(c, a, r2)
  {
    StripPrefixOf(AfterCurrency, a + r2);
    ReadQuotedAt(a, r2);
  }

  lemma ParseRecordOf(c: string, r1: string)
    requires '"' !in c && |r1| > 0 && r1[0] == '"'
    ensures ParseRecord(RecordHead + (c + r1)) == ParseAddress(c, r1)
  {
    StripPrefixOf(RecordHead, c + r1);
    ReadQuotedAt(c, r1);
  }

  /** A record reads back as the three values written, provided the
      currency and the address hold no double quote (the format escapes
      nothing). This covers fields with backslashes or control characters,
      which `Json.JsonRecordRoundTrip` shows a JSON reader refuses: the
      quote is the only character that breaks the record's layout. */
  lemma RecordRoundTrip(currency: string, addr: string, wif: string)
    requires '"' !in currency && '"' !in addr
    ensures ParseRecord(JsonRecord(currency, addr, wif)) == Some(RecordFields(currency, addr, wif))
  {
    var rest2 := AfterAddress + (wif + RecordTail);
    var rest1 := AfterCurrency + (addr + rest2);
    assert JsonRecord(currency, addr, wif) == RecordHead + (currency + rest1);
    ParseKeyOf(currency, addr, wif);
    ParseAddressOf(currency, addr, rest2);
    ParseRecordOf(currency, rest1);
  }

  /** Without escaping, a currency holding a double quote (the lookup lets
      one through after "tdoge", as in `tdoge"`) gives a record that does
      not read back as written even by the quote-splitting reader, which
      is the bound that `RecordRoundTrip` states. */
  lemma QuotedCurrencyBreaksRecord(currency: string, addr: string, wif: string)
    requires '"' in currency
    ensures ParseRecord(JsonRecord(currency, addr, wif)) != Some(RecordFields(currency, addr, wif))
  {
  }

  /** The number of line ends in a text. */
  function Newlines(s: string): nat {
    if s == [] then 0 else (if s[0] == '\n' then 1 else 0) + Newlines(s[1..])
  }

  lemma {:induction false} NewlinesConcat(a: string, b: string)
    ensures Newlines(a + b) == Newlines(a) + Newlines(b)
    decreases |a|
  {
    if a == [] {
      assert a + b == b;
    } else {
      assert (a + b)[1..] == a[1..] + b;
      NewlinesConcat(a[1..], b);
    }
  }

  lemma {:induction false} NewlinesZero(s: string)
    ensures Newlines(s) == 0 <==> '\n' !in s
    decreases |s|
  {
    if s != [] {
      NewlinesZero(s[1..]);
      assert s == [s[0]] + s[1..];
    }
  }

  /** A summary line holds one line end more than its two fields. */
  lemma CsvLineNewlines(currency: string, addr: string)
    ensures Newlines(CsvLine(currency, addr)) == Newlines(currency) + Newlines(addr) + 1
  {
    NewlinesConcat(currency, ",");
    NewlinesConcat(currency + ",", addr);
    NewlinesConcat(currency + "," + addr, "\n");
    assert Newlines(",") == 0 by { assert ","[1..] == []; }
    assert Newlines("\n") == 1 by { assert "\n"[1..] == []; }
  }

  /** Reads a summary line back: the currency runs to the first comma, the
      address to the final newline. */
  function ParseCsvLine(line: string): Option<(string, string)> {
    var i := IndexOf(line, ',');
    if i < |line| && |line| >= i + 2 && line[|line| - 1] == '\n'
    then Some((line[..i], line[i + 1..|line| - 1]))
    else None
  }

  /** A summary line reads back as the pair written, provided the currency
      holds no comma. */
  lemma CsvRoundTrip(currency: string, addr: string)
    requires ',' !in currency
    ensures ParseCsvLine(CsvLine(currency, addr)) == Some((currency, addr))
  {
    var line := CsvLine(currency, addr);
    var i := IndexOf(line, ',');
    assert line[|currency|] == ',';
    assert i == |currency|;
    assert line[..i] == currency;
    assert line[i + 1..|line| - 1] == addr;
  }
}
