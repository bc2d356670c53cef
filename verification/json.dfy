/** The record file read as JSON (RFC 8259): a decoder for the body of a
    JSON string, and a reader for the three-member object tiltgap.c writes.
    Since the program escapes nothing, the record is that object exactly
    when no field needs an escape. */
module Json {
  import opened Wrappers
  import opened Formatting

  const Quote: string := "\""

  /** What follows the quote that closes the currency, up to the address. */
  const AddressMember: string := ",\"address\":\""
  /** What follows the quote that closes the address, up to the key. */
  const KeyMember: string := ",\"plain_wif\":\""
  /** What follows the quote that closes the key. */
  const ObjectEnd: string := "}"

  /** Text that may stand between the quotes of a JSON string without any
      escape: no double quote, no backslash, no control character (the
      `unescaped` characters of section 7 of RFC 8259). */
  predicate Unescaped(s: string) {
    forall i :: 0 <= i < |s| ==> s[i] != '"' && s[i] != '\\' && s[i] >= ' '
  }

  /** The character the two-character escape `\c` stands for. The six-
      character `\uXXXX` form is refused. */
  function EscapedChar(c: char): Option<char> {
    if c == '"' then Some('"')
    else if c == '\\' then Some('\\')
    else if c == '/' then Some('/')
    else if c == 'b' then Some(8 as char)
    else if c == 'f' then Some(12 as char)
    else if c == 'n' then Some('\n')
    else if c == 'r' then Some('\r')
    else if c == 't' then Some('\t')
    else None
  }

  /** Decodes a JSON string from just after its opening quote: the value up
      to the first quote that is not escaped, and the text after that quote.
      A raw control character, a lone backslash at the end, an unknown
      escape or a missing closing quote is an error. */
  function DecodeString(s: string): Option<(string, string)>
    decreases |s|
  {
    if |s| == 0 then None
    else if s[0] == '"' then Some(([], s[1..]))
    else if s[0] == '\\' then
      if |s| >= 2 && EscapedChar(s[1]).Some? then
        match DecodeString(s[2..])
        case None => None
        case Some(d) => Some(([EscapedChar(s[1]).value] + d.0, d.1))
      else None
    else if s[0] < ' ' then None
    else
      match DecodeString(s[1..])
      case None => None
      case Some(d) => Some(([s[0]] + d.0, d.1))
  }

  /** The decoder consumes at least one raw character per value character
      plus the closing quote, and leaves a suffix of its input. When it
      consumes no more than that, no escape occurred: the value is the raw
      text and needs no escape. */
  lemma {:induction false} DecodeShape(s: string)
    requires DecodeString(s).Some?
    ensures var (v, r) := DecodeString(s).value;
            |v| + 1 + |r| <= |s| && s[|s| - |r|..] == r && s[|s| - |r| - 1] == '"' &&
            (|v| + 1 + |r| == |s| ==> s[..|v|] == v && Unescaped(v))
    decreases |s|
  {
    if s[0] == '"' {
    } else if s[0] == '\\' {
      DecodeShape(s[2..]);
    } else {
      DecodeShape(s[1..]);
      var (v, r) := DecodeString(s).value;
      var (v', r') := DecodeString(s[1..]).value;
      assert v == [s[0]] + v' && r == r';
      if |v| + 1 + |r| == |s| {
        assert s[..|v|] == [s[0]] + s[1..][..|v'|];
      }
    }
  }

  /** Every double quote before the closing one is the second character of
      a `\"` escape. */
  lemma {:induction false} DecodeQuotesEscaped(s: string, q: nat)
    requires DecodeString(s).Some?
    requires q < |s| - |DecodeString(s).value.1| - 1 && s[q] == '"'
    ensures q >= 1 && s[q - 1] == '\\'
    decreases |s|
  {
    DecodeShape(s);
    if s[0] == '\\' {
      if q >= 2 {
        DecodeQuotesEscaped(s[2..], q - 2);
      }
    } else {
      DecodeQuotesEscaped(s[1..], q - 1);
    }
  }

  /** When the character before the closing quote cannot end an escape, it
      is the last character of the value. */
  lemma {:induction false} DecodeLastChar(s: string)
    requires DecodeString(s).Some?
    requires var p := |s| - |DecodeString(s).value.1| - 1;
             p >= 1 && EscapedChar(s[p - 1]).None?
    ensures var (v, r) := DecodeString(s).value;
            |v| >= 1 && v[|v| - 1] == s[|s| - |r| - 2]
    decreases |s|
  {
    DecodeShape(s);
    if s[0] == '\\' {
      DecodeShape(s[2..]);
      if |s[2..]| - |DecodeString(s[2..]).value.1| - 1 >= 1 {
        DecodeLastChar(s[2..]);
      }
    } else {
      DecodeShape(s[1..]);
      if |s[1..]| - |DecodeString(s[1..]).value.1| - 1 >= 1 {
        DecodeLastChar(s[1..]);
      }
    }
  }

  /** A field that needs no escape decodes to itself, up to the quote
      written after it. */
  lemma {:induction false} DecodeUnescaped(f: string, t: string)
    requires Unescaped(f)
    ensures DecodeString(f + Quote + t) == Some((f, t))
    decreases |f|
  {
    var s := f + Quote + t;
    if f == [] {
      assert s[1..] == t;
    } else {
      assert s[1..] == f[1..] + Quote + t;
      DecodeUnescaped(f[1..], t);
      assert [f[0]] + f[1..] == f;
    }
  }

  /** A decoder that gives back the field `f` written before `"` and a
      member separator `,"` does not read past that first quote: reading
      past it would need `f` to end both with the backslash that escapes
      it and with the comma before the next quote. */
  lemma DecodeStopsBeforeSeparator(f: string, t: string, r: string)
    requires |t| >= 2 && t[0] == ',' && t[1] == '"'
    requires DecodeString(f + Quote + t) == Some((f, r))
    ensures |r| >= |t|
  {
    var s := f + Quote + t;
    DecodeShape(s);
    var p := |s| - |r| - 1;
    if |r| < |t| {
      assert s[|f|] == '"';
      DecodeQuotesEscaped(s, |f|);
      assert s[|f| + 1] == ',' && s[|f| + 2] == '"';
      if |f| + 2 < p {
        DecodeQuotesEscaped(s, |f| + 2);
      }
      DecodeLastChar(s);
    }
  }

  /** The converse, for the texts that follow a field in the record: if the
      decoder gives back the field written, the field needs no escape and
      the decoder stopped at the quote written after it. */
  lemma FieldDecodesExactly(f: string, t: string, r: string)
    requires (|t| >= 2 && t[0] == ',' && t[1] == '"') || t == ObjectEnd
    requires DecodeString(f + Quote + t) == Some((f, r))
    ensures Unescaped(f) && r == t
  {
    var s := f + Quote + t;
    DecodeShape(s);
    if t != ObjectEnd {
      DecodeStopsBeforeSeparator(f, t, r);
    }
    assert s[..|f|] == f;
  }

  /** Reads the record as the JSON object `{"currency":C,"address":A,"plain_wif":W}`
      with the three strings decoded. */
  function ParseJsonRecord(s: string): Option<RecordFields> {
    match StripPrefix(RecordHead, s)
    case None => None
    case Some(s1) =>
      match DecodeString(s1)
      case None => None
      case Some(d) => JsonAddress(d.0, d.1)
  }

  /** The object from the quote that closes the currency onwards. */
  function JsonAddress(c: string, r1: string): (r: Option<RecordFields>)
    ensures r.Some? ==> r.value.currency == c
  {
    match StripPrefix(AddressMember, r1)
    case None => None
    case Some(s2) =>
      match DecodeString(s2)
      case None => None
      case Some(d) => JsonKey(c, d.0, d.1)
  }

  /** The object from the quote that closes the address onwards. */
  function JsonKey(c: string, a: string, r2: string): (r: Option<RecordFields>)
    ensures r.Some? ==> r.value.currency == c && r.value.address == a
  {
    match StripPrefix(KeyMember, r2)
    case None => None
    case Some(s3) =>
      match DecodeString(s3)
      case None => None
      case Some(d) => if d.1 == ObjectEnd then Some(RecordFields(c, a, d.0)) else None
  }

  lemma JsonKeyOf(c: string, a: string, w: string)
    ensures JsonKey(c, a, KeyMember + (w + Quote + ObjectEnd)) == Some(RecordFields(c, a, w))
            <==> Unescaped(w)
  {
    StripPrefixOf(KeyMember, w + Quote + ObjectEnd);
    if Unescaped(w) {
      DecodeUnescaped(w, ObjectEnd);
    } else if JsonKey(c, a, KeyMember + (w + Quote + ObjectEnd)) == Some(RecordFields(c, a, w)) {
      var d := DecodeString(w + Quote + ObjectEnd).value;
      FieldDecodesExactly(w, ObjectEnd, d.1);
    }
  }

  lemma JsonAddressOf(c: string, a: string, t2: string, rf: RecordFields)
    requires |t2| >= 2 && t2[0] == ',' && t2[1] == '"'
    requires rf.address == a
    ensures JsonAddress(c, AddressMember + (a + Quote + t2)) == Some(rf)
            <==> Unescaped(a) && JsonKey(c, a, t2) == Some(rf)
  {
    StripPrefixOf(AddressMember, a + Quote + t2);
    if Unescaped(a) {
      DecodeUnescaped(a, t2);
    } else if JsonAddress(c, AddressMember + (a + Quote + t2)) == Some(rf) {
      var d := DecodeString(a + Quote + t2).value;
      FieldDecodesExactly(a, t2, d.1);
    }
  }

  lemma JsonRecordOf(c: string, t1: string, rf: RecordFields)
    requires |t1| >= 2 && t1[0] == ',' && t1[1] == '"'
    requires rf.currency == c
    ensures ParseJsonRecord(RecordHead + (c + Quote + t1)) == Some(rf)
            <==> Unescaped(c) && JsonAddress(c, t1) == Some(rf)
  {
    StripPrefixOf(RecordHead, c + Quote + t1);
    if Unescaped(c) {
      DecodeUnescaped(c, t1);
    } else if ParseJsonRecord(RecordHead + (c + Quote + t1)) == Some(rf) {
      var d := DecodeString(c + Quote + t1).value;
      FieldDecodesExactly(c, t1, d.1);
    }
  }

  /** The record, cut at the quote that closes each value. */
  lemma RecordSplit(c: string, a: string, w: string)
    ensures JsonRecord(c, a, w) ==
              RecordHead + (c + Quote + (AddressMember + (a + Quote + (KeyMember + (w + Quote + ObjectEnd)))))
  {
    assert AfterCurrency == Quote + AddressMember;
    assert AfterAddress == Quote + KeyMember;
    assert RecordTail == Quote + ObjectEnd;
  }

  /** The record is the JSON object of the three values written exactly
      when none of them needs an escape. tiltgap.c escapes nothing, so a
      currency with a quote, a backslash or a control character (which the
      lookup lets through after "tdoge") gives text that is not that
      object. */
  lemma JsonRecordRoundTrip(currency: string, addr: string, wif: string)
    ensures ParseJsonRecord(JsonRecord(currency, addr, wif)) == Some(RecordFields(currency, addr, wif))
            <==> Unescaped(currency) && Unescaped(addr) && Unescaped(wif)
  {
    var rf := RecordFields(currency, addr, wif);
    var t2 := KeyMember + (wif + Quote + ObjectEnd);
    var t1 := AddressMember + (addr + Quote + t2);
    RecordSplit(currency, addr, wif);
    JsonRecordOf(currency, t1, rf);
    JsonAddressOf(currency, addr, t2, rf);
    JsonKeyOf(currency, addr, wif);
  }
}
