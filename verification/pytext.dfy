/** The Python text renderings that appear in the runner's output chunks:
    `str(list_of_str)` (the `RUNNING: ...` chunk) and `str(Optional[int])`
    (the `EXITED (...)` chunk). Each rendering comes with a reader that
    recovers the value from the text, and a lemma that the two round-trip,
    so the chunks carry the command and the exit code unambiguously. */
module PyText {
  import opened Wrappers

  // ---------------------------------------------------------------------
  // Hexadecimal and decimal digits
  // ---------------------------------------------------------------------

  /** Lower-case hexadecimal digit, as `repr` writes it in `\xNN`. */
  function HexDigit(n: nat): (c: char)
    requires n < 16
  {
    if n < 10 then ('0' as int + n) as char else ('a' as int + n - 10) as char
  }

  predicate IsHexDigit(c: char) {
    '0' <= c <= '9' || 'a' <= c <= 'f' || 'A' <= c <= 'F'
  }

  function HexValue(c: char): (n: nat)
    requires IsHexDigit(c)
    ensures n < 16
  {
    if '0' <= c <= '9' then c as int - '0' as int
    else if 'a' <= c <= 'f' then c as int - 'a' as int + 10
    else c as int - 'A' as int + 10
  }

  /** Reading a written hex digit gives back its value. */
  lemma HexDigitRoundTrip(n: nat)
    requires n < 16
    ensures IsHexDigit(HexDigit(n)) && HexValue(HexDigit(n)) == n
  {
  }

  function DigitChar(d: nat): char
    requires d < 10
  {
    ('0' as int + d) as char
  }

  predicate IsDigit(c: char) {
    '0' <= c <= '9'
  }

  predicate AllDigits(s: string) {
    forall i :: 0 <= i < |s| ==> IsDigit(s[i])
  }

  // ---------------------------------------------------------------------
  // str(int) and str(Optional[int])
  // ---------------------------------------------------------------------

  /** Decimal digits of a natural number, most significant first, no
      leading zeros. */
  function NatStr(n: nat): (s: string)
    ensures |s| > 0 && AllDigits(s)
    decreases n
  {
    if n < 10 then [DigitChar(n)] else NatStr(n / 10) + [DigitChar(n % 10)]
  }

  /** Python's `str(n)` for an `int`: a minus sign for negatives. */
  function IntStr(n: int): string {
    if n < 0 then "-" + NatStr(-n) else NatStr(n)
  }

  /** Python's `str(x)` for `Optional[int]`: `None` prints as "None". */
  function OptIntStr(o: Option<int>): string {
    match o
    case None => "None"
    case Some(n) => IntStr(n)
  }

  /** The value of a string of decimal digits. */
  function DigitsValue(s: string): nat
    requires AllDigits(s)
    decreases |s|
  {
    if |s| == 0 then 0
    else DigitsValue(s[..|s| - 1]) * 10 + (s[|s| - 1] as int - '0' as int)
  }

  /** Reads a decimal integer with an optional leading minus sign. */
  function ParseInt(s: string): Option<int> {
    if |s| > 1 && s[0] == '-' && AllDigits(s[1..]) then
      var magnitude: int := DigitsValue(s[1..]);
      Some(-magnitude)
    else if |s| > 0 && AllDigits(s) then Some(DigitsValue(s))
    else None
  }

  /** Reads back what `OptIntStr` writes. */
  function ParseOptInt(s: string): Option<Option<int>> {
    if s == "None" then Some(None)
    else match ParseInt(s)
      case None => None
      case Some(n) => Some(Some(n))
  }

  lemma {:induction false} NatStrRoundTrip(n: nat)
    ensures DigitsValue(NatStr(n)) == n
    decreases n
  {
    if n >= 10 {
      var s := NatStr(n);
      assert s[..|s| - 1] == NatStr(n / 10);
      NatStrRoundTrip(n / 10);
    }
  }

  /** `str(n)` is read back as `n`: the rendering of an exit code is
      unambiguous. */
  lemma IntStrRoundTrip(n: int)
    ensures ParseInt(IntStr(n)) == Some(n)
  {
    if n < 0 {
      var s := IntStr(n);
      assert s[1..] == NatStr(-n);
      NatStrRoundTrip(-n);
    } else {
      NatStrRoundTrip(n);
    }
  }

  /** `str(Optional[int])` is read back as the same optional value; in
      particular "None" is never the rendering of a number. */
  lemma OptIntStrRoundTrip(o: Option<int>)
    ensures ParseOptInt(OptIntStr(o)) == Some(o)
  {
    match o
    case None =>
    case Some(n) =>
      IntStrRoundTrip(n);
      assert OptIntStr(o)[0] != 'N';
  }

  // ---------------------------------------------------------------------
  // repr(str)
  // ---------------------------------------------------------------------

  predicate IsQuote(q: char) {
    q == '\'' || q == '"'
  }

  /** The quote `repr` picks: double quotes when the text holds a single
      quote and no double quote, single quotes otherwise. */
  function QuoteFor(s: string): (q: char)
    ensures IsQuote(q)
  {
    if '\'' in s && '"' !in s then '"' else '\''
  }

  /** How `repr` writes one character inside quotes `q`: the quote itself
      and the backslash get a backslash, tab/newline/return their letter
      escapes, the other ASCII control characters and DEL a `\xNN` escape;
      everything else is written as is. */
  function EscapeChar(c: char, q: char): string {
    if c == q || c == '\\' then ['\\', c]
    else if c == '\t' then "\\t"
    else if c == '\n' then "\\n"
    else if c == '\r' then "\\r"
    else if c as int < 0x20 || c as int == 0x7f then
      ['\\', 'x', HexDigit(c as int / 16), HexDigit(c as int % 16)]
    else [c]
  }

  function EscapeBody(s: string, q: char): string
    decreases |s|
  {
    if |s| == 0 then [] else EscapeChar(s[0], q) + EscapeBody(s[1..], q)
  }

  /** Python's `repr(s)` for a `str`. */
  function StrRepr(s: string): string {
    var q := QuoteFor(s);
    [q] + EscapeBody(s, q) + [q]
  }

  /** Decodes the escapes `EscapeChar` produces. */
  function Unescape(s: string): string
    decreases |s|
  {
    if |s| == 0 then []
    else if s[0] == '\\' && |s| >= 2 then
      if s[1] == 't' then ['\t'] + Unescape(s[2..])
      else if s[1] == 'n' then ['\n'] + Unescape(s[2..])
      else if s[1] == 'r' then ['\r'] + Unescape(s[2..])
      else if s[1] == 'x' && |s| >= 4 && IsHexDigit(s[2]) && IsHexDigit(s[3]) then
        [(HexValue(s[2]) * 16 + HexValue(s[3])) as char] + Unescape(s[4..])
      else [s[1]] + Unescape(s[2..])
    else [s[0]] + Unescape(s[1..])
  }

  lemma UnescapeEscapeChar(c: char, q: char, rest: string)
    requires IsQuote(q)
    ensures Unescape(EscapeChar(c, q) + rest) == [c] + Unescape(rest)
  {
    var e := EscapeChar(c, q);
    var s := e + rest;
    if |e| == 2 {
      assert s[2..] == rest;
    } else if |e| == 4 {
      assert s[4..] == rest;
      HexDigitRoundTrip(c as int / 16);
      HexDigitRoundTrip(c as int % 16);
    } else {
      assert s[1..] == rest;
    }
  }

  lemma {:induction false} UnescapeEscapeBody(s: string, q: char)
    requires IsQuote(q)
    ensures Unescape(EscapeBody(s, q)) == s
    decreases |s|
  {
    if |s| > 0 {
      UnescapeEscapeChar(s[0], q, EscapeBody(s[1..], q));
      UnescapeEscapeBody(s[1..], q);
    }
  }

  /** Finds the end of a quoted body: skips backslash pairs and stops at
      the first bare `q`, giving the raw body and the text after the
      closing quote. */
  function ScanBody(s: string, q: char): (r: Option<(string, string)>)
    ensures r.Some? ==> |r.value.1| < |s|
    decreases |s|
  {
    if |s| == 0 then None
    else if s[0] == '\\' && |s| >= 2 then
      match ScanBody(s[2..], q)
      case None => None
      case Some(p) => Some((s[..2] + p.0, p.1))
    else if s[0] == q then Some(([], s[1..]))
    else
      match ScanBody(s[1..], q)
      case None => None
      case Some(p) => Some(([s[0]] + p.0, p.1))
  }

  /** Reads one `repr` of a string off the front of `s`. */
  function ReadRepr(s: string): (r: Option<(string, string)>)
    ensures r.Some? ==> |r.value.1| < |s|
  {
    if |s| > 0 && IsQuote(s[0]) then
      match ScanBody(s[1..], s[0])
      case None => None
      case Some(p) => Some((Unescape(p.0), p.1))
    else None
  }

  /** A character other than the backslash and the quote is part of the body. */
  lemma ScanOrdinary(c: char, q: char, tail: string)
    requires c != q && c != '\\'
    requires ScanBody(tail, q).Some?
    ensures ScanBody([c] + tail, q)
      == Some(([c] + ScanBody(tail, q).value.0, ScanBody(tail, q).value.1))
  {
    assert ([c] + tail)[1..] == tail;
  }

  /** A backslash and the character after it are part of the body, even
      when that character is the quote. */
  lemma ScanPair(c: char, q: char, tail: string)
    requires ScanBody(tail, q).Some?
    ensures ScanBody(['\\', c] + tail, q)
      == Some((['\\', c] + ScanBody(tail, q).value.0, ScanBody(tail, q).value.1))
  {
    var s := ['\\', c] + tail;
    assert s[2..] == tail;
    assert s[..2] == ['\\', c];
  }

  lemma ScanEscapeChar(c: char, q: char, tail: string)
    requires IsQuote(q)
    requires ScanBody(tail, q).Some?
    ensures ScanBody(EscapeChar(c, q) + tail, q)
      == Some((EscapeChar(c, q) + ScanBody(tail, q).value.0, ScanBody(tail, q).value.1))
  {
    var e := EscapeChar(c, q);
    if c == q || c == '\\' {
      ScanPair(c, q, tail);
    } else if c == '\t' {
      ScanPair('t', q, tail);
    } else if c == '\n' {
      ScanPair('n', q, tail);
    } else if c == '\r' {
      ScanPair('r', q, tail);
    } else if c as int < 0x20 || c as int == 0x7f {
      var d1 := HexDigit(c as int / 16);
      var d2 := HexDigit(c as int % 16);
      assert e == ['\\', 'x', d1, d2];
      ScanHex(d1, d2, q, tail);
    } else {
      ScanOrdinary(c, q, tail);
    }
  }

  /** A `\xNN` escape is part of the body. */
  lemma ScanHex(d1: char, d2: char, q: char, tail: string)
    requires IsHexDigit(d1) && IsHexDigit(d2) && IsQuote(q)
    requires ScanBody(tail, q).Some?
    ensures ScanBody(['\\', 'x', d1, d2] + tail, q)
      == Some((['\\', 'x', d1, d2] + ScanBody(tail, q).value.0, ScanBody(tail, q).value.1))
  {
    var p := ScanBody(tail, q).value;
    ScanHexDigits(d1, d2, q, tail);
    ScanPair('x', q, [d1, d2] + tail);
    assert ['\\', 'x'] + ([d1, d2] + tail) == ['\\', 'x', d1, d2] + tail;
    assert ['\\', 'x'] + ([d1, d2] + p.0) == ['\\', 'x', d1, d2] + p.0;
  }

  lemma ScanHexDigits(d1: char, d2: char, q: char, tail: string)
    requires IsHexDigit(d1) && IsHexDigit(d2) && IsQuote(q)
    requires ScanBody(tail, q).Some?
    ensures ScanBody([d1, d2] + tail, q)
      == Some(([d1, d2] + ScanBody(tail, q).value.0, ScanBody(tail, q).value.1))
  {
    var p := ScanBody(tail, q).value;
    ScanOrdinary(d2, q, tail);
    ScanOrdinary(d1, q, [d2] + tail);
    assert [d1] + ([d2] + tail) == [d1, d2] + tail;
    assert [d1] + ([d2] + p.0) == [d1, d2] + p.0;
  }

  lemma {:induction false} ScanEscapeBody(s: string, q: char, rest: string)
    requires IsQuote(q)
    ensures ScanBody(EscapeBody(s, q) + [q] + rest, q) == Some((EscapeBody(s, q), rest))
    decreases |s|
  {
    if |s| == 0 {
      assert EscapeBody(s, q) + [q] + rest == [q] + rest;
    } else {
      var e := EscapeChar(s[0], q);
      var b := EscapeBody(s[1..], q);
      var tail := b + [q] + rest;
      ScanEscapeBody(s[1..], q, rest);
      ScanEscapeChar(s[0], q, tail);
      assert EscapeBody(s, q) == e + b;
      assert EscapeBody(s, q) + [q] + rest == e + tail;
    }
  }

  /** Reading a `repr` back gives the original string and leaves whatever
      followed it untouched: `repr` is unambiguous even inside a list. */
  lemma ReadStrRepr(x: string, rest: string)
    ensures ReadRepr(StrRepr(x) + rest) == Some((x, rest))
  {
    var q := QuoteFor(x);
    var s := StrRepr(x) + rest;
    assert s[0] == q;
    assert s[1..] == EscapeBody(x, q) + [q] + rest;
    ScanEscapeBody(x, q, rest);
    UnescapeEscapeBody(x, q);
  }

  /** Characters `repr` writes unchanged whichever quote it picks. */
  predicate IsPlain(c: char) {
    0x20 <= c as int < 0x7f && c != '\'' && c != '"' && c != '\\'
  }

  /** A string of plain characters is written between single quotes as is,
      e.g. `repr("bash") == "'bash'"`. */
  lemma {:induction false} PlainStrRepr(s: string)
    requires forall i :: 0 <= i < |s| ==> IsPlain(s[i])
    ensures StrRepr(s) == "'" + s + "'"
  {
    PlainEscapeBody(s);
  }

  lemma {:induction false} PlainEscapeBody(s: string)
    requires forall i :: 0 <= i < |s| ==> IsPlain(s[i])
    ensures EscapeBody(s, '\'') == s
    decreases |s|
  {
    if |s| > 0 {
      PlainEscapeBody(s[1..]);
    }
  }

  // ---------------------------------------------------------------------
  // str(list of str)
  // ---------------------------------------------------------------------

  function JoinReprs(xs: seq<string>): string
    decreases |xs|
  {
    if |xs| == 0 then ""
    else if |xs| == 1 then StrRepr(xs[0])
    else StrRepr(xs[0]) + ", " + JoinReprs(xs[1..])
  }

  /** Python's `str(xs)` for a list of `str`: the element reprs, comma
      separated, in brackets. */
  function ListRepr(xs: seq<string>): string {
    "[" + JoinReprs(xs) + "]"
  }

  function ParseItems(s: string): Option<seq<string>>
    decreases |s|
  {
    match ReadRepr(s)
    case None => None
    case Some(p) =>
      if p.1 == "]" then Some([p.0])
      else if |p.1| >= 2 && p.1[..2] == ", " then
        match ParseItems(p.1[2..])
        case None => None
        case Some(more) => Some([p.0] + more)
      else None
  }

  /** Reads back what `ListRepr` writes. */
  function ParseList(s: string): Option<seq<string>> {
    if |s| >= 2 && s[0] == '[' then
      if s[1..] == "]" then Some([]) else ParseItems(s[1..])
    else None
  }

  /** One step of reading a list body: an element's repr, then a comma. */
  lemma ParseItemsCons(x: string, tail: string)
    requires ParseItems(tail).Some?
    ensures ParseItems(StrRepr(x) + ", " + tail) == Some([x] + ParseItems(tail).value)
  {
    var rest := ", " + tail;
    assert StrRepr(x) + ", " + tail == StrRepr(x) + rest;
    ReadStrRepr(x, rest);
    assert rest[..2] == ", ";
    assert rest[2..] == tail;
    assert rest != "]";
  }

  lemma {:induction false} ParseJoinReprs(xs: seq<string>)
    requires |xs| > 0
    ensures ParseItems(JoinReprs(xs) + "]") == Some(xs)
    decreases |xs|
  {
    if |xs| == 1 {
      assert JoinReprs(xs) + "]" == StrRepr(xs[0]) + "]";
      ReadStrRepr(xs[0], "]");
      assert [xs[0]] == xs;
    } else {
      var tail := JoinReprs(xs[1..]) + "]";
      ParseJoinReprs(xs[1..]);
      ParseItemsCons(xs[0], tail);
      assert JoinReprs(xs) + "]" == StrRepr(xs[0]) + ", " + tail;
      assert [xs[0]] + xs[1..] == xs;
    }
  }

  /** `str(xs)` is read back as `xs`: the rendering of a command line
      determines every argument and their order. */
  lemma ListReprRoundTrip(xs: seq<string>)
    ensures ParseList(ListRepr(xs)) == Some(xs)
  {
    var s := ListRepr(xs);
    if |xs| == 0 {
      assert s == "[]";
    } else {
      assert s[1..] == JoinReprs(xs) + "]";
      ParseJoinReprs(xs);
      assert StrRepr(xs[0])[0] != ']';
      assert s[1..][0] != ']';
    }
  }
}
