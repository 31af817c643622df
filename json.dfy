/** Python's `json.dumps` on a list of strings with the default settings
    (`ensure_ascii=True`, item separator ", "), and a decoder for exactly that
    output, so that the encoding is shown to lose nothing. */
module Json {
  import opened Wrappers

  /** Lower-case hexadecimal digit of `d`. */
  function HexDigit(d: nat): (ch: char)
    requires d < 16
    ensures '0' <= ch <= '9' || 'a' <= ch <= 'f'
  {
    if d < 10 then ('0' as int + d) as char else ('a' as int + d - 10) as char
  }

  /** The two lower-case hex digits of a byte. */
  function Hex2(b: nat): (h: string)
    requires b < 0x100
    ensures |h| == 2
  {
    [HexDigit(b / 0x10), HexDigit(b % 0x10)]
  }

  /** The four lower-case hex digits of a UTF-16 code unit (`'%04x'`). */
  function Hex4(u: nat): (h: string)
    requires u < 0x10000
    ensures |h| == 4
  {
    Hex2(u / 0x100) + Hex2(u % 0x100)
  }

  /** `\uXXXX` for one UTF-16 code unit. */
  function UnitEscape(u: nat): (e: string)
    requires u < 0x10000
    ensures |e| == 6
  {
    ['\\', 'u'] + Hex4(u)
  }

  /** How the encoder writes one character: the two-character escapes for the quote,
      the backslash and five control characters, printable ASCII as itself, and
      everything else as `\uXXXX`, a surrogate pair above U+FFFF. */
  function EscapeChar(c: char): (e: string)
    ensures |e| > 0 && e[0] != '"'
  {
    var n := c as int;
    if ShortCode(c).Some? then ['\\', ShortCode(c).value]
    else if 0x20 <= n <= 0x7E then [c]
    else if n < 0x10000 then UnitEscape(n)
    else
      var v := n - 0x10000;
      UnitEscape(0xD800 + v / 0x400) + UnitEscape(0xDC00 + v % 0x400)
  }

  /** The letter of the two-character escape for `c`, if it has one. */
  function ShortCode(c: char): (x: Option<char>)
    ensures x.Some? ==> 0x20 <= x.value as int <= 0x7E
  {
    var n := c as int;
    if c == '"' then Some('"')
    else if c == '\\' then Some('\\')
    else if n == 10 then Some('n')
    else if n == 13 then Some('r')
    else if n == 9 then Some('t')
    else if n == 8 then Some('b')
    else if n == 12 then Some('f')
    else None
  }

  function Escape(s: string): string
    decreases |s|
  {
    if s == [] then [] else EscapeChar(s[0]) + Escape(s[1..])
  }

  function Quote(s: string): string {
    ['"'] + Escape(s) + ['"']
  }

  function Items(xs: seq<string>): string
    decreases |xs|
  {
    if xs == [] then []
    else if |xs| == 1 then Quote(xs[0])
    else Quote(xs[0]) + [',', ' '] + Items(xs[1..])
  }

  /** `json.dumps(xs)` for a list of strings. */
  function Dumps(xs: seq<string>): (out: string)
    ensures |out| >= 2 && out[0] == '[' && out[|out| - 1] == ']'
    ensures xs == [] <==> out == "[]"
  {
    ['['] + Items(xs) + [']']
  }

  /** Every character the encoder emits is printable ASCII, so the UTF-8
      encoding of the text has one byte per character. */
  predicate Printable(s: string) {
    forall k :: 0 <= k < |s| ==> 0x20 <= s[k] as int <= 0x7E
  }

  lemma EscapeCharPrintable(c: char)
    ensures Printable(EscapeChar(c))
  {
  }

  lemma {:induction false} EscapePrintable(s: string)
    ensures Printable(Escape(s))
    decreases |s|
  {
    if s != [] {
      EscapeCharPrintable(s[0]);
      EscapePrintable(s[1..]);
    }
  }

  lemma {:induction false} ItemsPrintable(xs: seq<string>)
    ensures Printable(Items(xs))
    decreases |xs|
  {
    if xs != [] {
      EscapePrintable(xs[0]);
      if |xs| > 1 {
        ItemsPrintable(xs[1..]);
      }
    }
  }

  lemma DumpsPrintable(xs: seq<string>)
    ensures Printable(Dumps(xs))
  {
    ItemsPrintable(xs);
  }

  // ---- decoding, the inverse used to show the encoding is injective ----

  function HexValue(ch: char): Option<nat> {
    if '0' <= ch <= '9' then Some(ch as int - '0' as int)
    else if 'a' <= ch <= 'f' then Some(ch as int - 'a' as int + 10)
    else None
  }

  function ParseHex2(h: string): (r: Option<nat>)
    requires |h| == 2
    ensures r.Some? ==> r.value < 0x100
  {
    match (HexValue(h[0]), HexValue(h[1]))
    case (Some(a), Some(b)) => if a < 16 && b < 16 then Some(a * 0x10 + b) else None
    case _ => None
  }

  function ParseHex4(h: string): (r: Option<nat>)
    requires |h| == 4
    ensures r.Some? ==> r.value < 0x10000
  {
    match (ParseHex2(h[..2]), ParseHex2(h[2..]))
    case (Some(a), Some(b)) => Some(a * 0x100 + b)
    case _ => None
  }

  /** The character a two-character escape `\x` stands for. */
  function ShortEscape(x: char): Option<char> {
    if x == '"' then Some('"')
    else if x == '\\' then Some('\\')
    else if x == 'n' then Some('\n')
    else if x == 'r' then Some('\r')
    else if x == 't' then Some('\t')
    else if x == 'b' then Some(8 as char)
    else if x == 'f' then Some(12 as char)
    else None
  }

  /** The character a surrogate pair stands for. */
  function Combine(hi: nat, lo: nat): char
    requires 0xD800 <= hi <= 0xDBFF && 0xDC00 <= lo <= 0xDFFF
  {
    (0x10000 + (hi - 0xD800) * 0x400 + (lo - 0xDC00)) as char
  }

  /** Reads a `\uXXXX` escape (a surrogate pair taking two) off the front of `s`. */
  function DecodeU(s: string): (r: Option<(char, string)>)
    requires |s| >= 6
    ensures r.Some? ==> |r.value.1| < |s|
  {
    match ParseHex4(s[2..6])
    case None => None
    case Some(v) =>
      if 0xD800 <= v <= 0xDBFF then
        if |s| >= 12 && s[6] == '\\' && s[7] == 'u' then
          match ParseHex4(s[8..12])
          case Some(w) => if 0xDC00 <= w <= 0xDFFF then Some((Combine(v, w), s[12..])) else None
          case None => None
        else None
      else if 0xDC00 <= v <= 0xDFFF then None
      else Some((v as char, s[6..]))
  }

  /** Reads one escaped character off the front of `s`. */
  function DecodeUnit(s: string): (r: Option<(char, string)>)
    requires s != []
    ensures r.Some? ==> |r.value.1| < |s|
  {
    if s[0] != '\\' then Some((s[0], s[1..]))
    else if |s| < 2 then None
    else if ShortEscape(s[1]).Some? then Some((ShortEscape(s[1]).value, s[2..]))
    else if s[1] == 'u' && |s| >= 6 then DecodeU(s)
    else None
  }

  /** Reads the body of a quoted string up to and past its closing quote. */
  function DecodeBody(s: string): (r: Option<(string, string)>)
    ensures r.Some? ==> |r.value.1| < |s|
    decreases |s|
  {
    if s == [] then None
    else if s[0] == '"' then Some(([], s[1..]))
    else match DecodeUnit(s)
      case None => None
      case Some((c, t)) =>
        match DecodeBody(t)
        case None => None
        case Some((x, rest)) => Some(([c] + x, rest))
  }

  /** Reads the items of a list, `s` starting just after the `[`. */
  function DecodeItems(s: string): Option<seq<string>>
    decreases |s|
  {
    if s == [']'] then Some([])
    else if s == [] || s[0] != '"' then None
    else match DecodeBody(s[1..])
      case None => None
      case Some((x, rest)) =>
        if rest == [']'] then Some([x])
        else if |rest| >= 2 && rest[0] == ',' && rest[1] == ' ' then
          match DecodeItems(rest[2..])
          case Some(ys) => Some([x] + ys)
          case None => None
        else None
  }

  function DecodeList(s: string): Option<seq<string>> {
    if s != [] && s[0] == '[' then DecodeItems(s[1..]) else None
  }

  lemma Hex2RoundTrip(b: nat)
    requires b < 0x100
    ensures ParseHex2(Hex2(b)) == Some(b)
  {
    var h := Hex2(b);
    assert HexValue(h[0]) == Some(b / 0x10);
    assert HexValue(h[1]) == Some(b % 0x10);
  }

  lemma HexRoundTrip(u: nat)
    requires u < 0x10000
    ensures ParseHex4(Hex4(u)) == Some(u)
  {
    var h := Hex4(u);
    assert h[..2] == Hex2(u / 0x100) && h[2..] == Hex2(u % 0x100);
    Hex2RoundTrip(u / 0x100);
    Hex2RoundTrip(u % 0x100);
  }

  lemma BmpRoundTrip(n: nat, t: string)
    requires n < 0x10000 && !(0xD800 <= n <= 0xDFFF)
    ensures DecodeU(UnitEscape(n) + t) == Some((n as char, t))
  {
    var s := UnitEscape(n) + t;
    HexRoundTrip(n);
    assert s[2..6] == Hex4(n);
    assert s[6..] == t;
  }

  lemma SurrogateArithmetic(n: nat)
    requires 0x10000 <= n <= 0x10FFFF
    ensures var v := n - 0x10000;
      0xD800 <= 0xD800 + v / 0x400 <= 0xDBFF && 0xDC00 <= 0xDC00 + v % 0x400 <= 0xDFFF
      && Combine(0xD800 + v / 0x400, 0xDC00 + v % 0x400) == n as char
  {
    var v := n - 0x10000;
    assert (v / 0x400) * 0x400 + v % 0x400 == v;
  }

  lemma PairRoundTrip(hi: nat, lo: nat, t: string)
    requires 0xD800 <= hi <= 0xDBFF && 0xDC00 <= lo <= 0xDFFF
    ensures DecodeU(UnitEscape(hi) + UnitEscape(lo) + t) == Some((Combine(hi, lo), t))
  {
    var s := UnitEscape(hi) + UnitEscape(lo) + t;
    HexRoundTrip(hi);
    HexRoundTrip(lo);
    assert s[2..6] == Hex4(hi);
    assert s[6] == '\\' && s[7] == 'u';
    assert s[8..12] == Hex4(lo);
    assert s[12..] == t;
  }

  lemma ShortRoundTrip(c: char, t: string)
    requires ShortCode(c).Some?
    ensures DecodeUnit(EscapeChar(c) + t) == Some((c, t))
  {
    var s := EscapeChar(c) + t;
    assert s[0] == '\\' && s[1] == ShortCode(c).value;
    assert ShortEscape(s[1]) == Some(c);
    assert s[2..] == t;
  }

  lemma UnitRoundTrip(c: char, t: string)
    ensures DecodeUnit(EscapeChar(c) + t) == Some((c, t))
  {
    var n := c as int;
    var s := EscapeChar(c) + t;
    if ShortCode(c).Some? {
      ShortRoundTrip(c, t);
    } else if 0x20 <= n <= 0x7E {
      assert s[0] == c && c != '\\';
      assert s[1..] == t;
    } else if n < 0x10000 {
      BmpRoundTrip(n, t);
      assert s == UnitEscape(n) + t;
      assert s[0] == '\\' && s[1] == 'u' && ShortEscape('u').None?;
    } else {
      var v := n - 0x10000;
      SurrogateArithmetic(n);
      PairRoundTrip(0xD800 + v / 0x400, 0xDC00 + v % 0x400, t);
      assert s == UnitEscape(0xD800 + v / 0x400) + UnitEscape(0xDC00 + v % 0x400) + t;
      assert s[0] == '\\' && s[1] == 'u' && ShortEscape('u').None?;
    }
  }

  lemma {:induction false} BodyRoundTrip(x: string, rest: string)
    ensures DecodeBody(Escape(x) + ['"'] + rest) == Some((x, rest))
    decreases |x|
  {
    var s := Escape(x) + ['"'] + rest;
    if x == [] {
      assert s == ['"'] + rest;
    } else {
      var t := Escape(x[1..]) + ['"'] + rest;
      assert s == EscapeChar(x[0]) + t;
      UnitRoundTrip(x[0], t);
      BodyRoundTrip(x[1..], rest);
      assert [x[0]] + x[1..] == x;
    }
  }

  lemma LastItemRoundTrip(x: string)
    ensures DecodeItems(Quote(x) + [']']) == Some([x])
  {
    var s := Quote(x) + [']'];
    assert s[0] == '"' && |s| >= 3;
    assert s[1..] == Escape(x) + ['"'] + [']'];
    BodyRoundTrip(x, [']']);
  }

  lemma NextItemRoundTrip(x: string, rest: string, ys: seq<string>)
    requires DecodeItems(rest) == Some(ys)
    ensures DecodeItems(Quote(x) + [',', ' '] + rest) == Some([x] + ys)
  {
    var tail := [',', ' '] + rest;
    var s := Quote(x) + tail;
    assert s == Quote(x) + [',', ' '] + rest;
    assert s[0] == '"' && |s| >= 3;
    assert s[1..] == Escape(x) + ['"'] + tail;
    BodyRoundTrip(x, tail);
    assert tail[2..] == rest;
  }

  lemma {:induction false} ItemsRoundTrip(xs: seq<string>)
    ensures DecodeItems(Items(xs) + [']']) == Some(xs)
    decreases |xs|
  {
    if |xs| == 1 {
      LastItemRoundTrip(xs[0]);
      assert xs == [xs[0]];
    } else if |xs| > 1 {
      var rest := Items(xs[1..]) + [']'];
      assert Items(xs) + [']'] == Quote(xs[0]) + [',', ' '] + rest;
      ItemsRoundTrip(xs[1..]);
      NextItemRoundTrip(xs[0], rest, xs[1..]);
      assert [xs[0]] + xs[1..] == xs;
    }
  }

  /** The decoder reads back exactly the list that was encoded. */
  lemma DumpsRoundTrip(xs: seq<string>)
    ensures DecodeList(Dumps(xs)) == Some(xs)
  {
    assert Dumps(xs)[1..] == Items(xs) + [']'];
    ItemsRoundTrip(xs);
  }

  /** Different lists encode to different texts. */
  lemma DumpsInjective(xs: seq<string>, ys: seq<string>)
    requires Dumps(xs) == Dumps(ys)
    ensures xs == ys
  {
    DumpsRoundTrip(xs);
    DumpsRoundTrip(ys);
  }
}
