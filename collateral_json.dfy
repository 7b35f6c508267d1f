/** The `collateralImages` column of a loan is a TEXT column that holds the
    list of saved image filenames as JSON text. Its setter writes
    `JSON.stringify(list)`; its getter returns `[]` for a null or empty
    column and `JSON.parse(raw)` otherwise (src/models/Loan.ts:112-122).

    This module models the JSON encoding of a list of strings as
    JSON.stringify produces it (no whitespace; `"` and `\` escaped; the
    control characters backspace, tab, newline, form feed and carriage
    return written as short escapes and the other ones below U+0020 as
    `\u00xx` with lower-case hex digits), and a decoder for JSON string
    arrays written without whitespace. The main result is the round trip:
    reading back what the setter wrote gives the same list. */
module CollateralJson {
  import opened Common

  // ---------------------------------------------------------------------
  // Encoding (the setter)

  function HexDigit(d: nat): char
    requires d < 16
  {
    if d < 10 then ('0' as int + d) as char else ('a' as int + d - 10) as char
  }

  predicate IsHex(c: char) {
    '0' <= c <= '9' || 'a' <= c <= 'f' || 'A' <= c <= 'F'
  }

  function HexValue(c: char): (v: nat)
    requires IsHex(c)
    ensures v < 16
  {
    if '0' <= c <= '9' then c as int - '0' as int
    else if 'a' <= c <= 'f' then c as int - 'a' as int + 10
    else c as int - 'A' as int + 10
  }

  /** How JSON.stringify writes one character inside a string literal. */
  function EscapeChar(c: char): string {
    if c == '"' then ['\\', '"']
    else if c == '\\' then ['\\', '\\']
    else if c as int == 8 then ['\\', 'b']
    else if c == '\t' then ['\\', 't']
    else if c == '\n' then ['\\', 'n']
    else if c as int == 12 then ['\\', 'f']
    else if c == '\r' then ['\\', 'r']
    else if c as int < 0x20 then ['\\', 'u', '0', '0', HexDigit(c as int / 16), HexDigit(c as int % 16)]
    else [c]
  }

  function Escape(s: string): string {
    if s == [] then [] else EscapeChar(s[0]) + Escape(s[1..])
  }

  function Quote(s: string): string {
    ['"'] + Escape(s) + ['"']
  }

  function Items(xs: seq<string>): string
    requires xs != []
  {
    Quote(xs[0]) + if |xs| == 1 then [] else [','] + Items(xs[1..])
  }

  /** `JSON.stringify(xs)` for a list of strings. */
  function Encode(xs: seq<string>): (t: string)
    ensures |t| >= 2 && t[0] == '[' && t[|t| - 1] == ']'
    ensures ParseArray(t) == Some(xs)
  {
    if xs == [] then ['[', ']']
    else
      var t := ['['] + Items(xs) + [']'];
      assert t[1..] == Items(xs) + [']'];
      assert t != ['[', ']'] by {
        assert |Items(xs)| >= 2;
      }
      ItemsParse(xs);
      t
  }

  // ---------------------------------------------------------------------
  // Decoding (the getter)

  /** One escape sequence after a backslash: the character it stands for
      and what follows it. */
  function ParseEscape(t: string): (r: Option<(char, string)>)
    ensures r.Some? ==> |r.value.1| < |t|
  {
    if t == [] then None
    else if t[0] == '"' then Some(('"', t[1..]))
    else if t[0] == '\\' then Some(('\\', t[1..]))
    else if t[0] == '/' then Some(('/', t[1..]))
    else if t[0] == 'b' then Some((8 as char, t[1..]))
    else if t[0] == 'f' then Some((12 as char, t[1..]))
    else if t[0] == 'n' then Some(('\n', t[1..]))
    else if t[0] == 'r' then Some(('\r', t[1..]))
    else if t[0] == 't' then Some(('\t', t[1..]))
    else if t[0] == 'u' && |t| >= 5 && IsHex(t[1]) && IsHex(t[2]) && IsHex(t[3]) && IsHex(t[4]) then
      var v := 4096 * HexValue(t[1]) + 256 * HexValue(t[2]) + 16 * HexValue(t[3]) + HexValue(t[4]);
      // a lone surrogate is not a character of its own
      if 0xD800 <= v <= 0xDFFF then None else Some((v as char, t[5..]))
    else None
  }

  function Cons(c: char, r: Option<(string, string)>): Option<(string, string)> {
    match r
    case None => None
    case Some((s, rest)) => Some(([c] + s, rest))
  }

  /** The content of a string literal whose opening quote has been read:
      the decoded characters and what follows the closing quote. */
  function ParseStringBody(t: string): (r: Option<(string, string)>)
    ensures r.Some? ==> |r.value.1| < |t|
    decreases |t|
  {
    if t == [] then None
    else if t[0] == '"' then Some(([], t[1..]))
    else if t[0] == '\\' then
      match ParseEscape(t[1..])
      case None => None
      case Some((c, rest)) => Cons(c, ParseStringBody(rest))
    else if t[0] as int < 0x20 then None
    else Cons(t[0], ParseStringBody(t[1..]))
  }

  /** The elements of a non-empty array whose `[` has been read. */
  function ParseElems(t: string): Option<seq<string>>
    decreases |t|
  {
    if t == [] || t[0] != '"' then None
    else
      match ParseStringBody(t[1..])
      case None => None
      case Some((s, rest)) =>
        if rest == [']'] then Some([s])
        else if rest != [] && rest[0] == ',' then
          match ParseElems(rest[1..])
          case None => None
          case Some(more) => Some([s] + more)
        else None
  }

  /** `JSON.parse(t)` where the result is a list of strings; None stands
      for text that does not decode to one. */
  function ParseArray(t: string): Option<seq<string>> {
    if |t| >= 2 && t[0] == '[' then
      if t == ['[', ']'] then Some([]) else ParseElems(t[1..])
    else None
  }

  /** The getter: an absent or empty column reads as no images. */
  function ReadImages(raw: Option<string>): (r: Option<seq<string>>)
    ensures raw.None? || raw.value == [] ==> r == Some([])
    ensures forall xs :: raw == Some(Encode(xs)) ==> r == Some(xs)
  {
    if raw.None? || raw.value == [] then Some([]) else ParseArray(raw.value)
  }

  /** The setter: the column holds the JSON text of the list. */
  function StoreImages(xs: seq<string>): (raw: Option<string>)
    ensures raw.Some? && raw.value != []
  {
    Some(Encode(xs))
  }

  // ---------------------------------------------------------------------
  // Round trip

  lemma EscapeCharParses(c: char, t: string)
    ensures ParseStringBody(EscapeChar(c) + t) == Cons(c, ParseStringBody(t))
  {
    var e := EscapeChar(c);
    var u := e + t;
    if c as int < 0x20 && c as int !in {8, 9, 10, 12, 13} {
      var h1, h2 := HexDigit(c as int / 16), HexDigit(c as int % 16);
      assert e == ['\\', 'u', '0', '0', h1, h2];
      assert u[1..] == ['u', '0', '0', h1, h2] + t;
      assert HexValue(h1) == c as int / 16 && HexValue(h2) == c as int % 16;
      assert ParseEscape(u[1..]) == Some((c, t));
    } else if |e| == 2 {
      assert u[1..] == [e[1]] + t;
      assert ParseEscape(u[1..]) == Some((c, t));
    } else {
      assert e == [c];
      assert u[1..] == t;
    }
  }

  lemma {:induction false} EscapeParses(s: string, t: string)
    ensures ParseStringBody(Escape(s) + ['"'] + t) == Some((s, t))
    decreases |s|
  {
    if s == [] {
      assert Escape(s) + ['"'] + t == ['"'] + t;
    } else {
      var x := Escape(s[1..]) + ['"'] + t;
      assert Escape(s) + ['"'] + t == EscapeChar(s[0]) + x;
      EscapeCharParses(s[0], x);
      EscapeParses(s[1..], t);
      assert [s[0]] + s[1..] == s;
      assert Cons(s[0], Some((s[1..], t))) == Some((s, t));
    }
  }

  /** Reading one quoted element leaves exactly what follows it. */
  lemma QuotedElem(x: string, rest: string)
    ensures var t := Quote(x) + rest;
      t != [] && t[0] == '"' && ParseStringBody(t[1..]) == Some((x, rest))
  {
    var t := Quote(x) + rest;
    assert t[1..] == Escape(x) + ['"'] + rest;
    EscapeParses(x, rest);
  }

  lemma {:induction false} ItemsParse(xs: seq<string>)
    requires xs != []
    ensures ParseElems(Items(xs) + [']']) == Some(xs)
    decreases |xs|
  {
    if |xs| == 1 {
      assert Items(xs) + [']'] == Quote(xs[0]) + [']'];
      QuotedElem(xs[0], [']']);
      assert xs == [xs[0]];
    } else {
      var tail := Items(xs[1..]) + [']'];
      var rest := [','] + tail;
      assert Items(xs) + [']'] == Quote(xs[0]) + rest;
      QuotedElem(xs[0], rest);
      assert rest[1..] == tail;
      assert |Items(xs[1..])| >= 2;
      assert rest != [']'];
      ItemsParse(xs[1..]);
      assert [xs[0]] + xs[1..] == xs;
    }
  }

  /** Reading the column back after the setter wrote a list gives that
      list, in the same order. */
  lemma CollateralRoundTrip(xs: seq<string>)
    ensures ReadImages(StoreImages(xs)) == Some(xs)
  {
  }

  /** An absent or empty column reads as the empty list, and the empty
      list is stored as the text `[]`. */
  lemma EmptyCollateral()
    ensures ReadImages(None) == Some([])
    ensures ReadImages(Some([])) == Some([])
    ensures StoreImages([]) == Some(['[', ']'])
  {
  }
}
