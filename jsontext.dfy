/**
 * JSON.stringify applied to a string (the quoting and escaping rules of
 * ECMAScript's QuoteJSONString), and the matching part of JSON.parse that reads
 * a quoted string back.
 */
module JsonText {
  import opened Wrappers
  import Text

  function HexDigit(d: nat): (c: char)
    requires d < 16
  {
    if d < 10 then ('0' as int + d) as char else ('a' as int + d - 10) as char
  }

  function HexValue(c: char): (r: Option<nat>)
    ensures r.Some? ==> r.value < 16
  {
    if '0' <= c <= '9' then Some(c as int - '0' as int)
    else if 'a' <= c <= 'f' then Some(c as int - 'a' as int + 10)
    else if 'A' <= c <= 'F' then Some(c as int - 'A' as int + 10)
    else None
  }

  lemma HexValueOfHexDigit(d: nat)
    requires d < 16
    ensures HexValue(HexDigit(d)) == Some(d)
  {
  }

  /** How one character of a string is written inside JSON quotes. */
  function EscapeChar(c: char): (e: string)
    ensures 1 <= |e|
    ensures e[0] != '"'
  {
    if c == '\U{0008}' then "\\b"
    else if c == '\t' then "\\t"
    else if c == '\n' then "\\n"
    else if c == '\U{000C}' then "\\f"
    else if c == '\r' then "\\r"
    else if c == '"' then "\\\""
    else if c == '\\' then "\\\\"
    else if c < ' ' then "\\u00" + [HexDigit(c as int / 16), HexDigit(c as int % 16)]
    else [c]
  }

  function Escape(s: string): string
  {
    if s == [] then [] else EscapeChar(s[0]) + Escape(s[1..])
  }

  /** JSON.stringify(s) for a string s. */
  function Quote(s: string): (q: string)
    ensures |q| >= 2 && q[0] == '"' && q[|q| - 1] == '"'
  {
    "\"" + Escape(s) + "\""
  }

  /**
   * The character an escape sequence stands for, given the text after the
   * backslash, and how many characters of that text the sequence uses.
   */
  function DecodeEscape(s: string): (r: Option<(char, nat)>)
    ensures r.Some? ==> 1 <= r.value.1 <= |s|
  {
    if s == [] then None
    else if s[0] == '"' || s[0] == '\\' || s[0] == '/' then Some((s[0], 1))
    else if s[0] == 'b' then Some(('\U{0008}', 1))
    else if s[0] == 'f' then Some(('\U{000C}', 1))
    else if s[0] == 'n' then Some(('\n', 1))
    else if s[0] == 'r' then Some(('\r', 1))
    else if s[0] == 't' then Some(('\t', 1))
    else if s[0] == 'u' && |s| >= 5 then
      match (HexValue(s[1]), HexValue(s[2]), HexValue(s[3]), HexValue(s[4]))
      case (Some(a), Some(b), Some(c), Some(d)) =>
        var code := a * 4096 + b * 256 + c * 16 + d;
        if 0xD800 <= code < 0xE000 then None else Some((code as char, 5))
      case _ => None
    else None
  }

  /**
   * Reads the body of a JSON string literal up to and including its closing
   * quote: the decoded characters and the text after the quote.
   */
  function Unescape(s: string): (r: Option<(string, string)>)
    ensures r.Some? ==> |r.value.1| < |s|
    decreases |s|
  {
    if s == [] then None
    else if s[0] == '"' then Some(([], s[1..]))
    else if s[0] == '\\' then
      match DecodeEscape(s[1..])
      case None => None
      case Some((c, n)) =>
        match Unescape(s[1 + n..])
        case None => None
        case Some((d, rest)) => Some(([c] + d, rest))
    else if s[0] < ' ' then None
    else
      match Unescape(s[1..])
      case None => None
      case Some((d, rest)) => Some(([s[0]] + d, rest))
  }

  /** JSON.parse of a string literal at the start of s: its value and what follows it. */
  function Unquote(s: string): (r: Option<(string, string)>)
    ensures r.Some? ==> |r.value.1| < |s|
  {
    if s != [] && s[0] == '"' then Unescape(s[1..]) else None
  }

  /** The escape u00XX of a control character decodes back to it, using five characters. */
  lemma DecodeUnicodeEscape(c: char, t: string)
    requires c < ' '
    ensures DecodeEscape("u00" + [HexDigit(c as int / 16), HexDigit(c as int % 16)] + t) == Some((c, 5))
  {
    var hi, lo := c as int / 16, c as int % 16;
    HexValueOfHexDigit(hi);
    HexValueOfHexDigit(lo);
    var u := "u00" + [HexDigit(hi), HexDigit(lo)] + t;
    assert u[0] == 'u' && u[1] == '0' && u[2] == '0' && u[3] == HexDigit(hi) && u[4] == HexDigit(lo);
    assert 0 * 4096 + 0 * 256 + hi * 16 + lo == c as int;
  }

  /** One escaped character followed by text t is read as that character, then t. */
  lemma UnescapeChar(c: char, t: string)
    ensures Unescape(EscapeChar(c) + t) ==
      match Unescape(t)
      case None => None
      case Some((d, rest)) => Some(([c] + d, rest))
  {
    if c < ' ' && c != '\U{0008}' && c != '\t' && c != '\n' && c != '\U{000C}' && c != '\r' {
      UnescapeUnicode(c, t);
    } else if EscapeChar(c) == [c] {
      UnescapePlain(c, t);
    } else {
      var e := EscapeChar(c);
      assert |e| == 2 && e[0] == '\\' && DecodeEscape(e[1..] + t) == Some((c, 1)) by {
        assert e[1..] + t == [e[1]] + t;
      }
      UnescapeShort(c, e, t);
    }
  }

  /** A character that stands for itself. */
  lemma UnescapePlain(c: char, t: string)
    requires EscapeChar(c) == [c]
    ensures Unescape(EscapeChar(c) + t) ==
      match Unescape(t)
      case None => None
      case Some((d, rest)) => Some(([c] + d, rest))
  {
    Text.TailOfConcat([c], t);
  }

  /** A two-character escape such as \n. */
  lemma UnescapeShort(c: char, e: string, t: string)
    requires |e| == 2 && e[0] == '\\' && DecodeEscape(e[1..] + t) == Some((c, 1))
    ensures Unescape(e + t) ==
      match Unescape(t)
      case None => None
      case Some((d, rest)) => Some(([c] + d, rest))
  {
    Text.TailOfConcat(e, t);
    assert (e + t)[2..] == t;
  }

  /** The six-character escape of a control character without a short form. */
  lemma UnescapeUnicode(c: char, t: string)
    requires c < ' ' && c != '\U{0008}' && c != '\t' && c != '\n' && c != '\U{000C}' && c != '\r'
    ensures Unescape(EscapeChar(c) + t) ==
      match Unescape(t)
      case None => None
      case Some((d, rest)) => Some(([c] + d, rest))
  {
    var u := "u00" + [HexDigit(c as int / 16), HexDigit(c as int % 16)];
    assert EscapeChar(c) == "\\" + u;
    Text.AppendAssoc("\\", u, t);
    Text.TailOfConcat("\\", u + t);
    DecodeUnicodeEscape(c, t);
    assert (EscapeChar(c) + t)[6..] == t;
  }

  /** Reading back an escaped string followed by the closing quote gives the string and what follows. */
  lemma {:induction false} UnescapeEscape(x: string, rest: string)
    ensures Unescape(Escape(x) + "\"" + rest) == Some((x, rest))
  {
    if x == [] {
      assert Escape(x) + "\"" + rest == "\"" + rest;
    } else {
      var t := Escape(x[1..]) + "\"" + rest;
      assert Escape(x) + "\"" + rest == EscapeChar(x[0]) + t;
      UnescapeEscape(x[1..], rest);
      UnescapeChar(x[0], t);
      assert [x[0]] + x[1..] == x;
    }
  }

  /** JSON.parse undoes JSON.stringify on strings, and whatever follows the literal is left untouched. */
  lemma UnquoteQuote(x: string, rest: string)
    ensures Unquote(Quote(x) + rest) == Some((x, rest))
  {
    assert (Quote(x) + rest)[1..] == Escape(x) + "\"" + rest;
    UnescapeEscape(x, rest);
  }

  /** JSON.stringify of an array of strings: no white space, items separated by commas. */
  function QuoteAll(xs: seq<string>): string
  {
    "[" + Items(xs) + "]"
  }

  function Items(xs: seq<string>): string
  {
    if xs == [] then ""
    else if |xs| == 1 then Quote(xs[0])
    else Quote(xs[0]) + "," + Items(xs[1..])
  }

  /** JSON.parse of an array of strings written without white space; None for anything else. */
  function UnquoteAll(s: string): Option<seq<string>>
  {
    if s == "[]" then Some([])
    else if s != [] && s[0] == '[' then ReadItems(s[1..])
    else None
  }

  /** Reads `"x","y",…"z"]`: one or more string literals, then the closing bracket. */
  function ReadItems(s: string): Option<seq<string>>
    decreases |s|
  {
    match Unquote(s)
    case None => None
    case Some((x, r)) =>
      if r == "]" then Some([x])
      else if r != [] && r[0] == ',' then
        match ReadItems(r[1..])
        case None => None
        case Some(ys) => Some([x] + ys)
      else None
  }

  /** The last literal of an array, then its closing bracket. */
  lemma ReadItemsLast(x: string)
    ensures ReadItems(Quote(x) + "]") == Some([x])
  {
    UnquoteQuote(x, "]");
  }

  /** A literal followed by a comma: the literal, then whatever the rest reads as. */
  lemma ReadItemsNext(x: string, t: string)
    ensures ReadItems(Quote(x) + ("," + t)) ==
      match ReadItems(t)
      case None => None
      case Some(ys) => Some([x] + ys)
  {
    UnquoteQuote(x, "," + t);
    assert ("," + t)[0] == ',' && ("," + t)[1..] == t;
  }

  lemma ItemsCons(xs: seq<string>)
    requires |xs| >= 2
    ensures Items(xs) + "]" == Quote(xs[0]) + ("," + (Items(xs[1..]) + "]"))
  {
    var a, b := Quote(xs[0]), Items(xs[1..]);
    assert Items(xs) == a + "," + b;
    Text.AppendAssoc(a + ",", b, "]");
    Text.AppendAssoc(a, ",", b + "]");
  }


  lemma {:induction false} ReadItemsItems(xs: seq<string>)
    requires xs != []
    ensures ReadItems(Items(xs) + "]") == Some(xs)
  {
    if |xs| == 1 {
      assert Items(xs) == Quote(xs[0]) && [xs[0]] == xs;
      ReadItemsLast(xs[0]);
    } else {
      var t := Items(xs[1..]) + "]";
      calc {
        ReadItems(Items(xs) + "]");
      == { ItemsCons(xs); }
        ReadItems(Quote(xs[0]) + ("," + t));
      == { ReadItemsNext(xs[0], t); ReadItemsItems(xs[1..]); }
        Some([xs[0]] + xs[1..]);
      == { assert [xs[0]] + xs[1..] == xs; }
        Some(xs);
      }
    }
  }

  /** JSON.parse undoes JSON.stringify on arrays of strings. */
  lemma {:induction false} UnquoteAllQuoteAll(xs: seq<string>)
    ensures UnquoteAll(QuoteAll(xs)) == Some(xs)
  {
    if xs == [] {
      assert QuoteAll(xs) == "[]";
    } else {
      var t := Items(xs) + "]";
      var q := QuoteAll(xs);
      assert q == "[" + t;
      assert |t| >= 3 by {
        if |xs| == 1 {
          assert Items(xs) == Quote(xs[0]);
        } else {
          assert Items(xs) == Quote(xs[0]) + "," + Items(xs[1..]);
        }
      }
      assert q[0] == '[' && q[1..] == t && |q| != 2;
      ReadItemsItems(xs);
    }
  }
}
