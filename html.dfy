/**
 * `scrubHTML`: escaping chat text before it is written into the page as
 * markup. The page then shows the text as the browser decodes it.
 */
module Html {
  import opened Wrappers

  /** The escape of one character, as written: `&` is turned into `&lt;`, the escape of `<`. */
  function EscapeChar(c: char): string {
    if c == '<' then "&lt;" else if c == '>' then "&gt;" else if c == '&' then "&lt;" else [c]
  }

  function Escape(s: string): (r: string)
    ensures '<' !in r && '>' !in r
  {
    if s == [] then "" else EscapeChar(s[0]) + Escape(s[1..])
  }

  /** `scrubHTML(string)`: `null` for a missing or empty string, else every `<`, `>` and `&` replaced. */
  function ScrubHtml(text: Option<string>): (r: Option<string>)
    ensures r.Some? <==> text.Some? && text.value != ""
    ensures r.Some? ==> '<' !in r.value && '>' !in r.value
  {
    if text.None? || text.value == "" then None else Some(Escape(text.value))
  }

  /**
   * What the browser shows for markup holding no tags: the character
   * references `&lt;`, `&gt;` and `&amp;` decoded, everything else as it is.
   */
  function Decode(s: string): string {
    if |s| >= 4 && s[..4] == "&lt;" then "<" + Decode(s[4..])
    else if |s| >= 4 && s[..4] == "&gt;" then ">" + Decode(s[4..])
    else if |s| >= 5 && s[..5] == "&amp;" then "&" + Decode(s[5..])
    else if s == [] then ""
    else [s[0]] + Decode(s[1..])
  }

  /** As written, an ampersand is shown as `<`: `a & b` appears as `a < b`. */
  lemma ScrubHtmlShowsAmpersandAsLess()
    ensures ScrubHtml(Some("&")) == ScrubHtml(Some("<"))
    ensures Decode(ScrubHtml(Some("&")).value) == "<"
  {
    assert Escape("&") == "&lt;" + Escape("");
    assert Escape("<") == "&lt;" + Escape("");
    assert "&lt;"[..4] == "&lt;";
    assert "&lt;"[4..] == "";
  }

  /** The evidently intended escape of one character: `&` becomes `&amp;`. */
  function EscapeCharFixed(c: char): string {
    if c == '<' then "&lt;" else if c == '>' then "&gt;" else if c == '&' then "&amp;" else [c]
  }

  function EscapeFixed(s: string): (r: string)
    ensures '<' !in r && '>' !in r
  {
    if s == [] then "" else EscapeCharFixed(s[0]) + EscapeFixed(s[1..])
  }

  /** `scrubHTML` with `&` escaped as `&amp;`. */
  function ScrubHtmlFixed(text: Option<string>): (r: Option<string>)
    ensures r.Some? <==> text.Some? && text.value != ""
    ensures r.Some? ==> '<' !in r.value && '>' !in r.value
  {
    if text.None? || text.value == "" then None else Some(EscapeFixed(text.value))
  }

  /** Decoding the escape of one character in front of more markup. */
  lemma DecodeEscapedChar(c: char, rest: string)
    ensures Decode(EscapeCharFixed(c) + rest) == [c] + Decode(rest)
  {
    var e := EscapeCharFixed(c) + rest;
    if c == '<' {
      assert e[..4] == "&lt;" && e[4..] == rest;
    } else if c == '>' {
      assert e[..4] == "&gt;" && e[4..] == rest;
    } else if c == '&' {
      assert e[..4] == "&amp" && e[4] == ';';
      assert e[..5] == "&amp;" && e[5..] == rest;
    } else {
      assert e[0] == c && e[1..] == rest;
    }
  }

  /** With `&` escaped, the page shows exactly the chat text. */
  lemma {:induction false} DecodeEscapeFixed(s: string)
    ensures Decode(EscapeFixed(s)) == s
    decreases |s|
  {
    if s != [] {
      DecodeEscapeFixed(s[1..]);
      DecodeEscapedChar(s[0], EscapeFixed(s[1..]));
      assert s == [s[0]] + s[1..];
    }
  }

  /** So the fixed escape keeps distinct texts distinct. */
  lemma ScrubHtmlFixedInjective(a: string, b: string)
    requires a != "" && b != "" && ScrubHtmlFixed(Some(a)) == ScrubHtmlFixed(Some(b))
    ensures a == b
  {
    DecodeEscapeFixed(a);
    DecodeEscapeFixed(b);
  }
}
