/**
 * The React code generator: one JSX line per widget inside a fixed component
 * skeleton, with `camel` for the component name and `escapeHtml` for text.
 */
module ReactGenerator {
  import opened Common

  // ---------------------------------------------------------------------
  // escapeHtml
  // ---------------------------------------------------------------------

  predicate IsHtmlSpecial(c: char) {
    c == '&' || c == '<' || c == '>' || c == '"' || c == '\''
  }

  /** The replacement `escapeHtml` uses for one character. */
  function EscapeChar(c: char): string {
    if c == '&' then "&amp;"
    else if c == '<' then "&lt;"
    else if c == '>' then "&gt;"
    else if c == '"' then "&quot;"
    else if c == '\'' then "&#39;"
    else [c]
  }

  /** One of the five entities `escapeHtml` produces starts at position `i` of `s`. */
  predicate EntityAt(s: string, i: nat)
    requires i <= |s|
  {
    StartsWith(s[i..], "&amp;") || StartsWith(s[i..], "&lt;") || StartsWith(s[i..], "&gt;")
    || StartsWith(s[i..], "&quot;") || StartsWith(s[i..], "&#39;")
  }

  /** `escapeHtml(str)`: each of `& < > " '` replaced by its entity. */
  function EscapeHtml(s: string): string {
    if s == [] then "" else EscapeChar(s[0]) + EscapeHtml(s[1..])
  }

  predicate NoMarkup(r: string) {
    forall i :: 0 <= i < |r| ==> r[i] != '<' && r[i] != '>' && r[i] != '"' && r[i] != '\''
  }

  predicate AmpersandsAreEntities(r: string) {
    forall i :: 0 <= i < |r| && r[i] == '&' ==> EntityAt(r, i)
  }

  /**
   * No markup character survives escaping, and every `&` in the output is the
   * start of one of the five entities.
   */
  lemma {:induction false} EscapeHtmlSafe(s: string)
    ensures NoMarkup(EscapeHtml(s)) && AmpersandsAreEntities(EscapeHtml(s))
  {
    if s != [] {
      EscapeHtmlSafe(s[1..]);
      var head, rest := EscapeChar(s[0]), EscapeHtml(s[1..]);
      var r := head + rest;
      assert EscapeHtml(s) == r;
      EscapeCharSafe(s[0], rest);
      forall i | |head| <= i < |r|
        ensures r[i] != '<' && r[i] != '>' && r[i] != '"' && r[i] != '\''
        ensures r[i] == '&' ==> EntityAt(r, i)
      {
        var j := i - |head|;
        assert r[i] == rest[j];
        assert r[i..] == rest[j..];
        assert rest[j] != '<' && rest[j] != '>' && rest[j] != '"' && rest[j] != '\'';
        assert rest[j] == '&' ==> EntityAt(rest, j);
      }
    }
  }

  lemma EscapeCharSafe(c: char, rest: string)
    ensures var head := EscapeChar(c);
      forall i :: 0 <= i < |head| ==>
        var r := head + rest;
        r[i] != '<' && r[i] != '>' && r[i] != '"' && r[i] != '\'' && (r[i] == '&' ==> i == 0 && EntityAt(r, 0))
  {
    var head := EscapeChar(c);
    var r := head + rest;
    assert r[0..] == r;
    assert r[..|head|] == head;
  }

  /** On text without any of `& < > " '` the escaper is the identity. */
  lemma {:induction false} EscapeHtmlIdentity(s: string)
    requires forall i :: 0 <= i < |s| ==> !IsHtmlSpecial(s[i])
    ensures EscapeHtml(s) == s
  {
    if s != [] {
      EscapeHtmlIdentity(s[1..]);
      assert [s[0]] + s[1..] == s;
    }
  }

  /** Decoding of the five entities, the inverse of `EscapeHtml`. */
  function UnescapeHtml(s: string): string
    decreases |s|
  {
    if s == [] then ""
    else if StartsWith(s, "&amp;") then "&" + UnescapeHtml(s[5..])
    else if StartsWith(s, "&lt;") then "<" + UnescapeHtml(s[4..])
    else if StartsWith(s, "&gt;") then ">" + UnescapeHtml(s[4..])
    else if StartsWith(s, "&quot;") then "\"" + UnescapeHtml(s[6..])
    else if StartsWith(s, "&#39;") then "'" + UnescapeHtml(s[5..])
    else [s[0]] + UnescapeHtml(s[1..])
  }

  lemma UnescapeAmp(rest: string)
    ensures UnescapeHtml("&amp;" + rest) == "&" + UnescapeHtml(rest)
  {
    var e := "&amp;" + rest;
    assert e[..5] == "&amp;" && e[5..] == rest;
  }

  lemma UnescapeLt(rest: string)
    ensures UnescapeHtml("&lt;" + rest) == "<" + UnescapeHtml(rest)
  {
    var e := "&lt;" + rest;
    assert e[1] == 'l';
    assert e[..4] == "&lt;" && e[4..] == rest;
  }

  lemma UnescapeGt(rest: string)
    ensures UnescapeHtml("&gt;" + rest) == ">" + UnescapeHtml(rest)
  {
    var e := "&gt;" + rest;
    assert e[1] == 'g';
    assert e[..4] == "&gt;" && e[4..] == rest;
  }

  lemma UnescapeQuot(rest: string)
    ensures UnescapeHtml("&quot;" + rest) == "\"" + UnescapeHtml(rest)
  {
    var e := "&quot;" + rest;
    assert e[1] == 'q';
    assert e[..6] == "&quot;" && e[6..] == rest;
  }

  lemma UnescapeApos(rest: string)
    ensures UnescapeHtml("&#39;" + rest) == "'" + UnescapeHtml(rest)
  {
    var e := "&#39;" + rest;
    assert e[1] == '#';
    assert e[..5] == "&#39;" && e[5..] == rest;
  }

  lemma UnescapePlain(c: char, rest: string)
    requires c != '&'
    ensures UnescapeHtml([c] + rest) == [c] + UnescapeHtml(rest)
  {
    var e := [c] + rest;
    assert e[0] == c && e[1..] == rest;
  }

  /** Decoding reads one escaped character back, whatever follows it. */
  lemma UnescapeChar(c: char, rest: string)
    ensures UnescapeHtml(EscapeChar(c) + rest) == [c] + UnescapeHtml(rest)
  {
    if c == '&' {
      UnescapeAmp(rest);
    } else if c == '<' {
      UnescapeLt(rest);
    } else if c == '>' {
      UnescapeGt(rest);
    } else if c == '"' {
      UnescapeQuot(rest);
    } else if c == '\'' {
      UnescapeApos(rest);
    } else {
      UnescapePlain(c, rest);
    }
  }

  /** Escaping loses nothing: decoding the escaped text gives the original back. */
  lemma {:induction false} EscapeHtmlRoundTrip(s: string)
    ensures UnescapeHtml(EscapeHtml(s)) == s
  {
    if s != [] {
      EscapeHtmlRoundTrip(s[1..]);
      UnescapeChar(s[0], EscapeHtml(s[1..]));
      assert EscapeHtml(s) == EscapeChar(s[0]) + EscapeHtml(s[1..]);
      assert [s[0]] + s[1..] == s;
    }
  }

  // ---------------------------------------------------------------------
  // camel
  // ---------------------------------------------------------------------

  predicate IsLowerAscii(c: char) {
    'a' <= c <= 'z'
  }

  function UpperAscii(c: char): char
    requires IsLowerAscii(c)
  {
    (c as int - 32) as char
  }

  /** The global replace of `_[a-z]` by the upper-cased letter, away from the start of the name. */
  function CamelRest(s: string): (r: string)
    decreases |s|
  {
    if s == [] then ""
    else if |s| >= 2 && s[0] == '_' && IsLowerAscii(s[1]) then [UpperAscii(s[1])] + CamelRest(s[2..])
    else [s[0]] + CamelRest(s[1..])
  }

  /**
   * `camel(name)`: `name.replace(/(^|_)([a-z])/g, c => c.toUpperCase())` — a
   * leading lower-case letter is upper-cased and every `_` before a
   * lower-case letter is dropped in favour of the upper-cased letter.
   */
  function Camel(s: string): (r: string) {
    if s != [] && IsLowerAscii(s[0]) then [UpperAscii(s[0])] + CamelRest(s[1..]) else CamelRest(s)
  }

  /** A name `camel` leaves as it is: no leading lower-case letter and no `_` before a lower-case letter. */
  predicate IsCamel(s: string) {
    && (s == [] || !IsLowerAscii(s[0]))
    && forall i :: 0 <= i < |s| - 1 && s[i] == '_' ==> !IsLowerAscii(s[i + 1])
  }

  lemma {:induction false} CamelRestShape(s: string)
    ensures var r := CamelRest(s);
      && (forall i :: 0 <= i < |r| - 1 && r[i] == '_' ==> !IsLowerAscii(r[i + 1]))
      && (r != [] && IsLowerAscii(r[0]) ==> s != [] && r[0] == s[0])
      && (s == [] <==> r == [])
    decreases |s|
  {
    if s != [] {
      if |s| >= 2 && s[0] == '_' && IsLowerAscii(s[1]) {
        CamelRestShape(s[2..]);
        var t := CamelRest(s[2..]);
        assert CamelRest(s) == [UpperAscii(s[1])] + t;
        assert forall i :: 1 <= i < |t| + 1 ==> ([UpperAscii(s[1])] + t)[i] == t[i - 1];
      } else {
        CamelRestShape(s[1..]);
        var t := CamelRest(s[1..]);
        assert CamelRest(s) == [s[0]] + t;
        assert forall i :: 1 <= i < |t| + 1 ==> ([s[0]] + t)[i] == t[i - 1];
        if s[0] == '_' && t != [] {
          // s[1] is not a lower-case letter, and t starts with s[1] or with an upper-cased letter
          assert !IsLowerAscii(t[0]);
        }
      }
    }
  }

  /** What `camel` returns is already in camel form. */
  lemma CamelShape(s: string)
    ensures IsCamel(Camel(s))
  {
    if s != [] && IsLowerAscii(s[0]) {
      CamelRestShape(s[1..]);
      var t := CamelRest(s[1..]);
      assert forall i :: 1 <= i < |t| + 1 ==> ([UpperAscii(s[0])] + t)[i] == t[i - 1];
    } else {
      CamelRestShape(s);
    }
  }

  lemma {:induction false} CamelRestFixed(s: string)
    requires forall i :: 0 <= i < |s| - 1 && s[i] == '_' ==> !IsLowerAscii(s[i + 1])
    ensures CamelRest(s) == s
    decreases |s|
  {
    if s != [] {
      assert forall i :: 0 <= i < |s[1..]| - 1 && s[1..][i] == '_' ==> !IsLowerAscii(s[1..][i + 1]);
      CamelRestFixed(s[1..]);
      assert [s[0]] + s[1..] == s;
    }
  }

  /** `camel` is idempotent. */
  lemma CamelIdempotent(s: string)
    ensures Camel(Camel(s)) == Camel(s)
  {
    CamelShape(s);
    CamelRestFixed(Camel(s));
  }

  // ---------------------------------------------------------------------
  // generateReact
  // ---------------------------------------------------------------------

  /** The element `generateReact` emits for a widget type. */
  function TagName(kind: string): string {
    if kind == "Button" then "button" else if kind == "Label" then "span" else "div"
  }

  /** The element body: the escaped text for a Button or a Label, nothing for any other widget. */
  function Content(w: Widget): string {
    if w.kind == "Button" || w.kind == "Label" then EscapeHtml(w.text) else ""
  }

  /** The JSX line emitted for one widget: its id and trimmed tailwind classes, then the body. */
  function WidgetLine(w: Widget): string {
    "    <" + TagName(w.kind) + " id=\"" + w.id + "\" className=\"" + Trim(w.tailwind) + "\">"
    + Content(w) + "</" + TagName(w.kind) + ">"
  }

  function Header(screenId: string): seq<string> {
    ["// Auto-generated React component",
     "import React from 'react';",
     "export function " + Camel(screenId) + "() {",
     "  return (<div className=\"w-full h-full\">"]
  }

  const Footer: seq<string> := ["  </div>);", "}"]

  /** One line per widget, in IR order. */
  function Body(widgets: seq<Widget>): (r: seq<string>)
    ensures |r| == |widgets|
  {
    seq(|widgets|, i requires 0 <= i < |widgets| => WidgetLine(widgets[i]))
  }

  /** The emitted lines: the skeleton around one line per widget. */
  function ReactLines(screenId: string, widgets: seq<Widget>): seq<string> {
    Header(screenId) + Body(widgets) + Footer
  }

  /**
   * `generateReact(ir)`: pushes the skeleton and one line per widget, then
   * joins the lines with newlines.
   */
  method GenerateReact(screenId: string, widgets: seq<Widget>) returns (out: string, lines: seq<string>)
    ensures lines == ReactLines(screenId, widgets)
    ensures out == Join(lines, "\n")
  {
    var body: seq<string> := [];
    var i := 0;
    while i < |widgets|
      invariant 0 <= i <= |widgets|
      invariant |body| == i
      invariant forall k :: 0 <= k < i ==> body[k] == WidgetLine(widgets[k])
    {
      body := body + [WidgetLine(widgets[i])];
      i := i + 1;
    }
    assert body == Body(widgets);
    lines := Header(screenId) + body + Footer;
    out := Join(lines, "\n");
  }

  /** The output has exactly six lines more than the IR has widgets, and line 4 + i belongs to widget i. */
  lemma ReactLinesShape(screenId: string, widgets: seq<Widget>)
    ensures var lines := ReactLines(screenId, widgets);
      && |lines| == |widgets| + 6
      && lines[..4] == Header(screenId)
      && lines[|lines| - 2..] == Footer
      && forall i :: 0 <= i < |widgets| ==> lines[4 + i] == WidgetLine(widgets[i])
  {
    var lines := ReactLines(screenId, widgets);
    assert lines[..4] == Header(screenId);
    assert lines[|lines| - 2..] == Footer;
  }

  /**
   * The body of a Button or Label line shows exactly the widget's text and
   * holds no markup character; other widgets get an empty element.
   */
  lemma WidgetLineContent(w: Widget)
    ensures UnescapeHtml(Content(w)) == if w.kind == "Button" || w.kind == "Label" then w.text else ""
    ensures forall i :: 0 <= i < |Content(w)| ==> Content(w)[i] != '<' && Content(w)[i] != '>'
  {
    EscapeHtmlRoundTrip(w.text);
    EscapeHtmlSafe(w.text);
  }
}
