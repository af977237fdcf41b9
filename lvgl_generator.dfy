/**
 * The LVGL C code generator: a `build_<screen>` function with one creation
 * call per Button, Label and Image widget, label texts escaped by `cEscape`.
 */
module LvglGenerator {
  import opened Common

  // ---------------------------------------------------------------------
  // cEscape
  // ---------------------------------------------------------------------

  /** `cEscape(str)`: a backslash inserted before every double quote. */
  function CEscape(s: string): string {
    if s == [] then "" else (if s[0] == '"' then "\\\"" else [s[0]]) + CEscape(s[1..])
  }

  function CountQuotes(s: string): nat {
    if s == [] then 0 else (if s[0] == '"' then 1 else 0) + CountQuotes(s[1..])
  }

  /**
   * Escaping grows the text by one character per quote, and every quote in
   * the output has a backslash right before it.
   */
  lemma {:induction false} CEscapeShape(s: string)
    ensures |CEscape(s)| == |s| + CountQuotes(s)
    ensures forall i :: 0 <= i < |CEscape(s)| && CEscape(s)[i] == '"' ==> i > 0 && CEscape(s)[i - 1] == '\\'
    ensures CEscape(s) != [] ==> CEscape(s)[0] != '"'
  {
    if s != [] {
      CEscapeShape(s[1..]);
      var head: string := if s[0] == '"' then "\\\"" else [s[0]];
      var rest := CEscape(s[1..]);
      var r := head + rest;
      assert CEscape(s) == r;
      forall i | 0 <= i < |r| && r[i] == '"'
        ensures i > 0 && r[i - 1] == '\\'
      {
        if i > |head| {
          assert r[i] == rest[i - |head|];
          assert r[i - 1] == rest[i - |head| - 1];
        }
      }
    }
  }

  /** Reading a C string body back: `\"` stands for `"`, every other character for itself. */
  function CUnescape(t: string): string
    decreases |t|
  {
    if t == [] then ""
    else if |t| >= 2 && t[0] == '\\' && t[1] == '"' then "\"" + CUnescape(t[2..])
    else [t[0]] + CUnescape(t[1..])
  }

  /** `cEscape` changes nothing but the inserted backslashes: undoing them gives the text back. */
  lemma {:induction false} CEscapeRoundTrip(s: string)
    ensures CUnescape(CEscape(s)) == s
  {
    if s != [] {
      CEscapeRoundTrip(s[1..]);
      var rest := CEscape(s[1..]);
      CEscapeShape(s[1..]);
      if s[0] == '"' {
        assert CEscape(s) == "\\\"" + rest;
        assert ("\\\"" + rest)[2..] == rest;
      } else {
        assert CEscape(s) == [s[0]] + rest;
        assert ([s[0]] + rest)[1..] == rest;
        if s[0] == '\\' && rest != [] {
          assert ([s[0]] + rest)[1] == rest[0] != '"';
        }
      }
      assert [s[0]] + s[1..] == s;
    }
  }

  /** On text without quotes `cEscape` is the identity. */
  lemma {:induction false} CEscapeIdentity(s: string)
    requires forall i :: 0 <= i < |s| ==> s[i] != '"'
    ensures CEscape(s) == s
  {
    if s != [] {
      CEscapeIdentity(s[1..]);
      assert [s[0]] + s[1..] == s;
    }
  }

  // ---------------------------------------------------------------------
  // generateLvgl
  // ---------------------------------------------------------------------

  /** The C lines emitted for one widget. */
  function WidgetLines(w: Widget): seq<string> {
    if w.kind == "Button" then
      ["  lv_obj_t *" + w.id + " = lv_btn_create(root);"]
      + (if w.text != "" then
           ["  lv_obj_t *" + w.id + "_label = lv_label_create(" + w.id + ");",
            "  lv_label_set_text(" + w.id + "_label, \"" + CEscape(w.text) + "\");"]
         else [])
    else if w.kind == "Label" then
      ["  lv_obj_t *" + w.id + " = lv_label_create(root);"]
      + (if w.text != "" then ["  lv_label_set_text(" + w.id + ", \"" + CEscape(w.text) + "\");"] else [])
    else if w.kind == "Image" then
      ["  lv_obj_t *" + w.id + " = lv_img_create(root);"]
    else []
  }

  /** The number of lines a widget contributes. */
  function LineCount(w: Widget): nat {
    match w.kind
    case "Image" => 1
    case "Label" => if w.text == "" then 1 else 2
    case "Button" => if w.text == "" then 1 else 3
    case _ => 0
  }

  /** Image: one line; Label: one, two with text; Button: one, three with text; any other type: none. */
  lemma WidgetLinesCount(w: Widget)
    ensures |WidgetLines(w)| == LineCount(w)
  {
  }

  /** The lines of all widgets, widget after widget. */
  function BodyLines(ws: seq<Widget>): seq<string> {
    FlatMap(ws, WidgetLines)
  }

  function TotalLineCount(ws: seq<Widget>): nat {
    if ws == [] then 0 else TotalLineCount(ws[..|ws| - 1]) + LineCount(ws[|ws| - 1])
  }

  function Header(screenId: string): seq<string> {
    ["// Auto-generated LVGL C source",
     "#include \"lvgl.h\"",
     "void build_" + screenId + "(lv_obj_t *root) {"]
  }

  function LvglLines(screenId: string, ws: seq<Widget>): seq<string> {
    Header(screenId) + BodyLines(ws) + ["}"]
  }

  /**
   * `generateLvgl(ir)`: pushes the header, each widget's lines and the
   * closing brace, then joins the lines with newlines.
   */
  method GenerateLvgl(screenId: string, widgets: seq<Widget>) returns (out: string, lines: seq<string>)
    ensures lines == LvglLines(screenId, widgets)
    ensures out == Join(lines, "\n")
  {
    var body: seq<string> := [];
    var i := 0;
    while i < |widgets|
      invariant 0 <= i <= |widgets|
      invariant body == BodyLines(widgets[..i])
    {
      FlatMapSnoc(widgets[..i], widgets[i], WidgetLines);
      assert widgets[..i + 1] == widgets[..i] + [widgets[i]];
      body := body + WidgetLines(widgets[i]);
      i := i + 1;
    }
    assert widgets[..i] == widgets;
    lines := Header(screenId) + body + ["}"];
    out := Join(lines, "\n");
  }

  /**
   * Widgets are emitted in IR order: widget i's lines come right after the
   * lines of the widgets before it and before those of the widgets after it.
   */
  lemma LvglLinesOrder(screenId: string, ws: seq<Widget>, i: nat)
    requires i < |ws|
    ensures LvglLines(screenId, ws)
         == Header(screenId) + BodyLines(ws[..i]) + WidgetLines(ws[i]) + BodyLines(ws[i + 1..]) + ["}"]
  {
    assert ws == ws[..i] + [ws[i]] + ws[i + 1..];
    FlatMapAppend(ws[..i] + [ws[i]], ws[i + 1..], WidgetLines);
    FlatMapSnoc(ws[..i], ws[i], WidgetLines);
  }

  /**
   * The output starts with the two fixed lines and the `build_<screenId>`
   * signature, ends with `}`, and has one line per Image, Label and Button plus
   * the extra text lines.
   */
  lemma {:induction false} LvglLinesShape(screenId: string, ws: seq<Widget>)
    ensures var lines := LvglLines(screenId, ws);
      && |lines| == TotalLineCount(ws) + 4
      && lines[0] == "// Auto-generated LVGL C source"
      && lines[1] == "#include \"lvgl.h\""
      && lines[2] == "void build_" + screenId + "(lv_obj_t *root) {"
      && lines[|lines| - 1] == "}"
  {
    BodyLinesCount(ws);
  }

  lemma {:induction false} BodyLinesCount(ws: seq<Widget>)
    ensures |BodyLines(ws)| == TotalLineCount(ws)
    decreases |ws|
  {
    if ws != [] {
      var init, last := ws[..|ws| - 1], ws[|ws| - 1];
      assert ws == init + [last];
      BodyLinesCount(init);
      FlatMapSnoc(init, last, WidgetLines);
      WidgetLinesCount(last);
    }
  }
}
