/**
 * The Sketch extractor: a parsed artboard (its layer list and size) becomes a
 * root container, a second-level container and one widget per layer, with
 * image layers recognised by their file-name text.
 */
module SketchParser {
  import opened Common

  // ---------------------------------------------------------------------
  // extractFileName
  // ---------------------------------------------------------------------

  /** `raw.replace(/ /g, "").replace(/\\/g, "/")`. */
  function Clean(s: string): (r: string)
    ensures |r| <= |s|
    ensures forall i :: 0 <= i < |r| ==> r[i] != ' ' && r[i] != '\\'
  {
    if s == [] then ""
    else (if s[0] == ' ' then "" else if s[0] == '\\' then "/" else [s[0]]) + Clean(s[1..])
  }

  /** `extractFileName(raw)`: "" for an empty name, else the cleaned text after its last slash. */
  function ExtractFileName(raw: string): (r: string)
    ensures raw == "" ==> r == ""
    ensures forall i :: 0 <= i < |r| ==> r[i] != ' ' && r[i] != '/' && r[i] != '\\'
  {
    if raw == "" then ""
    else
      var c := Clean(raw);
      var r := AfterLastSlash(c);
      AfterLastSlashSpec(c);
      assert forall i :: 0 <= i < |r| ==> r[i] == c[|c| - |r| + i];
      r
  }

  predicate NoSeparators(s: string) {
    forall i :: 0 <= i < |s| ==> s[i] != ' ' && s[i] != '/' && s[i] != '\\'
  }

  lemma {:induction false} CleanIdentity(s: string)
    requires NoSeparators(s)
    ensures Clean(s) == s
  {
    if s != [] {
      CleanIdentity(s[1..]);
      assert [s[0]] + s[1..] == s;
    }
  }

  lemma {:induction false} AfterLastSlashIdentity(s: string)
    requires NoSeparators(s)
    ensures AfterLastSlash(s) == s
  {
    if s != [] {
      AfterLastSlashIdentity(s[..|s| - 1]);
      assert s[..|s| - 1] + [s[|s| - 1]] == s;
    }
  }

  /** A file name is its own file name: `extractFileName` is idempotent. */
  lemma ExtractFileNameIdempotent(raw: string)
    ensures ExtractFileName(ExtractFileName(raw)) == ExtractFileName(raw)
  {
    var r := ExtractFileName(raw);
    if r != "" {
      CleanIdentity(r);
      AfterLastSlashIdentity(r);
    }
  }

  lemma {:induction false} CleanAppend(a: string, b: string)
    ensures Clean(a + b) == Clean(a) + Clean(b)
  {
    if a != [] {
      CleanAppend(a[1..], b);
      assert (a + b)[1..] == a[1..] + b;
    } else {
      assert a + b == b;
    }
  }

  lemma {:induction false} AfterLastSlashAppend(a: string, b: string)
    requires forall i :: 0 <= i < |b| ==> b[i] != '/'
    ensures AfterLastSlash(a + b) == AfterLastSlash(a) + b
  {
    if b == [] {
      assert a + b == a;
    } else {
      var init := b[..|b| - 1];
      var last := b[|b| - 1];
      AfterLastSlashAppend(a, init);
      calc {
        AfterLastSlash(a + b);
        { assert (a + b)[..|a + b| - 1] == a + init; }
        AfterLastSlash(a + init) + [last];
        AfterLastSlash(a) + init + [last];
        { assert init + [last] == b; }
        AfterLastSlash(a) + b;
      }
    }
  }

  /** The folder part of a name does not reach past a trailing part that has no separators. */
  lemma ExtractFileNameAppend(a: string, b: string)
    requires NoSeparators(b)
    ensures ExtractFileName(a + b) == ExtractFileName(a) + b
  {
    if a + b != "" {
      CleanAppend(a, b);
      CleanIdentity(b);
      AfterLastSlashAppend(Clean(a), b);
      if a == "" {
        assert a + b == b;
      }
    }
  }

  // ---------------------------------------------------------------------
  // The two image-name patterns
  // ---------------------------------------------------------------------

  /** The characters a regular expression's `.` does not match, and at which the match may restart. */
  predicate IsLineTerminator(c: char) {
    c == '\n' || c == '\r' || c == '\U{2028}' || c == '\U{2029}'
  }

  /** The start of the last line of `t`: one past its last line terminator, or 0. */
  function LineStart(t: string): (r: nat)
    ensures r <= |t|
    ensures r > 0 ==> IsLineTerminator(t[r - 1])
    ensures forall i :: r <= i < |t| ==> !IsLineTerminator(t[i])
  {
    if t == [] then 0
    else if IsLineTerminator(t[|t| - 1]) then |t|
    else LineStart(t[..|t| - 1])
  }

  /** `t` ends with "." and the extension `e` in any letter case. */
  predicate EndsWithExt(t: string, e: string) {
    |t| >= |e| + 1 && t[|t| - |e| - 1] == '.' && Lower(t[|t| - |e|..]) == e
  }

  /** `/\.(png|jpg|jpeg|gif)$/i.test(t)`. */
  predicate HasImageExt(t: string) {
    EndsWithExt(t, "png") || EndsWithExt(t, "jpg") || EndsWithExt(t, "jpeg") || EndsWithExt(t, "gif")
  }

  /** The length of the image extension `t` ends with. */
  function ExtLen(t: string): (r: Option<nat>)
    ensures r.Some? <==> HasImageExt(t)
    ensures r.Some? ==>
      r.value < |t| && t[|t| - r.value - 1] == '.' && Lower(t[|t| - r.value..]) in {"png", "jpg", "jpeg", "gif"}
  {
    if EndsWithExt(t, "jpeg") then Some(4)
    else if EndsWithExt(t, "png") then Some(3)
    else if EndsWithExt(t, "jpg") then Some(3)
    else if EndsWithExt(t, "gif") then Some(3)
    else None
  }

  /** The length of an `(n ?/ ?f)` marker (letters in any case) starting at `a`. */
  function MarkerLen(t: string, a: nat): (r: Option<nat>)
    ensures r.Some? ==> 5 <= r.value <= 7 && a + r.value <= |t|
    ensures r.Some? ==> t[a] == '(' && LowerChar(t[a + 1]) == 'n' && t[a + r.value - 1] == ')'
  {
    if a + 5 > |t| || t[a] != '(' || LowerChar(t[a + 1]) != 'n' then None
    else
      var b := if t[a + 2] == ' ' then a + 3 else a + 2;
      if b + 3 > |t| || t[b] != '/' then None
      else
        var c := if t[b + 1] == ' ' then b + 2 else b + 1;
        if c + 2 > |t| || LowerChar(t[c]) != 'f' || t[c + 1] != ')' then None
        else Some(c + 2 - a)
  }

  predicate MarkerEndsBy(t: string, a: nat, limit: nat) {
    MarkerLen(t, a).Some? && a + MarkerLen(t, a).value <= limit
  }

  /** The last marker starting before `k` and ending by `limit`: the greedy `(.*)` before the marker. */
  function LastMarker(t: string, limit: nat, k: nat): (r: Option<nat>)
    ensures r.Some? ==> r.value < k && MarkerEndsBy(t, r.value, limit)
    ensures forall a :: (if r.Some? then r.value < a else 0 <= a) && a < k ==> !MarkerEndsBy(t, a, limit)
  {
    if k == 0 then None
    else if MarkerEndsBy(t, k - 1, limit) then Some(k - 1)
    else LastMarker(t, limit, k - 1)
  }

  /** The groups of a successful `/(.*)\(n ?\/ ?f\)(.*)\.(png|jpg|jpeg|gif)$/i` match. */
  datatype NfParts = NfParts(prefix: string, postfix: string, ext: string)

  /** The text from the start of the last line of `t` to its end. */
  function LastLine(t: string): string {
    t[LineStart(t)..]
  }

  /**
   * The pattern matched against one line: the extension is the one the line
   * ends with, and the greedy prefix runs to the last marker that still
   * leaves room for "." and the extension.
   */
  function NfMatchLine(line: string): Option<NfParts> {
    match ExtLen(line)
    case None => None
    case Some(e) => NfSplit(line, |line| - e - 1)
  }

  /** The groups around the last marker that ends by `limit`, where `line[limit]` is the ".". */
  function NfSplit(line: string, limit: nat): Option<NfParts>
    requires limit < |line|
  {
    match LastMarker(line, limit, limit + 1)
    case None => None
    case Some(a) => Some(NfParts(line[..a], line[a + MarkerLen(line, a).value..limit], line[limit + 1..]))
  }

  /**
   * `nfPattern.exec(t)`: `.` matches no line terminator and `$` only the end
   * of the text, so the leftmost match starts at the beginning of the last line.
   */
  function NfMatch(t: string): Option<NfParts> {
    NfMatchLine(LastLine(t))
  }

  /**
   * A match splits the line into prefix, marker, postfix, "." and an image
   * extension, with the marker the last one that fits before the extension.
   */
  lemma NfMatchLineShape(line: string) returns (marker: string)
    requires NfMatchLine(line).Some?
    ensures var p := NfMatchLine(line).value;
      && line == p.prefix + marker + p.postfix + "." + p.ext
      && MarkerLen(line, |p.prefix|) == Some(|marker|)
      && Lower(p.ext) in {"png", "jpg", "jpeg", "gif"}
  {
    var e := ExtLen(line).value;
    marker := NfSplitShape(line, |line| - e - 1);
  }

  lemma NfSplitShape(line: string, limit: nat) returns (marker: string)
    requires limit < |line| && line[limit] == '.'
    requires NfSplit(line, limit).Some?
    ensures var p := NfSplit(line, limit).value;
      && line == p.prefix + marker + p.postfix + "." + p.ext
      && MarkerLen(line, |p.prefix|) == Some(|marker|)
      && p.ext == line[limit + 1..]
  {
    var a := LastMarker(line, limit, limit + 1).value;
    var len := MarkerLen(line, a).value;
    marker := line[a..a + len];
    SplitFive(line, a, a + len, limit);
  }

  lemma SplitFive(t: string, i: nat, j: nat, k: nat)
    requires i <= j <= k < |t| && t[k] == '.'
    ensures t == t[..i] + t[i..j] + t[j..k] + "." + t[k + 1..]
  {
    assert t[k..k + 1] == ".";
    assert t[..k] == t[..i] + t[i..j] + t[j..k];
    assert t == t[..k] + t[k..k + 1] + t[k + 1..];
  }

  /** The extension test on a line carries over to any text ending with it. */
  lemma HasImageExtSuffix(t: string, q: nat)
    requires q <= |t| && HasImageExt(t[q..])
    ensures HasImageExt(t)
  {
    var line := t[q..];
    forall e | e in {"png", "jpg", "jpeg", "gif"} && EndsWithExt(line, e)
      ensures EndsWithExt(t, e)
    {
      assert t[|t| - |e|..] == line[|line| - |e|..];
      assert t[|t| - |e| - 1] == line[|line| - |e| - 1];
    }
  }

  /** An `(n/f)` match implies the plain extension test succeeds too. */
  lemma NfMatchHasExt(t: string)
    requires NfMatch(t).Some?
    ensures HasImageExt(t)
  {
    HasImageExtSuffix(t, LineStart(t));
  }

  // ---------------------------------------------------------------------
  // Layers to widgets
  // ---------------------------------------------------------------------

  /** A layer's `rect`; a missing coordinate is `Null`. */
  datatype Rect = Rect(x: Val, y: Val, width: Val, height: Val)

  /**
   * A layer of the artboard: `kind` is `l.type` ("undefined" when missing),
   * `colorHex` is `l.color["color-hex"]` (`None` when either is missing).
   */
  datatype Layer = Layer(
    kind: string,
    rect: Option<Rect>,
    colorHex: Option<Val>,
    fontSize: Option<Val>,
    fontFace: Option<Val>,
    textAlign: Option<Val>,
    content: Option<string>,
    text: Option<string>,
    name: Option<string>)

  /** The parsed artboard: `layers`, `width` and `height`, each possibly missing. */
  datatype SketchDoc = SketchDoc(layers: Option<seq<Layer>>, width: Option<Val>, height: Option<Val>)

  /** `json.layers || []`. */
  function Layers(doc: SketchDoc): seq<Layer> {
    if doc.layers.Some? then doc.layers.value else []
  }

  /** `v || d` for a size. */
  function OrDefault(v: Option<Val>, d: int): Val {
    if TruthyOpt(v) then v.value else Num(d)
  }

  /** `{ x: 0, y: 0, w: json.width || 320, h: json.height || 240 }`. */
  function Frame(doc: SketchDoc): Dict {
    Dict(["x", "y", "w", "h"],
      map["x" := Num(0), "y" := Num(0), "w" := OrDefault(doc.width, 320), "h" := OrDefault(doc.height, 240)])
  }

  function RootId(screenId: string): string {
    screenId + "_priv." + screenId
  }

  function ContainerId(screenId: string): string {
    screenId + "_priv.container"
  }

  function LayerId(screenId: string, l: Layer, i: nat): string {
    screenId + "_priv." + l.kind + "_" + NatToString(i)
  }

  function LayerIds(screenId: string, layers: seq<Layer>): (r: seq<string>)
    ensures |r| == |layers| && forall i :: 0 <= i < |layers| ==> r[i] == LayerId(screenId, layers[i], i)
  {
    seq(|layers|, i requires 0 <= i < |layers| => LayerId(screenId, layers[i], i))
  }

  function RootWidget(doc: SketchDoc, screenId: string): Widget {
    Widget(RootId(screenId), "Container", "", "", Frame(doc), Empty, "", [], [],
      if |Layers(doc)| > 0 then [ContainerId(screenId)] else [], "sketch", "")
  }

  function ContainerWidget(doc: SketchDoc, screenId: string): Widget {
    Widget(ContainerId(screenId), "Container", "", "", Frame(doc), Empty, "", [], [],
      LayerIds(screenId, Layers(doc)), "sketch", "")
  }

  /** `l.rect ? { x, y, w: width, h: height } : {}`. */
  function LayerLayout(l: Layer): Dict {
    match l.rect
    case None => Empty
    case Some(r) => Dict(["x", "y", "w", "h"], map["x" := r.x, "y" := r.y, "w" := r.width, "h" := r.height])
  }

  function PutIf(d: Dict, k: string, v: Option<Val>): Dict {
    if TruthyOpt(v) then Put(d, k, v.value) else d
  }

  /** The style object: color, fontSize, font and textAlign, each only when truthy. */
  function LayerStyle(l: Layer): Dict {
    PutIf(PutIf(PutIf(PutIf(Empty, "color", l.colorHex), "fontSize", l.fontSize), "font", l.fontFace), "textAlign", l.textAlign)
  }

  /** `l.content || l.text || l.name || ""`. */
  function RawText(l: Layer): string {
    if l.content.Some? && l.content.value != "" then l.content.value
    else if l.text.Some? && l.text.value != "" then l.text.value
    else if l.name.Some? && l.name.value != "" then l.name.value
    else ""
  }

  function KindOf(layerType: string): string {
    if layerType == "text" then "Label" else if layerType == "button" then "Button" else "Container"
  }

  /** The source for an "(n/f)" name: the "f" variant's file name under `/assets/`. */
  function NfSource(p: NfParts): string {
    "/assets/" + ExtractFileName(p.prefix + "f" + p.postfix + "." + p.ext)
  }

  /** The image source a trimmed layer text names, if it names an image. */
  function ImageSrc(trimmed: string): (r: Option<string>)
    ensures r.Some? <==> HasImageExt(trimmed)
    ensures r.Some? ==> StartsWith(r.value, "/assets/")
  {
    match NfMatch(trimmed)
    case Some(p) =>
      NfMatchHasExt(trimmed);
      StartsWithConcat("/assets/", ExtractFileName(p.prefix + "f" + p.postfix + "." + p.ext));
      Some(NfSource(p))
    case None =>
      if HasImageExt(trimmed) then
        StartsWithConcat("/assets/", ExtractFileName(trimmed));
        Some("/assets/" + ExtractFileName(trimmed))
      else None
  }

  /** `safeTrim(l.content || l.text || l.name || "")`. */
  function LayerText(l: Layer): string {
    Trim(RawText(l))
  }

  /** The widget pushed for layer `i`: an Image with no text when its trimmed text names an image. */
  function LayerWidget(screenId: string, l: Layer, i: nat): Widget {
    var src := ImageSrc(LayerText(l));
    Widget(
      LayerId(screenId, l, i),
      if src.Some? then "Image" else KindOf(l.kind),
      if src.Some? then "" else LayerText(l),
      if src.Some? then src.value else "",
      LayerLayout(l), LayerStyle(l), "", [], [], [], "sketch", "")
  }

  /** `xs.map((x, i) => f(x, i))`. */
  function Indexed<A, B>(xs: seq<A>, f: (A, nat) -> B): (r: seq<B>)
    ensures |r| == |xs| && forall i :: 0 <= i < |xs| ==> r[i] == f(xs[i], i)
  {
    seq(|xs|, i requires 0 <= i < |xs| => f(xs[i], i))
  }

  function LayerWidgets(screenId: string, layers: seq<Layer>): (r: seq<Widget>)
    ensures |r| == |layers| && forall i :: 0 <= i < |layers| ==> r[i] == LayerWidget(screenId, layers[i], i)
  {
    Indexed(layers, (l: Layer, i: nat) => LayerWidget(screenId, l, i))
  }

  /** The widget list `parseSketchFile` returns for a parsed artboard. */
  function SketchWidgets(doc: SketchDoc, screenId: string): seq<Widget> {
    [RootWidget(doc, screenId), ContainerWidget(doc, screenId)] + LayerWidgets(screenId, Layers(doc))
  }

  /** A `forEach` loop that pushes `f(x, i)` for each element `x` at index `i`, in order. */
  method PushEach<A, B>(xs: seq<A>, f: (A, nat) -> B) returns (out: seq<B>)
    ensures out == Indexed(xs, f)
  {
    out := [];
    var i := 0;
    while i < |xs|
      invariant 0 <= i <= |xs|
      invariant out == Indexed(xs, f)[..i]
    {
      out := out + [f(xs[i], i)];
      i := i + 1;
    }
  }

  /**
   * `parseSketchFile` after the file is read and parsed: the two containers,
   * then one widget per layer pushed in layer order; `count` is `meta.count`.
   */
  method ParseSketch(doc: SketchDoc, screenId: string) returns (widgets: seq<Widget>, count: nat)
    ensures widgets == SketchWidgets(doc, screenId)
    ensures count == |widgets| == |Layers(doc)| + 2
  {
    var layerWidgets := PushEach(Layers(doc), (l: Layer, i: nat) => LayerWidget(screenId, l, i));
    widgets := [RootWidget(doc, screenId), ContainerWidget(doc, screenId)] + layerWidgets;
    count := |widgets|;
  }

  // ---------------------------------------------------------------------
  // Properties
  // ---------------------------------------------------------------------

  /** The ids of the output: the root's, the second container's, then each layer's. */
  lemma SketchIds(doc: SketchDoc, screenId: string)
    ensures var ws := SketchWidgets(doc, screenId);
      && |ws| == |Layers(doc)| + 2
      && ws[0].id == RootId(screenId) && ws[1].id == ContainerId(screenId)
      && forall j :: 2 <= j < |ws| ==> ws[j].id == LayerId(screenId, Layers(doc)[j - 2], j - 2)
  {
  }

  /** Every id listed by the root and by the second container names a widget of the output. */
  lemma SketchChildrenResolve(doc: SketchDoc, screenId: string)
    ensures var ws := SketchWidgets(doc, screenId);
      forall k, c :: 0 <= k < 2 && c in ws[k].children ==> exists j :: 0 <= j < |ws| && ws[j].id == c
  {
    var ws := SketchWidgets(doc, screenId);
    var layers := Layers(doc);
    SketchIds(doc, screenId);
    assert ws[0].children == if |layers| > 0 then [ContainerId(screenId)] else [];
    assert ws[1].children == LayerIds(screenId, layers);
    forall k, c | 0 <= k < 2 && c in ws[k].children
      ensures exists j :: 0 <= j < |ws| && ws[j].id == c
    {
      if k == 0 {
        assert ws[1].id == c;
      } else {
        var i :| 0 <= i < |layers| && LayerIds(screenId, layers)[i] == c;
        assert ws[i + 2].id == c;
      }
    }
  }

  /** Two strings ending in "_" and an underscore-free tail are equal only if their tails are. */
  lemma SameTail(a: string, n: string, b: string, m: string)
    requires forall i :: 0 <= i < |n| ==> n[i] != '_'
    requires forall i :: 0 <= i < |m| ==> m[i] != '_'
    requires a + "_" + n == b + "_" + m
    ensures n == m
  {
    if |n| <= |m| {
      ShorterTail(a, n, b, m);
    } else {
      ShorterTail(b, m, a, n);
    }
  }

  lemma ShorterTail(a: string, n: string, b: string, m: string)
    requires |n| <= |m|
    requires forall i :: 0 <= i < |m| ==> m[i] != '_'
    requires a + "_" + n == b + "_" + m
    ensures n == m
  {
    var x := b + "_" + m;
    assert x[|x| - |n| - 1] == '_';
    assert n == x[|x| - |n|..] == m;
  }

  /** Layer ids at two different positions differ, whatever the layer types. */
  lemma LayerIdInjective(screenId: string, l1: Layer, i: nat, l2: Layer, j: nat)
    requires i != j
    ensures LayerId(screenId, l1, i) != LayerId(screenId, l2, j)
  {
    if LayerId(screenId, l1, i) == LayerId(screenId, l2, j) {
      SameTail(screenId + "_priv." + l1.kind, NatToString(i), screenId + "_priv." + l2.kind, NatToString(j));
      NatToStringInjective(i, j);
    }
  }

  /** Layer ids are pairwise distinct. */
  lemma LayerIdsUnique(screenId: string, layers: seq<Layer>)
    ensures var ids := LayerIds(screenId, layers);
      forall i, j :: 0 <= i < j < |ids| ==> ids[i] != ids[j]
  {
    var ids := LayerIds(screenId, layers);
    forall i, j | 0 <= i < j < |ids|
      ensures ids[i] != ids[j]
    {
      LayerIdInjective(screenId, layers[i], i, layers[j], j);
    }
  }

  /** The layer widgets' ids are pairwise distinct, whatever the layer types. */
  lemma LayerIdsDistinct(doc: SketchDoc, screenId: string)
    ensures var ws := SketchWidgets(doc, screenId);
      forall i, j :: 2 <= i < j < |ws| ==> ws[i].id != ws[j].id
  {
    var ws := SketchWidgets(doc, screenId);
    var ids := LayerIds(screenId, Layers(doc));
    SketchIds(doc, screenId);
    LayerIdsUnique(screenId, Layers(doc));
    assert forall j :: 2 <= j < |ws| ==> ws[j].id == ids[j - 2];
  }

  /** Without a truthy `width`/`height` both containers are 320 by 240; otherwise they take the artboard's size. */
  lemma SketchFrameDefaults(doc: SketchDoc, screenId: string)
    ensures var ws := SketchWidgets(doc, screenId);
      forall k :: 0 <= k < 2 ==>
        && Get(ws[k].layout, "w") == Some(if TruthyOpt(doc.width) then doc.width.value else Num(320))
        && Get(ws[k].layout, "h") == Some(if TruthyOpt(doc.height) then doc.height.value else Num(240))
        && Get(ws[k].layout, "x") == Some(Num(0)) && Get(ws[k].layout, "y") == Some(Num(0))
  {
  }

  /** The style object holds exactly the truthy ones among color, fontSize, font and textAlign. */
  lemma LayerStyleCopies(l: Layer)
    ensures Get(LayerStyle(l), "color") == (if TruthyOpt(l.colorHex) then l.colorHex else None)
    ensures Get(LayerStyle(l), "fontSize") == (if TruthyOpt(l.fontSize) then l.fontSize else None)
    ensures Get(LayerStyle(l), "font") == (if TruthyOpt(l.fontFace) then l.fontFace else None)
    ensures Get(LayerStyle(l), "textAlign") == (if TruthyOpt(l.textAlign) then l.textAlign else None)
    ensures forall k :: k !in {"color", "fontSize", "font", "textAlign"} ==> Get(LayerStyle(l), k) == None
  {
  }

  /**
   * A layer whose trimmed text ends in an image extension becomes an Image
   * with no text and an `/assets/` source; any other layer keeps its trimmed
   * text and is a Label for "text", a Button for "button" and a Container
   * otherwise.
   */
  lemma LayerTypeRules(screenId: string, l: Layer, i: nat)
    ensures var w := LayerWidget(screenId, l, i);
      && (HasImageExt(LayerText(l)) ==> w.kind == "Image" && w.text == "" && StartsWith(w.src, "/assets/"))
      && (!HasImageExt(LayerText(l)) ==> w.kind == KindOf(l.kind) && w.text == LayerText(l) && w.src == "")
      && KindOf(l.kind) in {"Label", "Button", "Container"}
  {
    TrimIdempotent(RawText(l));
  }

  /** The extension group of a match holds letters only. */
  lemma NfExtPlain(t: string)
    requires NfMatch(t).Some?
    ensures NoSeparators(NfMatch(t).value.ext)
  {
    var _ := NfMatchLineShape(LastLine(t));
    LowerExtPlain(NfMatch(t).value.ext);
  }

  lemma LowerExtPlain(x: string)
    requires Lower(x) in {"png", "jpg", "jpeg", "gif"}
    ensures NoSeparators(x)
  {
    assert forall j :: 0 <= j < |x| ==> LowerChar(x[j]) == Lower(x)[j];
  }

  lemma FVariantSource(p: NfParts)
    requires NoSeparators(p.postfix) && NoSeparators(p.ext)
    ensures NfSource(p) == "/assets/" + ExtractFileName(p.prefix) + "f" + p.postfix + "." + p.ext
  {
    var tail := "f" + p.postfix + "." + p.ext;
    assert NoSeparators(tail);
    assert p.prefix + "f" + p.postfix + "." + p.ext == p.prefix + tail;
    ExtractFileNameAppend(p.prefix, tail);
  }

  /**
   * For an "(n/f)" name the source is the "f" variant: the prefix's file
   * name, then "f", the postfix and the extension.
   */
  lemma NfSourceIsFVariant(t: string)
    requires NfMatch(t).Some?
    requires NoSeparators(NfMatch(t).value.postfix)
    ensures var p := NfMatch(t).value;
      ImageSrc(t) == Some("/assets/" + ExtractFileName(p.prefix) + "f" + p.postfix + "." + p.ext)
  {
    NfExtPlain(t);
    FVariantSource(NfMatch(t).value);
  }
}
