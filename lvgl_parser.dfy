/**
 * The LVGL extractor: the matches of the creation calls and of the eight
 * setter patterns found in a C file become widget records, and every
 * creation whose parent expression names a created variable links the new
 * widget into that parent's `children`.
 *
 * The regular-expression scans are not modelled: their matches, in text
 * order, are the input.
 */
module LvglParser {
  import opened Common

  // ---------------------------------------------------------------------
  // Matches
  // ---------------------------------------------------------------------

  /** One `<var> = lv_<fn>_create(<parent>)` match. */
  datatype Create = Create(varName: string, fn: string, parent: string)

  /** One setter match: the variable it names and the value it carries. */
  datatype Setter =
    | SetSrc(target: string, file: string)
    | SetText(target: string, text: string)
    | SetPos(target: string, x: nat, y: nat)
    | SetSize(target: string, w: nat, h: nat)
    | SetBgColor(target: string, color: string)
    | SetFont(target: string, font: string)
    | SetBorderColor(target: string, color: string)
    | SetBorderWidth(target: string, width: nat)

  /**
   * All matches of one file, one list per pattern in text order; the
   * numbers are the `parseInt` values of the digit groups.
   */
  datatype Matches = Matches(
    creates: seq<Create>,
    srcs: seq<(string, string)>,
    texts: seq<(string, string)>,
    positions: seq<(string, nat, nat)>,
    sizes: seq<(string, nat, nat)>,
    bgColors: seq<(string, string)>,
    fonts: seq<(string, string)>,
    borderColors: seq<(string, string)>,
    borderWidths: seq<(string, nat)>)

  /** `typeMap[m[2]] || m[2]`. */
  function TypeOf(fn: string): (r: string)
    ensures fn !in {"btn", "label", "img", "obj", "imgseqopt"} ==> r == fn
  {
    match fn
    case "btn" => "Button"
    case "label" => "Label"
    case "img" => "Image"
    case "obj" => "Container"
    case "imgseqopt" => "ImageSeqOpt"
    case _ => fn
  }

  /** The record pushed for a creation match. */
  function NewWidget(c: Create): Widget {
    Widget(c.varName, TypeOf(c.fn), "", "", Empty, Empty, "", [], [], [], "lvgl", c.parent)
  }

  // ---------------------------------------------------------------------
  // The creation loop
  // ---------------------------------------------------------------------

  /** The records pushed for the creation matches, in order. */
  function Created(cs: seq<Create>): (r: seq<Widget>)
    ensures |r| == |cs| && forall i :: 0 <= i < |cs| ==> r[i] == NewWidget(cs[i])
  {
    if cs == [] then [] else Created(cs[..|cs| - 1]) + [NewWidget(cs[|cs| - 1])]
  }

  /** `widgetById`: each variable maps to the index of its latest creation. */
  function IndexOf(cs: seq<Create>): (r: map<string, nat>)
    ensures forall v :: v in r ==> r[v] < |cs|
  {
    if cs == [] then map[] else IndexOf(cs[..|cs| - 1])[cs[|cs| - 1].varName := |cs| - 1]
  }

  /** `Object.keys(widgetById)`: the variables in order of first creation. */
  function KeyOrder(cs: seq<Create>): seq<string> {
    if cs == [] then []
    else
      var keys := KeyOrder(cs[..|cs| - 1]);
      if cs[|cs| - 1].varName in keys then keys else keys + [cs[|cs| - 1].varName]
  }

  /** An index map into a list of `n` records that sends different variables to different records. */
  predicate ValidIndex(byId: map<string, nat>, n: nat) {
    && (forall v :: v in byId ==> byId[v] < n)
    && (forall v, u :: v in byId && u in byId && byId[v] == byId[u] ==> v == u)
  }

  /** `widgetById` sends different variables to different records of the list. */
  lemma {:induction false} IndexOfValid(cs: seq<Create>)
    ensures ValidIndex(IndexOf(cs), |cs|)
  {
    if cs != [] {
      IndexOfValid(cs[..|cs| - 1]);
    }
  }

  /** `widgetById[v]` is the latest creation of `v`. */
  lemma {:induction false} IndexOfLatest(cs: seq<Create>, v: string)
    requires v in IndexOf(cs)
    ensures IndexOf(cs)[v] < |cs| && cs[IndexOf(cs)[v]].varName == v
    ensures forall j :: IndexOf(cs)[v] < j < |cs| ==> cs[j].varName != v
  {
    var init := cs[..|cs| - 1];
    if cs[|cs| - 1].varName != v {
      IndexOfLatest(init, v);
    }
  }

  /** Every created variable is a key of `widgetById`, and `Object.keys` lists exactly those keys. */
  lemma {:induction false} IndexOfKeys(cs: seq<Create>)
    ensures forall i :: 0 <= i < |cs| ==> cs[i].varName in IndexOf(cs)
    ensures forall v :: v in KeyOrder(cs) <==> v in IndexOf(cs)
  {
    if cs != [] {
      var init := cs[..|cs| - 1];
      IndexOfKeys(init);
      forall i | 0 <= i < |cs|
        ensures cs[i].varName in IndexOf(cs)
      {
        if i < |init| {
          assert init[i] == cs[i];
        }
      }
    }
  }

  /** The keys of `widgetById` are distinct. */
  lemma {:induction false} KeyOrderDistinct(cs: seq<Create>)
    ensures forall a, b :: 0 <= a < b < |KeyOrder(cs)| ==> KeyOrder(cs)[a] != KeyOrder(cs)[b]
  {
    if cs != [] {
      KeyOrderDistinct(cs[..|cs| - 1]);
    }
  }

  // ---------------------------------------------------------------------
  // The setter loops
  // ---------------------------------------------------------------------

  /** A widget property a setter can write. */
  datatype Field = TextField | SrcField | LayoutField(key: string) | StyleField(key: string)

  /** The value of a property; a missing `src`, layout or style entry is `None`. */
  function Read(w: Widget, f: Field): Option<Val> {
    match f
    case TextField => Some(Str(w.text))
    case SrcField => if w.src == "" then None else Some(Str(w.src))
    case LayoutField(k) => Get(w.layout, k)
    case StyleField(k) => Get(w.style, k)
  }

  /** The value a setter writes to property `f` of a widget of type `kind`, if it writes that property. */
  function Writes(s: Setter, kind: string, f: Field): Option<Val> {
    match s
    case SetSrc(_, file) => if f == SrcField && kind == "Image" then Some(Str("/images/" + file + ".png")) else None
    case SetText(_, t) => if f == TextField then Some(Str(t)) else None
    case SetPos(_, x, y) =>
      if f == LayoutField("x") then Some(Num(x)) else if f == LayoutField("y") then Some(Num(y)) else None
    case SetSize(_, w, h) =>
      if f == LayoutField("w") then Some(Num(w)) else if f == LayoutField("h") then Some(Num(h)) else None
    case SetBgColor(_, c) => if f == StyleField("bgColor") then Some(Str(c)) else None
    case SetFont(_, font) => if f == StyleField("font") then Some(Str(font)) else None
    case SetBorderColor(_, c) => if f == StyleField("borderColor") then Some(Str(c)) else None
    case SetBorderWidth(_, n) => if f == StyleField("borderWidth") then Some(Num(n)) else None
  }

  /** The body of one setter loop for the widget the match names. */
  function ApplySetter(w: Widget, s: Setter): Widget {
    match s
    case SetSrc(_, file) => if w.kind == "Image" then w.(src := "/images/" + file + ".png") else w
    case SetText(_, t) => w.(text := t)
    case SetPos(_, x, y) => w.(layout := Put(Put(w.layout, "x", Num(x)), "y", Num(y)))
    case SetSize(_, a, b) => w.(layout := Put(Put(w.layout, "w", Num(a)), "h", Num(b)))
    case SetBgColor(_, c) => w.(style := Put(w.style, "bgColor", Str(c)))
    case SetFont(_, font) => w.(style := Put(w.style, "font", Str(font)))
    case SetBorderColor(_, c) => w.(style := Put(w.style, "borderColor", Str(c)))
    case SetBorderWidth(_, n) => w.(style := Put(w.style, "borderWidth", Num(n)))
  }

  /** Everything but the written properties (and `children`, which no setter touches) is kept. */
  predicate SameShell(a: Widget, b: Widget) {
    && a.id == b.id && a.kind == b.kind && a.parent == b.parent && a.source == b.source
    && a.events == b.events && a.tailwind == b.tailwind && a.assets == b.assets && a.children == b.children
  }

  /**
   * A setter writes exactly the properties `Writes` names, with those values,
   * and leaves every other property and the rest of the record as they were.
   */
  lemma ApplySetterReads(w: Widget, s: Setter)
    ensures SameShell(ApplySetter(w, s), w)
    ensures forall f :: Read(ApplySetter(w, s), f) == if Writes(s, w.kind, f).Some? then Writes(s, w.kind, f) else Read(w, f)
  {
    forall f
      ensures Read(ApplySetter(w, s), f) == if Writes(s, w.kind, f).Some? then Writes(s, w.kind, f) else Read(w, f)
    {
      if s.SetSrc? && f == SrcField && w.kind == "Image" {
        assert ApplySetter(w, s).src[0] == '/';
      }
    }
  }

  /** One iteration of a setter loop: `const w = widgetById[id]; if (w) ...`. */
  function Step(ws: seq<Widget>, byId: map<string, nat>, s: Setter): (r: seq<Widget>)
    requires ValidIndex(byId, |ws|)
    ensures |r| == |ws|
  {
    if s.target in byId then ws[byId[s.target] := ApplySetter(ws[byId[s.target]], s)] else ws
  }

  /** The setter matches applied in order. */
  function ApplySetters(ws: seq<Widget>, byId: map<string, nat>, ss: seq<Setter>): (r: seq<Widget>)
    requires ValidIndex(byId, |ws|)
    ensures |r| == |ws|
  {
    if ss == [] then ws else Step(ApplySetters(ws, byId, ss[..|ss| - 1]), byId, ss[|ss| - 1])
  }

  /** Running two lists of matches one after the other is running their concatenation. */
  lemma {:induction false} ApplySettersAppend(ws: seq<Widget>, byId: map<string, nat>, a: seq<Setter>, b: seq<Setter>)
    requires ValidIndex(byId, |ws|)
    ensures ApplySetters(ws, byId, a + b) == ApplySetters(ApplySetters(ws, byId, a), byId, b)
  {
    if b == [] {
      assert a + b == a;
    } else {
      ApplySettersAppend(ws, byId, a, b[..|b| - 1]);
      assert (a + b)[..|a + b| - 1] == a + b[..|b| - 1];
    }
  }

  /** One setter loop of the source. */
  method ApplyPhase(ws: seq<Widget>, byId: map<string, nat>, ss: seq<Setter>) returns (r: seq<Widget>)
    requires ValidIndex(byId, |ws|)
    ensures r == ApplySetters(ws, byId, ss)
  {
    r := ws;
    var i := 0;
    while i < |ss|
      invariant 0 <= i <= |ss|
      invariant r == ApplySetters(ws, byId, ss[..i])
    {
      assert ss[..i + 1][..i] == ss[..i];
      var s := ss[i];
      if s.target in byId {
        var k := byId[s.target];
        r := r[k := ApplySetter(r[k], s)];
      }
      i := i + 1;
    }
    assert ss[..i] == ss;
  }

  function SrcSetters(xs: seq<(string, string)>): seq<Setter> {
    seq(|xs|, i requires 0 <= i < |xs| => SetSrc(xs[i].0, xs[i].1))
  }

  function TextSetters(xs: seq<(string, string)>): seq<Setter> {
    seq(|xs|, i requires 0 <= i < |xs| => SetText(xs[i].0, xs[i].1))
  }

  function PosSetters(xs: seq<(string, nat, nat)>): seq<Setter> {
    seq(|xs|, i requires 0 <= i < |xs| => SetPos(xs[i].0, xs[i].1, xs[i].2))
  }

  function SizeSetters(xs: seq<(string, nat, nat)>): seq<Setter> {
    seq(|xs|, i requires 0 <= i < |xs| => SetSize(xs[i].0, xs[i].1, xs[i].2))
  }

  function BgColorSetters(xs: seq<(string, string)>): seq<Setter> {
    seq(|xs|, i requires 0 <= i < |xs| => SetBgColor(xs[i].0, xs[i].1))
  }

  function FontSetters(xs: seq<(string, string)>): seq<Setter> {
    seq(|xs|, i requires 0 <= i < |xs| => SetFont(xs[i].0, xs[i].1))
  }

  function BorderColorSetters(xs: seq<(string, string)>): seq<Setter> {
    seq(|xs|, i requires 0 <= i < |xs| => SetBorderColor(xs[i].0, xs[i].1))
  }

  function BorderWidthSetters(xs: seq<(string, nat)>): seq<Setter> {
    seq(|xs|, i requires 0 <= i < |xs| => SetBorderWidth(xs[i].0, xs[i].1))
  }

  /** The setter matches in the order the eight loops visit them. */
  function SetterList(m: Matches): seq<Setter> {
    SrcSetters(m.srcs) + TextSetters(m.texts) + PosSetters(m.positions) + SizeSetters(m.sizes)
    + BgColorSetters(m.bgColors) + FontSetters(m.fonts) + BorderColorSetters(m.borderColors)
    + BorderWidthSetters(m.borderWidths)
  }

  // ---------------------------------------------------------------------
  // The parent links
  // ---------------------------------------------------------------------

  /** `Object.keys(widgetById).find(k => parent.includes(k))`, as an index into the keys. */
  function FirstKey(keys: seq<string>, parent: string): (r: Option<nat>)
    ensures r.Some? ==> r.value < |keys| && Contains(parent, keys[r.value])
    ensures r.Some? ==> forall j :: 0 <= j < r.value ==> !Contains(parent, keys[j])
    ensures r.None? ==> forall j :: 0 <= j < |keys| ==> !Contains(parent, keys[j])
  {
    Find(keys, (k: string) => Contains(parent, k))
  }

  /** The key a creation links to: none for an empty or `NULL` parent, else the first key its parent contains. */
  function LinkKey(keys: seq<string>, c: Create): Option<string> {
    if c.parent != "" && c.parent != "NULL" then
      match FirstKey(keys, c.parent)
      case Some(j) => Some(keys[j])
      case None => None
    else None
  }

  /** One `parentLinks` entry: the child's id is pushed onto the parent widget's `children`. */
  function Link(ws: seq<Widget>, byId: map<string, nat>, keys: seq<string>, c: Create): (r: seq<Widget>)
    requires ValidIndex(byId, |ws|)
    ensures |r| == |ws|
  {
    match LinkKey(keys, c)
    case None => ws
    case Some(k) =>
      if k in byId && c.varName in byId then
        var p := byId[k];
        ws[p := ws[p].(children := ws[p].children + [ws[byId[c.varName]].id])]
      else ws
  }

  /** The `parentLinks.forEach` loop. */
  function LinkAll(ws: seq<Widget>, byId: map<string, nat>, keys: seq<string>, cs: seq<Create>): (r: seq<Widget>)
    requires ValidIndex(byId, |ws|)
    ensures |r| == |ws|
  {
    if cs == [] then ws else Link(LinkAll(ws, byId, keys, cs[..|cs| - 1]), byId, keys, cs[|cs| - 1])
  }

  // ---------------------------------------------------------------------
  // parseLvglFile
  // ---------------------------------------------------------------------

  /** The `raw` list `parseLvglFile` returns for the matches of a file. */
  function LvglRaw(m: Matches): (r: seq<Widget>)
    ensures |r| == |m.creates|
  {
    var cs := m.creates;
    IndexOfValid(cs);
    LinkAll(ApplySetters(Created(cs), IndexOf(cs), SetterList(m)), IndexOf(cs), KeyOrder(cs), cs)
  }

  /**
   * The creation loop: each match pushes a new record and points
   * `widgetById` at it; a variable seen for the first time becomes the next key.
   */
  method CreatePhase(cs: seq<Create>) returns (widgets: seq<Widget>, byId: map<string, nat>, keys: seq<string>)
    ensures widgets == Created(cs) && byId == IndexOf(cs) && keys == KeyOrder(cs)
  {
    widgets, byId, keys := [], map[], [];
    var i := 0;
    while i < |cs|
      invariant 0 <= i <= |cs|
      invariant widgets == Created(cs[..i])
      invariant byId == IndexOf(cs[..i])
      invariant keys == KeyOrder(cs[..i])
    {
      assert cs[..i + 1][..i] == cs[..i];
      IndexOfKeys(cs[..i]);
      var c := cs[i];
      widgets := widgets + [NewWidget(c)];
      if c.varName !in byId {
        keys := keys + [c.varName];
      }
      byId := byId[c.varName := i];
      i := i + 1;
    }
    assert cs[..i] == cs;
  }

  /** The link loop over the creation matches. */
  method LinkPhase(ws: seq<Widget>, byId: map<string, nat>, keys: seq<string>, cs: seq<Create>) returns (r: seq<Widget>)
    requires ValidIndex(byId, |ws|)
    ensures r == LinkAll(ws, byId, keys, cs)
  {
    r := ws;
    var j := 0;
    while j < |cs|
      invariant 0 <= j <= |cs|
      invariant r == LinkAll(ws, byId, keys, cs[..j])
    {
      assert cs[..j + 1][..j] == cs[..j];
      var c := cs[j];
      var k := LinkKey(keys, c);
      if k.Some? && k.value in byId && c.varName in byId {
        var p := byId[k.value];
        r := r[p := r[p].(children := r[p].children + [r[byId[c.varName]].id])];
      }
      j := j + 1;
    }
    assert cs[..j] == cs;
  }

  /**
   * `parseLvglFile(code)`: the creation loop, the eight setter loops and the
   * link loop; `count` is `meta.count`.
   */
  method ParseLvgl(m: Matches) returns (raw: seq<Widget>, count: nat)
    ensures raw == LvglRaw(m)
    ensures count == |raw| == |m.creates|
  {
    var widgets, byId, keys := CreatePhase(m.creates);
    IndexOfValid(m.creates);
    var w0 := widgets;
    widgets := ApplyPhase(widgets, byId, SrcSetters(m.srcs));
    widgets := ApplyPhase(widgets, byId, TextSetters(m.texts));
    widgets := ApplyPhase(widgets, byId, PosSetters(m.positions));
    widgets := ApplyPhase(widgets, byId, SizeSetters(m.sizes));
    widgets := ApplyPhase(widgets, byId, BgColorSetters(m.bgColors));
    widgets := ApplyPhase(widgets, byId, FontSetters(m.fonts));
    widgets := ApplyPhase(widgets, byId, BorderColorSetters(m.borderColors));
    widgets := ApplyPhase(widgets, byId, BorderWidthSetters(m.borderWidths));
    SetterListRuns(w0, byId, m);
    raw := LinkPhase(widgets, byId, keys, m.creates);
    count := |raw|;
  }

  /** The eight loops in a row run the whole setter list. */
  lemma SetterListRuns(ws: seq<Widget>, byId: map<string, nat>, m: Matches)
    requires ValidIndex(byId, |ws|)
    ensures ApplySetters(ws, byId, SetterList(m))
         == ApplySetters(ApplySetters(ApplySetters(ApplySetters(ApplySetters(ApplySetters(ApplySetters(ApplySetters(
              ws, byId, SrcSetters(m.srcs)), byId, TextSetters(m.texts)), byId, PosSetters(m.positions)),
              byId, SizeSetters(m.sizes)), byId, BgColorSetters(m.bgColors)), byId, FontSetters(m.fonts)),
              byId, BorderColorSetters(m.borderColors)), byId, BorderWidthSetters(m.borderWidths))
  {
    var l1 := SrcSetters(m.srcs);
    var l2 := l1 + TextSetters(m.texts);
    var l3 := l2 + PosSetters(m.positions);
    var l4 := l3 + SizeSetters(m.sizes);
    var l5 := l4 + BgColorSetters(m.bgColors);
    var l6 := l5 + FontSetters(m.fonts);
    var l7 := l6 + BorderColorSetters(m.borderColors);
    ApplySettersAppend(ws, byId, l1, TextSetters(m.texts));
    ApplySettersAppend(ws, byId, l2, PosSetters(m.positions));
    ApplySettersAppend(ws, byId, l3, SizeSetters(m.sizes));
    ApplySettersAppend(ws, byId, l4, BgColorSetters(m.bgColors));
    ApplySettersAppend(ws, byId, l5, FontSetters(m.fonts));
    ApplySettersAppend(ws, byId, l6, BorderColorSetters(m.borderColors));
    ApplySettersAppend(ws, byId, l7, BorderWidthSetters(m.borderWidths));
  }

  // ---------------------------------------------------------------------
  // What the setter loops do
  // ---------------------------------------------------------------------

  /** No setter changes a record's id, type, parent, source, events or children. */
  lemma {:induction false} ApplySettersShell(ws: seq<Widget>, byId: map<string, nat>, ss: seq<Setter>)
    requires ValidIndex(byId, |ws|)
    ensures forall i :: 0 <= i < |ws| ==> SameShell(ApplySetters(ws, byId, ss)[i], ws[i])
  {
    if ss != [] {
      var prev := ApplySetters(ws, byId, ss[..|ss| - 1]);
      ApplySettersShell(ws, byId, ss[..|ss| - 1]);
      var s := ss[|ss| - 1];
      if s.target in byId {
        ApplySetterReads(prev[byId[s.target]], s);
      }
    }
  }

  /** A record no variable points at (an earlier creation of a reused name) is never written. */
  lemma {:induction false} ApplySettersSkip(ws: seq<Widget>, byId: map<string, nat>, ss: seq<Setter>, i: nat)
    requires ValidIndex(byId, |ws|) && i < |ws|
    requires forall v :: v in byId ==> byId[v] != i
    ensures ApplySetters(ws, byId, ss)[i] == ws[i]
  {
    if ss != [] {
      ApplySettersSkip(ws, byId, ss[..|ss| - 1], i);
    }
  }

  /** The value of property `f` left by the last match naming `v` that writes `f`, if any. */
  function LastWrite(ss: seq<Setter>, v: string, kind: string, f: Field): Option<Val> {
    if ss == [] then None
    else
      var s := ss[|ss| - 1];
      if s.target == v && Writes(s, kind, f).Some? then Writes(s, kind, f) else LastWrite(ss[..|ss| - 1], v, kind, f)
  }

  /**
   * The last setter wins: after the setter loops, each property of the
   * record `v` points at holds the value of the last match that names `v`
   * and writes that property, or its value before the loops when none does.
   */
  lemma {:induction false} SettersLastWins(ws: seq<Widget>, byId: map<string, nat>, ss: seq<Setter>, v: string, f: Field)
    requires ValidIndex(byId, |ws|) && v in byId
    ensures var i := byId[v];
      Read(ApplySetters(ws, byId, ss)[i], f)
      == if LastWrite(ss, v, ws[i].kind, f).Some? then LastWrite(ss, v, ws[i].kind, f) else Read(ws[i], f)
  {
    if ss != [] {
      var i := byId[v];
      var init := ss[..|ss| - 1];
      var s := ss[|ss| - 1];
      var prev := ApplySetters(ws, byId, init);
      SettersLastWins(ws, byId, init, v, f);
      if s.target == v {
        ApplySettersShell(ws, byId, init);
        ApplySetterReads(prev[i], s);
      }
    }
  }

  /** A match naming a variable that was never created can be dropped: it changes nothing. */
  lemma UnknownSetterIgnored(ws: seq<Widget>, byId: map<string, nat>, a: seq<Setter>, s: Setter, b: seq<Setter>)
    requires ValidIndex(byId, |ws|) && s.target !in byId
    ensures ApplySetters(ws, byId, a + [s] + b) == ApplySetters(ws, byId, a + b)
  {
    ApplySettersAppend(ws, byId, a + [s], b);
    ApplySettersAppend(ws, byId, a, b);
    assert (a + [s])[..|a + [s]| - 1] == a;
  }

  /** A record's `src`, when set, is `/images/<name>.png`, and only Image records have one. */
  ghost predicate SrcOnImage(w: Widget) {
    w.src != "" ==> w.kind == "Image" && StartsWith(w.src, "/images/") && EndsWith(w.src, ".png")
  }

  /** Layout entries and `borderWidth` are always non-negative numbers. */
  ghost predicate NonNegative(w: Widget) {
    && (forall k :: Get(w.layout, k).Some? ==> Get(w.layout, k).value.Num? && Get(w.layout, k).value.n >= 0)
    && (Get(w.style, "borderWidth").Some? ==> Get(w.style, "borderWidth").value.Num? && Get(w.style, "borderWidth").value.n >= 0)
  }

  lemma ApplySetterKeeps(w: Widget, s: Setter)
    requires SrcOnImage(w) && NonNegative(w)
    ensures SrcOnImage(ApplySetter(w, s)) && NonNegative(ApplySetter(w, s))
  {
    ApplySetterReads(w, s);
    var r := ApplySetter(w, s);
    if s.SetSrc? && w.kind == "Image" {
      StartsWithConcat("/images/", s.file + ".png");
      EndsWithConcat("/images/" + s.file, ".png");
      assert r.src == "/images/" + (s.file + ".png") == ("/images/" + s.file) + ".png";
    }
    forall k | Get(r.layout, k).Some?
      ensures Get(r.layout, k).value.Num? && Get(r.layout, k).value.n >= 0
    {
      assert Read(r, LayoutField(k)) == Get(r.layout, k);
    }
    assert Read(r, StyleField("borderWidth")) == Get(r.style, "borderWidth");
  }

  /** The setter loops keep every record's `src` on Images only and its numbers non-negative. */
  lemma {:induction false} ApplySettersKeep(ws: seq<Widget>, byId: map<string, nat>, ss: seq<Setter>)
    requires ValidIndex(byId, |ws|)
    requires forall i :: 0 <= i < |ws| ==> SrcOnImage(ws[i]) && NonNegative(ws[i])
    ensures forall i :: 0 <= i < |ws| ==> SrcOnImage(ApplySetters(ws, byId, ss)[i]) && NonNegative(ApplySetters(ws, byId, ss)[i])
  {
    if ss != [] {
      ApplySettersKeep(ws, byId, ss[..|ss| - 1]);
      var prev := ApplySetters(ws, byId, ss[..|ss| - 1]);
      var s := ss[|ss| - 1];
      if s.target in byId {
        var k := byId[s.target];
        assert SrcOnImage(prev[k]) && NonNegative(prev[k]);
        ApplySetterKeeps(prev[k], s);
      }
    }
  }

  // ---------------------------------------------------------------------
  // What the link loop does
  // ---------------------------------------------------------------------

  /** The link loop changes nothing but `children`. */
  lemma {:induction false} LinkAllKeeps(ws: seq<Widget>, byId: map<string, nat>, keys: seq<string>, cs: seq<Create>)
    requires ValidIndex(byId, |ws|)
    ensures forall i :: 0 <= i < |ws| ==> LinkAll(ws, byId, keys, cs)[i] == ws[i].(children := LinkAll(ws, byId, keys, cs)[i].children)
  {
    if cs != [] {
      LinkAllKeeps(ws, byId, keys, cs[..|cs| - 1]);
    }
  }

  /** A record no variable points at gets no children. */
  lemma {:induction false} LinkAllSkip(ws: seq<Widget>, byId: map<string, nat>, keys: seq<string>, cs: seq<Create>, i: nat)
    requires ValidIndex(byId, |ws|) && i < |ws|
    requires forall v :: v in byId ==> byId[v] != i
    ensures LinkAll(ws, byId, keys, cs)[i] == ws[i]
  {
    if cs != [] {
      LinkAllSkip(ws, byId, keys, cs[..|cs| - 1], i);
    }
  }

  /** The variables, in creation order, whose creation links them to the key `v`. */
  function ChildNames(keys: seq<string>, cs: seq<Create>, v: string): seq<string> {
    if cs == [] then []
    else ChildNames(keys, cs[..|cs| - 1], v) + (if LinkKey(keys, cs[|cs| - 1]) == Some(v) then [cs[|cs| - 1].varName] else [])
  }

  /**
   * The link loop appends to the record `v` points at the names of the
   * creations that link to `v`, in creation order, and nothing else.
   */
  lemma {:induction false} LinkAllChildren(ws: seq<Widget>, byId: map<string, nat>, keys: seq<string>, cs: seq<Create>, v: string)
    requires ValidIndex(byId, |ws|) && v in byId
    requires forall u :: u in byId ==> ws[byId[u]].id == u
    requires forall i :: 0 <= i < |cs| ==> cs[i].varName in byId
    requires forall k :: k in keys ==> k in byId
    ensures LinkAll(ws, byId, keys, cs)[byId[v]].children == ws[byId[v]].children + ChildNames(keys, cs, v)
  {
    if cs != [] {
      var init := cs[..|cs| - 1];
      var c := cs[|cs| - 1];
      assert forall i :: 0 <= i < |init| ==> init[i] == cs[i];
      LinkAllChildren(ws, byId, keys, init, v);
      var prev := LinkAll(ws, byId, keys, init);
      LinkAllKeeps(ws, byId, keys, init);
      forall u | u in byId
        ensures prev[byId[u]].id == u
      {
        assert prev[byId[u]].id == ws[byId[u]].id;
      }
      LinkChildren(prev, byId, keys, c, v);
    }
  }

  /** One link step appends `c`'s name to the record of `v` exactly when `c` links to `v`. */
  lemma LinkChildren(ws: seq<Widget>, byId: map<string, nat>, keys: seq<string>, c: Create, v: string)
    requires ValidIndex(byId, |ws|) && v in byId && c.varName in byId
    requires forall u :: u in byId ==> ws[byId[u]].id == u
    requires forall k :: k in keys ==> k in byId
    ensures Link(ws, byId, keys, c)[byId[v]].children
         == ws[byId[v]].children + (if LinkKey(keys, c) == Some(v) then [c.varName] else [])
  {
    match LinkKey(keys, c)
    case None =>
    case Some(k) =>
      assert k in keys;
      assert ws[byId[c.varName]].id == c.varName;
      if k != v {
        assert ws[byId[k]].id != ws[byId[v]].id;
      }
  }

  /** `Object.keys` order meets `find`: growing the key list by one key. */
  lemma FirstKeySnoc(keys: seq<string>, x: string, parent: string)
    ensures FirstKey(keys + [x], parent)
         == if FirstKey(keys, parent).Some? then FirstKey(keys, parent)
            else if Contains(parent, x) then Some(|keys|) else None
  {
    var r := FirstKey(keys + [x], parent);
    var r0 := FirstKey(keys, parent);
    assert (keys + [x])[|keys|] == x;
    if r0.Some? {
      assert (keys + [x])[r0.value] == keys[r0.value];
    }
  }

  /**
   * The key `find` picks is the name of the first creation, in creation
   * order, whose variable name occurs in the parent expression.
   */
  lemma {:induction false} FirstKeyIsFirstCreated(cs: seq<Create>, parent: string)
    ensures FirstKey(KeyOrder(cs), parent).None? <==> forall i :: 0 <= i < |cs| ==> !Contains(parent, cs[i].varName)
    ensures FirstKey(KeyOrder(cs), parent).Some? ==>
      exists i :: 0 <= i < |cs| && cs[i].varName == KeyOrder(cs)[FirstKey(KeyOrder(cs), parent).value]
        && Contains(parent, cs[i].varName) && forall j :: 0 <= j < i ==> !Contains(parent, cs[j].varName)
  {
    if cs != [] {
      var init := cs[..|cs| - 1];
      var c := cs[|cs| - 1];
      var k0 := KeyOrder(init);
      assert forall i :: 0 <= i < |init| ==> init[i] == cs[i];
      FirstKeyIsFirstCreated(init, parent);
      FirstKeySnoc(k0, c.varName, parent);
      var r0 := FirstKey(k0, parent);
      if r0.Some? {
        var i :| 0 <= i < |init| && init[i].varName == k0[r0.value]
          && Contains(parent, init[i].varName) && forall j :: 0 <= j < i ==> !Contains(parent, init[j].varName);
        assert KeyOrder(cs)[r0.value] == k0[r0.value];
        assert cs[i].varName == KeyOrder(cs)[r0.value];
      } else if Contains(parent, c.varName) {
        if c.varName in k0 {
          IndexOfKeys(init);
          IndexOfLatest(init, c.varName);
          assert false;
        }
        assert KeyOrder(cs) == k0 + [c.varName];
        assert cs[|init|].varName == KeyOrder(cs)[|k0|];
      } else {
        assert KeyOrder(cs) == k0 || KeyOrder(cs) == k0 + [c.varName];
      }
    }
  }

  /**
   * A creation links to `v` exactly when its parent expression is neither
   * empty nor `NULL` and `v` is the first-created variable whose name occurs
   * in that expression.
   */
  lemma LinkKeySpec(cs: seq<Create>, c: Create, v: string)
    ensures LinkKey(KeyOrder(cs), c) == Some(v)
        <==> c.parent != "" && c.parent != "NULL"
             && exists i :: 0 <= i < |cs| && cs[i].varName == v && Contains(c.parent, v)
                  && forall j :: 0 <= j < i ==> !Contains(c.parent, cs[j].varName)
  {
    if c.parent != "" && c.parent != "NULL" {
      FirstKeyIsFirstCreated(cs, c.parent);
      var keys := KeyOrder(cs);
      var r := FirstKey(keys, c.parent);
      if r.Some? {
        var i0 :| 0 <= i0 < |cs| && cs[i0].varName == keys[r.value]
          && Contains(c.parent, cs[i0].varName) && forall j :: 0 <= j < i0 ==> !Contains(c.parent, cs[j].varName);
        forall i | 0 <= i < |cs| && Contains(c.parent, cs[i].varName) && (forall j :: 0 <= j < i ==> !Contains(c.parent, cs[j].varName))
          ensures cs[i].varName == keys[r.value]
        {
        }
      }
    }
  }

  /** The children of a key are exactly the creations that link to it, as names. */
  lemma {:induction false} ChildNamesSpec(keys: seq<string>, cs: seq<Create>, v: string, x: string)
    ensures x in ChildNames(keys, cs, v) <==> exists i :: 0 <= i < |cs| && cs[i].varName == x && LinkKey(keys, cs[i]) == Some(v)
  {
    if cs != [] {
      var init := cs[..|cs| - 1];
      ChildNamesSpec(keys, init, v, x);
      assert forall i :: 0 <= i < |init| ==> init[i] == cs[i];
      if x in ChildNames(keys, cs, v) && x !in ChildNames(keys, init, v) {
        assert cs[|init|].varName == x;
      }
    }
  }

  // ---------------------------------------------------------------------
  // parseLvglFile's result
  // ---------------------------------------------------------------------

  /**
   * One record per creation match, in match order, each with the created
   * variable as id, the mapped type, the match's parent expression and
   * source "lvgl".
   */
  lemma RawRecords(m: Matches)
    ensures var raw := LvglRaw(m);
      forall i :: 0 <= i < |raw| ==>
        && raw[i].id == m.creates[i].varName && raw[i].kind == TypeOf(m.creates[i].fn)
        && raw[i].parent == m.creates[i].parent && raw[i].source == "lvgl" && raw[i].events == []
  {
    var cs := m.creates;
    IndexOfValid(cs);
    var w1 := ApplySetters(Created(cs), IndexOf(cs), SetterList(m));
    ApplySettersShell(Created(cs), IndexOf(cs), SetterList(m));
    LinkAllKeeps(w1, IndexOf(cs), KeyOrder(cs), cs);
  }

  /** The type table of the creation functions. */
  lemma TypeTable()
    ensures TypeOf("btn") == "Button" && TypeOf("label") == "Label" && TypeOf("img") == "Image"
    ensures TypeOf("obj") == "Container" && TypeOf("imgseqopt") == "ImageSeqOpt"
  {
  }

  /**
   * Every record's `src`, when present, is `/images/<name>.png` and the record
   * is an Image; its layout entries and `borderWidth` are non-negative numbers.
   */
  lemma RawSrcAndNumbers(m: Matches)
    ensures var raw := LvglRaw(m);
      forall i :: 0 <= i < |raw| ==> SrcOnImage(raw[i]) && NonNegative(raw[i])
  {
    var cs := m.creates;
    IndexOfValid(cs);
    var w0 := Created(cs);
    var w1 := ApplySetters(w0, IndexOf(cs), SetterList(m));
    ApplySettersKeep(w0, IndexOf(cs), SetterList(m));
    LinkAllKeeps(w1, IndexOf(cs), KeyOrder(cs), cs);
    var raw := LvglRaw(m);
    forall i | 0 <= i < |raw|
      ensures SrcOnImage(raw[i]) && NonNegative(raw[i])
    {
      assert SrcOnImage(w1[i]) && NonNegative(w1[i]);
      assert raw[i] == w1[i].(children := raw[i].children);
    }
  }

  /**
   * For the record a variable names, each property holds the value of the
   * last setter match on that variable that writes it, or its initial value.
   */
  lemma RawLastWins(m: Matches, v: string, f: Field)
    requires v in IndexOf(m.creates)
    ensures var i := IndexOf(m.creates)[v];
      var last := LastWrite(SetterList(m), v, TypeOf(m.creates[i].fn), f);
      Read(LvglRaw(m)[i], f) == if last.Some? then last else Read(NewWidget(m.creates[i]), f)
  {
    var cs := m.creates;
    IndexOfValid(cs);
    IndexOfLatest(cs, v);
    var w0 := Created(cs);
    var w1 := ApplySetters(w0, IndexOf(cs), SetterList(m));
    SettersLastWins(w0, IndexOf(cs), SetterList(m), v, f);
    LinkAllKeeps(w1, IndexOf(cs), KeyOrder(cs), cs);
  }

  /**
   * A variable created twice yields two records; setters and links all go to
   * the later one, so the earlier record stays as it was created.
   */
  lemma RawEarlierDuplicate(m: Matches, i: nat)
    requires i < |m.creates|
    requires m.creates[i].varName in IndexOf(m.creates)
    requires i != IndexOf(m.creates)[m.creates[i].varName]
    ensures LvglRaw(m)[i] == NewWidget(m.creates[i])
    ensures i < IndexOf(m.creates)[m.creates[i].varName]
  {
    var cs := m.creates;
    IndexOfValid(cs);
    IndexOfLatest(cs, cs[i].varName);
    forall v | v in IndexOf(cs)
      ensures IndexOf(cs)[v] != i
    {
      IndexOfLatest(cs, v);
    }
    var w0 := Created(cs);
    var w1 := ApplySetters(w0, IndexOf(cs), SetterList(m));
    ApplySettersSkip(w0, IndexOf(cs), SetterList(m), i);
    LinkAllSkip(w1, IndexOf(cs), KeyOrder(cs), cs, i);
  }

  /**
   * The children of the record a variable names are the names of the
   * creations that link to that variable, in creation order.
   */
  lemma RawChildren(m: Matches, v: string)
    requires v in IndexOf(m.creates)
    ensures LvglRaw(m)[IndexOf(m.creates)[v]].children == ChildNames(KeyOrder(m.creates), m.creates, v)
  {
    var cs := m.creates;
    var byId := IndexOf(cs);
    IndexOfValid(cs);
    IndexOfKeys(cs);
    var w0 := Created(cs);
    var w1 := ApplySetters(w0, byId, SetterList(m));
    ApplySettersShell(w0, byId, SetterList(m));
    forall u | u in byId
      ensures w1[byId[u]].id == u
    {
      IndexOfLatest(cs, u);
    }
    LinkAllChildren(w1, byId, KeyOrder(cs), cs, v);
  }
}
