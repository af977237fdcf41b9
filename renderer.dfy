/**
 * The preview renderer's pure helpers: widget lookup by id, child
 * resolution, the Tailwind class string built from a widget's type, layout
 * and style, and the choice of the root container to render.
 */
module Renderer {
  import opened Common

  // ---------------------------------------------------------------------
  // Lookup
  // ---------------------------------------------------------------------

  predicate HasId(widgets: seq<Widget>, id: string) {
    exists i :: 0 <= i < |widgets| && widgets[i].id == id
  }

  /** The test `filter(Boolean)` applies after the lookup: the id names some widget. */
  function Resolvable(widgets: seq<Widget>): string -> bool {
    id => HasId(widgets, id)
  }

  /** `getWidgetById`: the first widget carrying `id`, `None` for `undefined`. */
  function GetWidgetById(widgets: seq<Widget>, id: string): (r: Option<Widget>)
    ensures r.None? <==> !HasId(widgets, id)
    ensures r.Some? ==> r.value.id == id
    ensures r.Some? ==>
      exists i :: 0 <= i < |widgets| && widgets[i] == r.value && forall j :: 0 <= j < i ==> widgets[j].id != id
  {
    match Find(widgets, (w: Widget) => w.id == id)
    case Some(i) => Some(widgets[i])
    case None => None
  }

  /** The widgets the ids resolve to, in order, unresolvable ids dropped. */
  function Resolve(widgets: seq<Widget>, ids: seq<string>): (r: seq<Widget>)
    ensures Ids(r) == Filter(ids, Resolvable(widgets))
  {
    if ids == [] then []
    else
      var rest := Resolve(widgets, ids[1..]);
      match GetWidgetById(widgets, ids[0])
      case Some(w) =>
        assert Resolvable(widgets)(ids[0]);
        assert Filter(ids, Resolvable(widgets)) == [ids[0]] + Filter(ids[1..], Resolvable(widgets));
        assert ([w] + rest)[1..] == rest;
        [w] + rest
      case None =>
        assert !Resolvable(widgets)(ids[0]);
        assert Filter(ids, Resolvable(widgets)) == Filter(ids[1..], Resolvable(widgets));
        rest
  }

  /** Each resolved widget is the one `getWidgetById` finds for its id. */
  lemma {:induction false} ResolveFinds(widgets: seq<Widget>, ids: seq<string>)
    ensures forall x :: x in Resolve(widgets, ids) ==> GetWidgetById(widgets, x.id) == Some(x)
  {
    if ids != [] {
      ResolveFinds(widgets, ids[1..]);
    }
  }

  /** `getChildren(widgets, widget)`: the widgets its `children` ids name, dangling ids dropped. */
  function GetChildren(widgets: seq<Widget>, widget: Widget): (r: seq<Widget>)
    ensures Ids(r) == Filter(widget.children, Resolvable(widgets))
    ensures forall x :: x in r ==> GetWidgetById(widgets, x.id) == Some(x)
  {
    ResolveFinds(widgets, widget.children);
    if widget.children == [] then [] else Resolve(widgets, widget.children)
  }

  /** Every child id that names a widget is kept, and children come out in the order of `children`. */
  lemma ChildrenKept(widgets: seq<Widget>, widget: Widget)
    ensures |GetChildren(widgets, widget)| <= |widget.children|
    ensures forall id :: id in widget.children && HasId(widgets, id) ==> id in Ids(GetChildren(widgets, widget))
    ensures IsSubsequence(Ids(GetChildren(widgets, widget)), widget.children)
  {
    FilterIsSubsequence(widget.children, Resolvable(widgets));
  }

  // ---------------------------------------------------------------------
  // Root selection
  // ---------------------------------------------------------------------

  predicate IsRootFor(w: Widget, screenId: string) {
    w.kind == "Container" && Contains(w.id, screenId)
  }

  /** The widget `Renderer` renders: `None` for the `null` result. */
  function FindRoot(ir: Option<IR>): (r: Option<Widget>)
    ensures ir.None? || ir.value.widgets.None? ==> r.None?
    ensures ir.Some? && ir.value.widgets.Some? ==>
      var ws := ir.value.widgets.value;
      (r.None? <==> forall i :: 0 <= i < |ws| ==> !IsRootFor(ws[i], ir.value.screenId)) &&
      (r.Some? ==>
        exists i :: 0 <= i < |ws| && ws[i] == r.value && IsRootFor(r.value, ir.value.screenId) &&
          forall j :: 0 <= j < i ==> !IsRootFor(ws[j], ir.value.screenId))
  {
    if ir.None? || ir.value.widgets.None? then None
    else
      var ws := ir.value.widgets.value;
      match Find(ws, (w: Widget) => IsRootFor(w, ir.value.screenId))
      case Some(i) => Some(ws[i])
      case None => None
  }

  // ---------------------------------------------------------------------
  // getTailwindStyle
  // ---------------------------------------------------------------------

  /** `pat` occurs in `s` at position `j`. */
  predicate OccursAt(s: string, pat: string, j: nat) {
    j + |pat| <= |s| && s[j..j + |pat|] == pat
  }

  /** `s.indexOf(pat, from)`: the leftmost occurrence at or after `from`. */
  function IndexOf(s: string, pat: string, from: nat): (r: Option<nat>)
    ensures r.Some? ==> from <= r.value && OccursAt(s, pat, r.value)
    ensures forall j :: from <= j && (r.None? || j < r.value) ==> !OccursAt(s, pat, j)
    decreases |s| - from
  {
    if from + |pat| > |s| then None
    else if s[from..from + |pat|] == pat then Some(from)
    else IndexOf(s, pat, from + 1)
  }

  /**
   * `s.replace(pat, rep)` with a string pattern: the leftmost occurrence is
   * replaced and the rest of the text is kept; without one, `s` is returned.
   */
  function ReplaceFirst(s: string, pat: string, rep: string): (r: string)
    ensures (forall j: nat :: !OccursAt(s, pat, j)) ==> r == s
    ensures forall i: nat :: OccursAt(s, pat, i) && (forall j: nat :: j < i ==> !OccursAt(s, pat, j)) ==>
      r == s[..i] + rep + s[i + |pat|..]
  {
    match IndexOf(s, pat, 0)
    case None => s
    case Some(i) => s[..i] + rep + s[i + |pat|..]
  }

  /** The fixed classes for each widget type. */
  function TypePrefix(kind: string): string {
    if kind == "Container" then "flex flex-col "
    else if kind == "Button" then "px-4 py-2 bg-blue-500 text-white rounded "
    else if kind == "Label" then "text-base "
    else if kind == "Image" then "w-16 h-16 object-contain "
    else ""
  }

  /** A layout class, emitted only when the layout value is a number. */
  function LayoutClass(layout: Dict, key: string, cls: string): (r: string)
    ensures r != "" <==> Get(layout, key).Some? && Get(layout, key).value.Num?
  {
    match Get(layout, key)
    case Some(Num(n)) => cls + "-[" + IntToString(n) + "px] "
    case _ => ""
  }

  /** A style class for a truthy value, rendered through the template literal. */
  function ValueClass(style: Dict, key: string, before: string, after: string): (r: string)
    requires before != ""
    ensures r != "" <==> TruthyOpt(Get(style, key))
  {
    if TruthyOpt(Get(style, key)) then before + ValToString(Get(style, key).value) + after else ""
  }

  /**
   * A colour class for a truthy value with its first "0x" turned into "#";
   * `None` when the value is truthy but not a string (`replace` throws).
   */
  function ColourClass(style: Dict, key: string, before: string, after: string): (r: Option<string>)
    requires before != ""
    ensures r.None? <==> TruthyOpt(Get(style, key)) && !Get(style, key).value.Str?
    ensures r == Some("") <==> !TruthyOpt(Get(style, key))
    ensures match Get(style, key)
      case Some(Str(s)) =>
        s != "" ==>
          && r == Some(before + ReplaceFirst(s, "0x", "#") + after)
          && ((forall j: nat :: !OccursAt(s, "0x", j)) ==> r == Some(before + s + after))
      case _ => true
  {
    match Get(style, key)
    case Some(Str(s)) => if s == "" then Some("") else Some(before + ReplaceFirst(s, "0x", "#") + after)
    case Some(v) => if Truthy(v) then None else Some("")
    case None => Some("")
  }

  /** The colour classes; `None` when one of them throws. */
  function BgClass(w: Widget): Option<string> {
    ColourClass(w.style, "bgColor", "bg-[", "] ")
  }

  function ColorClass(w: Widget): Option<string> {
    ColourClass(w.style, "color", "text-[", "] ")
  }

  function BorderClass(w: Widget): Option<string> {
    ColourClass(w.style, "borderColor", "border border-solid border-[", "] ")
  }

  /**
   * The untrimmed class string: the type classes, the four layout classes and
   * the nine style classes in emission order; `None` when a colour class throws.
   */
  function ClassString(w: Widget): Option<string> {
    if BgClass(w).None? || ColorClass(w).None? || BorderClass(w).None? then None
    else Some(TypePrefix(w.kind)
      + LayoutClass(w.layout, "x", "left")
      + LayoutClass(w.layout, "y", "top")
      + LayoutClass(w.layout, "w", "w")
      + LayoutClass(w.layout, "h", "h")
      + BgClass(w).value
      + ValueClass(w.style, "font", "font-[", "] ")
      + ValueClass(w.style, "fontSize", "text-[", "px] ")
      + ValueClass(w.style, "fontWeight", "font-[", "] ")
      + ColorClass(w).value
      + BorderClass(w).value
      + ValueClass(w.style, "borderWidth", "border-[", "px] ")
      + ValueClass(w.style, "radius", "rounded-[", "px] ")
      + ValueClass(w.style, "opacity", "opacity-[", "] "))
  }

  /**
   * `getTailwindStyle(widget)`: appends the type classes, the numeric layout
   * classes and the truthy style classes, then trims. `None` is the
   * `TypeError` thrown for a colour that is truthy but not a string. The
   * result never starts or ends with white space.
   */
  method GetTailwindStyle(w: Widget) returns (r: Option<string>)
    ensures ClassString(w).None? <==> r.None?
    ensures r.Some? ==> r.value == Trim(ClassString(w).value)
    ensures r.Some? && r.value != [] ==> !IsSpace(r.value[0]) && !IsSpace(r.value[|r.value| - 1])
  {
    var style := "";
    style := style + TypePrefix(w.kind);
    assert style == TypePrefix(w.kind);
    style := style + LayoutClass(w.layout, "x", "left");
    style := style + LayoutClass(w.layout, "y", "top");
    style := style + LayoutClass(w.layout, "w", "w");
    style := style + LayoutClass(w.layout, "h", "h");
    var bg := BgClass(w);
    if bg.None? {
      return None;
    }
    style := style + bg.value;
    style := style + ValueClass(w.style, "font", "font-[", "] ");
    style := style + ValueClass(w.style, "fontSize", "text-[", "px] ");
    style := style + ValueClass(w.style, "fontWeight", "font-[", "] ");
    var fg := ColorClass(w);
    if fg.None? {
      return None;
    }
    style := style + fg.value;
    var border := BorderClass(w);
    if border.None? {
      return None;
    }
    style := style + border.value;
    style := style + ValueClass(w.style, "borderWidth", "border-[", "px] ");
    style := style + ValueClass(w.style, "radius", "rounded-[", "px] ");
    style := style + ValueClass(w.style, "opacity", "opacity-[", "] ");
    var _ := TrimSpec(style);
    r := Some(Trim(style));
  }

  /** The class string opens with the type's fixed classes. */
  lemma {:induction false} ClassStringStartsWithType(w: Widget)
    requires ClassString(w).Some?
    ensures StartsWith(ClassString(w).value, TypePrefix(w.kind))
  {
    var t := TypePrefix(w.kind);
    var s := ClassString(w).value;
    assert s[..|t|] == t;
  }

  /**
   * A Container's classes start "flex flex-col", a Button's "px-4 py-2
   * bg-blue-500 text-white rounded", a Label's "text-base" and an Image's
   * "w-16 h-16 object-contain"; any other type gets no fixed classes.
   */
  lemma TailwindTypeClasses(w: Widget, r: string)
    requires ClassString(w).Some? && r == Trim(ClassString(w).value)
    ensures w.kind == "Container" ==> StartsWith(r, "flex flex-col")
    ensures w.kind == "Button" ==> StartsWith(r, "px-4 py-2 bg-blue-500 text-white rounded")
    ensures w.kind == "Label" ==> StartsWith(r, "text-base")
    ensures w.kind == "Image" ==> StartsWith(r, "w-16 h-16 object-contain")
    ensures w.kind !in {"Container", "Button", "Label", "Image"} ==> TypePrefix(w.kind) == ""
  {
    ClassStringStartsWithType(w);
    TrimmedTypeClasses(w.kind, ClassString(w).value);
  }

  lemma TrimmedTypeClasses(kind: string, s: string)
    requires StartsWith(s, TypePrefix(kind))
    ensures kind == "Container" ==> StartsWith(Trim(s), "flex flex-col")
    ensures kind == "Button" ==> StartsWith(Trim(s), "px-4 py-2 bg-blue-500 text-white rounded")
    ensures kind == "Label" ==> StartsWith(Trim(s), "text-base")
    ensures kind == "Image" ==> StartsWith(Trim(s), "w-16 h-16 object-contain")
  {
    if kind == "Container" {
      TrimmedTypePrefix(s, "flex flex-col");
    } else if kind == "Button" {
      TrimmedTypePrefix(s, "px-4 py-2 bg-blue-500 text-white rounded");
    } else if kind == "Label" {
      TrimmedTypePrefix(s, "text-base");
    } else if kind == "Image" {
      TrimmedTypePrefix(s, "w-16 h-16 object-contain");
    }
  }

  lemma TrimmedTypePrefix(s: string, q: string)
    requires StartsWith(s, q + " ")
    requires q != [] && !IsSpace(q[0]) && !IsSpace(q[|q| - 1])
    ensures StartsWith(Trim(s), q)
  {
    assert s[..|q|] == (q + " ")[..|q|] == q;
    TrimKeepsPrefix(s, q);
  }
}
