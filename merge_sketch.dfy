// The overlay merge `mergeSketchDomIR`: a base (LVGL) IR document and an
// overlay (Sketch) IR document become one document whose widgets are the
// base widgets, some of them enriched by matching overlay labels, followed
// by the overlay widgets that survive the label, decoration, id-collision
// and root-size rules.

module SketchMerge {
  import opened Common

  // ---------------------------------------------------------------------
  // Decorative overlay nodes
  // ---------------------------------------------------------------------

  const GarbageTypes: seq<string> := ["Group", "Rectangle", "Shape", "Frame"]
  const DecorativeTexts: seq<string> := ["Group", "Rectangle", "Button area", "Contents area", "Button group"]

  /** A Sketch container id with a decorative prefix. */
  predicate DecorativeId(id: string) {
    StartsWith(id, "group_") || StartsWith(id, "shape_") || StartsWith(id, "symbol_")
  }

  /** `isGarbageSketchNode`: an overlay node that carries no product meaning. */
  predicate IsGarbage(w: Widget) {
    || w.kind in GarbageTypes
    || (Trim(w.text) != "" && Trim(w.text) in DecorativeTexts)
    || (w.source == "sketch" && w.kind == "Container" && DecorativeId(w.id))
    || (w.text != "" && Contains(Lower(w.text), "background"))
  }

  // ---------------------------------------------------------------------
  // Label coalescing
  // ---------------------------------------------------------------------

  /** A Label whose trimmed text is not empty. */
  predicate IsLabel(w: Widget) {
    w.kind == "Label" && Trim(w.text) != ""
  }

  /** The text a base Label is indexed under, if it is a Label with non-empty trimmed text. */
  function LabelKey(w: Widget): Option<string> {
    if IsLabel(w) then Some(Trim(w.text)) else None
  }

  function LabelKeys(ws: seq<Widget>): (r: seq<Option<string>>)
    ensures |r| == |ws| && forall i :: 0 <= i < |ws| ==> r[i] == LabelKey(ws[i])
  {
    seq(|ws|, i requires 0 <= i < |ws| => LabelKey(ws[i]))
  }

  /** Each present key with the index of its first occurrence. */
  function FirstIndex(keys: seq<Option<string>>): (m: map<string, nat>)
    ensures forall key :: key in m ==> m[key] < |keys| && keys[m[key]] == Some(key)
    decreases |keys|
  {
    if keys == [] then map[]
    else
      var m := FirstIndex(keys[..|keys| - 1]);
      var k := keys[|keys| - 1];
      if k.Some? && k.value !in m then m[k.value := |keys| - 1] else m
  }

  lemma FirstIndexStep(keys: seq<Option<string>>, i: nat)
    requires i < |keys|
    ensures var m := FirstIndex(keys[..i]);
      FirstIndex(keys[..i + 1]) == if keys[i].Some? && keys[i].value !in m then m[keys[i].value := i] else m
  {
    assert keys[..i + 1][..i] == keys[..i];
  }

  /** `lvglLabelsByText`: each trimmed label text with the index of the first base Label carrying it. */
  function LabelMap(base: seq<Widget>): (m: map<string, nat>)
    ensures forall key :: key in m ==> m[key] < |base| && LabelKey(base[m[key]]) == Some(key)
  {
    FirstIndex(LabelKeys(base))
  }

  method BuildLabelMap(base: seq<Widget>) returns (m: map<string, nat>)
    ensures m == LabelMap(base)
  {
    m := map[];
    var i := 0;
    while i < |base|
      invariant 0 <= i <= |base|
      invariant m == FirstIndex(LabelKeys(base)[..i])
    {
      var key := LabelKey(base[i]);
      if key.Some? && key.value !in m {
        m := m[key.value := i];
      }
      FirstIndexStep(LabelKeys(base), i);
      i := i + 1;
    }
    assert LabelKeys(base)[..|base|] == LabelKeys(base);
  }

  /** The base Label an overlay node is folded onto, if it is a Label with a matching text. */
  function Target(base: seq<Widget>, w: Widget): (r: Option<nat>)
    ensures r.Some? ==> r.value < |base|
  {
    var m := LabelMap(base);
    var k := LabelKey(w);
    if k.Some? && k.value in m then Some(m[k.value]) else None
  }

  /** `[a || "", c || ""].filter(Boolean).join(" ").trim()`. */
  function JoinClasses(a: string, c: string): string {
    if a != "" && c != "" then Trim(a + " " + c) else Trim(a + c)
  }

  /** An overlay label's layout, style and tailwind applied onto a base label. */
  function Absorb(b: Widget, w: Widget): Widget {
    b.(layout := Spread(b.layout, w.layout),
       style := Spread(b.style, w.style),
       tailwind := if w.tailwind != "" then JoinClasses(b.tailwind, w.tailwind) else b.tailwind)
  }

  /** The base list after the first pass, and the `toRemove` ids. */
  datatype Coalesced = Coalesced(base: seq<Widget>, removed: set<string>)

  function CoalesceFold(base: seq<Widget>, overlay: seq<Widget>): (r: Coalesced)
    ensures |r.base| == |base|
    decreases |overlay|
  {
    if overlay == [] then Coalesced(base, {})
    else
      var st := CoalesceFold(base, overlay[..|overlay| - 1]);
      var w := overlay[|overlay| - 1];
      match Target(base, w)
      case Some(i) => Coalesced(st.base[i := Absorb(st.base[i], w)], st.removed + {w.id})
      case None => st
  }

  /** The first pass over the overlay, with the label map built first. */
  method Coalesce(base: seq<Widget>, overlay: seq<Widget>) returns (newBase: seq<Widget>, removed: set<string>)
    ensures Coalesced(newBase, removed) == CoalesceFold(base, overlay)
  {
    var labels := BuildLabelMap(base);
    newBase := base;
    removed := {};
    var j := 0;
    while j < |overlay|
      invariant 0 <= j <= |overlay|
      invariant Coalesced(newBase, removed) == CoalesceFold(base, overlay[..j])
    {
      var w := overlay[j];
      var key := Trim(w.text);
      assert overlay[..j + 1][..j] == overlay[..j];
      if w.kind == "Label" && key != "" && key in labels {
        var i := labels[key];
        newBase := newBase[i := Absorb(newBase[i], w)];
        removed := removed + {w.id};
      }
      j := j + 1;
    }
    assert overlay[..|overlay|] == overlay;
  }

  // ---------------------------------------------------------------------
  // Surviving overlay nodes
  // ---------------------------------------------------------------------

  /** The second pass keeps a node that was not coalesced away and is not decorative. */
  predicate Keep(removed: set<string>, w: Widget) {
    w.id !in removed && !IsGarbage(w)
  }

  function Cleaned(overlay: seq<Widget>, removed: set<string>): seq<Widget> {
    Filter(overlay, (w: Widget) => Keep(removed, w))
  }

  function IdSet(ws: seq<Widget>): set<string> {
    set i | 0 <= i < |ws| :: ws[i].id
  }

  /** The id a node at position `k` of the cleaned list takes: `<id>_sketch<k>` when the base uses its id. */
  function RenamedId(used: set<string>, id: string, k: nat): string {
    if id in used then id + "_sketch" + NatToString(k) else id
  }

  function Renamed(used: set<string>, ws: seq<Widget>): (r: seq<Widget>)
    ensures |r| == |ws| && forall k :: 0 <= k < |ws| ==> r[k] == ws[k].(id := RenamedId(used, ws[k].id, k))
  {
    seq(|ws|, k requires 0 <= k < |ws| => ws[k].(id := RenamedId(used, ws[k].id, k)))
  }

  /** The `forEach((w, index) => ...)` that reassigns colliding ids. */
  method RenameColliding(used: set<string>, ws: seq<Widget>) returns (out: seq<Widget>)
    ensures out == Renamed(used, ws)
  {
    out := ws;
    var k := 0;
    while k < |out|
      invariant 0 <= k <= |out| == |ws|
      invariant forall j :: 0 <= j < k ==> out[j] == ws[j].(id := RenamedId(used, ws[j].id, j))
      invariant forall j :: k <= j < |ws| ==> out[j] == ws[j]
    {
      if out[k].id in used {
        out := out[k := out[k].(id := out[k].id + "_sketch" + NatToString(k))];
      }
      k := k + 1;
    }
  }

  /** Some base Container has children: a populated root exists. */
  predicate HasBaseRoot(base: seq<Widget>) {
    exists i :: 0 <= i < |base| && base[i].kind == "Container" && |base[i].children| > 0
  }

  /** A Sketch Container whose layout carries a truthy width and a truthy height. */
  predicate RootSized(w: Widget) {
    && w.source == "sketch" && w.kind == "Container"
    && (TruthyOpt(Get(w.layout, "w")) || TruthyOpt(Get(w.layout, "width")))
    && (TruthyOpt(Get(w.layout, "h")) || TruthyOpt(Get(w.layout, "height")))
  }

  function Survivors(base: seq<Widget>, renamed: seq<Widget>): seq<Widget> {
    Filter(renamed, (w: Widget) => !HasBaseRoot(base) || !RootSized(w))
  }

  /** The merged `meta`: the base's other keys, then `sources` and `mappingApplied`. */
  function MergedMeta(m: Option<Meta>): Meta {
    Meta(Some(["lvgl", "sketch"]), Some(true), if m.Some? then m.value.other else Empty)
  }

  /** The document `mergeSketchDomIR` returns. */
  function MergeSketch(base: Option<IR>, overlay: Option<IR>): Option<IR> {
    if base.None? || base.value.widgets.None? || overlay.None? || overlay.value.widgets.None? then base
    else
      var bw := base.value.widgets.value;
      var c := CoalesceFold(bw, overlay.value.widgets.value);
      var renamed := Renamed(IdSet(bw), Cleaned(overlay.value.widgets.value, c.removed));
      Some(base.value.(widgets := Some(c.base + Survivors(c.base, renamed)), meta := Some(MergedMeta(base.value.meta))))
  }

  method MergeSketchDomIR(base: Option<IR>, overlay: Option<IR>) returns (r: Option<IR>)
    ensures r == MergeSketch(base, overlay)
  {
    if base.None? || base.value.widgets.None? || overlay.None? || overlay.value.widgets.None? {
      return base;
    }
    var lvglWidgets := base.value.widgets.value;
    var sketchWidgets := overlay.value.widgets.value;
    var newBase, removed := Coalesce(lvglWidgets, sketchWidgets);
    var cleaned := Cleaned(sketchWidgets, removed);
    var used := IdSet(lvglWidgets);
    var renamed := RenameColliding(used, cleaned);
    var finalWidgets := newBase + Survivors(newBase, renamed);
    r := Some(base.value.(widgets := Some(finalWidgets), meta := Some(MergedMeta(base.value.meta))));
  }

  // ---------------------------------------------------------------------
  // Properties
  // ---------------------------------------------------------------------

  lemma {:induction false} FirstIndexKeys(keys: seq<Option<string>>, key: string)
    ensures key in FirstIndex(keys) <==> Some(key) in keys
    ensures key in FirstIndex(keys) ==> Some(key) !in keys[..FirstIndex(keys)[key]]
    decreases |keys|
  {
    if keys != [] {
      var init := keys[..|keys| - 1];
      FirstIndexKeys(init, key);
      assert keys == init + [keys[|keys| - 1]];
      if key in FirstIndex(init) {
        assert keys[..FirstIndex(init)[key]] == init[..FirstIndex(init)[key]];
      } else {
        assert keys[..|keys| - 1] == init;
      }
    }
  }

  /**
   * The label map has an entry for exactly the texts of the base Labels,
   * and the entry is the first base Label with that text.
   */
  lemma LabelMapFirst(base: seq<Widget>, key: string)
    ensures key in LabelMap(base) <==> exists i :: 0 <= i < |base| && LabelKey(base[i]) == Some(key)
    ensures key in LabelMap(base) ==>
      forall j :: 0 <= j < LabelMap(base)[key] ==> LabelKey(base[j]) != Some(key)
  {
    var keys := LabelKeys(base);
    FirstIndexKeys(keys, key);
    if key in LabelMap(base) {
      forall j | 0 <= j < LabelMap(base)[key]
        ensures LabelKey(base[j]) != Some(key)
      {
        assert keys[..LabelMap(base)[key]][j] == keys[j];
      }
    }
    if exists i :: 0 <= i < |base| && LabelKey(base[i]) == Some(key) {
      var i :| 0 <= i < |base| && LabelKey(base[i]) == Some(key);
      assert keys[i] == Some(key);
    }
  }

  /** Coalescing changes only the layout, style and tailwind of base widgets. */
  lemma {:induction false} CoalesceShell(base: seq<Widget>, overlay: seq<Widget>, i: nat)
    requires i < |base|
    ensures var b := CoalesceFold(base, overlay).base[i];
      b.(layout := base[i].layout, style := base[i].style, tailwind := base[i].tailwind) == base[i]
    decreases |overlay|
  {
    if overlay != [] {
      CoalesceShell(base, overlay[..|overlay| - 1], i);
    }
  }

  /** A base widget that no overlay label targets is left as it was. */
  lemma {:induction false} CoalesceUntargeted(base: seq<Widget>, overlay: seq<Widget>, i: nat)
    requires i < |base|
    requires forall j :: 0 <= j < |overlay| ==> Target(base, overlay[j]) != Some(i)
    ensures CoalesceFold(base, overlay).base[i] == base[i]
    decreases |overlay|
  {
    if overlay != [] {
      CoalesceUntargeted(base, overlay[..|overlay| - 1], i);
    }
  }

  /** The base Label each overlay node is folded onto. */
  function TargetsOf(base: seq<Widget>, overlay: seq<Widget>): (r: seq<Option<nat>>)
    ensures |r| == |overlay| && forall j :: 0 <= j < |overlay| ==> r[j] == Target(base, overlay[j])
  {
    seq(|overlay|, j requires 0 <= j < |overlay| => Target(base, overlay[j]))
  }

  /** The ids of the overlay nodes whose target is present. */
  function RemovedIds(overlay: seq<Widget>, ts: seq<Option<nat>>): set<string>
    requires |ts| == |overlay|
    decreases |overlay|
  {
    if overlay == [] then {}
    else
      var n := |overlay| - 1;
      RemovedIds(overlay[..n], ts[..n]) + (if ts[n].Some? then {overlay[n].id} else {})
  }

  lemma {:induction false} RemovedIdsFold(base: seq<Widget>, overlay: seq<Widget>)
    ensures CoalesceFold(base, overlay).removed == RemovedIds(overlay, TargetsOf(base, overlay))
    decreases |overlay|
  {
    if overlay != [] {
      var n := |overlay| - 1;
      RemovedIdsFold(base, overlay[..n]);
      assert TargetsOf(base, overlay)[..n] == TargetsOf(base, overlay[..n]);
    }
  }

  lemma {:induction false} RemovedIdsSpec(overlay: seq<Widget>, ts: seq<Option<nat>>, x: string)
    requires |ts| == |overlay|
    ensures x in RemovedIds(overlay, ts) <==> exists j :: 0 <= j < |overlay| && ts[j].Some? && overlay[j].id == x
    decreases |overlay|
  {
    if overlay != [] {
      var n := |overlay| - 1;
      RemovedIdsSpec(overlay[..n], ts[..n], x);
      if exists j :: 0 <= j < |overlay| && ts[j].Some? && overlay[j].id == x {
        var j :| 0 <= j < |overlay| && ts[j].Some? && overlay[j].id == x;
        if j < n {
          assert ts[..n][j] == ts[j] && overlay[..n][j] == overlay[j];
        }
      }
    }
  }

  /** `toRemove` holds exactly the ids of the overlay labels that found a base label. */
  lemma CoalesceRemoved(base: seq<Widget>, overlay: seq<Widget>, x: string)
    ensures x in CoalesceFold(base, overlay).removed <==>
      exists j :: 0 <= j < |overlay| && TargetsOf(base, overlay)[j].Some? && overlay[j].id == x
  {
    RemovedIdsFold(base, overlay);
    RemovedIdsSpec(overlay, TargetsOf(base, overlay), x);
  }

  datatype Facet = LayoutFacet | StyleFacet

  function FacetOf(w: Widget, f: Facet): Dict {
    match f
    case LayoutFacet => w.layout
    case StyleFacet => w.style
  }

  /** The value of key `k` in the layout or style of the last overlay label that targets base widget `i`. */
  function LastTargetValue(base: seq<Widget>, overlay: seq<Widget>, i: nat, f: Facet, k: string): Option<Val>
    decreases |overlay|
  {
    if overlay == [] then None
    else
      var w := overlay[|overlay| - 1];
      if Target(base, w) == Some(i) && k in FacetOf(w, f).m then Some(FacetOf(w, f).m[k])
      else LastTargetValue(base, overlay[..|overlay| - 1], i, f, k)
  }

  /**
   * A coalesced base label's layout and style are the union of its own and
   * its overlay labels' keys, the latest overlay label winning each key.
   */
  lemma {:induction false} CoalesceOverlayWins(base: seq<Widget>, overlay: seq<Widget>, i: nat, f: Facet, k: string)
    requires i < |base|
    requires forall j :: 0 <= j < |overlay| ==> ValidDict(FacetOf(overlay[j], f))
    ensures Get(FacetOf(CoalesceFold(base, overlay).base[i], f), k) ==
      if LastTargetValue(base, overlay, i, f, k).Some? then LastTargetValue(base, overlay, i, f, k)
      else Get(FacetOf(base[i], f), k)
    decreases |overlay|
  {
    if overlay != [] {
      var init := overlay[..|overlay| - 1];
      var w := overlay[|overlay| - 1];
      CoalesceOverlayWins(base, init, i, f, k);
      if Target(base, w) == Some(i) {
        var prev := CoalesceFold(base, init).base[i];
        SpreadGet(FacetOf(prev, f), FacetOf(w, f), k);
      }
    }
  }

  /** Joining two trimmed class strings puts exactly one space between them. */
  lemma JoinClassesPlain(a: string, c: string)
    requires a != [] && !IsSpace(a[0]) && !IsSpace(a[|a| - 1])
    requires c != [] && !IsSpace(c[0]) && !IsSpace(c[|c| - 1])
    ensures JoinClasses(a, c) == a + " " + c
    ensures JoinClasses("", c) == c && JoinClasses(a, "") == a
  {
    var s := a + " " + c;
    assert s[0] == a[0] && s[|s| - 1] == c[|c| - 1];
    assert "" + c == c && a + "" == a;
  }

  /** A class string as `trim` leaves it: empty, or with no white space at either end. */
  predicate Trimmed(s: string) {
    s == [] || (!IsSpace(s[0]) && !IsSpace(s[|s| - 1]))
  }

  /** The non-empty tailwind strings of the overlay labels that target base widget `i`, in overlay order. */
  function TargetTailwinds(base: seq<Widget>, overlay: seq<Widget>, i: nat): (r: seq<string>)
    ensures forall j :: 0 <= j < |r| ==> r[j] != ""
    decreases |overlay|
  {
    if overlay == [] then []
    else
      var w := overlay[|overlay| - 1];
      TargetTailwinds(base, overlay[..|overlay| - 1], i)
        + (if Target(base, w) == Some(i) && w.tailwind != "" then [w.tailwind] else [])
  }

  /**
   * The tailwind of base widget `i` after the first pass: each targeting
   * overlay label with a tailwind joins it onto the current string with
   * `JoinClasses`, in overlay order.
   */
  function TailwindAfter(base: seq<Widget>, overlay: seq<Widget>, i: nat): string
    requires i < |base|
    decreases |overlay|
  {
    if overlay == [] then base[i].tailwind
    else
      var prev := TailwindAfter(base, overlay[..|overlay| - 1], i);
      var w := overlay[|overlay| - 1];
      if Target(base, w) == Some(i) && w.tailwind != "" then JoinClasses(prev, w.tailwind) else prev
  }

  /** The first pass leaves base widget `i` with the tailwind its own overlay labels build up. */
  lemma {:induction false} CoalesceTailwind(base: seq<Widget>, overlay: seq<Widget>, i: nat)
    requires i < |base|
    ensures CoalesceFold(base, overlay).base[i].tailwind == TailwindAfter(base, overlay, i)
    decreases |overlay|
  {
    if overlay != [] {
      CoalesceTailwind(base, overlay[..|overlay| - 1], i);
    }
  }

  /** The base tailwind, as a list of at most one class string. */
  function Lead(t: string): seq<string> {
    if t == "" then [] else [t]
  }

  /** Joining a trimmed class onto the space-separated join of earlier ones extends the join. */
  lemma JoinClassesStep(parts: seq<string>, prev: string, c: string)
    requires prev == Join(parts, " ") && Trimmed(prev) && (parts != [] ==> prev != "")
    requires c != "" && Trimmed(c)
    ensures JoinClasses(prev, c) == Join(parts + [c], " ")
    ensures Trimmed(JoinClasses(prev, c)) && JoinClasses(prev, c) != ""
  {
    if parts == [] {
      JoinClassesPlain([c[0]], c);
      assert parts + [c] == [c];
    } else {
      JoinSnoc(parts, c, " ");
      JoinClassesPlain(prev, c);
      var s := prev + " " + c;
      assert s[0] == prev[0] && s[|s| - 1] == c[|c| - 1];
    }
  }

  /**
   * With trimmed class strings, a base label's tailwind after the first pass
   * is its own tailwind and those of its overlay labels, space-separated, in
   * overlay order.
   */
  lemma {:induction false} TailwindAfterJoined(base: seq<Widget>, overlay: seq<Widget>, i: nat)
    requires i < |base| && Trimmed(base[i].tailwind)
    requires forall j :: 0 <= j < |overlay| ==> Trimmed(overlay[j].tailwind)
    ensures TailwindAfter(base, overlay, i) == Join(Lead(base[i].tailwind) + TargetTailwinds(base, overlay, i), " ")
    ensures Trimmed(TailwindAfter(base, overlay, i))
    ensures Lead(base[i].tailwind) + TargetTailwinds(base, overlay, i) != [] ==> TailwindAfter(base, overlay, i) != ""
    decreases |overlay|
  {
    if overlay == [] {
      assert Lead(base[i].tailwind) + [] == Lead(base[i].tailwind);
    } else {
      var init := overlay[..|overlay| - 1];
      var w := overlay[|overlay| - 1];
      TailwindAfterJoined(base, init, i);
      var parts := Lead(base[i].tailwind) + TargetTailwinds(base, init, i);
      var prev := TailwindAfter(base, init, i);
      if Target(base, w) == Some(i) && w.tailwind != "" {
        assert Lead(base[i].tailwind) + TargetTailwinds(base, overlay, i) == parts + [w.tailwind];
        JoinClassesStep(parts, prev, w.tailwind);
      } else {
        assert Lead(base[i].tailwind) + TargetTailwinds(base, overlay, i) == parts;
      }
    }
  }

  /**
   * A surviving overlay node is a non-decorative, non-coalesced overlay
   * node, and every such node is kept; the kept nodes keep their order.
   */
  lemma CleanedSpec(overlay: seq<Widget>, removed: set<string>)
    ensures forall w :: w in Cleaned(overlay, removed) <==> w in overlay && w.id !in removed && !IsGarbage(w)
    ensures IsSubsequence(Cleaned(overlay, removed), overlay)
  {
    FilterIsSubsequence(overlay, (w: Widget) => Keep(removed, w));
  }

  /** An overlay label folded onto a base label leaves no node with its id behind. */
  lemma CoalescedLabelDropped(base: seq<Widget>, overlay: seq<Widget>, j: nat)
    requires j < |overlay| && Target(base, overlay[j]).Some?
    ensures forall w :: w in Cleaned(overlay, CoalesceFold(base, overlay).removed) ==> w.id != overlay[j].id
  {
    var removed := CoalesceFold(base, overlay).removed;
    CoalesceRemoved(base, overlay, overlay[j].id);
    assert TargetsOf(base, overlay)[j].Some?;
    assert overlay[j].id in removed;
    forall w | w in Cleaned(overlay, removed)
      ensures w.id != overlay[j].id
    {
      assert Keep(removed, w);
    }
  }

  /** A digit string after `_sketch` is the whole tail of the id, so equal ids have equal tails. */
  lemma DigitTail(a: string, x: string, b: string, y: string)
    requires |x| <= |y|
    requires forall i :: 0 <= i < |y| ==> '0' <= y[i] <= '9'
    requires a + "_sketch" + x == b + "_sketch" + y
    ensures x == y
  {
    var t := b + "_sketch" + y;
    assert t[|t| - |x| - 1] == 'h';
    assert x == t[|t| - |x|..] == y;
  }

  /** Renamed ids that collided extend the old id, and different positions never share one. */
  lemma RenamedIdSuffix(used: set<string>, a: string, k1: nat, b: string, k2: nat)
    requires a in used && b in used && k1 != k2
    ensures StartsWith(RenamedId(used, a, k1), a)
    ensures RenamedId(used, a, k1) != RenamedId(used, b, k2)
  {
    var x := NatToString(k1);
    var y := NatToString(k2);
    var s := a + "_sketch" + x;
    assert s[..|a|] == a;
    if s == b + "_sketch" + y {
      if |x| <= |y| {
        DigitTail(a, x, b, y);
      } else {
        DigitTail(b, y, a, x);
      }
      NatToStringInjective(k1, k2);
    }
  }

  /** With a populated base root, no root-sized Sketch Container survives; otherwise all renamed nodes do. */
  lemma SurvivorsSpec(base: seq<Widget>, renamed: seq<Widget>)
    ensures HasBaseRoot(base) ==> forall w :: w in Survivors(base, renamed) ==> !RootSized(w)
    ensures forall w :: w in Survivors(base, renamed) <==> w in renamed && (!HasBaseRoot(base) || !RootSized(w))
    ensures IsSubsequence(Survivors(base, renamed), renamed)
  {
    FilterIsSubsequence(renamed, (w: Widget) => !HasBaseRoot(base) || !RootSized(w));
  }

  /**
   * When both documents have widgets, the result is the base document with
   * its widgets replaced by the coalesced base list followed by the
   * surviving overlay nodes, and its meta merged; otherwise it is the base.
   */
  lemma MergeSketchShape(base: Option<IR>, overlay: Option<IR>)
    ensures base.None? || base.value.widgets.None? || overlay.None? || overlay.value.widgets.None? ==>
      MergeSketch(base, overlay) == base
    ensures base.Some? && base.value.widgets.Some? && overlay.Some? && overlay.value.widgets.Some? ==>
      var r := MergeSketch(base, overlay).value;
      var bw := base.value.widgets.value;
      var c := CoalesceFold(bw, overlay.value.widgets.value);
      var renamed := Renamed(IdSet(bw), Cleaned(overlay.value.widgets.value, c.removed));
      && r.version == base.value.version && r.screenId == base.value.screenId && r.assets == base.value.assets
      && r.widgets.Some? && |bw| <= |r.widgets.value|
      && r.widgets.value[..|bw|] == c.base
      && IsSubsequence(r.widgets.value[|bw|..], renamed)
      && (forall w :: w in r.widgets.value[|bw|..] <==> w in renamed && (!HasBaseRoot(c.base) || !RootSized(w)))
      && |r.widgets.value| <= |bw| + |overlay.value.widgets.value|
      && r.meta == Some(Meta(Some(["lvgl", "sketch"]), Some(true),
                             if base.value.meta.Some? then base.value.meta.value.other else Empty))
  {
    if base.Some? && base.value.widgets.Some? && overlay.Some? && overlay.value.widgets.Some? {
      var bw := base.value.widgets.value;
      var c := CoalesceFold(bw, overlay.value.widgets.value);
      var renamed := Renamed(IdSet(bw), Cleaned(overlay.value.widgets.value, c.removed));
      assert (c.base + Survivors(c.base, renamed))[..|bw|] == c.base;
      assert (c.base + Survivors(c.base, renamed))[|bw|..] == Survivors(c.base, renamed);
      SurvivorsSpec(c.base, renamed);
    }
  }

  // ---------------------------------------------------------------------
  // Colliding ids: the renaming as written, and a corrected renaming
  // ---------------------------------------------------------------------

  function Blank(id: string): Widget {
    Widget(id, "Button", "", "", Empty, Empty, "", [], [], [], "sketch", "")
  }

  /**
   * As written, a renamed overlay id can equal another overlay id: with the
   * base id "a" and the cleaned overlay ids "a" and "a_sketch0", both
   * overlay widgets end up with the id "a_sketch0".
   */
  lemma RenamedIdsCanRepeat()
    ensures var r := Renamed({"a"}, [Blank("a"), Blank("a_sketch0")]);
      r[0].id == "a_sketch0" && r[1].id == "a_sketch0"
  {
    assert NatToString(0) == "0";
  }

  lemma CollidingOverlayUntouched()
    ensures CoalesceFold([Blank("a")], [Blank("a"), Blank("a_sketch0")]) == Coalesced([Blank("a")], {})
  {
    assert LabelKey(Blank("a")) == None && LabelKey(Blank("a_sketch0")) == None;
    assert [Blank("a"), Blank("a_sketch0")][..1] == [Blank("a")];
  }

  lemma CollidingOverlayKept()
    ensures Cleaned([Blank("a"), Blank("a_sketch0")], {}) == [Blank("a"), Blank("a_sketch0")]
  {
    var ow := [Blank("a"), Blank("a_sketch0")];
    assert !IsGarbage(ow[0]) && !IsGarbage(ow[1]);
    FilterAll(ow, (w: Widget) => Keep({}, w));
  }

  /** Without a base root container no overlay node is filtered out as a second root. */
  lemma SurvivorsWithoutRoot(base: seq<Widget>, renamed: seq<Widget>)
    requires !HasBaseRoot(base)
    ensures Survivors(base, renamed) == renamed
  {
    FilterAll(renamed, (w: Widget) => !HasBaseRoot(base) || !RootSized(w));
  }

  /** The same collision at the level of whole documents: the merged widgets repeat an id. */
  lemma MergeSketchIdsCanRepeat(base: IR, overlay: IR)
    requires base.widgets == Some([Blank("a")])
    requires overlay.widgets == Some([Blank("a"), Blank("a_sketch0")])
    ensures var r := MergeSketch(Some(base), Some(overlay));
      r.Some? && r.value.widgets.Some? && !DistinctIds(r.value.widgets.value)
  {
    var bw := [Blank("a")];
    var ow := [Blank("a"), Blank("a_sketch0")];
    CollidingOverlayUntouched();
    CollidingOverlayKept();
    assert IdSet(bw) == {"a"};
    RenamedIdsCanRepeat();
    var renamed := Renamed({"a"}, ow);
    assert !HasBaseRoot(bw);
    SurvivorsWithoutRoot(bw, renamed);
    var all := bw + renamed;
    assert all[1] == renamed[0] && all[2] == renamed[1];
  }

  /** The `n`-th candidate name for a colliding id. */
  function Candidate(id: string, n: nat): string {
    id + "_sketch" + NatToString(n)
  }

  lemma CandidateDistinct(id: string, n1: nat, n2: nat)
    requires n1 != n2
    ensures Candidate(id, n1) != Candidate(id, n2)
  {
    var p := id + "_sketch";
    assert Candidate(id, n1)[|p|..] == NatToString(n1);
    assert Candidate(id, n2)[|p|..] == NatToString(n2);
    if NatToString(n1) == NatToString(n2) {
      NatToStringInjective(n1, n2);
    }
  }

  /** When the candidates numbered `lo` to `n` are all taken, at least that many names are taken. */
  lemma {:induction false} AllTakenBound(used: set<string>, id: string, lo: nat, n: nat)
    requires lo <= n
    requires forall j: nat :: lo <= j <= n ==> Candidate(id, j) in used
    ensures n - lo + 1 <= |used|
    decreases n - lo
  {
    var last := Candidate(id, n);
    assert last in used;
    if lo < n {
      var rest := used - {last};
      forall j: nat | lo <= j <= n - 1
        ensures Candidate(id, j) in rest
      {
        CandidateDistinct(id, j, n);
      }
      AllTakenBound(rest, id, lo, n - 1);
    }
  }

  /** The first candidate, counting up from `n`, that is not taken. */
  function FreshName(used: set<string>, id: string, start: nat, n: nat): (r: string)
    requires start <= n
    requires forall j: nat :: start <= j < n ==> Candidate(id, j) in used
    ensures r !in used && StartsWith(r, id + "_sketch")
    decreases start + |used| - n
  {
    if Candidate(id, n) !in used then
      assert Candidate(id, n)[..|id + "_sketch"|] == id + "_sketch";
      Candidate(id, n)
    else
      AllTakenBound(used, id, start, n);
      FreshName(used, id, start, n + 1)
  }

  /** The id the corrected renaming gives the node at position `k`, given the ids taken before it. */
  function FreshId(used: set<string>, id: string, k: nat): string {
    if id in used then FreshName(used, id, k, k) else id
  }

  /** The renamed nodes so far, and every id in use (the base ids and theirs). */
  datatype Renaming = Renaming(out: seq<Widget>, used: set<string>)

  lemma IdSetSnoc(ws: seq<Widget>, w: Widget)
    ensures IdSet(ws + [w]) == IdSet(ws) + {w.id}
  {
    var all := ws + [w];
    forall x | x in IdSet(all) ensures x in IdSet(ws) + {w.id} {
      var i :| 0 <= i < |all| && all[i].id == x;
      if i < |ws| {
        assert all[i] == ws[i];
      }
    }
    forall x | x in IdSet(ws) ensures x in IdSet(all) {
      var i :| 0 <= i < |ws| && ws[i].id == x;
      assert all[i] == ws[i];
    }
    assert all[|ws|] == w;
  }

  /**
   * The corrected renaming: an overlay id already in use (by the base or by
   * an earlier overlay node) takes the first free name `<id>_sketch<n>`
   * with `n` counting up from its position, and every chosen id is
   * reserved.
   */
  function FreshFold(base: set<string>, ws: seq<Widget>): (r: Renaming)
    ensures |r.out| == |ws|
    decreases |ws|
  {
    if ws == [] then Renaming([], base)
    else
      var st := FreshFold(base, ws[..|ws| - 1]);
      var w := ws[|ws| - 1];
      var id := FreshId(st.used, w.id, |ws| - 1);
      var out := st.out + [w.(id := id)];
      Renaming(out, st.used + {id})
  }

  /** The taken ids are the base ids and the ids handed out so far. */
  lemma {:induction false} FreshFoldUsed(base: set<string>, ws: seq<Widget>)
    ensures var r := FreshFold(base, ws); r.used == base + IdSet(r.out)
    decreases |ws|
  {
    if ws != [] {
      var init := ws[..|ws| - 1];
      FreshFoldUsed(base, init);
      var st := FreshFold(base, init);
      var w := ws[|ws| - 1];
      IdSetSnoc(st.out, w.(id := FreshId(st.used, w.id, |init|)));
    }
  }

  /** Searches upward from `start` for a candidate name that is not taken. */
  method FirstFree(used: set<string>, id: string, start: nat) returns (name: string)
    ensures name == FreshName(used, id, start, start)
  {
    var n := start;
    while Candidate(id, n) in used
      invariant start <= n
      invariant forall j: nat :: start <= j < n ==> Candidate(id, j) in used
      invariant FreshName(used, id, start, n) == FreshName(used, id, start, start)
      decreases start + |used| - n
    {
      AllTakenBound(used, id, start, n);
      n := n + 1;
    }
    name := Candidate(id, n);
  }

  /** One step of the corrected renaming, stated on prefixes. */
  lemma FreshFoldStep(base: set<string>, ws: seq<Widget>, k: nat)
    requires k < |ws|
    ensures var st := FreshFold(base, ws[..k]);
      var id := FreshId(st.used, ws[k].id, k);
      FreshFold(base, ws[..k + 1]) == Renaming(st.out + [ws[k].(id := id)], st.used + {id})
  {
    assert ws[..k + 1][..k] == ws[..k];
  }

  method RenameFresh(base: set<string>, ws: seq<Widget>) returns (out: seq<Widget>)
    ensures out == FreshFold(base, ws).out
  {
    var used := base;
    out := [];
    var k := 0;
    while k < |ws|
      invariant 0 <= k <= |ws|
      invariant out == FreshFold(base, ws[..k]).out
      invariant used == FreshFold(base, ws[..k]).used
    {
      var w := ws[k];
      var id := w.id;
      if id in used {
        id := FirstFree(used, w.id, k);
      }
      FreshFoldStep(base, ws, k);
      out := out + [w.(id := id)];
      used := used + {id};
      k := k + 1;
    }
    assert ws[..|ws|] == ws;
  }

  /** Position `k` of the corrected renaming depends only on the nodes before it. */
  lemma {:induction false} FreshFoldAt(base: set<string>, ws: seq<Widget>, k: nat)
    requires k < |ws|
    ensures var st := FreshFold(base, ws[..k]);
      FreshFold(base, ws).out[k] == ws[k].(id := FreshId(st.used, ws[k].id, k))
    decreases |ws|
  {
    if k < |ws| - 1 {
      var init := ws[..|ws| - 1];
      FreshFoldAt(base, init, k);
      assert init[..k] == ws[..k];
      assert FreshFold(base, ws).out[k] == FreshFold(base, init).out[k];
    } else {
      assert ws[..k] == ws[..|ws| - 1];
    }
  }

  /** The corrected renaming changes only ids, and a renamed id extends the old one with `_sketch`. */
  lemma FreshFoldShell(base: set<string>, ws: seq<Widget>)
    ensures var out := FreshFold(base, ws).out;
      forall k :: 0 <= k < |ws| ==>
        out[k] == ws[k].(id := out[k].id) &&
        (out[k].id == ws[k].id || StartsWith(out[k].id, ws[k].id + "_sketch"))
  {
    forall k | 0 <= k < |ws|
      ensures FreshFold(base, ws).out[k] == ws[k].(id := FreshFold(base, ws).out[k].id)
      ensures FreshFold(base, ws).out[k].id == ws[k].id ||
        StartsWith(FreshFold(base, ws).out[k].id, ws[k].id + "_sketch")
    {
      FreshFoldAt(base, ws, k);
    }
  }

  /** Every id the corrected renaming produces is new to the base and to the other overlay nodes. */
  lemma {:induction false} FreshFoldUnique(base: set<string>, ws: seq<Widget>)
    ensures var out := FreshFold(base, ws).out;
      (forall k :: 0 <= k < |ws| ==> out[k].id !in base) && DistinctIds(out)
    decreases |ws|
  {
    if ws != [] {
      var init := ws[..|ws| - 1];
      FreshFoldUnique(base, init);
      FreshFoldUsed(base, init);
      var st := FreshFold(base, init);
      var out := FreshFold(base, ws).out;
      var n := |init|;
      assert out[..n] == st.out;
      assert out[n].id !in st.used;
      forall i | 0 <= i < n
        ensures out[i].id != out[n].id
      {
        assert out[i].id in IdSet(st.out);
      }
    }
  }

  /**
   * The corrected renaming keeps an id nobody uses yet, and takes the name
   * the written code would choose whenever that name is still free.
   */
  lemma FreshFoldAgrees(base: set<string>, ws: seq<Widget>, k: nat)
    requires k < |ws|
    ensures var r := FreshFold(base, ws[..k]);
      && (ws[k].id !in r.used ==> FreshFold(base, ws).out[k].id == ws[k].id)
      && (ws[k].id in r.used && Candidate(ws[k].id, k) !in r.used ==>
            FreshFold(base, ws).out[k].id == Candidate(ws[k].id, k))
  {
    FreshFoldAt(base, ws, k);
  }

  /** Filtering keeps ids distinct. */
  lemma {:induction false} FilterDistinctIds(s: seq<Widget>, p: Widget -> bool)
    requires DistinctIds(s)
    ensures DistinctIds(Filter(s, p))
    decreases |s|
  {
    if s != [] {
      FilterDistinctIds(s[1..], p);
      var rest := Filter(s[1..], p);
      forall w | w in rest
        ensures w.id != s[0].id
      {
        var i :| 0 <= i < |s[1..]| && s[1..][i] == w;
        assert s[i + 1] == w;
      }
    }
  }

  /** The merged document with the corrected renaming. */
  function MergeSketchFixed(base: Option<IR>, overlay: Option<IR>): Option<IR> {
    if base.None? || base.value.widgets.None? || overlay.None? || overlay.value.widgets.None? then base
    else
      var bw := base.value.widgets.value;
      var c := CoalesceFold(bw, overlay.value.widgets.value);
      var renamed := FreshFold(IdSet(bw), Cleaned(overlay.value.widgets.value, c.removed)).out;
      Some(base.value.(widgets := Some(c.base + Survivors(c.base, renamed)), meta := Some(MergedMeta(base.value.meta))))
  }

  lemma AppendDistinctIds(a: seq<Widget>, b: seq<Widget>)
    requires DistinctIds(a) && DistinctIds(b)
    requires forall i, j :: 0 <= i < |a| && 0 <= j < |b| ==> a[i].id != b[j].id
    ensures DistinctIds(a + b)
  {
    var all := a + b;
    forall i, j | 0 <= i < j < |all|
      ensures all[i].id != all[j].id
    {
      if i >= |a| {
        assert all[i] == b[i - |a|] && all[j] == b[j - |a|];
      } else if j >= |a| {
        assert all[j] == b[j - |a|];
      }
    }
  }

  /** The overlay nodes that survive the corrected renaming have distinct ids none of which the base uses. */
  lemma FixedTailFresh(bw: seq<Widget>, coalesced: seq<Widget>, cleaned: seq<Widget>)
    ensures var tail := Survivors(coalesced, FreshFold(IdSet(bw), cleaned).out);
      DistinctIds(tail) && forall w :: w in tail ==> w.id !in IdSet(bw)
  {
    var renamed := FreshFold(IdSet(bw), cleaned).out;
    FreshFoldUnique(IdSet(bw), cleaned);
    FilterDistinctIds(renamed, (w: Widget) => !HasBaseRoot(coalesced) || !RootSized(w));
    forall w | w in Survivors(coalesced, renamed)
      ensures w.id !in IdSet(bw)
    {
      var k :| 0 <= k < |renamed| && renamed[k] == w;
    }
  }

  /** With the corrected renaming, base widgets with distinct ids yield a document with distinct ids. */
  lemma MergeSketchFixedUnique(base: Option<IR>, overlay: Option<IR>)
    requires base.Some? && base.value.widgets.Some? && overlay.Some? && overlay.value.widgets.Some?
    requires DistinctIds(base.value.widgets.value)
    ensures DistinctIds(MergeSketchFixed(base, overlay).value.widgets.value)
  {
    var bw := base.value.widgets.value;
    var ow := overlay.value.widgets.value;
    var c := CoalesceFold(bw, ow);
    var tail := Survivors(c.base, FreshFold(IdSet(bw), Cleaned(ow, c.removed)).out);
    FixedTailFresh(bw, c.base, Cleaned(ow, c.removed));
    forall i | 0 <= i < |bw|
      ensures c.base[i].id == bw[i].id
    {
      CoalesceShell(bw, ow, i);
    }
    forall i, j | 0 <= i < |c.base| && 0 <= j < |tail|
      ensures c.base[i].id != tail[j].id
    {
      assert tail[j] in tail;
      assert bw[i].id in IdSet(bw);
    }
    AppendDistinctIds(c.base, tail);
  }
}
