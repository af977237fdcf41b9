// Normalization of extracted widget records into one IR document:
// `applyMapping` (one record through the mapping table), `mergeById`
// (same-id records collapsed in first-seen order) and `buildIR` (the parts
// concatenated in the order lvgl, react, sketch).

module Normalize {
  import opened Common

  // ---------------------------------------------------------------------
  // The mapping table
  // ---------------------------------------------------------------------

  /** A `widgetMap` entry; a missing or empty `react`/`lvgl` name is "". */
  datatype WidgetRule = WidgetRule(react: string, lvgl: string)

  /** An `eventMap` entry; a missing or empty `react`/`lvgl` name is "". */
  datatype EventRule = EventRule(react: string, lvgl: string)

  /**
   * The mapping table: widget rules by type, the tailwind class of each
   * style key ("" when the rule has none) and event rules by event name.
   */
  datatype Mapping = Mapping(
    widgetMap: map<string, WidgetRule>,
    styleMap: map<string, string>,
    eventMap: map<string, EventRule>)

  /** The table used when the rules file cannot be read. */
  const EmptyMapping: Mapping := Mapping(map[], map[], map[])

  // ---------------------------------------------------------------------
  // applyMapping
  // ---------------------------------------------------------------------

  /** The record's type after the widget rule: only LVGL records take the rule's `react` name. */
  function MappedType(mp: Mapping, w: Widget): string {
    if w.kind in mp.widgetMap && mp.widgetMap[w.kind].react != "" && w.source == "lvgl"
    then mp.widgetMap[w.kind].react
    else w.kind
  }

  /** The tailwind class a style key contributes: one class, or nothing without a rule. */
  function StyleClass(mp: Mapping, key: string): seq<string> {
    if key in mp.styleMap && mp.styleMap[key] != "" then [mp.styleMap[key]] else []
  }

  /** The classes of the style keys, in key order. */
  function TailwindClasses(mp: Mapping, keys: seq<string>): seq<string>
    decreases |keys|
  {
    if keys == [] then []
    else TailwindClasses(mp, keys[..|keys| - 1]) + StyleClass(mp, keys[|keys| - 1])
  }

  /** The event after the event rule of its own source. */
  function MapEvent(mp: Mapping, ev: Event): Event {
    if ev.source == "lvgl" && ev.name in mp.eventMap && mp.eventMap[ev.name].react != "" then
      ev.(name := mp.eventMap[ev.name].react)
    else if ev.source == "react" && ev.name in mp.eventMap && mp.eventMap[ev.name].lvgl != "" then
      ev.(name := mp.eventMap[ev.name].lvgl)
    else ev
  }

  function MapEvents(mp: Mapping, evs: seq<Event>): (r: seq<Event>)
    ensures |r| == |evs| && forall i :: 0 <= i < |evs| ==> r[i] == MapEvent(mp, evs[i])
  {
    seq(|evs|, i requires 0 <= i < |evs| => MapEvent(mp, evs[i]))
  }

  /**
   * The normalized record: ten properties and no `source` or `parent`
   * (both ""); missing properties already hold their defaults.
   */
  function Normalized(mp: Mapping, w: Widget): Widget {
    Widget(
      w.id, MappedType(mp, w), Trim(w.text), w.src, w.layout, w.style,
      Join(TailwindClasses(mp, w.style.keys), " "),
      MapEvents(mp, w.events), w.assets, w.children, "", "")
  }

  function NormalizeAll(mp: Mapping, ws: seq<Widget>): (r: seq<Widget>)
    ensures |r| == |ws| && forall i :: 0 <= i < |ws| ==> r[i] == Normalized(mp, ws[i])
  {
    seq(|ws|, i requires 0 <= i < |ws| => Normalized(mp, ws[i]))
  }

  /** The `for (key in w.style)` loop, then `join(' ')`. */
  method TailwindOf(mp: Mapping, style: Dict) returns (tw: string)
    ensures tw == Join(TailwindClasses(mp, style.keys), " ")
  {
    var acc: seq<string> := [];
    var i := 0;
    while i < |style.keys|
      invariant 0 <= i <= |style.keys|
      invariant acc == TailwindClasses(mp, style.keys[..i])
    {
      var key := style.keys[i];
      if key in mp.styleMap && mp.styleMap[key] != "" {
        acc := acc + [mp.styleMap[key]];
      }
      assert style.keys[..i + 1][..i] == style.keys[..i];
      i := i + 1;
    }
    assert style.keys[..|style.keys|] == style.keys;
    tw := Join(acc, " ");
  }

  method ApplyMapping(mp: Mapping, w: Widget) returns (r: Widget)
    ensures r == Normalized(mp, w)
  {
    var kind := w.kind;
    if w.kind in mp.widgetMap && mp.widgetMap[w.kind].react != "" && w.source == "lvgl" {
      kind := mp.widgetMap[w.kind].react;
    }
    var tw := TailwindOf(mp, w.style);
    r := Widget(w.id, kind, Trim(w.text), w.src, w.layout, w.style, tw,
                MapEvents(mp, w.events), w.assets, w.children, "", "");
  }

  /** Only an LVGL record whose type has a rule with a `react` name changes type, to that name. */
  lemma MappedTypeRule(mp: Mapping, w: Widget)
    ensures MappedType(mp, w) != w.kind ==>
      w.source == "lvgl" && w.kind in mp.widgetMap && MappedType(mp, w) == mp.widgetMap[w.kind].react
    ensures w.source != "lvgl" || w.kind !in mp.widgetMap ==> MappedType(mp, w) == w.kind
  {
  }

  /** Tailwind classes distribute over key lists: keys keep their order. */
  lemma {:induction false} TailwindClassesAppend(mp: Mapping, a: seq<string>, b: seq<string>)
    ensures TailwindClasses(mp, a + b) == TailwindClasses(mp, a) + TailwindClasses(mp, b)
    decreases |b|
  {
    if b == [] {
      assert a + b == a;
    } else {
      var b' := b[..|b| - 1];
      assert (a + b)[..|a + b| - 1] == a + b';
      assert (a + b)[|a + b| - 1] == b[|b| - 1];
      TailwindClassesAppend(mp, a, b');
    }
  }

  /** A class is listed exactly when some style key has it as its non-empty rule. */
  lemma {:induction false} TailwindClassesMembers(mp: Mapping, keys: seq<string>, c: string)
    ensures c in TailwindClasses(mp, keys) <==>
      exists i :: 0 <= i < |keys| && keys[i] in mp.styleMap && mp.styleMap[keys[i]] == c && c != ""
    ensures |TailwindClasses(mp, keys)| <= |keys|
    decreases |keys|
  {
    if keys != [] {
      var init := keys[..|keys| - 1];
      TailwindClassesMembers(mp, init, c);
      if c in TailwindClasses(mp, keys) && c !in TailwindClasses(mp, init) {
        assert keys[|keys| - 1] in mp.styleMap && mp.styleMap[keys[|keys| - 1]] == c;
      }
      if exists i :: 0 <= i < |keys| && keys[i] in mp.styleMap && mp.styleMap[keys[i]] == c && c != "" {
        var i :| 0 <= i < |keys| && keys[i] in mp.styleMap && mp.styleMap[keys[i]] == c && c != "";
        if i < |init| {
          assert init[i] == keys[i];
        }
      }
    }
  }

  /** Keys without a rule contribute nothing. */
  lemma {:induction false} TailwindClassesNoRule(mp: Mapping, keys: seq<string>)
    requires forall i :: 0 <= i < |keys| ==> keys[i] !in mp.styleMap
    ensures TailwindClasses(mp, keys) == []
    decreases |keys|
  {
    if keys != [] {
      TailwindClassesNoRule(mp, keys[..|keys| - 1]);
    }
  }

  /**
   * An event keeps its source; its name changes only through the rule of
   * its own source; events of any other source are untouched.
   */
  lemma MapEventRule(mp: Mapping, ev: Event)
    ensures MapEvent(mp, ev).source == ev.source
    ensures MapEvent(mp, ev).name != ev.name ==>
      ev.name in mp.eventMap &&
      ((ev.source == "lvgl" && MapEvent(mp, ev).name == mp.eventMap[ev.name].react) ||
       (ev.source == "react" && MapEvent(mp, ev).name == mp.eventMap[ev.name].lvgl))
    ensures ev.source != "lvgl" && ev.source != "react" ==> MapEvent(mp, ev) == ev
    ensures ev.name !in mp.eventMap ==> MapEvent(mp, ev) == ev
  {
  }

  /**
   * The normalized record keeps the id, the untouched properties and the
   * number and order of events, trims the text and drops `source` and
   * `parent`; a non-LVGL record keeps its type.
   */
  lemma NormalizedKeeps(mp: Mapping, w: Widget)
    ensures var r := Normalized(mp, w);
      && r.id == w.id && r.text == Trim(w.text) && r.src == w.src
      && r.layout == w.layout && r.style == w.style
      && r.assets == w.assets && r.children == w.children
      && r.source == "" && r.parent == ""
      && |r.events| == |w.events|
      && (forall i :: 0 <= i < |w.events| ==> r.events[i].source == w.events[i].source)
      && (w.source != "lvgl" ==> r.kind == w.kind)
  {
  }

  /** Normalization keeps every id, in order. */
  lemma NormalizedIdsKept(mp: Mapping, ws: seq<Widget>)
    ensures Ids(NormalizeAll(mp, ws)) == Ids(ws)
  {
  }

  // ---------------------------------------------------------------------
  // mergeById
  // ---------------------------------------------------------------------

  /** `{...prev, ...w, style: {...prev.style, ...w.style}, events: [...prev.events, ...w.events]}`. */
  function Combine(prev: Widget, w: Widget): Widget {
    w.(style := Spread(prev.style, w.style), events := prev.events + w.events)
  }

  /** The `Map` of `mergeById`: ids in insertion order and the record stored under each. */
  datatype MergeState = MergeState(order: seq<string>, byId: map<string, Widget>)

  ghost predicate MergeWf(st: MergeState) {
    && (forall i, j :: 0 <= i < j < |st.order| ==> st.order[i] != st.order[j])
    && (forall x :: x in st.byId <==> x in st.order)
    && (forall x :: x in st.byId ==> st.byId[x].id == x)
  }

  function MergeStep(st: MergeState, w: Widget): MergeState {
    if w.id in st.byId then MergeState(st.order, st.byId[w.id := Combine(st.byId[w.id], w)])
    else MergeState(st.order + [w.id], st.byId[w.id := w])
  }

  function MergeFold(list: seq<Widget>): (st: MergeState)
    ensures MergeWf(st)
    decreases |list|
  {
    if list == [] then MergeState([], map[])
    else MergeStep(MergeFold(list[..|list| - 1]), list[|list| - 1])
  }

  /** `[...map.values()]` after the fold. */
  function Merged(list: seq<Widget>): seq<Widget> {
    var st := MergeFold(list);
    seq(|st.order|, i requires 0 <= i < |st.order| => st.byId[st.order[i]])
  }

  method MergeById(list: seq<Widget>) returns (merged: seq<Widget>)
    ensures merged == Merged(list)
  {
    var order: seq<string> := [];
    var byId: map<string, Widget> := map[];
    var i := 0;
    while i < |list|
      invariant 0 <= i <= |list|
      invariant MergeState(order, byId) == MergeFold(list[..i])
    {
      var w := list[i];
      if w.id !in byId {
        order := order + [w.id];
        byId := byId[w.id := w];
      } else {
        var prev := byId[w.id];
        byId := byId[w.id := Combine(prev, w)];
      }
      assert list[..i + 1][..i] == list[..i];
      i := i + 1;
    }
    assert list[..|list|] == list;
    merged := seq(|order|, j requires 0 <= j < |order| && order[j] in byId => byId[order[j]]);
  }

  /** The distinct values of `xs`, each at its first occurrence. */
  function FirstSeen(xs: seq<string>): (r: seq<string>)
    ensures forall i, j :: 0 <= i < j < |r| ==> r[i] != r[j]
    ensures forall x :: x in r <==> x in xs
    decreases |xs|
  {
    if xs == [] then []
    else
      var r := FirstSeen(xs[..|xs| - 1]);
      if xs[|xs| - 1] in r then r else r + [xs[|xs| - 1]]
  }

  /** The records of `list` with id `x`, in order. */
  function SameId(list: seq<Widget>, x: string): (r: seq<Widget>)
    ensures forall i :: 0 <= i < |r| ==> r[i].id == x
    decreases |list|
  {
    if list == [] then []
    else
      var r := SameId(list[..|list| - 1], x);
      if list[|list| - 1].id == x then r + [list[|list| - 1]] else r
  }

  /** Records sharing one id, combined left to right: the reference for one merged record. */
  function Collapse(ws: seq<Widget>): Widget
    requires ws != []
    decreases |ws|
  {
    if |ws| == 1 then ws[0] else Combine(Collapse(ws[..|ws| - 1]), ws[|ws| - 1])
  }

  /** The value of style key `k` in the last record whose style has it. */
  function LastStyle(ws: seq<Widget>, k: string): Option<Val>
    decreases |ws|
  {
    if ws == [] then None
    else if k in ws[|ws| - 1].style.m then Some(ws[|ws| - 1].style.m[k])
    else LastStyle(ws[..|ws| - 1], k)
  }

  function EventsOf(w: Widget): seq<Event> {
    w.events
  }

  lemma {:induction false} IdsSnoc(list: seq<Widget>)
    requires list != []
    ensures Ids(list) == Ids(list[..|list| - 1]) + [list[|list| - 1].id]
    decreases |list|
  {
    if |list| > 1 {
      var tail := list[1..];
      IdsSnoc(tail);
      assert tail[..|tail| - 1] == list[..|list| - 1][1..];
    }
  }

  /** The merged ids are the input ids, each once, in first-seen order. */
  lemma {:induction false} MergeFoldOrder(list: seq<Widget>)
    ensures MergeFold(list).order == FirstSeen(Ids(list))
    decreases |list|
  {
    if list != [] {
      var init := list[..|list| - 1];
      MergeFoldOrder(init);
      IdsSnoc(list);
      assert Ids(list)[..|Ids(list)| - 1] == Ids(init);
    }
  }

  lemma MergedIds(list: seq<Widget>)
    ensures Ids(Merged(list)) == FirstSeen(Ids(list))
    ensures DistinctIds(Merged(list))
  {
    MergeFoldOrder(list);
    MergedOrder(list);
  }

  lemma MergedOrder(list: seq<Widget>)
    ensures |Merged(list)| == |MergeFold(list).order|
    ensures forall i :: 0 <= i < |Merged(list)| ==> Merged(list)[i].id == MergeFold(list).order[i]
    ensures Ids(Merged(list)) == MergeFold(list).order
  {
    var st := MergeFold(list);
    var m := Merged(list);
    assert forall i :: 0 <= i < |m| ==> m[i].id == st.order[i];
    assert Ids(m) == st.order;
  }

  /** Each stored record is the collapse of all input records with its id. */
  lemma {:induction false} MergeFoldValue(list: seq<Widget>, x: string)
    ensures x in MergeFold(list).byId <==> SameId(list, x) != []
    ensures x in MergeFold(list).byId ==> MergeFold(list).byId[x] == Collapse(SameId(list, x))
    decreases |list|
  {
    if list != [] {
      var init := list[..|list| - 1];
      var w := list[|list| - 1];
      MergeFoldValue(init, x);
      if w.id == x && SameId(init, x) != [] {
        var s := SameId(list, x);
        assert s[..|s| - 1] == SameId(init, x);
      }
    }
  }

  /** The merged record of an id is the collapse of the records with that id. */
  lemma MergedIsCollapse(list: seq<Widget>, j: nat)
    requires j < |Merged(list)|
    ensures SameId(list, Merged(list)[j].id) != []
    ensures Merged(list)[j] == Collapse(SameId(list, Merged(list)[j].id))
  {
    MergeFoldValue(list, MergeFold(list).order[j]);
  }

  /**
   * A collapsed record takes every property but `style` and `events` from
   * the last record; its events are all the records' events, earlier first.
   */
  lemma {:induction false} CollapseLaterWins(ws: seq<Widget>)
    requires ws != []
    ensures Collapse(ws).(style := ws[|ws| - 1].style, events := ws[|ws| - 1].events) == ws[|ws| - 1]
    ensures Collapse(ws).events == FlatMap(ws, EventsOf)
    decreases |ws|
  {
    if |ws| == 1 {
      assert FlatMap(ws, EventsOf) == ws[0].events + FlatMap(ws[1..], EventsOf);
    } else {
      var init := ws[..|ws| - 1];
      CollapseLaterWins(init);
      FlatMapSnoc(init, ws[|ws| - 1], EventsOf);
      assert init + [ws[|ws| - 1]] == ws;
    }
  }

  /** Style is a union of the records' styles in which the later record wins each key. */
  lemma {:induction false} CollapseStyle(ws: seq<Widget>, k: string)
    requires ws != []
    requires forall i :: 0 <= i < |ws| ==> ValidDict(ws[i].style)
    ensures Get(Collapse(ws).style, k) == LastStyle(ws, k)
    decreases |ws|
  {
    if |ws| > 1 {
      var init := ws[..|ws| - 1];
      CollapseStyle(init, k);
      SpreadGet(Collapse(init).style, ws[|ws| - 1].style, k);
    }
  }

  /** Every record of `list` is the one stored under its id. */
  ghost predicate Stored(st: MergeState, list: seq<Widget>) {
    forall i :: 0 <= i < |list| ==> list[i].id in st.byId && st.byId[list[i].id] == list[i]
  }

  lemma StoredStep(st: MergeState, list: seq<Widget>)
    requires list != [] && Stored(st, list[..|list| - 1])
    requires forall i :: 0 <= i < |list| - 1 ==> list[i].id != list[|list| - 1].id
    ensures Stored(MergeState(st.order + [list[|list| - 1].id], st.byId[list[|list| - 1].id := list[|list| - 1]]), list)
  {
    var w := list[|list| - 1];
    forall i | 0 <= i < |list|
      ensures list[i].id in st.byId[w.id := w] && st.byId[w.id := w][list[i].id] == list[i]
    {
      if i < |list| - 1 {
        assert list[i] == list[..|list| - 1][i];
      }
    }
  }

  /** Records with pairwise distinct ids are each new when they arrive. */
  lemma {:induction false} MergeFoldDistinctOrder(list: seq<Widget>)
    requires DistinctIds(list)
    ensures MergeFold(list).order == Ids(list)
    decreases |list|
  {
    if list != [] {
      var init := list[..|list| - 1];
      var w := list[|list| - 1];
      DistinctInit(list);
      MergeFoldDistinctOrder(init);
      IdsSnoc(list);
      NotAnId(init, w.id);
    }
  }

  /** Records with pairwise distinct ids are stored as they are. */
  lemma {:induction false} MergeFoldDistinct(list: seq<Widget>)
    requires DistinctIds(list)
    ensures Stored(MergeFold(list), list)
    decreases |list|
  {
    if list != [] {
      var init := list[..|list| - 1];
      var w := list[|list| - 1];
      DistinctInit(list);
      MergeFoldDistinct(init);
      MergeFoldDistinctOrder(init);
      NotAnId(init, w.id);
      var st := MergeFold(init);
      assert w.id !in st.byId;
      StoredStep(st, list);
    }
  }

  lemma DistinctInit(list: seq<Widget>)
    requires list != [] && DistinctIds(list)
    ensures DistinctIds(list[..|list| - 1])
    ensures forall i :: 0 <= i < |list| - 1 ==> list[i].id != list[|list| - 1].id
  {
  }

  lemma NotAnId(ws: seq<Widget>, x: string)
    requires forall i :: 0 <= i < |ws| ==> ws[i].id != x
    ensures x !in Ids(ws)
  {
  }

  /** On records with distinct ids `mergeById` is the identity. */
  lemma MergeDistinctIdentity(list: seq<Widget>)
    requires DistinctIds(list)
    ensures Merged(list) == list
  {
    MergeFoldDistinctOrder(list);
    MergeFoldDistinct(list);
  }

  /** `mergeById` is idempotent. */
  lemma MergeIdempotent(list: seq<Widget>)
    ensures Merged(Merged(list)) == Merged(list)
  {
    MergedIds(list);
    MergeDistinctIdentity(Merged(list));
  }

  // ---------------------------------------------------------------------
  // buildIR
  // ---------------------------------------------------------------------

  /**
   * A property of the `parts` object: a parser result whose `raw` list may
   * be missing, a string (`screenId`), or `undefined`/anything else.
   */
  datatype Part = Segment(raw: Option<seq<Widget>>) | Text(s: string) | Missing

  /** The `parts` object: property names in `Object.keys` order and their values. */
  datatype Parts = Parts(keys: seq<string>, values: map<string, Part>)

  function PartAt(parts: Parts, k: string): Part {
    if k in parts.values then parts.values[k] else Missing
  }

  /** `parts[k]?.raw`: present only for a parser result that has `raw`. */
  function RawOf(parts: Parts, k: string): Option<seq<Widget>> {
    match PartAt(parts, k)
    case Segment(raw) => raw
    case _ => None
  }

  function RawOr(parts: Parts, k: string): seq<Widget> {
    match RawOf(parts, k)
    case Some(raw) => raw
    case None => []
  }

  const SourceOrder: seq<string> := ["lvgl", "react", "sketch"]

  /** The normalized records of the parts named by `keys`, in that order. */
  function Collected(mp: Mapping, parts: Parts, keys: seq<string>): seq<Widget>
    decreases |keys|
  {
    if keys == [] then []
    else Collected(mp, parts, keys[..|keys| - 1]) + NormalizeAll(mp, RawOr(parts, keys[|keys| - 1]))
  }

  /** `Object.keys(parts).filter(k => parts[k]?.raw)` over a list of names. */
  function SourcesOf(parts: Parts, keys: seq<string>): seq<string>
    decreases |keys|
  {
    if keys == [] then []
    else
      var r := SourcesOf(parts, keys[..|keys| - 1]);
      if RawOf(parts, keys[|keys| - 1]).Some? then r + [keys[|keys| - 1]] else r
  }

  /** `parts.screenId || 'screen_auto'`. */
  function ScreenIdOf(parts: Parts): (r: string)
    ensures r != ""
  {
    match PartAt(parts, "screenId")
    case Text(s) => if s != "" then s else "screen_auto"
    case _ => "screen_auto"
  }

  /** The document `buildIR` returns. */
  function Built(mp: Mapping, parts: Parts): IR {
    IR("1.0", ScreenIdOf(parts), Some(Merged(Collected(mp, parts, SourceOrder))), Empty,
       Some(Meta(Some(SourcesOf(parts, parts.keys)), Some(true), Empty)))
  }

  /** `seg.raw.forEach(w => collected.push(applyMapping(w)))`. */
  method MapAll(mp: Mapping, raw: seq<Widget>) returns (out: seq<Widget>)
    ensures out == NormalizeAll(mp, raw)
  {
    out := [];
    var j := 0;
    while j < |raw|
      invariant 0 <= j <= |raw|
      invariant out == NormalizeAll(mp, raw[..j])
    {
      var w := ApplyMapping(mp, raw[j]);
      assert NormalizeAll(mp, raw[..j + 1]) == NormalizeAll(mp, raw[..j]) + [w];
      out := out + [w];
      j := j + 1;
    }
    assert raw[..|raw|] == raw;
  }

  lemma CollectedStep(mp: Mapping, parts: Parts, keys: seq<string>, k: nat)
    requires k < |keys|
    ensures Collected(mp, parts, keys[..k + 1]) == Collected(mp, parts, keys[..k]) + NormalizeAll(mp, RawOr(parts, keys[k]))
  {
    assert keys[..k + 1][..k] == keys[..k];
  }

  method BuildIR(mp: Mapping, parts: Parts) returns (ir: IR)
    ensures ir == Built(mp, parts)
  {
    var collected: seq<Widget> := [];
    var k := 0;
    while k < |SourceOrder|
      invariant 0 <= k <= |SourceOrder|
      invariant collected == Collected(mp, parts, SourceOrder[..k])
    {
      var key := SourceOrder[k];
      var seg := RawOf(parts, key);
      var mapped: seq<Widget> := [];
      if seg.Some? {
        mapped := MapAll(mp, seg.value);
      }
      assert mapped == NormalizeAll(mp, RawOr(parts, key));
      CollectedStep(mp, parts, SourceOrder, k);
      collected := collected + mapped;
      k := k + 1;
    }
    assert SourceOrder[..|SourceOrder|] == SourceOrder;
    var merged := MergeById(collected);
    ir := IR("1.0", ScreenIdOf(parts), Some(merged), Empty,
             Some(Meta(Some(SourcesOf(parts, parts.keys)), Some(true), Empty)));
  }

  /** The collected records are the LVGL, React and Sketch records, in that order. */
  lemma CollectedOrder(mp: Mapping, parts: Parts)
    ensures Collected(mp, parts, SourceOrder) ==
      NormalizeAll(mp, RawOr(parts, "lvgl")) + NormalizeAll(mp, RawOr(parts, "react"))
        + NormalizeAll(mp, RawOr(parts, "sketch"))
  {
    var lr: seq<string> := ["lvgl", "react"];
    assert SourceOrder[..|SourceOrder| - 1] == lr;
    assert lr[..|lr| - 1] == ["lvgl"];
    assert ["lvgl"][..0] == [];
    assert Collected(mp, parts, ["lvgl"]) == NormalizeAll(mp, RawOr(parts, "lvgl"));
  }

  lemma NormalizeAllAppend(mp: Mapping, a: seq<Widget>, b: seq<Widget>)
    ensures NormalizeAll(mp, a + b) == NormalizeAll(mp, a) + NormalizeAll(mp, b)
  {
  }

  /**
   * The document's widget ids are the distinct ids of the LVGL, React and
   * Sketch records, in first-seen order over that concatenation.
   */
  lemma BuiltIds(mp: Mapping, parts: Parts)
    ensures Ids(Built(mp, parts).widgets.value) ==
      FirstSeen(Ids(RawOr(parts, "lvgl") + RawOr(parts, "react") + RawOr(parts, "sketch")))
    ensures DistinctIds(Built(mp, parts).widgets.value)
  {
    var all := RawOr(parts, "lvgl") + RawOr(parts, "react") + RawOr(parts, "sketch");
    CollectedOrder(mp, parts);
    NormalizeAllAppend(mp, RawOr(parts, "lvgl") + RawOr(parts, "react"), RawOr(parts, "sketch"));
    NormalizeAllAppend(mp, RawOr(parts, "lvgl"), RawOr(parts, "react"));
    NormalizedIdsKept(mp, all);
    MergedIds(NormalizeAll(mp, all));
  }

  /** `meta.sources` lists exactly the properties that carry `raw`, in `Object.keys` order. */
  lemma {:induction false} SourcesSpec(parts: Parts, keys: seq<string>, x: string)
    ensures x in SourcesOf(parts, keys) <==> x in keys && RawOf(parts, x).Some?
    ensures IsSubsequence(SourcesOf(parts, keys), keys)
    decreases |keys|
  {
    if keys != [] {
      var init := keys[..|keys| - 1];
      var last := keys[|keys| - 1];
      SourcesSpec(parts, init, x);
      assert keys == init + [last];
      SubsequenceSnoc(SourcesOf(parts, init), init, last);
    }
  }

  /** A subsequence stays one when the same element is appended to both, or only to the larger. */
  lemma {:induction false} SubsequenceSnoc(t: seq<string>, s: seq<string>, x: string)
    requires IsSubsequence(t, s)
    ensures IsSubsequence(t + [x], s + [x]) && IsSubsequence(t, s + [x])
    decreases |s|
  {
    if t == [] {
      assert IsSubsequence([x], [x]) by {
        assert IsSubsequence([], [x][1..]) by { assert [x][1..] == []; }
      }
      SubsequenceSkipMany([x], s);
      assert [] + [x] == [x];
    } else if s != [] && t[0] == s[0] {
      SubsequenceSnoc(t[1..], s[1..], x);
      assert (t + [x])[1..] == t[1..] + [x];
      assert (s + [x])[1..] == s[1..] + [x];
    } else {
      SubsequenceSnoc(t, s[1..], x);
      assert (s + [x])[1..] == s[1..] + [x];
    }
  }

  /** Any prefix can be skipped in front of a subsequence. */
  lemma {:induction false} SubsequenceSkipMany(t: seq<string>, s: seq<string>)
    requires IsSubsequence(t, t)
    ensures IsSubsequence(t, s + t)
    decreases |s|
  {
    if s == [] {
      assert s + t == t;
    } else {
      SubsequenceSkipMany(t, s[1..]);
      SubsequenceSkip(t, s[0], s[1..] + t);
      assert [s[0]] + (s[1..] + t) == s + t;
    }
  }

  /**
   * A property without `raw` (a missing part, a parser result that carries
   * only `widgets`, a string) can be replaced by any other such value
   * without changing the document, provided it is not `screenId`.
   */
  lemma {:induction false} RawlessPartIgnored(mp: Mapping, parts: Parts, k: string, p: Part)
    requires k != "screenId" && RawOf(parts, k).None?
    requires !(p.Segment? && p.raw.Some?)
    ensures Built(mp, Parts(parts.keys, parts.values[k := p])) == Built(mp, parts)
  {
    var parts' := Parts(parts.keys, parts.values[k := p]);
    assert PartAt(parts', "screenId") == PartAt(parts, "screenId");
    assert forall key :: RawOf(parts', key) == RawOf(parts, key);
    CollectedSame(mp, parts, parts', SourceOrder);
    SourcesSame(parts, parts', parts.keys);
  }

  lemma {:induction false} CollectedSame(mp: Mapping, p1: Parts, p2: Parts, keys: seq<string>)
    requires forall key :: RawOf(p1, key) == RawOf(p2, key)
    ensures Collected(mp, p1, keys) == Collected(mp, p2, keys)
    decreases |keys|
  {
    if keys != [] {
      CollectedSame(mp, p1, p2, keys[..|keys| - 1]);
    }
  }

  lemma {:induction false} SourcesSame(p1: Parts, p2: Parts, keys: seq<string>)
    requires forall key :: RawOf(p1, key) == RawOf(p2, key)
    ensures SourcesOf(p1, keys) == SourcesOf(p2, keys)
    decreases |keys|
  {
    if keys != [] {
      SourcesSame(p1, p2, keys[..|keys| - 1]);
    }
  }
}
