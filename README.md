# UIBridge core, modelled in Dafny

UIBridge reads one UI screen from three places and turns it into a single
widget document, the IR:

- an LVGL C source, scanned with regular expressions for `lv_*_create` calls and the setters that follow them;
- a React/JSX component, whose Babel AST is walked;
- a Sketch artboard in JSON.

Each parser produces a flat list of raw widget records. `buildIR`:

- normalizes every record through a mapping table (widget types, style keys to Tailwind classes, event names);
- collapses records that share an id;
- returns the IR document.

`mergeSketchDomIR` lays a Sketch overlay over an LVGL base:

- it folds overlay labels onto base labels that have the same text;
- it drops decorative overlay nodes;
- it renames overlay ids that collide with base ids;
- it drops overlay root containers.

The HTTP server has three parts the model covers:

- it picks the screen files;
- it cuts the `data` literal out of a Sketch HTML export with a bracket-counting scan;
- it finds the artboard for an id.

Around this core sit a few smaller pieces:

- two code generators write JSX and LVGL C back out of an IR;
- a preview renderer turns a widget's type, layout and style into a Tailwind class string;
- a small process-wide cache.

One module per source file:

| module | file | models |
|---|---|---|
| `Common` | `common.dfy` | JavaScript values, ordered objects and spread, `trim`, string search, decimal rendering, `find`/`filter`, the widget record |
| `Normalize` | `normalize.dfy` | `buildIR`, `mergeById`, `applyMapping` |
| `SketchMerge` | `merge_sketch.dfy` | `mergeSketchDomIR`, and a corrected id renaming |
| `LvglParser` | `lvgl_parser.dfy` | `parseLvglFile` |
| `ReactParser` | `react_parser.dfy` | `parseReactFile` after the Babel parse |
| `SketchParser` | `sketch_parser.dfy` | `parseSketchFile` after the file is read, `extractFileName`, the `(n/f)` image-name pattern |
| `Server` | `server.dfy` | the screen scans, the file choice of `/api/build-ir`, the `data` scan and the artboard search of `/api/sketch-dom-ir` |
| `Renderer` | `renderer.dfy` | `getWidgetById`, `getChildren`, `getTailwindStyle`, the root choice of `Renderer` |
| `ReactGenerator` | `react_generator.dfy` | `generateReact`, `camel`, `escapeHtml` |
| `LvglGenerator` | `lvgl_generator.dfy` | `generateLvgl`, `cEscape` |
| `Cache` | `cache.dfy` | `setCache`, `getCache`, `hasCache`, `clearCache` |

How the code becomes Dafny:

- Code that works by loops and pushes becomes a `method`. Each method is proved against a specification function:
  - the creation, setter and link loops of the LVGL parser;
  - the visitor callback of the React parser;
  - the layer loop of the Sketch parser;
  - the `Map` fold of `mergeById`;
  - the two passes and the rename loop of `mergeSketchDomIR`;
  - the bracket scan;
  - the generators' line pushes.
- The cache's `Map` becomes a class whose methods update a `map` field.
- A JavaScript object whose keys are ordered becomes a `Dict`: a list of keys plus a map. `{...a, ...b}` is `Spread`.
- `undefined` is `None`, or the empty value where the code reads `x || ""` or `x || []`.

The code and the specification of this system disagree in several places. The model follows the code:

- `mergeSketchDomIR` matches overlay labels to base labels by trimmed text only. It uses no geometric score.
- It never rewrites `children` lists.
- Its renaming does not guarantee unique ids (see Findings).
- Event de-duplication and a validator are described in the specification, but `mergeById` concatenates events without collapsing them.
- The validator files are not part of this model.
- `meta.sources` of `buildIR` lists every property of `parts` carrying `raw`, in key order. It is not a fixed list of origins.

## Model

| member | source | states |
|---|---|---|
| Cache.Store.constructor | src/services/cache/cache.js:2 | the store starts with no entries |
| Cache.Store.Set | src/services/cache/cache.js:3 | the key maps to the value afterwards; every other key keeps its presence and its value |
| Cache.Store.Get | src/services/cache/cache.js:4 | a value is returned exactly when the key is present, and it is the stored one; otherwise `undefined` (None) |
| Cache.Store.Has | src/services/cache/cache.js:5 | true exactly when the key is present |
| Cache.Store.Clear | src/services/cache/cache.js:6 | no key is present afterwards |
| Cache.SetThenGet | src/services/cache/cache.js:3-4 | a get after a set of the same key returns the value just stored, and a get of another key returns what it returned before the set |
| Cache.ClearThenHas | src/services/cache/cache.js:4-6 | after a clear, `hasCache` is false and `getCache` is `undefined` for every key |
| Common.Put | src/parsers/lvgl/index.js:62 | assigning a property keeps an existing key in its position, appends a new key last, and leaves the object well formed |
| Common.SpreadGet | src/core/ui-ir/normalize.js:28 | reading a key of `{...a, ...b}` gives `b`'s value when `b` has the key, otherwise `a`'s |
| Common.SpreadValid | src/core/ui-ir/normalize.js:28 | a spread of two well-formed objects is well formed |
| Common.Spread | src/core/ui-ir/normalize.js:28 | definition: `{...a, ...b}` assigns `b`'s properties onto a copy of `a` in `b`'s order; `SpreadGet`, `SpreadValid`, `SpreadEmpty` and `SpreadOntoEmpty` state its properties |
| Common.SpreadEmpty | src/core/ui-ir/mergeSketchDomIR.js:69-70 | spreading an empty object on the right, `{...a, ...{}}`, changes nothing |
| Common.SpreadOntoEmpty | src/core/ui-ir/mergeSketchDomIR.js:69-70 | `{...{}, ...a}` is `a` for a well-formed object: the copy has the same keys in the same order and the same values |
| Common.TrimSpec | src/core/ui-ir/mergeSketchDomIR.js:19-21 | `trim` returns a slice of the input that neither starts nor ends with white space, and only white space was cut on either side |
| Common.TrimIdempotent | src/parsers/sketch/index.js:72-76 | trimming an already trimmed text changes nothing |
| Common.TrimKeepsPrefix | preview/Renderer.jsx:64 | trimming keeps a leading part of the text that neither starts nor ends with white space |
| Common.Trim | src/core/ui-ir/normalize.js:54 | definition: white space is stripped from both ends; `TrimSpec`, `TrimIdempotent` and `TrimKeepsPrefix` state its properties |
| Common.ContainsConcat | server.js:171 | a text that occurs in a part of a string occurs in the whole string |
| Common.AfterLastSlashSpec | server.js:29 | the base name is the tail of the path after its last `/`, and it holds no `/` |
| Common.AfterLastSlash | server.js:29 | `path.basename` under POSIX separators: the result is no longer than the path and holds no `/` |
| Common.NatToString | src/parsers/react/index.js:48 | the decimal rendering of an index is a non-empty string of digits |
| Common.ParseNatToString | src/parsers/sketch/index.js:61 | reading the decimal rendering back yields the number |
| Common.NatToStringInjective | src/parsers/sketch/index.js:61 | different indices are rendered differently |
| Common.FindFrom | preview/Renderer.jsx:6 | the index found satisfies the test and no earlier index from the start does; none is found only when no index does |
| Common.Find | preview/Renderer.jsx:6 | `Array.prototype.find`: the first element satisfying the test, or none when no element does |
| Common.Filter | preview/Renderer.jsx:12 | `filter` keeps exactly the elements satisfying the test |
| Common.FilterAll | src/core/ui-ir/mergeSketchDomIR.js:81-84 | a filter whose test every element passes returns the list unchanged |
| Common.FilterIsSubsequence | src/core/ui-ir/mergeSketchDomIR.js:110-118 | `filter` keeps the survivors in their original order |
| Common.Lower | src/parsers/react/index.js:48 | lower-casing keeps the length and lower-cases each ASCII letter |
| Common.Join | src/core/ui-ir/normalize.js:58 | definition: `parts.join(sep)`, the parts with the separator between each two; `TailwindOf` and `TailwindAfterJoined` state what the joins produce |
| Normalize.MapEvents | src/core/ui-ir/normalize.js:45-50 | one output event per input event, in order, each mapped through the event rule |
| Normalize.NormalizeAll | src/core/ui-ir/normalize.js:17 | one normalized record per raw record, in order |
| Normalize.TailwindOf | src/core/ui-ir/normalize.js:40-44 | the tailwind string is the classes of the style keys with a rule, in key order, joined by spaces |
| Normalize.ApplyMapping | src/core/ui-ir/normalize.js:34-63 | the record `applyMapping` returns is the normalized record that the lemmas below describe |
| Normalize.MappedType | src/core/ui-ir/normalize.js:36-39 | definition: the record's type after the widget rule; `MappedTypeRule` states its properties |
| Normalize.MappedTypeRule | src/core/ui-ir/normalize.js:36-39 | only an LVGL record whose type has a widget rule changes type, to the rule's `react` name; a React record keeps its type |
| Normalize.TailwindClassesAppend | src/core/ui-ir/normalize.js:41-44 | the classes of two key lists in a row are the classes of the first, then those of the second |
| Normalize.TailwindClassesMembers | src/core/ui-ir/normalize.js:40-44 | a class is emitted if and only if some style key has it as its non-empty rule; there are never more classes than keys |
| Normalize.TailwindClassesNoRule | src/core/ui-ir/normalize.js:41-43 | style keys without a rule contribute no class |
| Normalize.TailwindClasses | src/core/ui-ir/normalize.js:40-44 | definition: the non-empty `tailwind` rules of the style keys, in key order; `TailwindClassesAppend`, `TailwindClassesMembers` and `TailwindClassesNoRule` state its properties |
| Normalize.MapEventRule | src/core/ui-ir/normalize.js:45-50 | an event keeps its source; its name changes only through the rule of its own source; events of other sources or without a rule are unchanged |
| Normalize.MapEvent | src/core/ui-ir/normalize.js:45-50 | definition: an LVGL event takes its rule's `react` name and a React event its rule's `lvgl` name when the rule has one; `MapEventRule` states its properties |
| Normalize.NormalizedKeeps | src/core/ui-ir/normalize.js:51-62 | normalization keeps the id, src, layout, style, assets, children and event count, trims the text, drops `source` and `parent`, and keeps a non-LVGL type |
| Normalize.NormalizedIdsKept | src/core/ui-ir/normalize.js:52 | normalizing a list keeps every id, in order |
| Normalize.Normalized | src/core/ui-ir/normalize.js:51-62 | definition: the ten-property record `applyMapping` returns; `NormalizedKeeps` and `MappedTypeRule` state its properties |
| Normalize.MergeStep | src/core/ui-ir/normalize.js:26-29 | definition: one iteration of the Map loop, storing a new id or combining with the stored record; `MergeFold`, `MergeFoldOrder` and `MergeFoldValue` state what the steps build |
| Normalize.MergeFold | src/core/ui-ir/normalize.js:24-30 | the fold's insertion order and its stored records stay consistent: each ordered id is stored, and each stored id is listed once |
| Normalize.MergeById | src/core/ui-ir/normalize.js:23-32 | the `Map` loop yields the merged list that the lemmas below describe |
| Normalize.FirstSeen | src/core/ui-ir/normalize.js:24-31 | the distinct values of a list, each once, holding exactly the list's values |
| Normalize.SameId | src/core/ui-ir/normalize.js:26-28 | the records selected for an id all carry that id |
| Normalize.MergeFoldOrder | src/core/ui-ir/normalize.js:25-31 | the `Map`'s key order is the input ids, each once, in first-seen order |
| Normalize.Merged | src/core/ui-ir/normalize.js:31 | definition: the stored records in insertion order; `MergedIds`, `MergedOrder`, `MergedIsCollapse`, `MergeDistinctIdentity` and `MergeIdempotent` state its properties |
| Normalize.MergedIds | src/core/ui-ir/normalize.js:31 | the merged list's ids are the distinct input ids in first-seen order, so they are pairwise distinct |
| Normalize.MergedOrder | src/core/ui-ir/normalize.js:31 | `[...map.values()]` lists one record per key, in the `Map`'s insertion order |
| Normalize.MergeFoldValue | src/core/ui-ir/normalize.js:26-29 | an id is stored exactly when some input record has it, and its record is all those records combined left to right |
| Normalize.MergedIsCollapse | src/core/ui-ir/normalize.js:23-32 | each merged record is the left-to-right combination of every input record with its id |
| Normalize.CollapseLaterWins | src/core/ui-ir/normalize.js:28 | a combined record takes every property but style and events from the last record, and its events are all records' events, earlier first |
| Normalize.CollapseStyle | src/core/ui-ir/normalize.js:28 | each style key of a combined record holds the value of the last record whose style has that key |
| Normalize.Combine | src/core/ui-ir/normalize.js:28 | definition: `{...prev, ...w}` with the styles spread and the events concatenated; `CollapseLaterWins` and `CollapseStyle` state its properties |
| Normalize.MergeFoldDistinctOrder | src/core/ui-ir/normalize.js:25-26 | with pairwise distinct ids, every record is new on arrival, so the key order is the input id order |
| Normalize.MergeFoldDistinct | src/core/ui-ir/normalize.js:25-26 | with pairwise distinct ids, every record is stored unchanged |
| Normalize.MergeDistinctIdentity | src/core/ui-ir/normalize.js:23-32 | on records with distinct ids, `mergeById` returns its input |
| Normalize.MergeIdempotent | src/core/ui-ir/normalize.js:23-32 | merging an already merged list changes nothing |
| Normalize.ScreenIdOf | src/core/ui-ir/normalize.js:21 | the document's `screenId` is never empty: the given one, or `screen_auto` |
| Normalize.MapAll | src/core/ui-ir/normalize.js:17 | the push loop collects the normalized records of a part, in order |
| Normalize.BuildIR | src/core/ui-ir/normalize.js:12-22 | the loop over `lvgl`, `react`, `sketch` and the merge yield the document the lemmas below describe |
| Normalize.Collected | src/core/ui-ir/normalize.js:13-19 | definition: the normalized records of the named parts, part after part; `CollectedOrder` states its properties |
| Normalize.CollectedOrder | src/core/ui-ir/normalize.js:14-19 | the collected records are the normalized LVGL, React and Sketch records, in that order |
| Normalize.Built | src/core/ui-ir/normalize.js:21 | definition: the document `buildIR` returns; `BuiltIds`, `RawlessPartIgnored` and `BuildIR` state its properties |
| Normalize.BuiltIds | src/core/ui-ir/normalize.js:12-22 | the document's widget ids are the distinct raw ids of the three parts in first-seen order, so they are unique |
| Normalize.SourcesOf | src/core/ui-ir/normalize.js:21 | definition: the part names whose `raw` is present, in key order; `SourcesSpec` states its properties |
| Normalize.SourcesSpec | src/core/ui-ir/normalize.js:21 | `meta.sources` lists exactly the properties that carry `raw`, in key order |
| Normalize.RawlessPartIgnored | src/core/ui-ir/normalize.js:15-21 | a property without `raw` (missing, a Sketch result with only `widgets`, a string) can be swapped for any other such value without changing the document |
| SketchMerge.LabelKeys | src/core/ui-ir/mergeSketchDomIR.js:18-21 | one key per base widget: a Label's trimmed non-empty text, otherwise none |
| SketchMerge.IsGarbage | src/core/ui-ir/mergeSketchDomIR.js:37-56 | definition: a node of type Group, Rectangle, Shape or Frame, or a decorative trimmed text, or a Sketch Container whose id starts `group_`, `shape_` or `symbol_`, or a text containing `background` in any case; `CleanedSpec` states how the second pass uses it |
| SketchMerge.FirstIndex | src/core/ui-ir/mergeSketchDomIR.js:20-24 | every entry points at a position that carries that key |
| SketchMerge.LabelMap | src/core/ui-ir/mergeSketchDomIR.js:17-24 | every text in the label map points at a base Label with that trimmed text |
| SketchMerge.BuildLabelMap | src/core/ui-ir/mergeSketchDomIR.js:17-24 | the `forEach` that fills `lvglLabelsByText` builds the label map |
| SketchMerge.LabelMapFirst | src/core/ui-ir/mergeSketchDomIR.js:22-23 | the map has an entry for exactly the texts of base Labels, and the entry is the first Label with that text |
| SketchMerge.Target | src/core/ui-ir/mergeSketchDomIR.js:64-67 | an overlay node's target, when present, is a position of the base list |
| SketchMerge.CoalesceFold | src/core/ui-ir/mergeSketchDomIR.js:62-78 | coalescing keeps the number of base widgets |
| SketchMerge.Coalesce | src/core/ui-ir/mergeSketchDomIR.js:62-78 | the first pass, run in place on the base labels, yields the coalesced base and `toRemove`, whose layout, style and tailwind `CoalesceOverlayWins` and `CoalesceTailwind` state |
| SketchMerge.CoalesceShell | src/core/ui-ir/mergeSketchDomIR.js:68-74 | coalescing changes only the layout, style and tailwind of base widgets |
| SketchMerge.CoalesceUntargeted | src/core/ui-ir/mergeSketchDomIR.js:63-67 | a base widget no overlay label targets is unchanged |
| SketchMerge.TargetsOf | src/core/ui-ir/mergeSketchDomIR.js:64-67 | one target per overlay node, in overlay order |
| SketchMerge.CoalesceRemoved | src/core/ui-ir/mergeSketchDomIR.js:75 | `toRemove` holds exactly the ids of the overlay nodes that found a base label |
| SketchMerge.CoalesceOverlayWins | src/core/ui-ir/mergeSketchDomIR.js:69-70 | a coalesced label's layout and style keys hold the value from the last overlay label targeting it, else the label's own value |
| SketchMerge.JoinClasses | src/core/ui-ir/mergeSketchDomIR.js:72 | definition: the non-empty of the two class strings, joined by a space, trimmed; `JoinClassesPlain` states its effect on trimmed strings |
| SketchMerge.Absorb | src/core/ui-ir/mergeSketchDomIR.js:68-74 | definition: the overlay label's layout and style spread onto the base label's, and its tailwind joined on when non-empty |
| SketchMerge.TargetTailwinds | src/core/ui-ir/mergeSketchDomIR.js:71-74 | the non-empty tailwinds of the overlay labels that target a base label, in overlay order; none of them is empty |
| SketchMerge.TailwindAfter | src/core/ui-ir/mergeSketchDomIR.js:71-74 | definition: a base label's tailwind with each targeting overlay label's non-empty tailwind joined on in overlay order |
| SketchMerge.CoalesceTailwind | src/core/ui-ir/mergeSketchDomIR.js:71-74 | after the first pass, a base label's tailwind is its own tailwind with the tailwind of every overlay label targeting it joined on, in overlay order |
| SketchMerge.TailwindAfterJoined | src/core/ui-ir/mergeSketchDomIR.js:71-74 | with trimmed class strings, that tailwind is the label's own non-empty tailwind and its overlay labels' non-empty tailwinds, separated by single spaces, and it is trimmed |
| SketchMerge.JoinClassesPlain | src/core/ui-ir/mergeSketchDomIR.js:71-74 | two trimmed non-empty class strings are joined with one space; an empty side contributes nothing |
| SketchMerge.Cleaned | src/core/ui-ir/mergeSketchDomIR.js:81-84 | definition: the second pass drops the removed ids and the decorative nodes; `CleanedSpec`, `CoalescedLabelDropped` and `CollidingOverlayKept` state its properties |
| SketchMerge.CleanedSpec | src/core/ui-ir/mergeSketchDomIR.js:81-84 | the second pass keeps exactly the overlay nodes that are neither removed nor decorative, in order |
| SketchMerge.CoalescedLabelDropped | src/core/ui-ir/mergeSketchDomIR.js:75-82 | an overlay label folded onto a base label leaves no overlay node with its id behind |
| SketchMerge.Renamed | src/core/ui-ir/mergeSketchDomIR.js:89-94 | as written, only a colliding id changes, to `<id>_sketch<position>`; all other properties are kept |
| SketchMerge.RenameColliding | src/core/ui-ir/mergeSketchDomIR.js:89-94 | the rename loop yields the renamed list |
| SketchMerge.RenamedId | src/core/ui-ir/mergeSketchDomIR.js:91-92 | definition: an id the base uses becomes `<id>_sketch<index>`, any other id is kept; `RenamedIdSuffix` states its properties |
| SketchMerge.RenamedIdSuffix | src/core/ui-ir/mergeSketchDomIR.js:90-93 | a renamed id extends the old one, and two colliding nodes at different positions never get the same new id |
| SketchMerge.HasBaseRoot | src/core/ui-ir/mergeSketchDomIR.js:109 | definition: some base Container has children; `SurvivorsSpec` and `SurvivorsWithoutRoot` state how the third pass uses it |
| SketchMerge.RootSized | src/core/ui-ir/mergeSketchDomIR.js:112-115 | definition: a Sketch Container with a truthy `w` or `width` and a truthy `h` or `height`; `SurvivorsSpec` states how the third pass uses it |
| SketchMerge.Survivors | src/core/ui-ir/mergeSketchDomIR.js:110-118 | definition: the renamed nodes, without the root-sized Sketch containers when a base root exists; `SurvivorsSpec`, `SurvivorsWithoutRoot` and `FixedTailFresh` state its properties |
| SketchMerge.SurvivorsSpec | src/core/ui-ir/mergeSketchDomIR.js:109-118 | with a populated base root, no root-sized Sketch container survives; otherwise every node does; order is kept |
| SketchMerge.SurvivorsWithoutRoot | src/core/ui-ir/mergeSketchDomIR.js:111 | without a populated base root the filter keeps every node |
| SketchMerge.MergedMeta | src/core/ui-ir/mergeSketchDomIR.js:122-130 | definition: the base meta's other keys, then `sources` `["lvgl", "sketch"]` and `mappingApplied` true; `MergeSketchShape` states the merged document's meta |
| SketchMerge.MergeSketch | src/core/ui-ir/mergeSketchDomIR.js:5-131 | definition: the coalesced base list followed by the surviving renamed overlay nodes, with the merged meta; `MergeSketchShape` states its shape |
| SketchMerge.MergeSketchDomIR | src/core/ui-ir/mergeSketchDomIR.js:5-131 | the whole procedure yields the merged document that `MergeSketchShape` describes |
| SketchMerge.MergeSketchShape | src/core/ui-ir/mergeSketchDomIR.js:6-131 | a missing document or widget list returns the base unchanged. Otherwise the result keeps the base's version, screenId and assets, and has the merged meta. Its widgets start with the coalesced base widgets. The rest are, in order, the renamed non-removed, non-decorative overlay nodes, less the root-sized Sketch Containers when the base has a root. So the list is at most as long as both inputs together |
| SketchMerge.RenamedIdsCanRepeat | src/core/ui-ir/mergeSketchDomIR.js:89-94 | as written: base id `a` and overlay ids `a`, `a_sketch0` both end up as `a_sketch0` |
| SketchMerge.CollidingOverlayUntouched | src/core/ui-ir/mergeSketchDomIR.js:63-67 | the Findings input passes the first pass untouched |
| SketchMerge.CollidingOverlayKept | src/core/ui-ir/mergeSketchDomIR.js:81-84 | the Findings input passes the second pass untouched |
| SketchMerge.MergeSketchIdsCanRepeat | src/core/ui-ir/mergeSketchDomIR.js:89-120 | as written: the merged document of the Findings input repeats an id |
| SketchMerge.FreshName | src/core/ui-ir/mergeSketchDomIR.js:91-92 | corrected: the chosen name is free and starts with `<id>_sketch` |
| SketchMerge.FreshFold | src/core/ui-ir/mergeSketchDomIR.js:89-94 | corrected renaming: one output node per input node |
| SketchMerge.FreshFoldUsed | src/core/ui-ir/mergeSketchDomIR.js:89 | corrected: the reserved ids are the base ids plus every id handed out |
| SketchMerge.FirstFree | src/core/ui-ir/mergeSketchDomIR.js:91-92 | the upward search returns the first free candidate |
| SketchMerge.RenameFresh | src/core/ui-ir/mergeSketchDomIR.js:89-94 | the corrected rename loop yields the corrected renaming |
| SketchMerge.FreshFoldAt | src/core/ui-ir/mergeSketchDomIR.js:90-93 | corrected: the id at each position depends only on the nodes before it |
| SketchMerge.FreshFoldShell | src/core/ui-ir/mergeSketchDomIR.js:92 | corrected: only ids change, and a changed id extends the old one with `_sketch` |
| SketchMerge.FreshFoldUnique | src/core/ui-ir/mergeSketchDomIR.js:87-94 | corrected: every produced id is new to the base and distinct from the other overlay ids |
| SketchMerge.FreshFoldAgrees | src/core/ui-ir/mergeSketchDomIR.js:91-92 | corrected: keeps a free id, and picks the written code's name `<id>_sketch<position>` whenever that name is still free |
| SketchMerge.FilterDistinctIds | src/core/ui-ir/mergeSketchDomIR.js:110-118 | filtering keeps ids distinct |
| SketchMerge.FixedTailFresh | src/core/ui-ir/mergeSketchDomIR.js:109-120 | corrected: the surviving overlay nodes have distinct ids, none used by the base |
| SketchMerge.MergeSketchFixedUnique | src/core/ui-ir/mergeSketchDomIR.js:87-120 | corrected: base widgets with distinct ids give a merged document with distinct ids |
| LvglParser.TypeOf | src/parsers/lvgl/index.js:18 | a function name outside the type table is kept as the type |
| LvglParser.TypeTable | src/parsers/lvgl/index.js:7-13 | btn, label, img, obj and imgseqopt map to Button, Label, Image, Container and ImageSeqOpt |
| LvglParser.Created | src/parsers/lvgl/index.js:16-34 | one fresh record per creation match, in match order |
| LvglParser.NewWidget | src/parsers/lvgl/index.js:20-30 | definition: the record for a creation match: the variable as id, the mapped type, empty text, layout and style, source `lvgl`, the parent expression; `RawRecords` states what survives to `raw` |
| LvglParser.IndexOf | src/parsers/lvgl/index.js:32 | `widgetById` points only at existing records |
| LvglParser.IndexOfValid | src/parsers/lvgl/index.js:32 | different variables point at different records |
| LvglParser.IndexOfLatest | src/parsers/lvgl/index.js:31-32 | a variable points at its latest creation |
| LvglParser.IndexOfKeys | src/parsers/lvgl/index.js:32 | every created variable is a key, and `Object.keys` lists exactly the keys |
| LvglParser.KeyOrder | src/parsers/lvgl/index.js:112 | definition: `Object.keys(widgetById)`, the variables in order of first creation; `IndexOfKeys`, `KeyOrderDistinct` and `FirstKeyIsFirstCreated` state its properties |
| LvglParser.KeyOrderDistinct | src/parsers/lvgl/index.js:112 | `Object.keys` lists each key once |
| LvglParser.CreatePhase | src/parsers/lvgl/index.js:16-34 | the creation loop yields the records, the `widgetById` map and its key order |
| LvglParser.ApplySetterReads | src/parsers/lvgl/index.js:36-107 | one setter writes exactly the properties it names, with those values; `src` is written only on an Image; nothing else changes |
| LvglParser.ApplySetter | src/parsers/lvgl/index.js:36-107 | definition: one setter loop body for the record its match names; `ApplySetterReads` and `ApplySetterKeeps` state its properties |
| LvglParser.Step | src/parsers/lvgl/index.js:41-42 | a setter iteration keeps the number of records |
| LvglParser.ApplySetters | src/parsers/lvgl/index.js:36-107 | the setter loops keep the number of records |
| LvglParser.ApplySettersAppend | src/parsers/lvgl/index.js:36-107 | two setter loops in a row act as one loop over both match lists |
| LvglParser.ApplyPhase | src/parsers/lvgl/index.js:57-63 | one `while (m = re.exec(code))` setter loop applies its matches in order |
| LvglParser.SetterListRuns | src/parsers/lvgl/index.js:36-107 | the eight loops in source order run the combined setter list |
| LvglParser.ApplySettersShell | src/parsers/lvgl/index.js:36-107 | no setter changes a record's id, type, parent, source, events or children |
| LvglParser.ApplySettersSkip | src/parsers/lvgl/index.js:31-32 | a record that no variable points at is never written |
| LvglParser.SettersLastWins | src/parsers/lvgl/index.js:36-107 | each property holds the value of the last match that writes it, or its earlier value when none does |
| LvglParser.UnknownSetterIgnored | src/parsers/lvgl/index.js:61-62 | a match naming an uncreated variable changes nothing |
| LvglParser.ApplySetterKeeps | src/parsers/lvgl/index.js:42-43 | one setter keeps `src` on Images only, and keeps the numbers non-negative |
| LvglParser.ApplySettersKeep | src/parsers/lvgl/index.js:55-107 | all setters keep `src` on Images only, and keep layout values and `borderWidth` non-negative |
| LvglParser.FirstKey | src/parsers/lvgl/index.js:112 | `find` returns the first key contained in the parent expression, or none when no key is |
| LvglParser.FirstKeySnoc | src/parsers/lvgl/index.js:112 | appending a key changes the found key only when none was found before |
| LvglParser.FirstKeyIsFirstCreated | src/parsers/lvgl/index.js:112 | the found key is the first-created variable whose name occurs in the parent expression |
| LvglParser.LinkKeySpec | src/parsers/lvgl/index.js:110-113 | a creation links to `v` if and only if its parent is neither empty nor `NULL` and `v` is the first-created name it contains |
| LvglParser.LinkKey | src/parsers/lvgl/index.js:110-113 | definition: none for an empty or `NULL` parent, else the first key the parent contains; `LinkKeySpec` states it |
| LvglParser.Link | src/parsers/lvgl/index.js:110-119 | a link step keeps the number of records |
| LvglParser.LinkChildren | src/parsers/lvgl/index.js:113-116 | a link step appends the child's name to `v`'s record exactly when the creation links to `v` |
| LvglParser.LinkAll | src/parsers/lvgl/index.js:109-120 | the link loop keeps the number of records |
| LvglParser.LinkPhase | src/parsers/lvgl/index.js:109-120 | the `parentLinks.forEach` loop yields the linked records |
| LvglParser.LinkAllKeeps | src/parsers/lvgl/index.js:109-120 | the link loop changes nothing but `children` |
| LvglParser.LinkAllSkip | src/parsers/lvgl/index.js:113-116 | a record no variable points at gets no children |
| LvglParser.LinkAllChildren | src/parsers/lvgl/index.js:109-120 | a record's children grow by the names of the creations linking to it, in creation order, and by nothing else |
| LvglParser.ChildNamesSpec | src/parsers/lvgl/index.js:109-116 | a name is a child of `v` if and only if some creation with that name links to `v` |
| LvglParser.LvglRaw | src/parsers/lvgl/index.js:139 | `raw` holds one record per creation match |
| LvglParser.ParseLvgl | src/parsers/lvgl/index.js:1-139 | the parser returns `raw` and `meta.count`, which equals the number of records and of creation matches |
| LvglParser.RawRecords | src/parsers/lvgl/index.js:16-34 | each record carries its variable as id, the mapped type, the parent expression, source `lvgl` and no events |
| LvglParser.RawSrcAndNumbers | src/parsers/lvgl/index.js:41-44 | every `src` is `/images/<name>.png` on an Image, and layout values and `borderWidth` are non-negative |
| LvglParser.RawLastWins | src/parsers/lvgl/index.js:36-107 | a variable's record holds, per property, the last setter value on that variable, else its initial value |
| LvglParser.RawEarlierDuplicate | src/parsers/lvgl/index.js:31-32 | an earlier creation of a reused name stays as created, since all setters and links go to the later record |
| LvglParser.RawChildren | src/parsers/lvgl/index.js:109-120 | a variable's children are the names of the creations linking to it, in creation order |
| ReactParser.JsxName | src/parsers/react/index.js:47 | a name that is not a plain identifier reads as "" |
| ReactParser.AutoId | src/parsers/react/index.js:48 | the automatic id is exactly the lower-cased name (or `el`), then `_`, then the index: it starts and ends with those parts and is as long as they are together |
| ReactParser.MapType | src/parsers/react/index.js:49-53 | `button` gives Button; `span` and `label` give Label; every other name gives Container |
| ReactParser.CollectEvents | src/parsers/react/index.js:54-57 | every collected event has an `on[A-Z]` name and source `react`, and there are no more events than attributes |
| ReactParser.CollectEventsComplete | src/parsers/react/index.js:54-57 | an event is collected if and only if some attribute is an event attribute with that name |
| ReactParser.ChildText | src/parsers/react/index.js:60-67 | definition: a text child's or a string-literal child's trimmed value, else ""; `ExtractText` and `ExtractTextTrimmed` state how it is used |
| ReactParser.ExtractText | src/parsers/react/index.js:58-70 | the text is the first child's non-empty trimmed text, or "" when no child has one |
| ReactParser.ExtractTextTrimmed | src/parsers/react/index.js:58-70 | the extracted text is trimmed |
| ReactParser.ElementId | src/parsers/react/index.js:11-14 | the id is never empty: the first `id` attribute's value when it is a non-empty string literal; the automatic id when that value is empty or not a string literal, or when there is no `id` attribute |
| ReactParser.IsEventName | src/parsers/react/index.js:55 | definition: `/^on[A-Z]/`: `on` followed by an ASCII capital; `CollectEvents` states its use |
| ReactParser.NewWidget | src/parsers/react/index.js:13-22 | definition: the record for an element: its id, mapped type, extracted text, events, source `react` and no children; `PushedElements` states that each element gets it |
| ReactParser.Visit | src/parsers/react/index.js:8-34 | one callback keeps stack entries and parent links pointing at earlier records |
| ReactParser.Run | src/parsers/react/index.js:8-34 | the callback over all nodes keeps the stack and parent links well formed |
| ReactParser.ParseReact | src/parsers/react/index.js:4-36 | the parser returns the callback's records and `meta.count` equal to their number |
| ReactParser.Elements | src/parsers/react/index.js:9 | the visited elements are all `JSXElement` nodes |
| ReactParser.Pushed | src/parsers/react/index.js:27 | one pushed record per visited element |
| ReactParser.PushedElements | src/parsers/react/index.js:13-22 | the k-th pushed record is the one built for the k-th element, with index k |
| ReactParser.RunRecords | src/parsers/react/index.js:13-27 | the records are the pushed ones, in visit order; afterwards only their `children` change |
| ReactParser.VisitElementShell | src/parsers/react/index.js:13-27 | visiting an element appends its record and changes earlier records only in `children` |
| ReactParser.VisitElementLinks | src/parsers/react/index.js:23-28 | visiting an element adds its id to the children of the stack's top record, and nowhere else |
| ReactParser.VisitChildren | src/parsers/react/index.js:23-26 | each callback keeps every record's children equal to the ids of the records pushed while it was on top |
| ReactParser.RunChildren | src/parsers/react/index.js:23-28 | each record's children are the ids of the elements reached while it was on top of the stack, and every parent comes earlier |
| ReactParser.RunStack | src/parsers/react/index.js:23-33 | the stack never holds more entries than elements, and elements outnumber closings by at most the stack size |
| ReactParser.VisitKeepsStack | src/parsers/react/index.js:28-33 | only a closing element removes a stack entry |
| ReactParser.ClosingBeforeChildren | src/parsers/react/index.js:38-46 | for the visit order `div`, its closing node, `span`, which `visit` produces for `<div><span/></div>` when the closing property comes before `children`: `div` records no children and `span` gets no parent |
| ReactParser.SelfClosingAdopts | src/parsers/react/index.js:23-33 | a self-closing element is never popped, so the next element, `p` in `<div><span/><p/></div>`, becomes its child |
| SketchParser.Clean | src/parsers/sketch/index.js:8 | cleaning removes every space and backslash and never lengthens the text |
| SketchParser.ExtractFileName | src/parsers/sketch/index.js:5-11 | an empty name gives ""; the result holds no space, `/` or `\` |
| SketchParser.ExtractFileNameIdempotent | src/parsers/sketch/index.js:5-11 | a file name is its own file name |
| SketchParser.ExtractFileNameAppend | src/parsers/sketch/index.js:8-10 | a trailing part without separators passes through unchanged after the folder part |
| SketchParser.LineStart | src/parsers/sketch/index.js:79-80 | the match can start only on the text's last line: after the last line terminator |
| SketchParser.NfMatch | src/parsers/sketch/index.js:79-80 | definition: `nfPattern.exec(trimmed)`, a match on the last line only; `LineStart`, `NfMatchLineShape` and `NfMatchHasExt` state its properties |
| SketchParser.ExtLen | src/parsers/sketch/index.js:98 | an extension is found exactly when the text ends in `.png`, `.jpg`, `.jpeg` or `.gif` in any letter case |
| SketchParser.MarkerLen | src/parsers/sketch/index.js:79 | a marker is 5 to 7 characters long, opens with `(n` in either case and closes with `)` |
| SketchParser.LastMarker | src/parsers/sketch/index.js:79 | the greedy `(.*)` selects the last marker that fits |
| SketchParser.NfMatchLineShape | src/parsers/sketch/index.js:79-88 | a match splits the line into prefix, marker, postfix, `.` and an image extension |
| SketchParser.NfMatchHasExt | src/parsers/sketch/index.js:79-98 | an `(n/f)` match implies the plain extension test succeeds |
| SketchParser.ImageSrc | src/parsers/sketch/index.js:78-106 | a layer text names an image exactly when it ends in an image extension, and the source starts with `/assets/` |
| SketchParser.NfExtPlain | src/parsers/sketch/index.js:87 | the extension group holds no separator |
| SketchParser.FVariantSource | src/parsers/sketch/index.js:90-95 | the `f` variant's source is `/assets/`, the prefix's file name, `f`, the postfix and the extension |
| SketchParser.NfSourceIsFVariant | src/parsers/sketch/index.js:82-95 | for an `(n/f)` name the image source is the `f` variant built from the match |
| SketchParser.LayerIds | src/parsers/sketch/index.js:56 | one child id per layer, in layer order |
| SketchParser.Indexed | src/parsers/sketch/index.js:60 | `map((x, i) => f(x, i))`: one result per element, built from the element and its index |
| SketchParser.LayerWidgets | src/parsers/sketch/index.js:60-121 | one widget per layer, in layer order |
| SketchParser.PushEach | src/parsers/sketch/index.js:60-121 | the `forEach` push loop yields the mapped list |
| SketchParser.RootWidget | src/parsers/sketch/index.js:27-42 | definition: the top container; `ParseSketch`, `SketchIds`, `SketchFrameDefaults` and `SketchChildrenResolve` state its properties |
| SketchParser.ContainerWidget | src/parsers/sketch/index.js:45-57 | definition: the second-level container listing one child id per layer; `ParseSketch`, `SketchIds`, `SketchFrameDefaults`, `SketchChildrenResolve` and `LayerIdsUnique` state its properties |
| SketchParser.ParseSketch | src/parsers/sketch/index.js:24-126 | the parser returns the two containers then one widget per layer; `meta.count` is the number of layers plus two |
| SketchParser.SketchIds | src/parsers/sketch/index.js:27-61 | the ids are the root's, the inner container's, then each layer's `<screen>_priv.<type>_<i>` |
| SketchParser.SketchChildrenResolve | src/parsers/sketch/index.js:40-56 | every child id listed by the two containers names a widget of the output |
| SketchParser.LayerIdInjective | src/parsers/sketch/index.js:61 | layers at different positions get different ids, whatever their types |
| SketchParser.LayerIdsUnique | src/parsers/sketch/index.js:56 | the inner container's child ids are pairwise distinct |
| SketchParser.LayerIdsDistinct | src/parsers/sketch/index.js:61 | the layer widgets' ids are pairwise distinct |
| SketchParser.SketchFrameDefaults | src/parsers/sketch/index.js:35-51 | both containers sit at 0,0 with the artboard's width and height, defaulting to 320 by 240 |
| SketchParser.LayerStyleCopies | src/parsers/sketch/index.js:66-70 | the style holds exactly the truthy color, fontSize, font and textAlign |
| SketchParser.LayerStyle | src/parsers/sketch/index.js:66-70 | definition: the style object built from the four truthy properties; `LayerStyleCopies` states it |
| SketchParser.RawText | src/parsers/sketch/index.js:72 | definition: `l.content || l.text || l.name || ""`: the first non-empty of the three |
| SketchParser.LayerWidget | src/parsers/sketch/index.js:60-121 | definition: the widget pushed for a layer; `LayerTypeRules`, `LayerStyleCopies` and `LayerIdsDistinct` state its properties |
| SketchParser.LayerTypeRules | src/parsers/sketch/index.js:72-106 | an image-named layer becomes an Image with no text and an `/assets/` source; any other keeps its trimmed text and becomes a Label, Button or Container |
| Server.BasenameJoin | server.js:27-29 | the base name of `path.join(d, name)` is `name` when `name` has no separator |
| Server.IsScreenFile | server.js:29-43 | definition: the test of lines 29 and 43, where the path ends with the extension and its base name starts `screen_`; `ScreenFileByName` and `ScreenFiles` state its properties |
| Server.ScreenFiles | server.js:21-48 | the LVGL scan (`.c`) and the React scan (`.jsx`) keep exactly the files with that extension whose base name starts `screen_`, in walk order |
| Server.ScreenFileByName | server.js:29 | a file passes the scan test exactly when its own name starts `screen_` and ends with the extension |
| Server.ChooseLvglFile | server.js:176-184 | with no screen, the first file; else the first file ending `<screen>.c`, and failing that the first file containing the screen |
| Server.LvglChoiceNone | server.js:176-184 | no LVGL file is chosen exactly when there are none, or a screen is named and no path contains it |
| Server.ChooseReactFile | server.js:171 | with no screen, the first file; else the first file containing the screen, or none when none does |
| Server.ZeroAt | server.js:114-118 | definition: a position outside strings, not a quote, after which the count reads zero; `ScanBalanced`, `ScanMatch` and `ExtractDataLiteral` state where the scan stops |
| Server.ScanBalanced | server.js:97-120 | the scan returns one past the first position where the bracket count returns to zero, or -1 when it never does |
| Server.Step | server.js:102-115 | definition: one loop iteration: inside a string only an unescaped matching quote ends it; outside, a quote opens a string and the declared brackets move the count |
| Server.StateAt | server.js:101-120 | definition: the loop state before a position, the scan never stopping; `ScanBalanced` and `ScanMatch` state where it stops |
| Server.ScanMatch | server.js:114-118 | the scan stops on the matching close bracket, with the count positive in between |
| Server.ScanSeesSkeleton | server.js:101-115 | the scan sees only the declared bracket pair, quotes and backslashes; a string state always holds a quote |
| Server.OpenIndex | server.js:101 | the scan starts at the first open bracket at or after the declaration |
| Server.ExtractDataLiteral | server.js:94-124 | `data_object_not_closed` exactly when the count never returns to zero; otherwise the literal is the text from the first open bracket at or after the declaration up to and including the first position where the count returns to zero, which is the matching close bracket; the count stays positive strictly inside, so the brackets outside strings balance in it |
| Server.SketchNum | server.js:134 | a leading `s` or `S` is dropped; otherwise the id is kept |
| Server.FindArtboard | server.js:132-142 | the first artboard whose string slug contains the id or its number; none (the 404) when there is no artboard array or no match |
| Server.SlugMatchesNumber | server.js:135-138 | the id-or-number test is the number test alone |
| Renderer.GetWidgetById | preview/Renderer.jsx:5-7 | the first widget with the id, or `undefined` exactly when no widget has it |
| Renderer.Resolve | preview/Renderer.jsx:12 | the resolved ids are the resolvable child ids, in order |
| Renderer.ResolveFinds | preview/Renderer.jsx:12 | each resolved widget is the one `getWidgetById` finds |
| Renderer.GetChildren | preview/Renderer.jsx:10-13 | the children are the widgets named by resolvable child ids, in order; dangling ids are dropped |
| Renderer.ChildrenKept | preview/Renderer.jsx:10-13 | no resolvable child is lost, child order is kept, and there are never more children than ids |
| Renderer.FindRoot | preview/Renderer.jsx:102-106 | the rendered root is the first Container whose id contains the screen id; `null` when there is none or no widget list |
| Renderer.IndexOf | preview/Renderer.jsx:33 | `indexOf` finds the leftmost occurrence at or after the start, or reports none when there is none |
| Renderer.ReplaceFirst | preview/Renderer.jsx:33 | `replace` with a string pattern: the leftmost occurrence is replaced and the text on both sides kept; without one the text is returned unchanged |
| Renderer.TypePrefix | preview/Renderer.jsx:20-23 | definition: the fixed classes of Container, Button, Label and Image, empty for other types; `ClassStringStartsWithType` states its use |
| Renderer.LayoutClass | preview/Renderer.jsx:26-29 | a layout class is emitted exactly when the value is a number |
| Renderer.ValueClass | preview/Renderer.jsx:36-44 | a style class is emitted exactly when the value is truthy |
| Renderer.ColourClass | preview/Renderer.jsx:32-35 | a colour class throws exactly when the value is truthy but not a string, and is empty exactly when the value is falsy. A non-empty string value gives the class around the value with its first `0x` turned into `#`, and around the value itself when it has no `0x` |
| Renderer.GetTailwindStyle | preview/Renderer.jsx:17-65 | the class string is the type, layout and style classes, trimmed, so it neither starts nor ends with white space; it fails exactly when a colour throws |
| Renderer.ClassString | preview/Renderer.jsx:17-63 | definition: the untrimmed class string: type classes, four layout classes, nine style classes, or a throw from a colour; `GetTailwindStyle` states its properties |
| Renderer.ClassStringStartsWithType | preview/Renderer.jsx:20-23 | the untrimmed class string opens with the type's fixed classes |
| Renderer.TailwindTypeClasses | preview/Renderer.jsx:20-64 | the final classes of a Container, Button, Label or Image start with that type's fixed classes |
| ReactGenerator.EscapeHtmlSafe | src/generators/react/index.js:23 | no `<`, `>`, `"` or `'` survives escaping, and every `&` starts one of the five entities |
| ReactGenerator.EscapeHtmlIdentity | src/generators/react/index.js:23 | text without any of the five characters is unchanged |
| ReactGenerator.EscapeHtmlRoundTrip | src/generators/react/index.js:23 | decoding the escaped text gives the original back |
| ReactGenerator.EscapeHtml | src/generators/react/index.js:23 | definition: each of `& < > " '` replaced by its entity; `EscapeHtmlSafe`, `EscapeHtmlIdentity` and `EscapeHtmlRoundTrip` state its properties |
| ReactGenerator.CamelShape | src/generators/react/index.js:22 | the result has no leading lower-case letter and no `_` before a lower-case letter |
| ReactGenerator.CamelIdempotent | src/generators/react/index.js:22 | applying `camel` twice is applying it once |
| ReactGenerator.Camel | src/generators/react/index.js:22 | definition: a leading lower-case letter upper-cased, each `_` before a lower-case letter replaced by that letter upper-cased; `CamelShape` and `CamelIdempotent` state its properties |
| ReactGenerator.Body | src/generators/react/index.js:8-17 | one line per widget |
| ReactGenerator.GenerateReact | src/generators/react/index.js:2-21 | the pushed lines are the skeleton around one line per widget, joined by newlines |
| ReactGenerator.ReactLines | src/generators/react/index.js:3-19 | definition: the four header lines, one line per widget, then the two closing lines; `ReactLinesShape` and `GenerateReact` state its properties |
| ReactGenerator.ReactLinesShape | src/generators/react/index.js:4-19 | six lines more than widgets; the fixed header and tail; line 4 + i belongs to widget i |
| ReactGenerator.WidgetLineContent | src/generators/react/index.js:10-15 | a Button or Label element decodes to exactly the widget's text and holds no `<` or `>`; other widgets get an empty element |
| ReactGenerator.WidgetLine | src/generators/react/index.js:9-16 | definition: the `button`, `span` or `div` line with the id and trimmed classes; `WidgetLineContent` states its content |
| LvglGenerator.CEscapeShape | src/generators/lvgl/index.js:24 | escaping adds one character per quote, every quote is preceded by a backslash, and the output does not start with a quote |
| LvglGenerator.CEscapeRoundTrip | src/generators/lvgl/index.js:24 | reading `\"` back as `"` restores the text |
| LvglGenerator.CEscapeIdentity | src/generators/lvgl/index.js:24 | text without quotes is unchanged |
| LvglGenerator.CEscape | src/generators/lvgl/index.js:24 | definition: a backslash before every double quote; `CEscapeShape`, `CEscapeRoundTrip` and `CEscapeIdentity` state its properties |
| LvglGenerator.WidgetLinesCount | src/generators/lvgl/index.js:7-20 | an Image gives one line; a Label one, or two with text; a Button one, or three with text; any other type none |
| LvglGenerator.WidgetLines | src/generators/lvgl/index.js:8-19 | definition: the lines for one widget by type; `WidgetLinesCount` states how many |
| LvglGenerator.BodyLines | src/generators/lvgl/index.js:7-20 | definition: each widget's lines, widget after widget; `BodyLinesCount` and `LvglLinesOrder` state its properties |
| LvglGenerator.BodyLinesCount | src/generators/lvgl/index.js:7-20 | the body has the widgets' line counts summed |
| LvglGenerator.GenerateLvgl | src/generators/lvgl/index.js:2-23 | the pushed lines are the header, each widget's lines and `}`, joined by newlines |
| LvglGenerator.LvglLinesOrder | src/generators/lvgl/index.js:7-20 | widget i's lines sit after those of the widgets before it and before those after it |
| LvglGenerator.LvglLines | src/generators/lvgl/index.js:3-21 | definition: the header, the body and the closing `}`; `LvglLinesShape`, `LvglLinesOrder` and `GenerateLvgl` state its properties |
| LvglGenerator.LvglLinesShape | src/generators/lvgl/index.js:4-21 | the output opens with the two fixed lines and the `build_<screenId>` signature, ends with `}`, and has the summed line count |

## Left out

- File-system access, Express routing, CORS, JSON5 parsing, temporary files and logging are left out. The server model starts from the walked file list, the script text and the parsed artboards.
- The regular expressions of the LVGL parser are not modelled. Their matches are inputs, one list per regex, in match order.
- Babel's parse of the React parser is not modelled. Its pre-order stream of `JSXElement` and `JSXClosingElement` nodes is the input, in the order `visit` meets them.
- ReactParser.Run: the recorded `children` follow the visit order, not JSX nesting. `visit` walks properties in their order, so an element's closing node can come before its children, and a self-closing element has none and is never popped. Babel's property order is not modelled; `ClosingBeforeChildren` and `SelfClosingAdopts` show both effects on explicit visit orders.
- `<script>`/`data` regex search in the server is not modelled. The declaration's position and bracket are inputs.
- The missing-file and JSON-parse error results of `parseSketchFile` are I/O and are left out. The model starts from the parsed artboard.
- `loadMapping` reads a file once and caches it. The mapping table is a parameter of `Normalize`.
- `safeTrim` (`src/core/util/safeTrim.js`) is not part of this model. It is taken to be JavaScript's `trim`.
- `toLowerCase` is modelled on ASCII letters only.
- Integer-like object keys, which JavaScript orders first, are not modelled. Keys keep insertion order.
- Common.AfterLastSlash: models `path.basename` and `path.join` with POSIX semantics, where `/` is the only separator. On Windows, `path.join` writes `\` and `basename` splits on both `\` and `/`; that is not modelled, and there the model's `ScreenFiles` would reject files the scan keeps (server.js:18 serves a `D:/` path). A trailing slash, which `basename` strips, is not handled either.
- Numbers are unbounded integers. Floating-point layout values are not modelled.
- The `__proto__` key and prototype lookups (`widgetMap[type]` on an inherited name) are not modelled.
- `null` entries in a widget list are not modelled. `isGarbageSketchNode(null)` and the `w &&` guards only matter for them.
- mergeSketchDomIR works in place: it mutates the base labels and the shallow copies of the overlay. It is modelled on values. Aliasing between the input and output documents is not captured.
- Normalize.Combine assumes records that went through `applyMapping`, which is the only way `mergeById` is called. A missing `style` or `events` is therefore not modelled.
- The unreachable code after the first `return` of `parseLvglFile` (lines 140-154) is left out. So is the unused `tree` (line 137).
- `renderWidget` and the JSX it returns are left out, as are `preview/App.jsx` and `preview/main.jsx`. Only the class string, the child lookup and the root choice are modelled.
- `GUI/js/script.js`, `src/index.js` and the scripts under `scripts/` are not part of this model.
- `validate.js` and `validator.js` are not part of this model.
- `buildIR` never sees the output of `parseSketchFile`, because that output carries `widgets`, not `raw`. `RawlessPartIgnored` states that such a part has no effect.

## Findings

| source | as written | input that shows it | evidently intended | confidence | as-written member | corrected member |
|---|---|---|---|---|---|---|
| src/core/ui-ir/mergeSketchDomIR.js:89-94 | a colliding overlay id becomes `<id>_sketch<index>`; the new id is checked against nothing, and only base ids are reserved | base ids `a`; overlay ids `a`, `a_sketch0`; the merged widgets are `a`, `a_sketch0`, `a_sketch0` | the new id is unique across the merged document | not executed | SketchMerge.MergeSketchIdsCanRepeat | SketchMerge.MergeSketchFixedUnique |
