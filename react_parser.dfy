/**
 * The React extractor: the nodes of a parsed JSX file, in the order the
 * generic `visit` walk reaches them, become widget records. Each element is
 * pushed onto a stack, and each `JSXClosingElement` met pops one entry; a new
 * element is recorded as a child of whatever entry is on top when it is met.
 *
 * Parsing and the walk itself are not modelled: the visit order is the input,
 * with only the node shapes the callback looks at. Because `visit` follows
 * property order, an element's closing node can come before its children and
 * a self-closing element is never popped, so the stack need not follow JSX
 * nesting (`ClosingBeforeChildren`, `SelfClosingAdopts`).
 */
module ReactParser {
  import opened Common

  // ---------------------------------------------------------------------
  // The node shapes the callback reads
  // ---------------------------------------------------------------------

  /** An element or attribute name: a plain identifier, or any other name form. */
  datatype Name = Identifier(name: string) | OtherName

  /** An attribute value: a string literal, or anything else (an expression, an element, none). */
  datatype AttrValue = StringValue(value: string) | OtherValue

  /** An opening-element attribute: a named `JSXAttribute`, or a spread. */
  datatype Attr = Attribute(name: Name, value: AttrValue) | SpreadAttr

  /** A JSX child: text, an expression container holding a string literal, or anything else. */
  datatype Child = Text(value: string) | StringExpr(value: string) | OtherChild

  /** A visited node: a `JSXElement`, a `JSXClosingElement`, or any other node. */
  datatype Node = Element(name: Name, attrs: seq<Attr>, children: seq<Child>) | Closing | OtherNode

  // ---------------------------------------------------------------------
  // The helpers
  // ---------------------------------------------------------------------

  /** `jsxName(n)`: the identifier's name, "" for any other name form. */
  function JsxName(n: Name): (r: string)
    ensures n.OtherName? ==> r == ""
  {
    match n
    case Identifier(s) => s
    case OtherName => ""
  }

  /** `autoId(name, idx)`: the lower-cased name (or "el") and the index. */
  function AutoId(name: string, idx: nat): (r: string)
    ensures EndsWith(r, "_" + NatToString(idx))
    ensures StartsWith(r, Lower(if name == "" then "el" else name))
    ensures |r| == |if name == "" then "el" else name| + 1 + |NatToString(idx)|
  {
    var base := Lower(if name == "" then "el" else name);
    EndsWithConcat(base, "_" + NatToString(idx));
    StartsWithConcat(base, "_" + NatToString(idx));
    assert base + "_" + NatToString(idx) == base + ("_" + NatToString(idx));
    base + "_" + NatToString(idx)
  }

  /** `mapType(name)`. */
  function MapType(name: string): (r: string)
    ensures r in {"Button", "Label", "Container"}
    ensures r == "Button" <==> name == "button"
    ensures r == "Label" <==> name == "span" || name == "label"
  {
    if name == "button" then "Button"
    else if name == "span" || name == "label" then "Label"
    else "Container"
  }

  /** `/^on[A-Z]/.test(name)`. */
  predicate IsEventName(s: string) {
    |s| >= 3 && s[0] == 'o' && s[1] == 'n' && 'A' <= s[2] <= 'Z'
  }

  predicate IsEventAttr(a: Attr) {
    a.Attribute? && IsEventName(JsxName(a.name))
  }

  /** `collectEvents(attrs)`: the event attributes, in order, each tagged with source "react". */
  function CollectEvents(attrs: seq<Attr>): (r: seq<Event>)
    ensures |r| <= |attrs|
    ensures forall e :: e in r ==> IsEventName(e.name) && e.source == "react"
  {
    if attrs == [] then []
    else
      (if IsEventAttr(attrs[0]) then [Event(JsxName(attrs[0].name), "react")] else [])
      + CollectEvents(attrs[1..])
  }

  /** Every event attribute shows up as an event, and every event comes from one. */
  lemma {:induction false} CollectEventsComplete(attrs: seq<Attr>, e: Event)
    ensures e in CollectEvents(attrs)
        <==> e.source == "react" && exists i :: 0 <= i < |attrs| && IsEventAttr(attrs[i]) && JsxName(attrs[i].name) == e.name
  {
    if attrs != [] {
      CollectEventsComplete(attrs[1..], e);
      assert forall i :: 1 <= i < |attrs| ==> attrs[1..][i - 1] == attrs[i];
      if e in CollectEvents(attrs[1..]) {
        var i :| 0 <= i < |attrs[1..]| && IsEventAttr(attrs[1..][i]) && JsxName(attrs[1..][i].name) == e.name;
        assert attrs[i + 1] == attrs[1..][i];
      }
    }
  }

  /** The trimmed text a child offers, or "" for a child `extractText` skips. */
  function ChildText(c: Child): string {
    match c
    case Text(v) => Trim(v)
    case StringExpr(v) => Trim(v)
    case OtherChild => ""
  }

  /** `extractText(children)`: the first non-empty trimmed text or string literal, else "". */
  function ExtractText(children: seq<Child>): (r: string)
    ensures r == "" <==> forall i :: 0 <= i < |children| ==> ChildText(children[i]) == ""
    ensures r != "" ==>
      exists i :: 0 <= i < |children| && ChildText(children[i]) == r && forall j :: 0 <= j < i ==> ChildText(children[j]) == ""
  {
    if children == [] then ""
    else if ChildText(children[0]) != "" then ChildText(children[0])
    else
      var r := ExtractText(children[1..]);
      assert forall i :: 1 <= i < |children| ==> children[1..][i - 1] == children[i];
      if r != "" then
        var i :| 0 <= i < |children[1..]| && ChildText(children[1..][i]) == r
          && forall j :: 0 <= j < i ==> ChildText(children[1..][j]) == "";
        assert ChildText(children[i + 1]) == r;
        r
      else r
  }

  /** The extracted text is trimmed. */
  lemma ExtractTextTrimmed(children: seq<Child>)
    ensures Trim(ExtractText(children)) == ExtractText(children)
  {
    var r := ExtractText(children);
    if r != "" {
      var i :| 0 <= i < |children| && ChildText(children[i]) == r;
      match children[i]
      case Text(v) => TrimIdempotent(v);
      case StringExpr(v) => TrimIdempotent(v);
    }
  }

  predicate IsIdAttr(a: Attr) {
    a.Attribute? && JsxName(a.name) == "id"
  }

  /** `idAttr?.value?.value || autoId(name, idx)`. */
  function ElementId(name: string, attrs: seq<Attr>, idx: nat): (r: string)
    ensures r != ""
    ensures match Find(attrs, IsIdAttr)
      case Some(i) =>
        r == if attrs[i].value.StringValue? && attrs[i].value.value != "" then attrs[i].value.value else AutoId(name, idx)
      case None => r == AutoId(name, idx)
  {
    match Find(attrs, IsIdAttr)
    case Some(i) =>
      if attrs[i].value.StringValue? && attrs[i].value.value != "" then attrs[i].value.value else AutoId(name, idx)
    case None => AutoId(name, idx)
  }

  /** The record pushed for an element reached when `idx` records exist. */
  function NewWidget(name: Name, attrs: seq<Attr>, children: seq<Child>, idx: nat): Widget {
    Widget(ElementId(JsxName(name), attrs, idx), MapType(JsxName(name)), ExtractText(children), "",
      Empty, Empty, "", CollectEvents(attrs), [], [], "react", "")
  }

  // ---------------------------------------------------------------------
  // The visit callback
  // ---------------------------------------------------------------------

  /**
   * The callback's state: the records pushed so far, the stack of open
   * elements (as indices into the records), and, for the proofs, the
   * index each record's parent had when it was pushed.
   */
  datatype State = State(widgets: seq<Widget>, stack: seq<nat>, parents: seq<Option<nat>>)

  /** Stack entries and parents point at earlier records. */
  predicate Wf(st: State) {
    && |st.parents| == |st.widgets|
    && (forall i :: 0 <= i < |st.stack| ==> st.stack[i] < |st.widgets|)
    && (forall j :: 0 <= j < |st.parents| && st.parents[j].Some? ==> st.parents[j].value < j)
  }

  /** The top of the stack, if any. */
  function Top(stack: seq<nat>): Option<nat> {
    if stack == [] then None else Some(stack[|stack| - 1])
  }

  /** One call of the callback. */
  function Visit(st: State, node: Node): (r: State)
    requires Wf(st)
    ensures Wf(r)
  {
    match node
    case Element(name, attrs, children) =>
      var n := |st.widgets|;
      var w := NewWidget(name, attrs, children, n);
      var ws := match Top(st.stack)
        case Some(p) => st.widgets[p := st.widgets[p].(children := st.widgets[p].children + [w.id])]
        case None => st.widgets;
      State(ws + [w], st.stack + [n], st.parents + [Top(st.stack)])
    case Closing => State(st.widgets, if st.stack == [] then [] else st.stack[..|st.stack| - 1], st.parents)
    case OtherNode => st
  }

  /** The callback run over the visited nodes in order, from no records and an empty stack. */
  function Run(nodes: seq<Node>): (r: State)
    ensures Wf(r)
  {
    if nodes == [] then State([], [], []) else Visit(Run(nodes[..|nodes| - 1]), nodes[|nodes| - 1])
  }

  /**
   * `parseReactFile(code)` after parsing: the callback over the visited
   * nodes; `count` is `meta.count`.
   */
  method ParseReact(nodes: seq<Node>) returns (raw: seq<Widget>, count: nat)
    ensures raw == Run(nodes).widgets
    ensures count == |raw|
  {
    var widgets: seq<Widget> := [];
    var parentStack: seq<nat> := [];
    ghost var parents: seq<Option<nat>> := [];
    var i := 0;
    while i < |nodes|
      invariant 0 <= i <= |nodes|
      invariant State(widgets, parentStack, parents) == Run(nodes[..i])
    {
      assert nodes[..i + 1][..i] == nodes[..i];
      var node := nodes[i];
      if node.Element? {
        var w := NewWidget(node.name, node.attrs, node.children, |widgets|);
        ghost var top := Top(parentStack);
        if |parentStack| > 0 {
          var p := parentStack[|parentStack| - 1];
          widgets := widgets[p := widgets[p].(children := widgets[p].children + [w.id])];
        }
        parents := parents + [top];
        parentStack := parentStack + [|widgets|];
        widgets := widgets + [w];
      }
      if node.Closing? {
        if |parentStack| > 0 {
          parentStack := parentStack[..|parentStack| - 1];
        }
      }
      i := i + 1;
    }
    assert nodes[..i] == nodes;
    raw := widgets;
    count := |raw|;
  }

  // ---------------------------------------------------------------------
  // Properties of a run
  // ---------------------------------------------------------------------

  /** The visited `JSXElement` nodes, in visit order. */
  function Elements(nodes: seq<Node>): (r: seq<Node>)
    ensures forall e :: e in r ==> e.Element?
  {
    if nodes == [] then []
    else Elements(nodes[..|nodes| - 1]) + (if nodes[|nodes| - 1].Element? then [nodes[|nodes| - 1]] else [])
  }

  function CountClosings(nodes: seq<Node>): nat {
    if nodes == [] then 0
    else CountClosings(nodes[..|nodes| - 1]) + (if nodes[|nodes| - 1].Closing? then 1 else 0)
  }

  /** The records as the callback pushes them, before any child id is added, in visit order. */
  function Pushed(nodes: seq<Node>): (r: seq<Widget>)
    ensures |r| == |Elements(nodes)|
  {
    if nodes == [] then []
    else
      var p := Pushed(nodes[..|nodes| - 1]);
      var e := nodes[|nodes| - 1];
      p + (if e.Element? then [NewWidget(e.name, e.attrs, e.children, |p|)] else [])
  }

  /** The `k`-th pushed record is the one built for the `k`-th visited element, with `k` records before it. */
  lemma {:induction false} PushedElements(nodes: seq<Node>, k: nat)
    requires k < |Elements(nodes)|
    ensures var e := Elements(nodes)[k];
      Pushed(nodes)[k] == NewWidget(e.name, e.attrs, e.children, k)
  {
    var init := nodes[..|nodes| - 1];
    if k < |Elements(init)| {
      PushedElements(init, k);
      assert Elements(nodes)[k] == Elements(init)[k];
      assert Pushed(nodes)[k] == Pushed(init)[k];
    }
  }

  /**
   * One record per visited element, in visit order: each record is the one
   * pushed for its element, and only its `children` change afterwards.
   */
  lemma {:induction false} RunRecords(nodes: seq<Node>)
    ensures |Run(nodes).widgets| == |Pushed(nodes)|
    ensures forall k :: 0 <= k < |Pushed(nodes)| ==> Run(nodes).widgets[k].(children := []) == Pushed(nodes)[k]
  {
    if nodes != [] {
      var init := nodes[..|nodes| - 1];
      RunRecords(init);
      VisitRecords(Run(init), nodes[|nodes| - 1], Pushed(init));
    }
  }

  lemma VisitRecords(st: State, node: Node, ps: seq<Widget>)
    requires Wf(st) && |st.widgets| == |ps|
    requires forall k :: 0 <= k < |ps| ==> st.widgets[k].(children := []) == ps[k]
    ensures var r := Visit(st, node);
      var ps' := ps + (if node.Element? then [NewWidget(node.name, node.attrs, node.children, |ps|)] else []);
      |r.widgets| == |ps'| && forall k :: 0 <= k < |ps'| ==> r.widgets[k].(children := []) == ps'[k]
  {
    if node.Element? {
      VisitElementShell(st, node);
    }
  }

  /** Visiting an element appends its record and changes no earlier record but for `children`. */
  lemma VisitElementShell(st: State, node: Node)
    requires Wf(st) && node.Element?
    ensures var r := Visit(st, node);
      && |r.widgets| == |st.widgets| + 1
      && r.widgets[|st.widgets|] == NewWidget(node.name, node.attrs, node.children, |st.widgets|)
      && forall k :: 0 <= k < |st.widgets| ==> r.widgets[k].(children := []) == st.widgets[k].(children := [])
  {
  }

  /** The ids of the records pushed while record `k` was on top of the stack, in order, among the first `n`. */
  function ChildIds(ws: seq<Widget>, parents: seq<Option<nat>>, k: nat, n: nat): seq<string>
    requires n <= |ws| && n <= |parents|
  {
    if n == 0 then []
    else ChildIds(ws, parents, k, n - 1) + (if parents[n - 1] == Some(k) then [ws[n - 1].id] else [])
  }

  lemma {:induction false} ChildIdsFrame(ws: seq<Widget>, parents: seq<Option<nat>>, ws': seq<Widget>, parents': seq<Option<nat>>, k: nat, n: nat)
    requires n <= |ws| && n <= |parents| && n <= |ws'| && n <= |parents'|
    requires forall j :: 0 <= j < n ==> ws'[j].id == ws[j].id && parents'[j] == parents[j]
    ensures ChildIds(ws', parents', k, n) == ChildIds(ws, parents, k, n)
  {
    if n > 0 {
      ChildIdsFrame(ws, parents, ws', parents', k, n - 1);
    }
  }

  lemma {:induction false} ChildIdsNone(ws: seq<Widget>, parents: seq<Option<nat>>, k: nat, n: nat)
    requires n <= |ws| && n <= |parents|
    requires forall j :: 0 <= j < n ==> parents[j] != Some(k)
    ensures ChildIds(ws, parents, k, n) == []
  {
    if n > 0 {
      ChildIdsNone(ws, parents, k, n - 1);
    }
  }

  /** Every record's children are the ids of the later records pushed while it was on top of the stack. */
  predicate ChildrenMatch(st: State)
    requires Wf(st)
  {
    forall k :: 0 <= k < |st.widgets| ==> st.widgets[k].children == ChildIds(st.widgets, st.parents, k, |st.widgets|)
  }

  lemma VisitChildren(st: State, node: Node)
    requires Wf(st) && ChildrenMatch(st)
    ensures ChildrenMatch(Visit(st, node))
  {
    if node.Element? {
      VisitElementLinks(st, node);
      ChildrenStep(st, Visit(st, node), Top(st.stack));
    }
  }

  /** Appending a record under `top` keeps every record's children equal to the ids pushed under it. */
  lemma ChildrenStep(st: State, r: State, top: Option<nat>)
    requires Wf(st) && ChildrenMatch(st) && Wf(r)
    requires var n := |st.widgets|;
      && |r.widgets| == n + 1 && r.parents == st.parents + [top] && r.widgets[n].children == []
      && forall k :: 0 <= k < n ==>
           r.widgets[k].id == st.widgets[k].id &&
           r.widgets[k].children == st.widgets[k].children + (if top == Some(k) then [r.widgets[n].id] else [])
    ensures ChildrenMatch(r)
  {
    var n := |st.widgets|;
    forall k | 0 <= k < |r.widgets|
      ensures r.widgets[k].children == ChildIds(r.widgets, r.parents, k, |r.widgets|)
    {
      ChildIdsFrame(st.widgets, st.parents, r.widgets, r.parents, k, n);
      if k == n {
        ChildIdsNone(r.widgets, r.parents, k, n);
      }
    }
  }

  /** Visiting an element adds its id to the children of the record on top of the stack, and only there. */
  lemma VisitElementLinks(st: State, node: Node)
    requires Wf(st) && node.Element?
    ensures var r := Visit(st, node); var n := |st.widgets|;
      && |r.widgets| == n + 1 && r.parents == st.parents + [Top(st.stack)] && r.widgets[n].children == []
      && forall k :: 0 <= k < n ==>
           r.widgets[k].id == st.widgets[k].id &&
           r.widgets[k].children == st.widgets[k].children + (if Top(st.stack) == Some(k) then [r.widgets[n].id] else [])
  {
  }

  /**
   * A new element's id is appended to the children of exactly the element on
   * top of the stack when it is reached: each record's children are the ids
   * of the elements reached while it was on top, in visit order.
   */
  lemma {:induction false} RunChildren(nodes: seq<Node>)
    ensures ChildrenMatch(Run(nodes))
    ensures var r := Run(nodes); forall k :: 0 <= k < |r.parents| && r.parents[k].Some? ==> r.parents[k].value < k
  {
    if nodes != [] {
      RunChildren(nodes[..|nodes| - 1]);
      VisitChildren(Run(nodes[..|nodes| - 1]), nodes[|nodes| - 1]);
    }
  }

  /**
   * The stack grows by one per element and shrinks only at closing elements,
   * so an element without a closing element stays on it: the stack holds at
   * least as many entries as elements outnumber closings.
   */
  lemma {:induction false} RunStack(nodes: seq<Node>)
    ensures |Run(nodes).stack| <= |Elements(nodes)|
    ensures |Run(nodes).stack| + CountClosings(nodes) >= |Elements(nodes)|
  {
    if nodes != [] {
      RunStack(nodes[..|nodes| - 1]);
    }
  }

  /** A node other than a closing element never removes a stack entry. */
  lemma VisitKeepsStack(st: State, node: Node)
    requires Wf(st) && !node.Closing?
    ensures st.stack <= Visit(st, node).stack
  {
  }

  lemma RunSnoc(nodes: seq<Node>, node: Node)
    ensures Run(nodes + [node]) == Visit(Run(nodes), node)
  {
    assert (nodes + [node])[..|nodes|] == nodes;
  }

  lemma VisitElementStack(st: State, node: Node)
    requires Wf(st) && node.Element?
    ensures Visit(st, node).stack == st.stack + [|st.widgets|]
  {
  }

  lemma VisitClosingStack(st: State)
    requires Wf(st)
    ensures Visit(st, Closing) == st.(stack := if st.stack == [] then [] else st.stack[..|st.stack| - 1])
  {
  }

  lemma RunOne(a: Node)
    ensures Run([a]) == Visit(Run([]), a)
  {
    RunSnoc([], a);
    assert [] + [a] == [a];
  }

  lemma RunTwo(a: Node, b: Node)
    ensures Run([a, b]) == Visit(Run([a]), b)
  {
    RunSnoc([a], b);
    assert [a] + [b] == [a, b];
  }

  lemma RunThree(a: Node, b: Node, c: Node)
    ensures Run([a, b, c]) == Visit(Run([a, b]), c)
  {
    RunSnoc([a, b], c);
    assert [a, b] + [c] == [a, b, c];
  }

  lemma RunFour(a: Node, b: Node, c: Node, d: Node)
    ensures Run([a, b, c, d]) == Visit(Run([a, b, c]), d)
  {
    RunSnoc([a, b, c], d);
    assert [a, b, c] + [d] == [a, b, c, d];
  }

  /** An element met with an empty stack gets no parent and is added to no record's children. */
  lemma ElementOnEmptyStack(st: State, node: Node)
    requires Wf(st) && node.Element? && st.stack == []
    ensures var r := Visit(st, node);
      && |r.widgets| == |st.widgets| + 1 && r.parents[|st.widgets|].None?
      && forall k :: 0 <= k < |st.widgets| ==> r.widgets[k].children == st.widgets[k].children
  {
    VisitElementLinks(st, node);
  }

  /** After one element, it alone is on the stack, with no children and no parent. */
  lemma RunOneElement(div: Node)
    requires div.Element?
    ensures var r := Run([div]);
      r.stack == [0] && |r.widgets| == 1 && r.widgets[0].children == [] && r.parents == [None]
  {
    RunOne(div);
    VisitElementLinks(Run([]), div);
    VisitElementStack(Run([]), div);
  }

  /** The element's closing node empties the stack and leaves its record alone. */
  lemma RunElementClosed(div: Node)
    requires div.Element?
    ensures var r := Run([div, Closing]);
      r.stack == [] && |r.widgets| == 1 && r.widgets[0].children == [] && r.parents == [None]
  {
    RunOneElement(div);
    RunTwo(div, Closing);
    VisitClosingStack(Run([div]));
  }

  /**
   * `<div><span/></div>` as `visit` reaches it: the `div` element, its
   * closing node (the `closingElement` property comes before `children`),
   * then the `span`. The `div` is popped before its child is met, so it
   * records no children and the `span` gets no parent.
   */
  lemma ClosingBeforeChildren(div: Node, span: Node)
    requires div.Element? && span.Element?
    ensures var r := Run([div, Closing, span]);
      |r.widgets| == 2 && r.widgets[0].children == [] && r.parents[1].None?
  {
    RunElementClosed(div);
    RunThree(div, Closing, span);
    ElementOnEmptyStack(Run([div, Closing]), span);
  }

  /** After `div`, its closing node and `span`, only the `span` is on the stack. */
  lemma SpanOnTop(div: Node, span: Node)
    requires div.Element? && span.Element?
    ensures var r := Run([div, Closing, span]);
      r.stack == [1] && |r.widgets| == 2 && r.widgets[1].children == []
  {
    RunElementClosed(div);
    RunThree(div, Closing, span);
    VisitElementLinks(Run([div, Closing]), span);
    VisitElementStack(Run([div, Closing]), span);
  }

  /**
   * `<div><span/><p/></div>`: the self-closing `span` has no closing node and
   * is never popped, so the later `p` becomes its child.
   */
  lemma SelfClosingAdopts(div: Node, span: Node, p: Node)
    requires div.Element? && span.Element? && p.Element?
    ensures var r := Run([div, Closing, span, p]);
      |r.widgets| == 3 && r.parents[2] == Some(1) && r.widgets[1].children == [r.widgets[2].id]
  {
    SpanOnTop(div, span);
    RunFour(div, Closing, span, p);
    VisitElementLinks(Run([div, Closing, span]), p);
  }
}
