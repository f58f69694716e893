/**
The accessibility-tree renderer: a depth-first walk that elides empty wrappers,
hides the children of labelled controls and stops at a node and a depth cap; and
the lookup that leads from a rendered record back to its element.
*/
module AccessibilityTree {
  import opened Options

  const MAX_NODES: nat := 1200
  const MAX_DEPTH: nat := 64

  /** What the toolkit reports of an element. A child that cannot be fetched keeps its
      index. `roleKey` is the role in lower case, `secondary` the actions that are not
      noise. */
  datatype Node = Node(
    role: string,
    roleKey: string,
    name: string,
    automationId: string,
    value: string,
    actions: seq<string>,
    secondary: seq<string>,
    children: seq<Child>)

  datatype Child = Gone | Child(node: Node)

  type Path = seq<int>

  datatype Element = Element(
    index: nat,
    runtimeId: Path,
    automationId: string,
    name: string,
    controlType: string,
    value: string,
    actions: seq<string>)

  /** A line of the outline: its number, its indentation and the rest. */
  datatype Line = Line(index: nat, indent: nat, text: string)

  /** How texts are normalised, subtrees summed up and lines worded. */
  datatype Wording = Wording(
    sanitize: string -> string,
    summarize: Node -> Option<string>,
    describe: (Node, Option<string>) -> string)

  datatype Rendering = Rendering(records: seq<Element>, lines: seq<Line>, truncated: bool, maxDepthReached: bool)

  const BLANK := Rendering([], [], false, false)

  // ---------------------------------------------------------------------
  // The walk
  // ---------------------------------------------------------------------

  const WRAPPERS := {"panel", "filler", "unknown", "section"}

  const CONTROLS := {
    "button", "check box", "checkbox", "combo box", "heading", "link", "menu item", "page tab",
    "push button", "radio button"
  }

  function Present(children: seq<Child>): nat {
    if children == [] then 0 else (if children[0].Child? then 1 else 0) + Present(children[1..])
  }

  /** A wrapper without text, actions or summary and with at most one child is not shown. */
  predicate Elided(w: Wording, node: Node) {
    && node.roleKey in WRAPPERS
    && node.name == "" && node.automationId == "" && node.value == ""
    && node.secondary == []
    && w.summarize(node) == None
    && Present(node.children) <= 1
  }

  function Title(node: Node): string {
    if node.name != "" then node.name else node.automationId
  }

  /** A summed-up wrapper and a labelled control are shown without their children. */
  predicate HidesChildren(w: Wording, node: Node) {
    var summary := w.summarize(node);
    var summaryText := match summary case Some(t) => t case None => "";
    || summaryText != ""
    || ((Title(node) != "" || w.sanitize(node.value) != "" || w.sanitize(summaryText) != "")
        && node.roleKey in CONTROLS)
  }

  function Record(node: Node, index: nat, path: Path): Element {
    Element(index, path, node.automationId, node.name, node.role, node.value, node.actions)
  }

  function Appended(w: Wording, r: Rendering, node: Node, depth: nat, path: Path): Rendering {
    r.(records := r.records + [Record(node, |r.records|, path)],
       lines := r.lines + [Line(|r.records|, depth, w.describe(node, w.summarize(node)))])
  }

  function Walk(w: Wording, r: Rendering, node: Node, depth: nat, path: Path): Rendering
    decreases node, |node.children| + 1
  {
    if |r.records| >= MAX_NODES || depth > MAX_DEPTH then
      r.(truncated := true, maxDepthReached := r.maxDepthReached || depth > MAX_DEPTH)
    else if Elided(w, node) then WalkFrom(w, r, node, 0, depth, path)
    else
      var shown := Appended(w, r, node, depth, path);
      if HidesChildren(w, node) then shown else WalkFrom(w, shown, node, 0, depth + 1, path)
  }

  /** The children of `node` from index `i` on, those of them that could be fetched. */
  function WalkFrom(w: Wording, r: Rendering, node: Node, i: nat, depth: nat, path: Path): Rendering
    requires i <= |node.children|
    decreases node, |node.children| - i
  {
    if i == |node.children| then r
    else WalkFrom(w, WalkChild(w, r, node, i, depth, path), node, i + 1, depth, path)
  }

  function WalkChild(w: Wording, r: Rendering, node: Node, i: nat, depth: nat, path: Path): Rendering
    requires i < |node.children|
    decreases node, 0
  {
    match node.children[i]
    case Child(child) => Walk(w, r, child, depth, path + [i])
    case Gone => r
  }

  // ---------------------------------------------------------------------
  // The listing without a node cap
  // ---------------------------------------------------------------------

  datatype Entry = Entry(node: Node, depth: nat, path: Path)

  /** The elements to show, in document order; `cut` says whether the depth cap applies. */
  function Listing(w: Wording, cut: bool, node: Node, depth: nat, path: Path): seq<Entry>
    decreases node, |node.children| + 1
  {
    if cut && depth > MAX_DEPTH then []
    else if Elided(w, node) then ListFrom(w, cut, node, 0, depth, path)
    else
      [Entry(node, depth, path)]
        + (if HidesChildren(w, node) then [] else ListFrom(w, cut, node, 0, depth + 1, path))
  }

  function ListFrom(w: Wording, cut: bool, node: Node, i: nat, depth: nat, path: Path): seq<Entry>
    requires i <= |node.children|
    decreases node, |node.children| - i
  {
    if i == |node.children| then []
    else ListChild(w, cut, node, i, depth, path) + ListFrom(w, cut, node, i + 1, depth, path)
  }

  function ListChild(w: Wording, cut: bool, node: Node, i: nat, depth: nat, path: Path): seq<Entry>
    requires i < |node.children|
    decreases node, 0
  {
    match node.children[i]
    case Child(child) => Listing(w, cut, child, depth, path + [i])
    case Gone => []
  }

  function Shown(r: Rendering, es: seq<Entry>): seq<Entry> {
    var room := if |r.records| >= MAX_NODES then 0 else MAX_NODES - |r.records|;
    if |es| <= room then es else es[..room]
  }

  /** `t` is `r` with as many of the entries as the node cap leaves room for. */
  predicate Extends(w: Wording, r: Rendering, t: Rendering, es: seq<Entry>) {
    var shown, base := Shown(r, es), |r.records|;
    && |t.records| == base + |shown| && |t.lines| == |r.lines| + |shown|
    && t.records[..base] == r.records && t.lines[..|r.lines|] == r.lines
    && (forall i | 0 <= i < |shown| :: t.records[base + i] == Record(shown[i].node, base + i, shown[i].path))
    && (forall i | 0 <= i < |shown| ::
         t.lines[|r.lines| + i] == Line(base + i, shown[i].depth,
                                        w.describe(shown[i].node, w.summarize(shown[i].node))))
  }

  lemma ExtendsCompose(w: Wording, r: Rendering, s: Rendering, t: Rendering, xs: seq<Entry>, ys: seq<Entry>)
    requires Extends(w, r, s, xs) && Extends(w, s, t, ys)
    ensures Extends(w, r, t, xs + ys)
  {
    var a, b, all := Shown(r, xs), Shown(s, ys), Shown(r, xs + ys);
    assert all == a + b;
    var n, m := |r.records|, |r.lines|;
    assert t.records[..n] == t.records[..|s.records|][..n];
    assert t.lines[..m] == t.lines[..|s.lines|][..m];
    forall i | 0 <= i < |all|
      ensures t.records[n + i] == Record(all[i].node, n + i, all[i].path)
      ensures t.lines[m + i] == Line(n + i, all[i].depth, w.describe(all[i].node, w.summarize(all[i].node)))
    {
      if i < |a| {
        assert t.records[n + i] == t.records[..|s.records|][n + i];
        assert t.lines[m + i] == t.lines[..|s.lines|][m + i];
      } else {
        assert all[i] == b[i - |a|];
        assert t.records[|s.records| + (i - |a|)] == Record(b[i - |a|].node, n + i, b[i - |a|].path);
        assert t.lines[|s.lines| + (i - |a|)].indent == b[i - |a|].depth;
      }
    }
  }

  lemma {:induction false} WalkExtends(w: Wording, r: Rendering, node: Node, depth: nat, path: Path)
    ensures Extends(w, r, Walk(w, r, node, depth, path), Listing(w, true, node, depth, path))
    decreases node, |node.children| + 1
  {
    if |r.records| >= MAX_NODES || depth > MAX_DEPTH {
    } else if Elided(w, node) {
      WalkFromExtends(w, r, node, 0, depth, path);
    } else {
      var shown := Appended(w, r, node, depth, path);
      assert Extends(w, r, shown, [Entry(node, depth, path)]);
      if HidesChildren(w, node) {
        assert Listing(w, true, node, depth, path) == [Entry(node, depth, path)];
      } else {
        WalkFromExtends(w, shown, node, 0, depth + 1, path);
        ExtendsCompose(w, r, shown, Walk(w, r, node, depth, path), [Entry(node, depth, path)],
                       ListFrom(w, true, node, 0, depth + 1, path));
      }
    }
  }

  lemma {:induction false} WalkFromExtends(w: Wording, r: Rendering, node: Node, i: nat, depth: nat, path: Path)
    requires i <= |node.children|
    ensures Extends(w, r, WalkFrom(w, r, node, i, depth, path), ListFrom(w, true, node, i, depth, path))
    decreases node, |node.children| - i
  {
    if i < |node.children| {
      var next := WalkChild(w, r, node, i, depth, path);
      if node.children[i].Child? {
        WalkExtends(w, r, node.children[i].node, depth, path + [i]);
      }
      WalkFromExtends(w, next, node, i + 1, depth, path);
      ExtendsCompose(w, r, next, WalkFrom(w, next, node, i + 1, depth, path),
                     ListChild(w, true, node, i, depth, path), ListFrom(w, true, node, i + 1, depth, path));
    }
  }

  /** A walk that is not marked truncated has left nothing out, by either cap. */
  lemma {:induction false} UntruncatedWalkIsComplete(w: Wording, r: Rendering, node: Node, depth: nat, path: Path)
    requires !Walk(w, r, node, depth, path).truncated
    ensures !r.truncated
    ensures Listing(w, true, node, depth, path) == Listing(w, false, node, depth, path)
    ensures |Walk(w, r, node, depth, path).records| == |r.records| + |Listing(w, false, node, depth, path)|
    decreases node, |node.children| + 1
  {
    if Elided(w, node) {
      UntruncatedWalkFromIsComplete(w, r, node, 0, depth, path);
    } else if !HidesChildren(w, node) {
      UntruncatedWalkFromIsComplete(w, Appended(w, r, node, depth, path), node, 0, depth + 1, path);
    }
  }

  lemma {:induction false} UntruncatedWalkFromIsComplete(w: Wording, r: Rendering, node: Node, i: nat, depth: nat,
                                                         path: Path)
    requires i <= |node.children|
    requires !WalkFrom(w, r, node, i, depth, path).truncated
    ensures !r.truncated
    ensures ListFrom(w, true, node, i, depth, path) == ListFrom(w, false, node, i, depth, path)
    ensures |WalkFrom(w, r, node, i, depth, path).records| == |r.records| + |ListFrom(w, false, node, i, depth, path)|
    decreases node, |node.children| - i
  {
    if i < |node.children| {
      UntruncatedWalkFromIsComplete(w, WalkChild(w, r, node, i, depth, path), node, i + 1, depth, path);
      if node.children[i].Child? {
        UntruncatedWalkIsComplete(w, r, node.children[i].node, depth, path + [i]);
      }
    }
  }

  // ---------------------------------------------------------------------
  // The rendering
  // ---------------------------------------------------------------------

  function Render(w: Wording, root: Node, rootPath: Path): Rendering {
    Walk(w, BLANK, root, 0, rootPath)
  }

  predicate RecordsAre(records: seq<Element>, es: seq<Entry>) {
    && |records| == |es|
    && forall i | 0 <= i < |es| :: records[i] == Record(es[i].node, i, es[i].path)
  }

  predicate LinesAre(w: Wording, lines: seq<Line>, es: seq<Entry>) {
    && |lines| == |es|
    && forall i | 0 <= i < |es| ::
         lines[i] == Line(i, es[i].depth, w.describe(es[i].node, w.summarize(es[i].node)))
  }

  function First<T>(n: nat, xs: seq<T>): seq<T> {
    if |xs| <= n then xs else xs[..n]
  }

  /** The rendering is a prefix of the listing that the node cap alone cuts, with its
      records numbered and its lines beside them. */
  lemma RenderIsCappedListing(w: Wording, root: Node, rootPath: Path)
    ensures RecordsAre(Render(w, root, rootPath).records, First(MAX_NODES, Listing(w, true, root, 0, rootPath)))
    ensures LinesAre(w, Render(w, root, rootPath).lines, First(MAX_NODES, Listing(w, true, root, 0, rootPath)))
  {
    WalkExtends(w, BLANK, root, 0, rootPath);
    ExtendsBlank(w, Render(w, root, rootPath), Listing(w, true, root, 0, rootPath));
  }

  lemma ExtendsBlank(w: Wording, t: Rendering, all: seq<Entry>)
    requires Extends(w, BLANK, t, all)
    ensures RecordsAre(t.records, First(MAX_NODES, all)) && LinesAre(w, t.lines, First(MAX_NODES, all))
  {
    var es := First(MAX_NODES, all);
    assert Shown(BLANK, all) == es;
    forall i | 0 <= i < |es|
      ensures t.records[i] == Record(es[i].node, i, es[i].path)
      ensures t.lines[i] == Line(i, es[i].depth, w.describe(es[i].node, w.summarize(es[i].node)))
    {
      assert t.records[|BLANK.records| + i] == Record(es[i].node, |BLANK.records| + i, es[i].path);
      assert t.lines[|BLANK.lines| + i].indent == es[i].depth;
    }
  }

  /** Not marked truncated, it shows everything that a walk without caps would show. */
  lemma UntruncatedRenderIsWhole(w: Wording, root: Node, rootPath: Path)
    requires !Render(w, root, rootPath).truncated
    ensures RecordsAre(Render(w, root, rootPath).records, Listing(w, false, root, 0, rootPath))
    ensures LinesAre(w, Render(w, root, rootPath).lines, Listing(w, false, root, 0, rootPath))
  {
    RenderIsCappedListing(w, root, rootPath);
    UntruncatedWalkIsComplete(w, BLANK, root, 0, rootPath);
  }

  // ---------------------------------------------------------------------
  // When a rendering is marked truncated
  // ---------------------------------------------------------------------

  /** What a walk without the node cap does at each element it comes by: show it, pass
      through it, or turn back at the depth cap. */
  datatype Visit = Show | Pass | TurnBack

  function Visits(w: Wording, node: Node, depth: nat): seq<Visit>
    decreases node, |node.children| + 1
  {
    if depth > MAX_DEPTH then [TurnBack]
    else if Elided(w, node) then [Pass] + VisitsFrom(w, node, 0, depth)
    else [Show] + if HidesChildren(w, node) then [] else VisitsFrom(w, node, 0, depth + 1)
  }

  function VisitsFrom(w: Wording, node: Node, i: nat, depth: nat): seq<Visit>
    requires i <= |node.children|
    decreases node, |node.children| - i
  {
    if i == |node.children| then [] else VisitsChild(w, node, i, depth) + VisitsFrom(w, node, i + 1, depth)
  }

  function VisitsChild(w: Wording, node: Node, i: nat, depth: nat): seq<Visit>
    requires i < |node.children|
    decreases node, 0
  {
    match node.children[i]
    case Child(child) => Visits(w, child, depth)
    case Gone => []
  }

  function Shows(vs: seq<Visit>): nat {
    if vs == [] then 0 else Shows(vs[..|vs| - 1]) + if vs[|vs| - 1].Show? then 1 else 0
  }

  /** With `n` records before, some visit turns back, or comes with the node cap reached. */
  predicate Overflows(n: nat, vs: seq<Visit>) {
    vs != [] && (Overflows(n, vs[..|vs| - 1]) || Stopped(n, vs, |vs| - 1))
  }

  predicate Stopped(n: nat, vs: seq<Visit>, i: nat)
    requires i < |vs|
  {
    vs[i].TurnBack? || n + Shows(vs[..i]) >= MAX_NODES
  }

  lemma {:induction false} OverflowsIff(n: nat, vs: seq<Visit>)
    ensures Overflows(n, vs) <==> exists i :: 0 <= i < |vs| && Stopped(n, vs, i)
  {
    if vs != [] {
      var init := vs[..|vs| - 1];
      OverflowsIff(n, init);
      forall i | 0 <= i < |init| ensures Stopped(n, init, i) <==> Stopped(n, vs, i) {
        assert init[..i] == vs[..i];
      }
    }
  }

  lemma {:induction false} ShowsAppend(a: seq<Visit>, b: seq<Visit>)
    ensures Shows(a + b) == Shows(a) + Shows(b)
  {
    if b == [] {
      assert a + b == a;
    } else {
      assert (a + b)[..|a + b| - 1] == a + b[..|b| - 1];
      ShowsAppend(a, b[..|b| - 1]);
    }
  }

  lemma {:induction false} OverflowsAppend(n: nat, a: seq<Visit>, b: seq<Visit>)
    ensures Overflows(n, a + b) <==> Overflows(n, a) || Overflows(n + Shows(a), b)
  {
    if b == [] {
      assert a + b == a;
    } else {
      assert (a + b)[..|a + b| - 1] == a + b[..|b| - 1];
      OverflowsAppend(n, a, b[..|b| - 1]);
      ShowsAppend(a, b[..|b| - 1]);
    }
  }

  lemma OverflowsOne(n: nat, v: Visit)
    ensures Overflows(n, [v]) <==> v.TurnBack? || n >= MAX_NODES
    ensures Shows([v]) == if v.Show? then 1 else 0
  {
    assert [v][..0] == [];
  }

  /** The walk `t` from `r` marks truncation exactly if one of its visits is stopped, and
      shows what the visits show if none is. */
  predicate Marks(r: Rendering, t: Rendering, vs: seq<Visit>) {
    && (t.truncated <==> r.truncated || Overflows(|r.records|, vs))
    && (!Overflows(|r.records|, vs) ==> |t.records| == |r.records| + Shows(vs))
  }

  lemma MarksOn(r: Rendering, s: Rendering, t: Rendering, a: seq<Visit>, b: seq<Visit>)
    requires Marks(r, s, a) && Marks(s, t, b)
    ensures Marks(r, t, a + b)
  {
    OverflowsAppend(|r.records|, a, b);
    ShowsAppend(a, b);
  }

  lemma {:induction false} WalkMarks(w: Wording, r: Rendering, node: Node, depth: nat, path: Path)
    ensures Marks(r, Walk(w, r, node, depth, path), Visits(w, node, depth))
    decreases node, |node.children| + 1, 1
  {
    if depth > MAX_DEPTH {
      OverflowsOne(|r.records|, TurnBack);
    } else if Elided(w, node) {
      OverflowsOne(|r.records|, Pass);
      OverflowsAppend(|r.records|, [Pass], VisitsFrom(w, node, 0, depth));
      if |r.records| < MAX_NODES {
        WalkFromMarks(w, r, node, 0, depth, path);
        MarksOn(r, r, WalkFrom(w, r, node, 0, depth, path), [Pass], VisitsFrom(w, node, 0, depth));
      }
    } else {
      OverflowsOne(|r.records|, Show);
      ShownMarks(w, r, node, depth, path);
    }
  }

  lemma ShownMarks(w: Wording, r: Rendering, node: Node, depth: nat, path: Path)
    requires depth <= MAX_DEPTH && !Elided(w, node)
    ensures Marks(r, Walk(w, r, node, depth, path), Visits(w, node, depth))
    decreases node, |node.children| + 1, 0
  {
    OverflowsOne(|r.records|, Show);
    var below := if HidesChildren(w, node) then [] else VisitsFrom(w, node, 0, depth + 1);
    OverflowsAppend(|r.records|, [Show], below);
    if |r.records| < MAX_NODES {
      var shown := Appended(w, r, node, depth, path);
      if HidesChildren(w, node) {
        assert [Show] + below == [Show];
      } else {
        WalkFromMarks(w, shown, node, 0, depth + 1, path);
        MarksOn(r, shown, WalkFrom(w, shown, node, 0, depth + 1, path), [Show], below);
      }
    }
  }

  lemma {:induction false} WalkFromMarks(w: Wording, r: Rendering, node: Node, i: nat, depth: nat, path: Path)
    requires i <= |node.children|
    ensures Marks(r, WalkFrom(w, r, node, i, depth, path), VisitsFrom(w, node, i, depth))
    decreases node, |node.children| - i
  {
    if i < |node.children| {
      var next := WalkChild(w, r, node, i, depth, path);
      if node.children[i].Child? {
        WalkMarks(w, r, node.children[i].node, depth, path + [i]);
      }
      WalkFromMarks(w, next, node, i + 1, depth, path);
      MarksOn(r, next, WalkFrom(w, next, node, i + 1, depth, path),
              VisitsChild(w, node, i, depth), VisitsFrom(w, node, i + 1, depth));
    }
  }

  /** A rendering is marked truncated exactly if the walk without node cap comes by an
      element beyond the depth cap, or by any element once MAX_NODES were shown. */
  lemma TruncatedIff(w: Wording, root: Node, rootPath: Path)
    ensures var vs := Visits(w, root, 0);
      Render(w, root, rootPath).truncated <==> exists i :: 0 <= i < |vs| && Stopped(0, vs, i)
  {
    RenderMarks(w, root, rootPath);
    OverflowsIff(0, Visits(w, root, 0));
  }

  lemma RenderMarks(w: Wording, root: Node, rootPath: Path)
    ensures Render(w, root, rootPath).truncated <==> Overflows(0, Visits(w, root, 0))
  {
    WalkMarks(w, BLANK, root, 0, rootPath);
    assert |BLANK.records| == 0;
  }

  const LEAF := Node("row", "row", "text", "", "", [], [], [])
  const WRAPPER := Node("filler", "filler", "", "", "", [], [], [])

  const PLAIN := Wording(s => s, _ => None, (_, _) => "")

  /** A log of rows with an empty wrapper behind them. */
  function Log(rows: nat): Node {
    Node("log", "log", "", "", "", [], [],
         seq(rows, i requires 0 <= i < rows => Child(LEAF)) + [Child(WRAPPER)])
  }

  lemma LogIsShown(rows: nat)
    ensures !Elided(PLAIN, Log(rows)) && !HidesChildren(PLAIN, Log(rows))
    ensures !Elided(PLAIN, LEAF) && !HidesChildren(PLAIN, LEAF) && Elided(PLAIN, WRAPPER)
  {
    assert forall role | role in WRAPPERS || role in CONTROLS :: |role| > 3;
    assert |"log"| == 3 && |"row"| == 3;
  }

  lemma {:induction false} LogVisits(rows: nat, i: nat)
    requires i <= rows
    ensures VisitsFrom(PLAIN, Log(rows), i, 1) == Showing(rows - i) + [Pass]
    decreases rows - i
  {
    LogVisit(rows, i);
    if i < rows {
      LogVisits(rows, i + 1);
      assert Showing(rows - i) == [Show] + Showing(rows - i - 1);
    } else {
      assert VisitsFrom(PLAIN, Log(rows), i + 1, 1) == [];
    }
  }

  lemma LogVisit(rows: nat, i: nat)
    requires i <= rows
    ensures VisitsChild(PLAIN, Log(rows), i, 1) == [if i < rows then Show else Pass]
  {
    LogIsShown(rows);
    assert Visits(PLAIN, LEAF, 1) == [Show] + VisitsFrom(PLAIN, LEAF, 0, 2);
    assert Visits(PLAIN, WRAPPER, 1) == [Pass] + VisitsFrom(PLAIN, WRAPPER, 0, 1);
  }

  function Showing(n: nat): seq<Visit> {
    seq(n, _ => Show)
  }

  lemma {:induction false} ShowsAll(n: nat)
    ensures Shows(Showing(n)) == n
  {
    if n > 0 {
      assert Showing(n)[..n - 1] == Showing(n - 1);
      ShowsAll(n - 1);
    }
  }

  function LogEntries(rows: nat, i: nat): seq<Entry>
    requires i <= rows
    decreases rows - i
  {
    if i == rows then [] else [Entry(LEAF, 1, [] + [i])] + LogEntries(rows, i + 1)
  }

  lemma {:induction false} LogListing(cut: bool, rows: nat, i: nat)
    requires i <= rows
    ensures ListFrom(PLAIN, cut, Log(rows), i, 1, []) == LogEntries(rows, i)
    ensures |LogEntries(rows, i)| == rows - i
    decreases rows - i
  {
    LogChild(cut, rows, i);
    if i < rows {
      LogListing(cut, rows, i + 1);
    } else {
      NothingBehind(cut, rows);
    }
  }

  lemma NothingBehind(cut: bool, rows: nat)
    ensures ListFrom(PLAIN, cut, Log(rows), rows + 1, 1, []) == []
  {
  }

  lemma LogChild(cut: bool, rows: nat, i: nat)
    requires i <= rows
    ensures ListChild(PLAIN, cut, Log(rows), i, 1, []) == if i < rows then [Entry(LEAF, 1, [] + [i])] else []
  {
    LeafListing(cut, [] + [i]);
    WrapperListing(cut, [] + [i]);
  }

  lemma WrapperListing(cut: bool, path: Path)
    ensures Listing(PLAIN, cut, WRAPPER, 1, path) == []
  {
    LogIsShown(0);
    assert ListFrom(PLAIN, cut, WRAPPER, 0, 1, path) == [];
  }

  lemma LeafListing(cut: bool, path: Path)
    ensures Listing(PLAIN, cut, LEAF, 1, path) == [Entry(LEAF, 1, path)]
  {
    LogIsShown(0);
    assert ListFrom(PLAIN, cut, LEAF, 0, 2, path) == [];
  }

  /** The mark does not mean that something is missing: here the walk comes by an empty
      wrapper with the node cap reached, and nothing is left out. */
  lemma MarkedThoughWhole()
    ensures var r := Render(PLAIN, Log(MAX_NODES - 1), []);
      r.truncated && RecordsAre(r.records, Listing(PLAIN, false, Log(MAX_NODES - 1), 0, []))
  {
    LogIsFull(MAX_NODES - 1);
    RenderIsCappedListing(PLAIN, Log(MAX_NODES - 1), []);
    LogListing(true, MAX_NODES - 1, 0);
    LogListing(false, MAX_NODES - 1, 0);
    LogIsShown(MAX_NODES - 1);
  }

  lemma LogIsFull(rows: nat)
    requires rows + 1 == MAX_NODES
    ensures Render(PLAIN, Log(rows), []).truncated
  {
    var vs := Visits(PLAIN, Log(rows), 0);
    LogIsShown(rows);
    LogVisits(rows, 0);
    ShowsAll(rows);
    ShowsAppend([Show], Showing(rows));
    OverflowsOne(0, Show);
    assert vs == [Show] + Showing(rows) + [Pass];
    assert vs[..rows + 1] == [Show] + Showing(rows);
    assert Stopped(0, vs, |vs| - 1);
    RenderMarks(PLAIN, Log(rows), []);
  }

  // ---------------------------------------------------------------------
  // Addresses
  // ---------------------------------------------------------------------

  function ChildAt(node: Node, index: int): Option<Node> {
    if 0 <= index < |node.children| && node.children[index].Child? then Some(node.children[index].node) else None
  }

  function NodeAt(node: Node, path: Path): Option<Node> {
    if path == [] then Some(node)
    else
      match ChildAt(node, path[0])
      case None => None
      case Some(child) => NodeAt(child, path[1..])
  }

  method FindByPath(app: Node, path: Path) returns (found: Option<Node>)
    ensures found == NodeAt(app, path)
  {
    var node := app;
    for i := 0 to |path|
      invariant NodeAt(app, path) == NodeAt(node, path[i..])
    {
      match ChildAt(node, path[i]) {
        case None => return None;
        case Some(child) =>
          assert path[i..][1..] == path[i + 1..];
          node := child;
      }
    }
    return Some(node);
  }

  predicate SameSignature(node: Node, saved: Element) {
    && node.role == saved.controlType
    && node.name == saved.name
    && node.automationId == saved.automationId
    && node.actions == saved.actions
  }

  /** The element at the saved path, if it still looks like the one that was saved. */
  method FindElement(app: Node, saved: Element) returns (found: Option<Node>)
    ensures found == Resolved(app, saved)
  {
    var byPath := FindByPath(app, saved.runtimeId);
    if byPath.Some? && SameSignature(byPath.value, saved) {
      return byPath;
    }
    return None;
  }

  function Resolved(app: Node, saved: Element): Option<Node> {
    match NodeAt(app, saved.runtimeId)
    case Some(node) => if SameSignature(node, saved) then Some(node) else None
    case None => None
  }

  lemma {:induction false} NodeAtStep(node: Node, path: Path, index: int)
    requires NodeAt(node, path).Some?
    ensures NodeAt(node, path + [index]) == ChildAt(NodeAt(node, path).value, index)
  {
    if path == [] {
      assert (path + [index])[1..] == [];
    } else {
      assert (path + [index])[1..] == path[1..] + [index];
      NodeAtStep(ChildAt(node, path[0]).value, path[1..], index);
    }
  }

  predicate Addressed(app: Node, es: seq<Entry>) {
    forall e | e in es :: NodeAt(app, e.path) == Some(e.node)
  }

  lemma {:induction false} ListingIsAddressed(app: Node, w: Wording, cut: bool, node: Node, depth: nat, path: Path)
    requires NodeAt(app, path) == Some(node)
    ensures Addressed(app, Listing(w, cut, node, depth, path))
    decreases node, |node.children| + 1
  {
    ListFromIsAddressed(app, w, cut, node, 0, depth, path);
    ListFromIsAddressed(app, w, cut, node, 0, depth + 1, path);
  }

  lemma {:induction false} ListFromIsAddressed(app: Node, w: Wording, cut: bool, node: Node, i: nat, depth: nat,
                                               path: Path)
    requires NodeAt(app, path) == Some(node) && i <= |node.children|
    ensures Addressed(app, ListFrom(w, cut, node, i, depth, path))
    decreases node, |node.children| - i
  {
    if i < |node.children| {
      if node.children[i].Child? {
        NodeAtStep(app, path, i);
        ListingIsAddressed(app, w, cut, node.children[i].node, depth, path + [i]);
      }
      ListFromIsAddressed(app, w, cut, node, i + 1, depth, path);
    }
  }

  // ---------------------------------------------------------------------
  // Distinct addresses
  // ---------------------------------------------------------------------

  predicate Below(path: Path, p: Path) {
    |path| <= |p| && p[..|path|] == path
  }

  /** Below one of the children from index `i` on. */
  predicate BelowChildren(path: Path, i: nat, p: Path) {
    |path| < |p| && p[..|path|] == path && i <= p[|path|]
  }

  predicate Distinct(es: seq<Entry>) {
    forall i, j | 0 <= i < j < |es| :: es[i].path != es[j].path
  }

  lemma {:induction false} ListingIsDistinct(w: Wording, cut: bool, node: Node, depth: nat, path: Path)
    ensures Distinct(Listing(w, cut, node, depth, path))
    ensures forall e | e in Listing(w, cut, node, depth, path) :: Below(path, e.path)
    decreases node, |node.children| + 1
  {
    ListFromIsDistinct(w, cut, node, 0, depth, path);
    ListFromIsDistinct(w, cut, node, 0, depth + 1, path);
  }

  lemma {:induction false} ListFromIsDistinct(w: Wording, cut: bool, node: Node, i: nat, depth: nat, path: Path)
    requires i <= |node.children|
    ensures Distinct(ListFrom(w, cut, node, i, depth, path))
    ensures forall e | e in ListFrom(w, cut, node, i, depth, path) :: BelowChildren(path, i, e.path)
    decreases node, |node.children| - i
  {
    if i < |node.children| {
      var xs, ys := ListChild(w, cut, node, i, depth, path), ListFrom(w, cut, node, i + 1, depth, path);
      if node.children[i].Child? {
        ListingIsDistinct(w, cut, node.children[i].node, depth, path + [i]);
        forall e | e in xs ensures BelowChildren(path, i, e.path) && e.path[|path|] == i {
          BelowChild(path, i, e.path);
        }
      }
      ListFromIsDistinct(w, cut, node, i + 1, depth, path);
    }
  }

  lemma BelowChild(path: Path, i: nat, p: Path)
    requires Below(path + [i], p)
    ensures BelowChildren(path, i, p) && p[|path|] == i
  {
    assert p[..|path|] == p[..|path| + 1][..|path|];
    assert p[|path|] == p[..|path| + 1][|path|];
  }

  // ---------------------------------------------------------------------
  // Which elements are shown
  // ---------------------------------------------------------------------

  /** Whether the walk comes by the element at the relative path `q`, and at which depth:
      elided wrappers on the way do not count, and a shown element lets it pass only if it
      does not hide its children. */
  function DepthOf(w: Wording, cut: bool, node: Node, depth: nat, q: Path): Option<nat>
    decreases |q|
  {
    if cut && depth > MAX_DEPTH then None
    else if q == [] then Some(depth)
    else
      match ChildAt(node, q[0])
      case None => None
      case Some(child) =>
        if Elided(w, node) then DepthOf(w, cut, child, depth, q[1..])
        else if HidesChildren(w, node) then None
        else DepthOf(w, cut, child, depth + 1, q[1..])
  }

  /** The listing has an entry for a path exactly if the walk comes by there and the
      element is no wrapper to elide; it is then that element, at that depth. */
  lemma {:induction false} ListedIff(w: Wording, cut: bool, node: Node, depth: nat, path: Path, q: Path, e: Entry)
    requires e.path == path + q
    ensures e in Listing(w, cut, node, depth, path) <==>
      && NodeAt(node, q) == Some(e.node) && DepthOf(w, cut, node, depth, q) == Some(e.depth) && !Elided(w, e.node)
    decreases |q|
  {
    if q == [] {
      ListFromIsDistinct(w, cut, node, 0, depth, path);
      ListFromIsDistinct(w, cut, node, 0, depth + 1, path);
      assert e.path == path && !BelowChildren(path, 0, e.path);
    } else {
      assert |e.path| > |path| && e != Entry(node, depth, path);
      ListedBelowIff(w, cut, node, if Elided(w, node) then depth else depth + 1, path, q, e);
    }
  }

  lemma {:induction false} ListedBelowIff(w: Wording, cut: bool, node: Node, depth: nat, path: Path, q: Path, e: Entry)
    requires e.path == path + q && q != []
    ensures e in ListFrom(w, cut, node, 0, depth, path) <==>
      match ChildAt(node, q[0])
      case None => false
      case Some(child) =>
        && NodeAt(child, q[1..]) == Some(e.node) && DepthOf(w, cut, child, depth, q[1..]) == Some(e.depth)
            && !Elided(w, e.node)
    decreases |q|, 0
  {
    var k := q[0];
    InOneChild(w, cut, node, 0, depth, path, e, k);
    match ChildAt(node, k)
    case None =>
    case Some(child) =>
      assert path + q == (path + [k]) + q[1..];
      ListedIff(w, cut, child, depth, path + [k], q[1..], e);
  }

  /** An entry below child `k` is in the listing of that child or in none. */
  lemma {:induction false} InOneChild(w: Wording, cut: bool, node: Node, i: nat, depth: nat, path: Path, e: Entry,
                                      k: int)
    requires i <= |node.children| && |path| < |e.path| && e.path[..|path|] == path && e.path[|path|] == k
    ensures e in ListFrom(w, cut, node, i, depth, path) <==>
      i <= k < |node.children| && e in ListChild(w, cut, node, k, depth, path)
    decreases |node.children| - i
  {
    if i < |node.children| {
      InOneChild(w, cut, node, i + 1, depth, path, e, k);
      if node.children[i].Child? && e in ListChild(w, cut, node, i, depth, path) {
        ListingIsDistinct(w, cut, node.children[i].node, depth, path + [i]);
        BelowChild(path, i, e.path);
      }
    }
  }

  /** Every record of a window leads back to the element that produced it, and no two
      records to the same place. */
  lemma RecordsResolve(w: Wording, app: Node, rootPath: Path, k: nat)
    requires NodeAt(app, rootPath).Some?
    requires k < |Render(w, NodeAt(app, rootPath).value, rootPath).records|
    ensures var root := NodeAt(app, rootPath).value;
            var records, es := Render(w, root, rootPath).records, Listing(w, true, root, 0, rootPath);
            && records[k].index == k < |es|
            && Resolved(app, records[k]) == Some(es[k].node)
            && forall j | 0 <= j < |records| && j != k :: records[j].runtimeId != records[k].runtimeId
  {
    var root := NodeAt(app, rootPath).value;
    var es := Listing(w, true, root, 0, rootPath);
    RenderIsCappedListing(w, root, rootPath);
    ListingIsAddressed(app, w, true, root, 0, rootPath);
    ListingIsDistinct(w, true, root, 0, rootPath);
    assert es[k] in es;
  }

  /** What a record tells: its number, the path, and the element's own properties. */
  lemma RecordsTell(w: Wording, root: Node, rootPath: Path, k: nat)
    requires k < |Render(w, root, rootPath).records|
    ensures var r, es := Render(w, root, rootPath).records[k], Listing(w, true, root, 0, rootPath);
      && k < |es| && r.index == k && r.runtimeId == es[k].path
      && r.controlType == es[k].node.role && r.name == es[k].node.name && r.automationId == es[k].node.automationId
      && r.value == es[k].node.value && r.actions == es[k].node.actions
  {
    RenderIsCappedListing(w, root, rootPath);
  }

  /** On a tree that may have changed, a saved element is found exactly if there is a node
      at its path with the saved role, name, id and actions; values may differ. */
  lemma ResolvedIff(app: Node, saved: Element, node: Node)
    ensures Resolved(app, saved) == Some(node) <==>
      && NodeAt(app, saved.runtimeId) == Some(node)
      && node.role == saved.controlType && node.name == saved.name
      && node.automationId == saved.automationId && node.actions == saved.actions
  {
  }

  predicate Fetched(children: seq<Child>, i: int) {
    0 <= i < |children| && children[i].Child?
  }

  lemma {:induction false} NonePresentIff(children: seq<Child>)
    ensures Present(children) == 0 <==> forall i :: !Fetched(children, i)
  {
    if children != [] {
      NonePresentIff(children[1..]);
      forall i | 0 <= i < |children[1..]| ensures Fetched(children[1..], i) <==> Fetched(children, i + 1) {
      }
      if i :| Fetched(children, i) {
        assert i == 0 || Fetched(children[1..], i - 1);
        assert Present(children) > 0;
      } else {
        assert !Fetched(children, 0);
      }
    }
  }

  lemma {:induction false} OnePresentIff(children: seq<Child>)
    ensures Present(children) <= 1 <==> forall i, j | Fetched(children, i) && Fetched(children, j) :: i == j
  {
    if children != [] {
      var rest := children[1..];
      NonePresentIff(rest);
      OnePresentIff(rest);
      forall i | 0 <= i < |rest| ensures Fetched(rest, i) <==> Fetched(children, i + 1) {
      }
      if children[0].Child? {
        FirstIsOnlyIff(children);
      } else {
        ShiftedIsOnlyIff(children);
      }
    }
  }

  lemma FirstIsOnlyIff(children: seq<Child>)
    requires children != [] && children[0].Child?
    ensures (forall i :: !Fetched(children[1..], i))
       <==> (forall i, j | Fetched(children, i) && Fetched(children, j) :: i == j)
  {
    if forall i :: !Fetched(children[1..], i) {
      forall i | Fetched(children, i) ensures i == 0 {
        assert i == 0 || !Fetched(children[1..], i - 1);
      }
    } else {
      var i :| Fetched(children[1..], i);
      assert Fetched(children, 0) && Fetched(children, i + 1);
    }
  }

  lemma ShiftedIsOnlyIff(children: seq<Child>)
    requires children != [] && children[0].Gone?
    ensures (forall i, j | Fetched(children[1..], i) && Fetched(children[1..], j) :: i == j)
       <==> (forall i, j | Fetched(children, i) && Fetched(children, j) :: i == j)
  {
    var rest := children[1..];
    if forall i, j | Fetched(rest, i) && Fetched(rest, j) :: i == j {
      forall i, j | Fetched(children, i) && Fetched(children, j) ensures i == j {
        assert Fetched(rest, i - 1) && Fetched(rest, j - 1);
      }
    } else {
      var i, j :| Fetched(rest, i) && Fetched(rest, j) && i != j;
      assert Fetched(children, i + 1) && Fetched(children, j + 1);
    }
  }

  /** An element is passed over exactly if it is one of four wrappers, says nothing, can do
      nothing, has no summary, and has at most one child that could be fetched. */
  lemma ElidedIff(w: Wording, node: Node)
    ensures Elided(w, node) <==>
      && (node.roleKey == "panel" || node.roleKey == "filler" || node.roleKey == "unknown" || node.roleKey == "section")
      && |node.name| == 0 && |node.automationId| == 0 && |node.value| == 0 && |node.secondary| == 0
      && w.summarize(node).None?
      && forall i, j | Fetched(node.children, i) && Fetched(node.children, j) :: i == j
  {
    OnePresentIff(node.children);
  }

  /** An element is shown without its children exactly if it has a summary, or is a control
      that a name, an id or a value labels. */
  lemma HidesChildrenIff(w: Wording, node: Node)
    ensures HidesChildren(w, node) <==>
      || (w.summarize(node).Some? && |w.summarize(node).value| > 0)
      || (&& (|node.name| > 0 || |node.automationId| > 0 || |w.sanitize(node.value)| > 0 || |w.sanitize("")| > 0)
          && node.roleKey in {"button", "check box", "checkbox", "combo box", "heading", "link", "menu item",
                              "page tab", "push button", "radio button"})
  {
  }

  // ---------------------------------------------------------------------
  // The renderer
  // ---------------------------------------------------------------------

  class Renderer {
    const wording: Wording
    var records: seq<Element>
    var lines: seq<Line>
    var truncated: bool
    var maxDepthReached: bool

    constructor (w: Wording)
      ensures wording == w && View() == BLANK
    {
      wording := w;
      records, lines, truncated, maxDepthReached := [], [], false, false;
    }

    ghost function View(): Rendering
      reads this
    {
      Rendering(records, lines, truncated, maxDepthReached)
    }

    method Visit(node: Node, depth: nat, path: Path)
      modifies this
      ensures View() == Walk(wording, old(View()), node, depth, path)
      decreases node, 1
    {
      if |records| >= MAX_NODES || depth > MAX_DEPTH {
        truncated := true;
        if depth > MAX_DEPTH {
          maxDepthReached := true;
        }
        return;
      }
      var item := Record(node, |records|, path);
      if Elided(wording, node) {
        VisitChildren(node, depth, path);
        return;
      }
      records := records + [item];
      lines := lines + [Line(item.index, depth, wording.describe(node, wording.summarize(node)))];
      if HidesChildren(wording, node) {
        return;
      }
      VisitChildren(node, depth + 1, path);
    }

    method VisitChildren(node: Node, depth: nat, path: Path)
      modifies this
      ensures View() == WalkFrom(wording, old(View()), node, 0, depth, path)
      decreases node, 0
    {
      for i := 0 to |node.children|
        invariant WalkFrom(wording, old(View()), node, 0, depth, path)
            == WalkFrom(wording, View(), node, i, depth, path)
      {
        match node.children[i] {
          case Gone =>
          case Child(child) => Visit(child, depth, path + [i]);
        }
      }
    }
  }

  method RenderWindow(w: Wording, root: Node, rootPath: Path)
    returns (records: seq<Element>, lines: seq<Line>, truncated: bool, maxDepthReached: bool)
    ensures Rendering(records, lines, truncated, maxDepthReached) == Render(w, root, rootPath)
  {
    var renderer := new Renderer(w);
    renderer.Visit(root, 0, rootPath);
    return renderer.records, renderer.lines, renderer.truncated, renderer.maxDepthReached;
  }
}
