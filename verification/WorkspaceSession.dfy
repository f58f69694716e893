/**
The persisted terminal session: tabs per worktree, one split layout per tab, and
the PTY id bound to each tab and to each leaf of its layout. SSH leases say which
remote PTYs are still alive. This module holds the entities, the lease
predicates and what each session operation does to a session, as functions.
*/
module WorkspaceSession {
  import opened Options

  /** A pane tree: leaves are panes, inner nodes split in two. */
  datatype PaneNode = Leaf(leafId: string) | Split(first: PaneNode, second: PaneNode)

  /** `other` stands for the fields the session merge never looks at. */
  datatype Tab = Tab(id: string, ptyId: Option<string>, other: string)

  datatype Layout = Layout(
    root: Option<PaneNode>,
    activeLeafId: Option<string>,
    expandedLeafId: Option<string>,
    ptyIdsByLeafId: Option<map<string, string>>,
    other: string)

  /** One key of `tabsByWorktree` with its value; a record keeps its keys in order. */
  datatype WorktreeTabs = WorktreeTabs(worktreeId: string, tabs: seq<Tab>)

  datatype Session = Session(
    tabsByWorktree: seq<WorktreeTabs>,
    layoutsByTabId: map<string, Layout>,
    other: string)

  datatype LeaseState = Attached | Detached | Terminated | Expired

  datatype Lease = Lease(
    targetId: string,
    ptyId: string,
    worktreeId: Option<string>,
    tabId: Option<string>,
    leafId: Option<string>,
    state: LeaseState)

  datatype Repo = Repo(id: string, connectionId: Option<string>, other: string)

  /** A PTY id with what is known of where it is bound. */
  datatype Binding = Binding(
    ptyId: string,
    targetId: Option<string>,
    worktreeId: Option<string>,
    tabId: Option<string>,
    leafId: Option<string>)

  /** The part of the store's state the session operations read. */
  datatype Catalog = Catalog(repos: seq<Repo>, leases: seq<Lease>)

  // ---------------------------------------------------------------------
  // Lease predicates
  // ---------------------------------------------------------------------

  predicate Dead(lease: Lease) {
    lease.state == Terminated || lease.state == Expired
  }

  predicate LeaseMatches(lease: Lease, b: Binding) {
    && lease.ptyId == b.ptyId
    && (b.targetId == None || b.targetId == Some(lease.targetId))
    && (b.worktreeId == None || lease.worktreeId == b.worktreeId)
    && (b.tabId == None || lease.tabId == b.tabId)
    && (b.leafId == None || lease.leafId == b.leafId)
  }

  predicate Restorable(leases: seq<Lease>, b: Binding) {
    !exists lease :: lease in leases && LeaseMatches(lease, b) && Dead(lease)
  }

  predicate HasRestorableLease(leases: seq<Lease>, b: Binding) {
    exists lease :: lease in leases && LeaseMatches(lease, b) && !Dead(lease)
  }

  /** The destructive match: context missing on either side is a wildcard. */
  predicate MayReference(lease: Lease, targetId: string, b: Binding) {
    && lease.targetId == targetId
    && lease.ptyId == b.ptyId
    && (b.worktreeId == None || lease.worktreeId == None || lease.worktreeId == b.worktreeId)
    && (b.tabId == None || lease.tabId == None || lease.tabId == b.tabId)
    && (b.leafId == None || lease.leafId == None || lease.leafId == b.leafId)
  }

  predicate SomeMayReference(leases: seq<Lease>, targetId: string, b: Binding) {
    exists lease :: lease in leases && MayReference(lease, targetId, b)
  }

  // ---------------------------------------------------------------------
  // Lookups
  // ---------------------------------------------------------------------

  /** A pty id that is absent, null or empty counts as no binding. */
  predicate Bound(ptyId: Option<string>) {
    ptyId.Some? && ptyId.value != ""
  }

  function LeafIds(root: Option<PaneNode>): set<string> {
    match root
    case None => {}
    case Some(node) => NodeLeafIds(node)
  }

  function NodeLeafIds(node: PaneNode): set<string> {
    match node
    case Leaf(id) => {id}
    case Split(first, second) => NodeLeafIds(first) + NodeLeafIds(second)
  }

  /** One step down a pane tree. */
  datatype Turn = ToFirst | ToSecond

  /** Where some turns lead from a node: to a node below it, or nowhere. */
  function Walk(node: PaneNode, turns: seq<Turn>): Option<PaneNode>
    decreases |turns|
  {
    if turns == [] then Some(node)
    else
      match (node, turns[0])
      case (Leaf(_), _) => None
      case (Split(first, _), ToFirst) => Walk(first, turns[1..])
      case (Split(_, second), ToSecond) => Walk(second, turns[1..])
  }

  /** A leaf is live in a layout tree if some turns lead to it from the root. */
  ghost predicate LiveIn(root: Option<PaneNode>, leafId: string) {
    root.Some? && exists turns :: Walk(root.value, turns) == Some(Leaf(leafId))
  }

  lemma {:induction false} WalkFindsLeaf(node: PaneNode, turns: seq<Turn>, leafId: string)
    requires Walk(node, turns) == Some(Leaf(leafId))
    ensures leafId in NodeLeafIds(node)
    decreases |turns|
  {
    if turns != [] {
      WalkFindsLeaf(if turns[0].ToFirst? then node.first else node.second, turns[1..], leafId);
    }
  }

  lemma {:induction false} LeafIsWalkedTo(node: PaneNode, leafId: string) returns (turns: seq<Turn>)
    requires leafId in NodeLeafIds(node)
    ensures Walk(node, turns) == Some(Leaf(leafId))
    decreases node
  {
    match node
    case Leaf(_) => turns := [];
    case Split(first, second) =>
      var turn := if leafId in NodeLeafIds(first) then ToFirst else ToSecond;
      var rest := LeafIsWalkedTo(if turn.ToFirst? then first else second, leafId);
      turns := [turn] + rest;
      assert turns[1..] == rest;
  }

  /** The leaf ids collected are those of the live leaves. */
  lemma LeafIdsAreLive(root: Option<PaneNode>, leafId: string)
    ensures leafId in LeafIds(root) <==> LiveIn(root, leafId)
  {
    if leafId in LeafIds(root) {
      var turns := LeafIsWalkedTo(root.value, leafId);
      assert Walk(root.value, turns) == Some(Leaf(leafId));
    } else if root.Some? {
      forall turns ensures Walk(root.value, turns) != Some(Leaf(leafId)) {
        if Walk(root.value, turns) == Some(Leaf(leafId)) {
          WalkFindsLeaf(root.value, turns, leafId);
        }
      }
    }
  }

  /** The repo id is what precedes the first "::" of a worktree id, or all of it. */
  function RepoIdOf(worktreeId: string): string {
    if worktreeId == "" || "::" <= worktreeId then ""
    else [worktreeId[0]] + RepoIdOf(worktreeId[1..])
  }

  function ConnectionOf(repos: seq<Repo>, repoId: string): Option<string> {
    if repos == [] then None
    else if repos[0].id == repoId then repos[0].connectionId
    else ConnectionOf(repos[1..], repoId)
  }

  function TargetOf(repos: seq<Repo>, worktreeId: string): Option<string> {
    ConnectionOf(repos, RepoIdOf(worktreeId))
  }

  function TabsOf(entries: seq<WorktreeTabs>, worktreeId: string): Option<seq<Tab>> {
    if entries == [] then None
    else if entries[0].worktreeId == worktreeId then Some(entries[0].tabs)
    else TabsOf(entries[1..], worktreeId)
  }

  function FindTab(tabs: seq<Tab>, tabId: string): Option<Tab> {
    if tabs == [] then None
    else if tabs[0].id == tabId then Some(tabs[0])
    else FindTab(tabs[1..], tabId)
  }

  predicate HasTab(tabs: seq<Tab>, tabId: string) {
    exists j :: 0 <= j < |tabs| && tabs[j].id == tabId
  }

  function TabAt(entries: seq<WorktreeTabs>, worktreeId: string, tabId: string): Option<Tab> {
    match TabsOf(entries, worktreeId)
    case None => None
    case Some(tabs) => FindTab(tabs, tabId)
  }

  /** The pty id in a tab's slot. */
  function TabSlot(s: Session, worktreeId: string, tabId: string): Option<string> {
    match TabAt(s.tabsByWorktree, worktreeId, tabId)
    case None => None
    case Some(tab) => if Bound(tab.ptyId) then tab.ptyId else None
  }

  function LeafBindings(s: Session, tabId: string): map<string, string> {
    if tabId in s.layoutsByTabId then Bindings(s.layoutsByTabId[tabId]) else map[]
  }

  function Bindings(layout: Layout): map<string, string> {
    match layout.ptyIdsByLeafId
    case None => map[]
    case Some(m) => m
  }

  /** The pty id in a leaf's slot. */
  function LeafSlot(s: Session, tabId: string, leafId: string): Option<string> {
    var m := LeafBindings(s, tabId);
    if leafId in m then Some(m[leafId]) else None
  }

  predicate KeyIn(entries: seq<WorktreeTabs>, worktreeId: string) {
    exists i :: 0 <= i < |entries| && entries[i].worktreeId == worktreeId
  }

  // ---------------------------------------------------------------------
  // setWorkspaceSession
  // ---------------------------------------------------------------------

  /** `{ ...prior, ...next }`: prior's keys in order with next's values, then next's new keys. */
  function Spread(prior: seq<WorktreeTabs>, next: seq<WorktreeTabs>): seq<WorktreeTabs> {
    Overridden(prior, next) + NewKeys(prior, next)
  }

  function Overridden(prior: seq<WorktreeTabs>, next: seq<WorktreeTabs>): seq<WorktreeTabs> {
    if prior == [] then []
    else
      var tabs := match TabsOf(next, prior[0].worktreeId) case Some(ts) => ts case None => prior[0].tabs;
      [prior[0].(tabs := tabs)] + Overridden(prior[1..], next)
  }

  function NewKeys(prior: seq<WorktreeTabs>, next: seq<WorktreeTabs>): seq<WorktreeTabs> {
    if next == [] then []
    else (if KeyIn(prior, next[0].worktreeId) then [] else [next[0]]) + NewKeys(prior, next[1..])
  }

  /** The worktree of each tab id; a later entry wins. */
  function IndexTabs(entries: seq<WorktreeTabs>): map<string, string> {
    if entries == [] then map[]
    else
      var last := entries[|entries| - 1];
      IndexTabs(entries[..|entries| - 1]) + IndexEntry(last.worktreeId, last.tabs)
  }

  function IndexEntry(worktreeId: string, tabs: seq<Tab>): map<string, string> {
    if tabs == [] then map[]
    else IndexEntry(worktreeId, tabs[..|tabs| - 1])[tabs[|tabs| - 1].id := worktreeId]
  }

  function TabBinding(c: Catalog, ptyId: string, worktreeId: string, tabId: string): Binding {
    Binding(ptyId, TargetOf(c.repos, worktreeId), Some(worktreeId), Some(tabId), None)
  }

  function LeafBinding(c: Catalog, ptyId: string, worktreeId: Option<string>, tabId: string, leafId: string): Binding {
    var target := match worktreeId case Some(w) => TargetOf(c.repos, w) case None => None;
    Binding(ptyId, target, worktreeId, Some(tabId), Some(leafId))
  }

  function MergeTab(c: Catalog, priorTabs: seq<Tab>, worktreeId: string, tab: Tab): Tab {
    if Bound(tab.ptyId) then tab
    else
      match FindTab(priorTabs, tab.id)
      case None => tab
      case Some(priorTab) =>
        if Bound(priorTab.ptyId) && Restorable(c.leases, TabBinding(c, priorTab.ptyId.value, worktreeId, tab.id))
        then tab.(ptyId := priorTab.ptyId)
        else tab
  }

  function MergeEntry(c: Catalog, prior: seq<WorktreeTabs>, entry: WorktreeTabs): WorktreeTabs {
    match TabsOf(prior, entry.worktreeId)
    case None => entry
    case Some(priorTabs) =>
      entry.(tabs := seq(|entry.tabs|, j requires 0 <= j < |entry.tabs| =>
        MergeTab(c, priorTabs, entry.worktreeId, entry.tabs[j])))
  }

  function MergeTabs(c: Catalog, prior: seq<WorktreeTabs>, next: seq<WorktreeTabs>): seq<WorktreeTabs> {
    seq(|next|, i requires 0 <= i < |next| => MergeEntry(c, prior, next[i]))
  }

  /** Whether the merge takes a prior leaf binding over into an incoming layout. */
  predicate TakesOver(c: Catalog, worktreeId: Option<string>, tabId: string, incoming: Layout, leafId: string,
                      ptyId: string) {
    && leafId in LeafIds(incoming.root)
    && leafId !in Bindings(incoming)
    && var b := LeafBinding(c, ptyId, worktreeId, tabId, leafId);
       if Bindings(incoming) != map[] then HasRestorableLease(c.leases, b) else Restorable(c.leases, b)
  }

  function Restored(c: Catalog, worktreeId: Option<string>, tabId: string, prior: map<string, string>,
                    incoming: Layout): map<string, string> {
    map leafId | leafId in prior && TakesOver(c, worktreeId, tabId, incoming, leafId, prior[leafId]) :: prior[leafId]
  }

  function MergeLayout(c: Catalog, worktreeId: Option<string>, tabId: string, prior: map<string, string>,
                       incoming: Layout): Layout {
    var restored := Restored(c, worktreeId, tabId, prior, incoming);
    if restored == map[] then incoming
    else incoming.(ptyIdsByLeafId := Some(restored + Bindings(incoming)))
  }

  function Lookup(m: map<string, string>, key: string): Option<string> {
    if key in m then Some(m[key]) else None
  }

  function MergeSession(c: Catalog, prior: Session, next: Session): Session {
    var worktreeOf := IndexTabs(Spread(prior.tabsByWorktree, next.tabsByWorktree));
    Session(
      MergeTabs(c, prior.tabsByWorktree, next.tabsByWorktree),
      map tabId | tabId in next.layoutsByTabId ::
        MergeLayout(c, Lookup(worktreeOf, tabId), tabId, LeafBindings(prior, tabId), next.layoutsByTabId[tabId]),
      next.other)
  }

  function AfterSet(c: Catalog, prior: Option<Session>, next: Session): Session {
    match prior
    case None => next
    case Some(p) => MergeSession(c, p, next)
  }

  // ---------------------------------------------------------------------
  // persistPtyBinding
  // ---------------------------------------------------------------------

  function BindTab(tabs: seq<Tab>, tabId: string, ptyId: string): seq<Tab> {
    if tabs == [] then []
    else if tabs[0].id == tabId then [tabs[0].(ptyId := Some(ptyId))] + tabs[1..]
    else [tabs[0]] + BindTab(tabs[1..], tabId, ptyId)
  }

  function BindEntries(entries: seq<WorktreeTabs>, worktreeId: string, tabId: string,
                       ptyId: string): seq<WorktreeTabs> {
    if entries == [] then []
    else if entries[0].worktreeId == worktreeId then
      [entries[0].(tabs := BindTab(entries[0].tabs, tabId, ptyId))] + entries[1..]
    else [entries[0]] + BindEntries(entries[1..], worktreeId, tabId, ptyId)
  }

  function BindLayout(s: Session, tabId: string, leafId: string, ptyId: string): Layout {
    if tabId in s.layoutsByTabId then
      var layout := s.layoutsByTabId[tabId];
      layout.(ptyIdsByLeafId := Some(Bindings(layout)[leafId := ptyId]))
    else
      Layout(Some(Leaf(leafId)), Some(leafId), None, Some(map[leafId := ptyId]), "")
  }

  function Bind(s: Session, worktreeId: string, tabId: string, leafId: string, ptyId: string): Session {
    s.(tabsByWorktree := BindEntries(s.tabsByWorktree, worktreeId, tabId, ptyId),
       layoutsByTabId := s.layoutsByTabId[tabId := BindLayout(s, tabId, leafId, ptyId)])
  }

  // ---------------------------------------------------------------------
  // removeSshRemotePtyLeases
  // ---------------------------------------------------------------------

  function ClearTab(leases: seq<Lease>, targetId: string, worktreeId: string, tab: Tab): Tab {
    if Bound(tab.ptyId) &&
       SomeMayReference(leases, targetId, Binding(tab.ptyId.value, Some(targetId), Some(worktreeId), Some(tab.id),
                                                  None))
    then tab.(ptyId := None)
    else tab
  }

  function ClearEntry(leases: seq<Lease>, targetId: string, entry: WorktreeTabs): WorktreeTabs {
    entry.(tabs := seq(|entry.tabs|, j requires 0 <= j < |entry.tabs| =>
      ClearTab(leases, targetId, entry.worktreeId, entry.tabs[j])))
  }

  function ClearTabs(leases: seq<Lease>, targetId: string, entries: seq<WorktreeTabs>): seq<WorktreeTabs> {
    seq(|entries|, i requires 0 <= i < |entries| => ClearEntry(leases, targetId, entries[i]))
  }

  /** The first worktree that lists the tab. */
  function FirstWorktreeOf(entries: seq<WorktreeTabs>, tabId: string): Option<string> {
    if entries == [] then None
    else if HasTab(entries[0].tabs, tabId) then Some(entries[0].worktreeId)
    else FirstWorktreeOf(entries[1..], tabId)
  }

  predicate Scrubs(leases: seq<Lease>, targetId: string, worktreeId: Option<string>, tabId: string, leafId: string,
                   ptyId: string) {
    SomeMayReference(leases, targetId, Binding(ptyId, Some(targetId), worktreeId, Some(tabId), Some(leafId)))
  }

  function ClearLayout(leases: seq<Lease>, targetId: string, worktreeId: Option<string>, tabId: string,
                       layout: Layout): Layout {
    match layout.ptyIdsByLeafId
    case None => layout
    case Some(m) =>
      layout.(ptyIdsByLeafId := Some(map leafId | leafId in m
                                     && !Scrubs(leases, targetId, worktreeId, tabId, leafId, m[leafId]) :: m[leafId]))
  }

  function ClearSession(leases: seq<Lease>, targetId: string, s: Session): Session {
    Session(
      ClearTabs(leases, targetId, s.tabsByWorktree),
      map tabId | tabId in s.layoutsByTabId ::
        ClearLayout(leases, targetId, FirstWorktreeOf(s.tabsByWorktree, tabId), tabId, s.layoutsByTabId[tabId]),
      s.other)
  }

  function LeasesOf(leases: seq<Lease>, targetId: string): seq<Lease> {
    if leases == [] then []
    else (if leases[0].targetId == targetId then [leases[0]] else []) + LeasesOf(leases[1..], targetId)
  }

  function LeasesNotOf(leases: seq<Lease>, targetId: string): seq<Lease> {
    if leases == [] then []
    else (if leases[0].targetId != targetId then [leases[0]] else []) + LeasesNotOf(leases[1..], targetId)
  }

  function AfterRemove(leases: seq<Lease>, targetId: string, s: Option<Session>): Option<Session> {
    match s
    case None => None
    case Some(session) => Some(ClearSession(LeasesOf(leases, targetId), targetId, session))
  }
}
