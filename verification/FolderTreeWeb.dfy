/**
  The second folder tree, of the web front end (apps/desktop/src/composables/useFolders.ts:20-85).
  It is built node by node with child lists and no cleaning of paths. On the places it computes
  it satisfies the same specification as the desktop shell's tree, and for normalised paths of
  items that are not deleted the places are the same.
 */
module FolderTreeWeb {
  import opened Base
  import opened Paths
  import opened FolderCounts
  import opened FolderTree
  import opened FolderFilter

  datatype WebNode = WebNode(name: string, children: seq<string>, itemCount: nat, totalCount: nat)

  type WebNodes = map<string, WebNode>

  /** Where the front end sees an item: deleted ones nowhere, the others by their raw parts. */
  function WebPlace(item: Summary): Place {
    var parts := SplitOn(item.path);
    if item.deleted then Blank else if |parts| <= 1 then Loose else In(parts[..|parts| - 1])
  }

  function WebPlaces(items: seq<Summary>): (r: seq<Place>)
    ensures |r| == |items|
    ensures forall i :: 0 <= i < |items| ==> r[i] == WebPlace(items[i])
  {
    seq(|items|, i requires 0 <= i < |items| => WebPlace(items[i]))
  }

  /** Both front ends see the same places. */
  lemma SamePlaces(items: seq<Summary>)
    requires AllNormal(items) && forall i :: 0 <= i < |items| ==> !items[i].deleted
    ensures WebPlaces(items) == Places(items)
  {
    forall i | 0 <= i < |items| ensures WebPlace(items[i]) == PlaceOf(items[i]) {
      NormalPlace(items[i]);
    }
  }

  function Elems(s: seq<string>): set<string> {
    set x | x in s
  }

  predicate NoDup(s: seq<string>) {
    forall i, j :: 0 <= i < j < |s| ==> s[i] != s[j]
  }

  /** The tree without the order of its children. */
  function Unordered(nodes: WebNodes): Nodes {
    map k | k in nodes :: FolderNode(nodes[k].name, k, nodes[k].itemCount, nodes[k].totalCount,
                                     Elems(nodes[k].children))
  }

  lemma UnorderedFields(nodes: WebNodes)
    ensures var u := Unordered(nodes);
            && u.Keys == nodes.Keys
            && forall k :: k in nodes ==>
                 && u[k].itemCount == nodes[k].itemCount && u[k].totalCount == nodes[k].totalCount
                 && u[k].children == Elems(nodes[k].children)
  {
  }

  predicate ParentPresent(nodes: WebNodes, k: string) {
    RSplitOnce(k).Some? ==> RSplitOnce(k).value.0 in nodes
  }

  /** Every node is listed once, with its parent or among the roots. */
  ghost predicate Forest(nodes: WebNodes, roots: seq<string>) {
    && (forall k :: k in nodes ==> ParentPresent(nodes, k))
    && (forall k :: k in nodes ==> NoDup(nodes[k].children))
    && (forall k :: k in nodes ==> ChildrenAre(Elems(nodes[k].children), SplitOn(k), nodes.Keys))
    && NoDup(roots) && ChildrenAre(Elems(roots), [], nodes.Keys)
  }

  function LastPart(k: string): string {
    SplitOn(k)[|SplitOn(k)| - 1]
  }

  function Parent(k: string): Option<string> {
    match RSplitOnce(k)
    case None => None
    case Some((p, _)) => Some(p)
  }

  /** A new node: entered in the map and in its parent's list. */
  function Enter(nodes: WebNodes, roots: seq<string>, k: string): (WebNodes, seq<string>) {
    EnterUnder(nodes, roots, LastPart(k), k, Parent(k))
  }

  function EnterUnder(nodes: WebNodes, roots: seq<string>, name: string, k: string, parent: Option<string>)
    : (WebNodes, seq<string>)
  {
    var n := nodes[k := WebNode(name, [], 0, 0)];
    match parent
    case None => (n, roots + [k])
    case Some(p) =>
      (if p in nodes then n[p := nodes[p].(children := nodes[p].children + [k])] else n, roots)
  }

  lemma ElemsGrow(s: seq<string>, x: string)
    ensures Elems(s + [x]) == Elems(s) + {x}
    ensures NoDup(s) && x !in s ==> NoDup(s + [x])
  {
  }

  lemma EnterKeepsLists(nodes: WebNodes, roots: seq<string>, k: string, q: string)
    requires Forest(nodes, roots) && k !in nodes && ParentPresent(nodes, k)
    requires q in nodes
    ensures var (n, r) := Enter(nodes, roots, k);
            q in n && NoDup(n[q].children) && ChildrenAre(Elems(n[q].children), SplitOn(q), nodes.Keys + {k})
  {
    ParentIff(q, k);
    ElemsGrow(nodes[q].children, k);
    assert k !in Elems(nodes[q].children);
    ChildrenGrow(Elems(nodes[q].children), SplitOn(q), nodes.Keys, k);
  }

  lemma EnterKeepsForest(nodes: WebNodes, roots: seq<string>, k: string)
    requires Forest(nodes, roots) && k !in nodes && ParentPresent(nodes, k)
    ensures var (n, r) := Enter(nodes, roots, k);
            Forest(n, r) && n.Keys == nodes.Keys + {k}
  {
    var (n, r) := Enter(nodes, roots, k);
    ParentIff(k, k);
    assert n.Keys == nodes.Keys + {k};
    ElemsGrow(roots, k);
    assert k !in Elems(roots);
    ChildrenGrow(Elems(roots), [], nodes.Keys, k);
    forall q | q in n
      ensures ParentPresent(n, q) && NoDup(n[q].children)
      ensures ChildrenAre(Elems(n[q].children), SplitOn(q), n.Keys)
    {
      if q != k {
        assert ParentPresent(nodes, q);
        EnterKeepsLists(nodes, roots, k, q);
      } else {
        NewNodeHasNoChildren(nodes, k);
      }
    }
  }

  /** Folders are entered parents first, so a new node cannot have children yet. */
  lemma NewNodeHasNoChildren(nodes: WebNodes, k: string)
    requires k !in nodes && forall q :: q in nodes ==> ParentPresent(nodes, q)
    ensures ChildrenAre({}, SplitOn(k), nodes.Keys + {k})
  {
    forall q | q in nodes.Keys + {k} ensures !IsChildOf(SplitOn(k), q) {
      ParentIff(k, q);
      if q == k {
        assert |SplitOn(q)| != |SplitOn(k)| + 1;
      }
    }
  }

  /** What the inner loop's string arithmetic computes from the first `j` parts. */
  function PathTo(f: seq<string>, j: nat): string
    requires j <= |f|
  {
    if j == 0 then ""
    else
      var current := PathTo(f, j - 1);
      if current != "" then current + [SLASH] + f[j - 1] else f[j - 1]
  }

  /** On a well-named folder it is the joined prefix. */
  lemma {:induction false} PathIsJoin(f: seq<string>, j: nat)
    requires WellNamed(f) && j <= |f|
    ensures PathTo(f, j) == Join(f[..j])
  {
    if j > 0 {
      PathIsJoin(f, j - 1);
      JoinGrows(f, j - 1);
    }
  }

  /** Then the new node's name and parent are those of its path. */
  lemma NextKey(f: seq<string>, j: nat)
    requires j < |f| && WellNamed(f)
    ensures LastPart(PathTo(f, j + 1)) == f[j]
    ensures Parent(PathTo(f, j + 1)) == (if j > 0 then Some(PathTo(f, j)) else None)
  {
    PathIsJoin(f, j);
    PathIsJoin(f, j + 1);
    ParentOfPrefix(f, j);
  }

  /** It never starts with a slash, whatever the parts. */
  lemma {:induction false} PathHasNoLeadingSlash(f: seq<string>, j: nat)
    requires j <= |f| && forall x :: x in f ==> SlashFree(x)
    ensures PathTo(f, j) == "" || PathTo(f, j)[0] != SLASH
  {
    if j > 0 {
      PathHasNoLeadingSlash(f, j - 1);
      assert f[j - 1] in f;
      assert f[j - 1] != "" ==> f[j - 1][0] in f[j - 1];
    }
  }

  predicate NoCounts(nodes: WebNodes) {
    forall k :: k in nodes ==> nodes[k].itemCount == 0
  }

  /** The first `j` parts of a folder entered where missing, each under the one before it. */
  function EnterUpTo(nodes: WebNodes, roots: seq<string>, f: seq<string>, j: nat): (WebNodes, seq<string>)
    requires j <= |f|
  {
    if j == 0 then (nodes, roots)
    else
      var (n, r) := EnterUpTo(nodes, roots, f, j - 1);
      var k := PathTo(f, j);
      if k in n then (n, r) else EnterUnder(n, r, f[j - 1], k, if j > 1 then Some(PathTo(f, j - 1)) else None)
  }

  lemma EnterOne(nodes: WebNodes, roots: seq<string>, k: string)
    requires Forest(nodes, roots) && NoCounts(nodes) && k !in nodes
    requires Parent(k).Some? ==> Parent(k).value in nodes
    ensures var (n, r) := Enter(nodes, roots, k);
            Forest(n, r) && NoCounts(n) && n.Keys == nodes.Keys + {k}
  {
    EnterKeepsForest(nodes, roots, k);
    EnterKeepsNoCounts(nodes, roots, k);
  }

  lemma EnterKeepsNoCounts(nodes: WebNodes, roots: seq<string>, k: string)
    requires NoCounts(nodes)
    ensures NoCounts(Enter(nodes, roots, k).0)
  {
  }

  /** Entering a folder keeps the forest and adds exactly the folder's prefixes. */
  lemma {:induction false} EnterUpToIsForest(nodes: WebNodes, roots: seq<string>, f: seq<string>, j: nat)
    requires Forest(nodes, roots) && NoCounts(nodes) && j <= |f| && WellNamed(f)
    ensures var (n, r) := EnterUpTo(nodes, roots, f, j);
            && Forest(n, r) && NoCounts(n) && n.Keys == nodes.Keys + PrefixNames(f, j)
            && (j > 0 ==> PathTo(f, j) in n)
    decreases j
  {
    hide Forest, NoCounts, Parent, LastPart, Join, PathTo, WellNamed, EnterUnder;
    if j > 0 {
      EnterUpToIsForest(nodes, roots, f, j - 1);
      var (n, r) := EnterUpTo(nodes, roots, f, j - 1);
      var k := PathTo(f, j);
      PathIsJoin(f, j);
      NextKey(f, j - 1);
      if k !in n {
        EnterOne(n, r, k);
      } else {
        assert n.Keys + {k} == n.Keys;
      }
    }
  }

  /** The inner loop of the first pass. */
  method EnterFolder(before: WebNodes, rootsBefore: seq<string>, f: seq<string>)
    returns (nodes: WebNodes, roots: seq<string>)
    ensures (nodes, roots) == EnterUpTo(before, rootsBefore, f, |f|)
  {
    nodes, roots := before, rootsBefore;
    var current, parent := "", None;
    for j := 0 to |f|
      invariant current == PathTo(f, j) && parent == (if j > 0 then Some(current) else None)
      invariant (nodes, roots) == EnterUpTo(before, rootsBefore, f, j)
    {
      current := if current != "" then current + [SLASH] + f[j] else f[j];
      if current !in nodes {
        var entered := EnterUnder(nodes, roots, f[j], current, parent);
        nodes, roots := entered.0, entered.1;
      }
      parent := Some(current);
    }
  }

  /** The parent of a joined prefix is the prefix before it; its last part is its name. */
  lemma ParentOfPrefix(f: seq<string>, j: nat)
    requires j < |f| && WellNamed(f)
    ensures SplitOn(Join(f[..j + 1])) == f[..j + 1]
    ensures j == 0 ==> Join(f[..1]) == f[0] && RSplitOnce(Join(f[..1])).None?
    ensures j > 0 ==> RSplitOnce(Join(f[..j + 1])).Some? && RSplitOnce(Join(f[..j + 1])).value.0 == Join(f[..j])
  {
    SplitJoin(f[..j + 1]);
    RSplitParent(Join(f[..j + 1]));
    if j > 0 {
      SplitJoin(f[..j]);
      assert f[..j + 1][..j] == f[..j];
      SplitInjective(RSplitOnce(Join(f[..j + 1])).value.0, Join(f[..j]));
    }
  }

  lemma EmptyForest()
    ensures Forest(map[], []) && NoCounts(map[])
  {
  }

  /** What the first pass builds from a list of places. */
  function EnterPlaces(places: seq<Place>): (WebNodes, seq<string>)
    decreases |places|
  {
    if places == [] then (map[], [])
    else
      var (n, r) := EnterPlaces(places[..|places| - 1]);
      var last := places[|places| - 1];
      if last.In? then EnterUpTo(n, r, last.folder, |last.folder|) else (n, r)
  }

  lemma {:induction false} EnterPlacesIsForest(places: seq<Place>)
    requires AllProper(places)
    ensures var (n, r) := EnterPlaces(places);
            Forest(n, r) && NoCounts(n) && n.Keys == FolderNames(places)
    decreases |places|
  {
    if places == [] {
      EmptyForest();
    } else {
      hide Forest, NoCounts, EnterUpTo;
      var front, last := places[..|places| - 1], places[|places| - 1];
      assert forall i :: 0 <= i < |front| ==> front[i] == places[i];
      EnterPlacesIsForest(front);
      assert Proper(last);
      if last.In? {
        EnterUpToIsForest(EnterPlaces(front).0, EnterPlaces(front).1, last.folder, |last.folder|);
      }
    }
  }

  lemma {:induction false} EnteredKeys(nodes: WebNodes, roots: seq<string>, f: seq<string>, j: nat, k: string)
    requires j <= |f| && k in EnterUpTo(nodes, roots, f, j).0 && k !in nodes
    ensures exists i :: 0 <= i <= j && k == PathTo(f, i)
    decreases j
  {
    if j > 0 && k != PathTo(f, j) {
      EnteredKeys(nodes, roots, f, j - 1, k);
    }
  }

  predicate SlashFreeParts(places: seq<Place>) {
    forall i :: 0 <= i < |places| && places[i].In? ==>
      places[i].folder != [] && forall x :: x in places[i].folder ==> SlashFree(x)
  }

  lemma {:induction false} NoKeyLeadsWithSlash(places: seq<Place>, k: string)
    requires SlashFreeParts(places) && k in EnterPlaces(places).0
    ensures k == "" || k[0] != SLASH
    decreases |places|
  {
    var front, last := places[..|places| - 1], places[|places| - 1];
    var (n, r) := EnterPlaces(front);
    if k in n {
      NoKeyLeadsWithSlash(front, k);
    } else {
      EnteredKeys(n, r, last.folder, |last.folder|, k);
      var i :| 0 <= i <= |last.folder| && k == PathTo(last.folder, i);
      PathHasNoLeadingSlash(last.folder, i);
    }
  }

  /** The second prefix of a folder that starts with an empty part is a folder, and starts with a slash. */
  lemma SlashFolder(places: seq<Place>, i: nat)
    requires SlashFreeParts(places) && i < |places| && !Proper(places[i])
    ensures var k := Join(places[i].folder[..2]);
            |places[i].folder| >= 2 && IsFolder(places, k) && k != "" && k[0] == SLASH
  {
    var f := places[i].folder;
    SplitJoin(f[..2]);
    assert f[..2][1..] == [f[1]];
    assert Under(places[i], SplitOn(Join(f[..2])));
  }

  lemma WebPartsAreSlashFree(items: seq<Summary>)
    ensures SlashFreeParts(WebPlaces(items))
  {
    forall i | 0 <= i < |items| && WebPlaces(items)[i].In?
      ensures forall x :: x in WebPlaces(items)[i].folder ==> SlashFree(x)
    {
      PartsAreSlashFree(items[i].path);
      var parts := SplitOn(items[i].path);
      assert forall x :: x in parts[..|parts| - 1] ==> x in parts;
    }
  }

  /**
    The first pass finds exactly the folders of the items if and only if no folder of two or more
    parts starts with an empty one, that is, no path starts with a slash and goes two levels down.
    The string arithmetic swallows the leading slash of such a path.
   */
  lemma FoldersRightIff(items: seq<Summary>)
    ensures var places := WebPlaces(items);
            (forall k :: k in EnterPlaces(places).0 <==> IsFolder(places, k)) <==> AllProper(places)
  {
    var places := WebPlaces(items);
    WebPartsAreSlashFree(items);
    if AllProper(places) {
      EnterPlacesIsForest(places);
      forall k
        ensures k in EnterPlaces(places).0 <==> IsFolder(places, k)
      {
        FolderNamesAre(places, k);
      }
    } else {
      var i :| 0 <= i < |places| && !Proper(places[i]);
      SlashFolder(places, i);
      var k := Join(places[i].folder[..2]);
      if k in EnterPlaces(places).0 {
        NoKeyLeadsWithSlash(places, k);
      }
    }
  }

  /** The first pass: every folder is entered, loose items are counted. */
  method EnterAll(items: seq<Summary>) returns (nodes: WebNodes, roots: seq<string>, loose: nat)
    ensures (nodes, roots) == EnterPlaces(WebPlaces(items))
    ensures loose == CountLoose(WebPlaces(items))
  {
    ghost var places := WebPlaces(items);
    nodes, roots, loose := map[], [], 0;
    for n := 0 to |items|
      invariant (nodes, roots) == EnterPlaces(places[..n]) && loose == CountLoose(places[..n])
    {
      assert places[n] == WebPlace(items[n]);
      assert places[..n + 1][..n] == places[..n] && places[..n + 1][n] == places[n];
      LooseOneMore(places, n);
      if !items[n].deleted {
        var parts := SplitOn(items[n].path);
        if |parts| <= 1 {
          loose := loose + 1;
        } else {
          nodes, roots := EnterFolder(nodes, roots, parts[..|parts| - 1]);
        }
      }
    }
    assert places[..|items|] == places;
  }

  /** Equal up to counts. */
  predicate SameLists(a: WebNodes, b: WebNodes) {
    a.Keys == b.Keys && forall k :: k in a ==> b[k].children == a[k].children && b[k].name == a[k].name
  }

  /** One more item in the folder named `key`. */
  function Increment(nodes: WebNodes, key: string): WebNodes {
    if key in nodes then nodes[key := nodes[key].(itemCount := nodes[key].itemCount + 1)] else nodes
  }

  /** What the second pass makes of the nodes. */
  function CountPlaces(nodes: WebNodes, places: seq<Place>): WebNodes
    decreases |places|
  {
    if places == [] then nodes
    else
      var last := places[|places| - 1];
      var front := CountPlaces(nodes, places[..|places| - 1]);
      if last.In? then Increment(front, Join(last.folder)) else front
  }

  lemma CountPlacesOneMore(nodes: WebNodes, places: seq<Place>, n: nat)
    requires n < |places|
    ensures CountPlaces(nodes, places[..n + 1])
            == if places[n].In? then Increment(CountPlaces(nodes, places[..n]), Join(places[n].folder))
               else CountPlaces(nodes, places[..n])
  {
    assert places[..n + 1][..n] == places[..n];
  }

  /** The item counts of the nodes are those of a map. */
  predicate CountsAre(nodes: WebNodes, counts: map<string, nat>) {
    forall k :: k in nodes ==> nodes[k].itemCount == if k in counts then counts[k] else 0
  }

  lemma {:induction false} CountPlacesCounts(nodes: WebNodes, places: seq<Place>)
    requires NoCounts(nodes)
    ensures SameLists(nodes, CountPlaces(nodes, places)) && CountsAre(CountPlaces(nodes, places), OwnCounts(places))
    decreases |places|
  {
    if places != [] {
      CountPlacesCounts(nodes, places[..|places| - 1]);
    }
  }

  /** The second pass: items are counted in their own folder. */
  method CountItems(items: seq<Summary>, start: WebNodes) returns (nodes: WebNodes)
    ensures nodes == CountPlaces(start, WebPlaces(items))
  {
    ghost var places := WebPlaces(items);
    nodes := start;
    for n := 0 to |items|
      invariant nodes == CountPlaces(start, places[..n])
    {
      CountPlacesOneMore(start, places, n);
      if !items[n].deleted {
        var parts := SplitOn(items[n].path);
        if |parts| > 1 {
          nodes := Increment(nodes, Join(parts[..|parts| - 1]));
        }
      }
    }
    assert places[..|items|] == places;
  }

  lemma CountedIsShaped(places: seq<Place>, start: WebNodes, roots: seq<string>, nodes: WebNodes)
    requires AllProper(places) && Forest(start, roots) && SameLists(start, nodes)
    requires start.Keys == FolderNames(places) && CountsAre(nodes, OwnCounts(places))
    ensures Shaped(places, Unordered(nodes)) && Listed(nodes) && ChildrenAre(Elems(roots), [], nodes.Keys)
  {
    assert Unordered(nodes).Keys == nodes.Keys;
    forall k
      ensures k in nodes <==> IsFolder(places, k)
      ensures CountIn(places, SplitOn(k)) == if k in OwnCounts(places) then OwnCounts(places)[k] else 0
    {
      FolderNamesAre(places, k);
      OwnCountsAre(places, k);
    }
  }

  predicate Listed(nodes: WebNodes) {
    forall k :: k in nodes ==> NoDup(nodes[k].children)
  }

  /** Equal up to totals. */
  predicate SameTree(a: WebNodes, b: WebNodes) {
    a.Keys == b.Keys && forall k :: k in a ==> b[k] == a[k].(totalCount := b[k].totalCount)
  }

  lemma SameTreeSameShape(a: WebNodes, b: WebNodes)
    requires SameTree(a, b)
    ensures SameShape(Unordered(a), Unordered(b))
    ensures Listed(a) ==> Listed(b)
  {
  }

  lemma RestShrinks(s: seq<string>, i: nat)
    requires i < |s| && NoDup(s)
    ensures s[i] in Elems(s[i..]) && Elems(s[i..]) <= Elems(s)
    ensures Elems(s[i + 1..]) == Elems(s[i..]) - {s[i]}
  {
    forall x ensures x in Elems(s[i + 1..]) <==> x in Elems(s[i..]) - {s[i]} {
      if x in s[i..] && x != s[i] {
        var j :| 0 <= j < |s[i..]| && s[i..][j] == x;
        assert s[i + 1..][j - 1] == x;
      }
      if x in s[i + 1..] {
        var j :| 0 <= j < |s[i + 1..]| && s[i + 1..][j] == x;
        assert s[i..][j + 1] == x;
      }
    }
  }

  lemma StoreUnordered(nodes: WebNodes, path: string, total: nat)
    requires path in nodes
    ensures var u := Unordered(nodes);
            Unordered(nodes[path := nodes[path].(totalCount := total)]) == u[path := u[path].(totalCount := total)]
  {
  }

  // ----- why `countTotal` ends, on every tree the first pass builds

  /** Nodes are numbered in the order of their creation; a child is created after its parent. */
  ghost predicate Ranked(nodes: WebNodes, rank: map<string, nat>, top: nat) {
    && nodes.Keys <= rank.Keys && (forall k :: k in nodes ==> rank[k] <= top)
    && (forall k, c :: k in nodes && c in nodes[k].children ==> c in nodes && rank[k] < rank[c])
  }

  predicate RootsPresent(nodes: WebNodes, roots: seq<string>) {
    forall r :: r in roots ==> r in nodes
  }

  lemma EnterUnderRanked(nodes: WebNodes, roots: seq<string>, name: string, k: string, parent: Option<string>,
                         rank: map<string, nat>, top: nat)
    requires Ranked(nodes, rank, top) && RootsPresent(nodes, roots) && k !in nodes
    requires parent.Some? ==> parent.value in nodes
    ensures var (n, r) := EnterUnder(nodes, roots, name, k, parent);
            Ranked(n, rank[k := top + 1], top + 1) && RootsPresent(n, r) && k in n
  {
    var (n, r) := EnterUnder(nodes, roots, name, k, parent);
    forall q, c | q in n && c in n[q].children
      ensures c in n && rank[k := top + 1][q] < rank[k := top + 1][c]
    {
      assert q != k;
      assert c in nodes[q].children || c == k;
    }
  }

  lemma {:induction false} EnterUpToRanked(nodes: WebNodes, roots: seq<string>, f: seq<string>, j: nat,
                                           rank: map<string, nat>,
                                           top: nat)
    returns (rank2: map<string, nat>, top2: nat)
    requires Ranked(nodes, rank, top) && RootsPresent(nodes, roots) && j <= |f|
    ensures var (n, r) := EnterUpTo(nodes, roots, f, j);
            Ranked(n, rank2, top2) && RootsPresent(n, r) && (j > 0 ==> PathTo(f, j) in n)
    decreases j
  {
    rank2, top2 := rank, top;
    if j > 0 {
      rank2, top2 := EnterUpToRanked(nodes, roots, f, j - 1, rank, top);
      var (n, r) := EnterUpTo(nodes, roots, f, j - 1);
      hide Ranked, RootsPresent, EnterUnder, PathTo;
      var k := PathTo(f, j);
      if k !in n {
        EnterUnderRanked(n, r, f[j - 1], k, if j > 1 then Some(PathTo(f, j - 1)) else None, rank2, top2);
        rank2, top2 := rank2[k := top2 + 1], top2 + 1;
      }
    }
  }

  lemma {:induction false} EnterPlacesRanked(places: seq<Place>) returns (rank: map<string, nat>, top: nat)
    ensures var (n, r) := EnterPlaces(places); Ranked(n, rank, top) && RootsPresent(n, r)
    decreases |places|
  {
    if places == [] {
      rank, top := map[], 0;
    } else {
      var front, last := places[..|places| - 1], places[|places| - 1];
      rank, top := EnterPlacesRanked(front);
      hide Ranked, RootsPresent, EnterUpTo;
      if last.In? {
        rank, top := EnterUpToRanked(EnterPlaces(front).0, EnterPlaces(front).1, last.folder, |last.folder|, rank, top);
      }
    }
  }

  /** Counts and totals do not move nodes. */
  lemma RankStays(a: WebNodes, b: WebNodes, roots: seq<string>, rank: map<string, nat>, top: nat)
    requires Ranked(a, rank, top) && RootsPresent(a, roots) && (SameLists(a, b) || SameTree(a, b))
    ensures Ranked(b, rank, top) && RootsPresent(b, roots)
  {
  }

  /** The tree is the right one, so totals can be right. */
  ghost predicate WellBuilt(places: seq<Place>, nodes: WebNodes) {
    AllProper(places) && Shaped(places, Unordered(nodes)) && Listed(nodes)
  }

  /** The totals of a subtree are done and nothing else has changed. */
  ghost predicate Totalled(places: seq<Place>, start: WebNodes, nodes: WebNodes, path: string, total: nat) {
    && total == CountUnder(places, SplitOn(path))
    && DoneUnder(places, Unordered(nodes), path) && OnlyUnder(Unordered(start), Unordered(nodes), path)
  }

  /** `countTotal`: it ends on every tree and, on the right tree, promises what `compute_total` does. */
  method CountTotal(ghost places: seq<Place>, start: WebNodes, path: string, ghost rank: map<string, nat>,
                    ghost top: nat)
    returns (nodes: WebNodes, total: nat)
    requires path in start && Ranked(start, rank, top)
    ensures SameTree(start, nodes)
    ensures WellBuilt(places, start) ==> Totalled(places, start, nodes, path, total)
    decreases top - rank[path]
  {
    hide *;
    nodes, total := start, start[path].itemCount;
    var children := start[path].children;
    CountStarts(places, start, path);
    for i := 0 to |children|
      invariant Counting(places, start, nodes, path, i, total)
    {
      CountReady(places, start, nodes, path, i, total, rank, top);
      ghost var before := nodes;
      var sub;
      nodes, sub := CountTotal(places, nodes, children[i], rank, top);
      CountMoves(places, start, before, nodes, path, i, total, sub);
      total := total + sub;
    }
    CountCloses(places, start, nodes, path, total);
    nodes := nodes[path := nodes[path].(totalCount := total)];
  }

  /** The first `i` children have been counted. */
  ghost predicate Counting(places: seq<Place>, start: WebNodes, nodes: WebNodes, path: string, i: nat, total: nat) {
    && path in start && i <= |start[path].children| && SameTree(start, nodes)
    && (WellBuilt(places, start) ==>
          Progress(places, Unordered(start), Unordered(nodes), path, Elems(start[path].children[i..]), total))
  }

  lemma CountReady(places: seq<Place>, start: WebNodes, nodes: WebNodes, path: string, i: nat, total: nat,
                   rank: map<string, nat>, top: nat)
    requires Counting(places, start, nodes, path, i, total) && i < |start[path].children| && Ranked(start, rank, top)
    ensures var c := start[path].children[i];
            c in nodes && Ranked(nodes, rank, top) && path in rank && c in rank && rank[path] < rank[c] <= top
  {
    RankStays(start, nodes, [], rank, top);
    assert start[path].children[i] in start[path].children;
  }

  lemma CountStarts(places: seq<Place>, start: WebNodes, path: string)
    requires path in start
    ensures Counting(places, start, start, path, 0, start[path].itemCount)
  {
    assert start[path].children[0..] == start[path].children;
    if WellBuilt(places, start) {
      ProgressStart(places, Unordered(start), path);
    }
  }

  lemma CountMoves(places: seq<Place>, start: WebNodes, before: WebNodes, after: WebNodes, path: string, i: nat,
                   total: nat, sub: nat)
    requires Counting(places, start, before, path, i, total) && i < |start[path].children| && SameTree(before, after)
    requires WellBuilt(places, before) ==> Totalled(places, before, after, start[path].children[i], sub)
    ensures Counting(places, start, after, path, i + 1, total + sub)
  {
    if WellBuilt(places, start) {
      ChildReady(places, start, before, path, i);
      hide Shaped, Progress, DoneUnder, OnlyUnder, CountUnder, AllProper;
      ChildDone(places, start, before, after, path, i, total, sub);
    }
  }

  lemma CountCloses(places: seq<Place>, start: WebNodes, nodes: WebNodes, path: string, total: nat)
    requires path in start && Counting(places, start, nodes, path, |start[path].children|, total)
    ensures path in nodes
    ensures var end := nodes[path := nodes[path].(totalCount := total)];
            && SameTree(start, end)
            && (WellBuilt(places, start) ==> Totalled(places, start, end, path, total))
  {
    assert Elems(start[path].children[|start[path].children|..]) == {};
    hide Shaped, Progress, DoneUnder, OnlyUnder, CountUnder;
    if WellBuilt(places, start) {
      CloseTotal(places, start, nodes, path, total);
    }
  }

  /** With all children totalled, the own total closes the folder. */
  lemma CloseTotal(places: seq<Place>, start: WebNodes, nodes: WebNodes, path: string, total: nat)
    requires AllProper(places) && Shaped(places, Unordered(start)) && path in start && SameTree(start, nodes)
    requires Progress(places, Unordered(start), Unordered(nodes), path, {}, total)
    ensures total == CountUnder(places, SplitOn(path))
    ensures var end := nodes[path := nodes[path].(totalCount := total)];
            && SameTree(start, end)
            && DoneUnder(places, Unordered(end), path) && OnlyUnder(Unordered(start), Unordered(end), path)
  {
    hide Shaped, Progress, DoneUnder, OnlyUnder, CountUnder, SplitOn;
    ProgressEnd(places, Unordered(start), Unordered(nodes), path, total);
    StoreUnordered(nodes, path, total);
  }

  /** The next child may be totalled: it is a node, and it lies deeper. */
  lemma ChildReady(places: seq<Place>, start: WebNodes, nodes: WebNodes, path: string, i: nat)
    requires Shaped(places, Unordered(start)) && Listed(start) && path in start && i < |start[path].children|
    requires SameTree(start, nodes)
    ensures var c := start[path].children[i];
            && Shaped(places, Unordered(nodes)) && Listed(nodes) && c in nodes
            && |SplitOn(path)| < |SplitOn(c)| <= MaxDepth(places)
  {
    var c := start[path].children[i];
    SameTreeSameShape(start, nodes);
    ShapeKept(places, Unordered(start), Unordered(nodes));
    assert c in Elems(start[path].children);
    assert ChildrenAre(Unordered(start)[path].children, SplitOn(path), Unordered(start).Keys);
    DepthBounded(places, c);
  }

  /** A totalled child moves the loop on. */
  lemma ChildDone(places: seq<Place>, start: WebNodes, before: WebNodes, after: WebNodes, path: string, i: nat,
                  total: nat, sub: nat)
    requires Shaped(places, Unordered(start)) && Listed(start) && path in start && i < |start[path].children|
    requires SameTree(before, after)
    requires Progress(places, Unordered(start), Unordered(before), path, Elems(start[path].children[i..]), total)
    requires DoneUnder(places, Unordered(after), start[path].children[i])
    requires OnlyUnder(Unordered(before), Unordered(after), start[path].children[i])
    requires sub == CountUnder(places, SplitOn(start[path].children[i]))
    ensures Progress(places, Unordered(start), Unordered(after), path, Elems(start[path].children[i + 1..]),
                     total + sub)
  {
    var children := start[path].children;
    RestShrinks(children, i);
    SameTreeSameShape(before, after);
    ChildIsDeeper(places, Unordered(start), path, children[i]);
    ProgressStep(places, Unordered(start), Unordered(before), Unordered(after), path, Elems(children[i..]), total,
                 children[i], sub);
  }

  /** The finished tree: folders, counts, totals and roots of a plain scan. */
  ghost predicate TreeRight(places: seq<Place>, nodes: WebNodes, roots: seq<string>) {
    && Shaped(places, Unordered(nodes)) && (forall k :: k in nodes ==> TotalRight(places, Unordered(nodes), k))
    && NoDup(roots) && ChildrenAre(Elems(roots), [], nodes.Keys)
  }

  /**
    `folderTreeData`, on every item list: the tree is that of a plain scan if and only if no folder of
    two or more parts starts with an empty one. The loose count is always right.
   */
  method FolderTreeData(items: seq<Summary>) returns (nodes: WebNodes, roots: seq<string>, loose: nat)
    ensures TreeRight(WebPlaces(items), nodes, roots) <==> AllProper(WebPlaces(items))
    ensures forall k :: k in nodes ==> IsNameOf(k, nodes[k].name)
    ensures AllProper(WebPlaces(items)) ==> AllInOrder(WebPlaces(items), nodes, roots)
    ensures loose == CountLoose(WebPlaces(items))
  {
    ghost var places := WebPlaces(items);
    nodes, roots, loose := EnterAll(items);
    ghost var entered := nodes;
    WebPartsAreSlashFree(items);
    PlacesAreNamed(places);
    ghost var rank, top := EnterPlacesRanked(places);
    nodes := CountItems(items, nodes);
    CountedTree(places, entered, roots, nodes);
    RankStays(entered, nodes, roots, rank, top);
    nodes := TotalAll(places, nodes, roots, rank, top);
    RightIffProper(items, nodes, roots);
    if AllProper(places) {
      ListsAreInOrder(places);
      OrderKept(places, entered, nodes, roots);
    }
  }

  lemma CountedTree(places: seq<Place>, entered: WebNodes, roots: seq<string>, nodes: WebNodes)
    requires (entered, roots) == EnterPlaces(places) && nodes == CountPlaces(entered, places)
    ensures SameLists(entered, nodes)
    ensures AllProper(places) ==>
              WellBuilt(places, nodes) && NoDup(roots) && ChildrenAre(Elems(roots), [], nodes.Keys)
  {
    CountPlacesKeepsLists(entered, places);
    if AllProper(places) {
      EnterPlacesIsForest(places);
      CountPlacesCounts(entered, places);
      CountedIsShaped(places, entered, roots, nodes);
    }
  }

  lemma {:induction false} CountPlacesKeepsLists(nodes: WebNodes, places: seq<Place>)
    ensures SameLists(nodes, CountPlaces(nodes, places))
    decreases |places|
  {
    if places != [] {
      CountPlacesKeepsLists(nodes, places[..|places| - 1]);
    }
  }

  lemma RightIffProper(items: seq<Summary>, nodes: WebNodes, roots: seq<string>)
    requires nodes.Keys == EnterPlaces(WebPlaces(items)).0.Keys
    requires AllProper(WebPlaces(items)) ==> TreeRight(WebPlaces(items), nodes, roots)
    ensures TreeRight(WebPlaces(items), nodes, roots) <==> AllProper(WebPlaces(items))
  {
    FoldersRightIff(items);
    hide AllProper, IsFolder, EnterPlaces, WebPlaces;
    if TreeRight(WebPlaces(items), nodes, roots) {
      assert Unordered(nodes).Keys == nodes.Keys;
    }
  }

  /** `countTotal` on every root. */
  method TotalAll(ghost places: seq<Place>, start: WebNodes, roots: seq<string>, ghost rank: map<string, nat>,
                  ghost top: nat)
    returns (nodes: WebNodes)
    requires Ranked(start, rank, top) && RootsPresent(start, roots)
    ensures SameTree(start, nodes)
    ensures WellBuilt(places, start) && NoDup(roots) && ChildrenAre(Elems(roots), [], start.Keys) ==>
              TreeRight(places, nodes, roots)
  {
    hide WellBuilt, Totalled, AllDone;
    nodes := start;
    NoRootsDone(places, start);
    for i := 0 to |roots|
      invariant SameTree(start, nodes)
      invariant WellBuilt(places, start) ==> AllDone(places, Unordered(nodes), Elems(roots[..i]))
    {
      RankStays(start, nodes, roots, rank, top);
      assert roots[i] in roots;
      ghost var before := nodes;
      var total;
      nodes, total := CountTotal(places, nodes, roots[i], rank, top);
      RootMoves(places, start, before, nodes, roots, i, total);
    }
    assert roots[..|roots|] == roots;
    RootsClose(places, start, nodes, roots);
  }

  lemma NoRootsDone(places: seq<Place>, nodes: WebNodes)
    ensures AllDone(places, Unordered(nodes), Elems([]))
  {
  }

  lemma RootMoves(places: seq<Place>, start: WebNodes, before: WebNodes, after: WebNodes, roots: seq<string>, i: nat,
                  total: nat)
    requires i < |roots| && SameTree(start, before) && SameTree(before, after)
    requires WellBuilt(places, start) ==> AllDone(places, Unordered(before), Elems(roots[..i]))
    requires WellBuilt(places, before) ==> Totalled(places, before, after, roots[i], total)
    ensures SameTree(start, after)
    ensures WellBuilt(places, start) ==> AllDone(places, Unordered(after), Elems(roots[..i + 1]))
  {
    if WellBuilt(places, start) {
      SameTreeSameShape(start, before);
      ShapeKept(places, Unordered(start), Unordered(before));
      hide Shaped, AllDone, DoneUnder, OnlyUnder;
      RootTotalled(places, before, after, roots, i);
    }
  }

  lemma RootsClose(places: seq<Place>, start: WebNodes, nodes: WebNodes, roots: seq<string>)
    requires SameTree(start, nodes) && WellBuilt(places, start) ==> AllDone(places, Unordered(nodes), Elems(roots))
    ensures (&& SameTree(start, nodes) && WellBuilt(places, start) && NoDup(roots)
             && ChildrenAre(Elems(roots), [], start.Keys)) ==>
              TreeRight(places, nodes, roots)
  {
    if SameTree(start, nodes) && WellBuilt(places, start) && NoDup(roots) && ChildrenAre(Elems(roots), [], start.Keys) {
      SameTreeSameShape(start, nodes);
      ShapeKept(places, Unordered(start), Unordered(nodes));
      UnorderedFields(nodes);
      RootsDone(places, Unordered(nodes), Elems(roots));
    }
  }

  lemma RootTotalled(places: seq<Place>, before: WebNodes, after: WebNodes, roots: seq<string>, i: nat)
    requires i < |roots| && SameTree(before, after) && AllDone(places, Unordered(before), Elems(roots[..i]))
    requires DoneUnder(places, Unordered(after), roots[i]) && OnlyUnder(Unordered(before), Unordered(after), roots[i])
    ensures AllDone(places, Unordered(after), Elems(roots[..i + 1]))
  {
    SameTreeSameShape(before, after);
    DoneOneMore(places, Unordered(before), Unordered(after), roots[i], Elems(roots[..i]));
    ElemsGrow(roots[..i], roots[i]);
    assert roots[..i + 1] == roots[..i] + [roots[i]];
  }

  /**
    The two front ends agree: on normalised paths of items that are not deleted, any two trees that
    meet their specifications have the same folders, the same counts, the same totals and the same
    children, and the same number of items without a folder.
   */
  lemma FrontEndsAgree(items: seq<Summary>, web: WebNodes, desktop: Nodes)
    requires AllNormal(items) && forall i :: 0 <= i < |items| ==> !items[i].deleted
    requires Shaped(WebPlaces(items), Unordered(web)) && Shaped(Places(items), desktop)
    requires forall k :: k in web ==> TotalRight(WebPlaces(items), Unordered(web), k)
    requires forall k :: k in desktop ==> TotalRight(Places(items), desktop, k)
    ensures web.Keys == desktop.Keys
    ensures forall k :: k in web ==>
              && web[k].itemCount == desktop[k].itemCount && web[k].totalCount == desktop[k].totalCount
              && Elems(web[k].children) == desktop[k].children
    ensures CountLoose(WebPlaces(items)) == CountLoose(Places(items))
  {
    hide *;
    SamePlaces(items);
    var u := Unordered(web);
    UnorderedFields(web);
    SpecificationIsUnique(Places(items), u, desktop);
  }

  /**
    Both programs on the same items: on normalised paths of items that are not deleted they build the
    same folders with the same counts, totals and children, the same roots and the same loose count.
   */
  method BothTrees(items: seq<Summary>) returns (web: WebNodes, webRoots: seq<string>, webLoose: nat, desktop: Builder)
    requires AllNormal(items) && forall i :: 0 <= i < |items| ==> !items[i].deleted
    ensures fresh(desktop)
    ensures web.Keys == desktop.nodes.Keys && Elems(webRoots) == desktop.roots && webLoose == desktop.loose
    ensures forall k :: k in web ==>
              && web[k].itemCount == desktop.nodes[k].itemCount && web[k].totalCount == desktop.nodes[k].totalCount
              && Elems(web[k].children) == desktop.nodes[k].children
  {
    web, webRoots, webLoose := FolderTreeData(items);
    desktop := new Builder();
    desktop.Build(items);
    SamePlaces(items);
    hide *;
    BothRight(items, web, webRoots, desktop.nodes, desktop.roots);
  }

  lemma BothRight(items: seq<Summary>, web: WebNodes, webRoots: seq<string>, desktop: Nodes, roots: set<string>)
    requires AllNormal(items) && forall i :: 0 <= i < |items| ==> !items[i].deleted
    requires TreeRight(WebPlaces(items), web, webRoots) <==> AllProper(WebPlaces(items))
    requires Shaped(Places(items), desktop) && (forall k :: k in desktop ==> TotalRight(Places(items), desktop, k))
    requires ChildrenAre(roots, [], desktop.Keys)
    ensures web.Keys == desktop.Keys && Elems(webRoots) == roots
    ensures forall k :: k in web ==>
              && web[k].itemCount == desktop[k].itemCount && web[k].totalCount == desktop[k].totalCount
              && Elems(web[k].children) == desktop[k].children
  {
    SamePlaces(items);
    assert AllProper(Places(items));
    assert TreeRight(WebPlaces(items), web, webRoots);
    hide Shaped, TotalRight, Places, WebPlaces, AllProper, IsChildOf;
    FrontEndsAgree(items, web, desktop);
  }

  /** The specification leaves no freedom in folders, counts, totals and children. */
  lemma SpecificationIsUnique(places: seq<Place>, a: Nodes, b: Nodes)
    requires Shaped(places, a) && Shaped(places, b)
    requires forall k :: k in a ==> TotalRight(places, a, k)
    requires forall k :: k in b ==> TotalRight(places, b, k)
    ensures a.Keys == b.Keys
    ensures forall k :: k in a ==>
              a[k].itemCount == b[k].itemCount && a[k].totalCount == b[k].totalCount && a[k].children == b[k].children
  {
    hide IsFolder, CountIn, CountUnder, IsChildOf;
    assert a.Keys == b.Keys;
    forall k | k in a ensures a[k].children == b[k].children && a[k].totalCount == b[k].totalCount {
      assert TotalRight(places, a, k) && TotalRight(places, b, k);
      assert ChildrenAre(a[k].children, SplitOn(k), a.Keys) && ChildrenAre(b[k].children, SplitOn(k), a.Keys);
    }
  }

  // ----- names

  predicate Named(nodes: WebNodes) {
    forall k :: k in nodes ==> IsNameOf(k, nodes[k].name)
  }

  lemma {:induction false} FolderIsNamed(nodes: WebNodes, roots: seq<string>, f: seq<string>, j: nat)
    requires Named(nodes) && j <= |f| && forall x :: x in f ==> SlashFree(x)
    ensures Named(EnterUpTo(nodes, roots, f, j).0)
    decreases j
  {
    if j > 0 {
      FolderIsNamed(nodes, roots, f, j - 1);
      var k, name := PathTo(f, j), f[j - 1];
      assert name in f;
      if k != name {
        assert k[|k| - |name| - 1..] == "/" + name;
      }
    }
  }

  lemma {:induction false} PlacesAreNamed(places: seq<Place>)
    requires SlashFreeParts(places)
    ensures Named(EnterPlaces(places).0)
    decreases |places|
  {
    if places != [] {
      var front, last := places[..|places| - 1], places[|places| - 1];
      PlacesAreNamed(front);
      if last.In? {
        hide Named;
        FolderIsNamed(EnterPlaces(front).0, EnterPlaces(front).1, last.folder, |last.folder|);
      }
    }
  }

  // ----- the order of the lists

  /** Some item lies under `a` before any lies under `b`. */
  predicate MetBefore(places: seq<Place>, a: string, b: string) {
    exists i :: 0 <= i < |places| && Under(places[i], SplitOn(a))
                && forall j :: 0 <= j <= i ==> !Under(places[j], SplitOn(b))
  }

  predicate InOrder(places: seq<Place>, s: seq<string>) {
    forall i, j :: 0 <= i < j < |s| ==> MetBefore(places, s[i], s[j])
  }

  predicate AllInOrder(places: seq<Place>, nodes: WebNodes, roots: seq<string>) {
    InOrder(places, roots) && forall k :: k in nodes ==> InOrder(places, nodes[k].children)
  }

  lemma StaysMet(places: seq<Place>, pl: Place, a: string, b: string)
    requires MetBefore(places, a, b)
    ensures MetBefore(places + [pl], a, b)
  {
    var i :| 0 <= i < |places| && Under(places[i], SplitOn(a))
             && forall j :: 0 <= j <= i ==> !Under(places[j], SplitOn(b));
    assert (places + [pl])[i] == places[i];
  }

  lemma StaysInOrder(places: seq<Place>, pl: Place, nodes: WebNodes, roots: seq<string>)
    requires AllInOrder(places, nodes, roots)
    ensures AllInOrder(places + [pl], nodes, roots)
  {
    hide MetBefore;
    forall a, b | MetBefore(places, a, b) ensures MetBefore(places + [pl], a, b) {
      StaysMet(places, pl, a, b);
    }
  }

  lemma NewIsLast(places: seq<Place>, pl: Place, known: string, k: string)
    requires IsFolder(places, known) && !IsFolder(places, k)
    ensures MetBefore(places + [pl], known, k)
  {
    var i :| 0 <= i < |places| && Under(places[i], SplitOn(known));
    assert (places + [pl])[i] == places[i];
    assert forall j :: 0 <= j <= i ==> (places + [pl])[j] == places[j];
  }

  lemma OneMoreInOrder(places: seq<Place>, s: seq<string>, k: string)
    requires InOrder(places, s) && forall q :: q in s ==> MetBefore(places, q, k)
    ensures InOrder(places, s + [k])
  {
    hide MetBefore;
    var more := s + [k];
    forall i, j | 0 <= i < j < |more| ensures MetBefore(places, more[i], more[j]) {
      assert more[i] == s[i] && s[i] in s;
    }
  }

  /** A child of the folder just passed was there before this item, if it is not the new one. */
  lemma SiblingIsOlder(nodes: WebNodes, f: seq<string>, j: nat, q: string)
    requires j < |f| && WellNamed(f) && q in nodes.Keys + PrefixNames(f, j) && IsChildOf(f[..j], q)
    ensures q in nodes
  {
    PrefixNamesAre(f, j, q);
    if q !in nodes {
      var m :| 1 <= m <= j && q == Join(f[..m]);
      SplitJoin(f[..m]);
      assert false;
    }
  }

  /** In the state before a new node is entered: where it goes, and that all its siblings are older. */
  lemma SiblingsAreOlder(nodes: WebNodes, roots: seq<string>, f: seq<string>, j: nat)
    requires Forest(nodes, roots) && NoCounts(nodes) && j < |f| && WellNamed(f)
    ensures var (n, r) := EnterUpTo(nodes, roots, f, j);
            && (j == 0 ==> forall q :: q in r ==> q in nodes)
            && (j > 0 ==> PathTo(f, j) in n && forall q :: q in n[PathTo(f, j)].children ==> q in nodes)
  {
    var (n, r) := EnterUpTo(nodes, roots, f, j);
    EnterUpToIsForest(nodes, roots, f, j);
    PathIsJoin(f, j);
    hide EnterUpTo, PathTo;
    if j > 0 {
      SplitJoin(f[..j]);
      forall q | q in n[PathTo(f, j)].children ensures q in nodes {
        assert q in Elems(n[PathTo(f, j)].children);
        SiblingIsOlder(nodes, f, j, q);
      }
    } else {
      forall q | q in r ensures q in nodes {
        assert q in Elems(r);
        SiblingIsOlder(nodes, f, 0, q);
      }
    }
  }

  /** One item's folder: every list stays in order. */
  lemma {:induction false} FolderKeepsOrder(places: seq<Place>, pl: Place, nodes: WebNodes, roots: seq<string>,
                                            f: seq<string>, j: nat)
    requires j <= |f| && WellNamed(f) && Forest(nodes, roots) && NoCounts(nodes)
    requires forall k :: k in nodes <==> IsFolder(places, k)
    requires AllInOrder(places + [pl], nodes, roots)
    ensures var (n, r) := EnterUpTo(nodes, roots, f, j); AllInOrder(places + [pl], n, r)
    decreases j
  {
    hide Forest, NoCounts, InOrder, MetBefore, IsFolder, WellNamed, PathTo;
    if j > 0 {
      FolderKeepsOrder(places, pl, nodes, roots, f, j - 1);
      var (n, r) := EnterUpTo(nodes, roots, f, j - 1);
      EnterUpToIsForest(nodes, roots, f, j - 1);
      SiblingsAreOlder(nodes, roots, f, j - 1);
      var k := PathTo(f, j);
      var siblings := if j > 1 then n[PathTo(f, j - 1)].children else r;
      if k !in n {
        forall q | q in siblings ensures MetBefore(places + [pl], q, k) {
          NewIsLast(places, pl, q, k);
        }
        OneMoreInOrder(places + [pl], siblings, k);
        NothingInOrder(places + [pl]);
      }
    }
  }

  lemma NothingInOrder(places: seq<Place>)
    ensures InOrder(places, [])
  {
  }

  /** Roots and children are listed in the order in which the items first mention them. */
  lemma {:induction false} ListsAreInOrder(places: seq<Place>)
    requires AllProper(places)
    ensures AllInOrder(places, EnterPlaces(places).0, EnterPlaces(places).1)
    decreases |places|
  {
    if places != [] {
      var front, last := places[..|places| - 1], places[|places| - 1];
      assert places == front + [last] && Proper(last);
      assert forall i :: 0 <= i < |front| ==> front[i] == places[i];
      ListsAreInOrder(front);
      var (n, r) := EnterPlaces(front);
      StaysInOrder(front, last, n, r);
      EnterPlacesIsForest(front);
      forall k ensures k in n <==> IsFolder(front, k) {
        FolderNamesAre(front, k);
      }
      hide AllInOrder, Forest, NoCounts, IsFolder;
      if last.In? {
        FolderKeepsOrder(front, last, n, r, last.folder, |last.folder|);
      }
    }
  }

  lemma OrderKept(places: seq<Place>, a: WebNodes, b: WebNodes, roots: seq<string>)
    requires AllInOrder(places, a, roots) && a.Keys == b.Keys
    requires forall k :: k in a ==> b[k].children == a[k].children
    ensures AllInOrder(places, b, roots)
  {
    hide InOrder;
  }

  /** A deleted item is nowhere, one without a slash is loose, the others are where their path says. */
  lemma WebPlaceIs(item: Summary, f: seq<string>, name: string)
    requires f != [] && '/' !in name && forall x :: x in f ==> '/' !in x
    ensures item.deleted ==> WebPlace(item) == Blank
    ensures !item.deleted && '/' !in item.path ==> WebPlace(item) == Loose
    ensures !item.deleted && item.path == Join(f) + "/" + name ==> WebPlace(item) == In(f)
  {
    if '/' !in item.path {
      SplitSlashFree(item.path);
    }
    SplitConcat(Join(f), name);
    SplitJoin(f);
    SplitSlashFree(name);
  }
}
