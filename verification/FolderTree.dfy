/**
  The folder tree of the desktop shell, built in place as the source builds it
  (apps/kde/src/cxxqt.rs:2024-2108), against the plain counts of FolderCounts.
 */
module FolderTree {
  import opened Base
  import opened Paths
  import opened FolderCounts

  datatype FolderNode = FolderNode(
    name: string, path: string, itemCount: nat, totalCount: nat, children: set<string>)

  type Nodes = map<string, FolderNode>

  /** The tree has exactly the folders of the items, with their own counts and their children. */
  ghost predicate Shaped(places: seq<Place>, nodes: Nodes) {
    && (forall k :: k in nodes <==> IsFolder(places, k))
    && forall k :: k in nodes ==>
         && nodes[k].path == k
         && nodes[k].itemCount == CountIn(places, SplitOn(k))
         && ChildrenAre(nodes[k].children, SplitOn(k), nodes.Keys)
  }

  /** The name is what follows the last slash of the path, or the whole path if it has none. */
  predicate IsNameOf(path: string, name: string) {
    '/' !in name && (path == name || (|name| < |path| && path[|path| - |name| - 1..] == "/" + name))
  }

  lemma LastPartIsName(path: string)
    ensures IsNameOf(path, SplitOn(path)[|SplitOn(path)| - 1])
  {
    RSplitIsInit(path);
    match RSplitOnce(path)
    case None =>
    case Some((a, b)) =>
      assert SplitOn(path)[|SplitOn(path)| - 1] == b;
      assert path[|path| - |b| - 1..] == "/" + b;
  }

  /** The set holds the names one level below `p` among `names`. */
  ghost predicate ChildrenAre(children: set<string>, p: seq<string>, names: set<string>) {
    forall q :: q in children <==> q in names && IsChildOf(p, q)
  }

  predicate TotalRight(places: seq<Place>, nodes: Nodes, k: string)
    requires k in nodes
  {
    nodes[k].totalCount == CountUnder(places, SplitOn(k))
  }

  /** The totals of `path` and of everything below it are right. */
  predicate DoneUnder(places: seq<Place>, nodes: Nodes, path: string) {
    forall k :: k in nodes && SplitOn(path) <= SplitOn(k) ==> TotalRight(places, nodes, k)
  }

  /** Only `path` and what lies below it may differ. */
  predicate OnlyUnder(a: Nodes, b: Nodes, path: string) {
    forall k :: k in a && k in b && !(SplitOn(path) <= SplitOn(k)) ==> b[k] == a[k]
  }

  /** Equal up to totals. */
  predicate SameShape(a: Nodes, b: Nodes) {
    a.Keys == b.Keys && forall k :: k in a ==> b[k] == a[k].(totalCount := b[k].totalCount)
  }

  /** The folders an item contributes are the joined prefixes of its folder. */
  lemma PrefixKeys(f: seq<string>, k: string)
    requires f != [] && forall x :: x in f ==> SlashFree(x)
    ensures SplitOn(k) <= f <==> exists m :: 1 <= m <= |f| && k == Join(f[..m])
  {
    if SplitOn(k) <= f {
      var m := |SplitOn(k)|;
      assert SplitOn(k) == f[..m];
      JoinSplit(k);
    }
    if exists m :: 1 <= m <= |f| && k == Join(f[..m]) {
      var m :| 1 <= m <= |f| && k == Join(f[..m]);
      SplitJoin(f[..m]);
    }
  }

  /** The joined prefixes of a folder up to a length. */
  function PrefixNames(f: seq<string>, j: nat): set<string>
    requires j <= |f|
  {
    if j == 0 then {} else PrefixNames(f, j - 1) + {Join(f[..j])}
  }

  lemma {:induction false} PrefixNamesAre(f: seq<string>, j: nat, k: string)
    requires j <= |f|
    ensures k in PrefixNames(f, j) <==> exists m :: 1 <= m <= j && k == Join(f[..m])
    decreases j
  {
    if j > 0 {
      PrefixNamesAre(f, j - 1, k);
    }
  }

  lemma AllPrefixNames(f: seq<string>, k: string)
    requires f != [] && forall x :: x in f ==> SlashFree(x)
    ensures k in PrefixNames(f, |f|) <==> SplitOn(k) <= f
  {
    PrefixNamesAre(f, |f|, k);
    PrefixKeys(f, k);
  }

  /** All folders of a list of places, by joined path. */
  function FolderNames(places: seq<Place>): set<string>
    decreases |places|
  {
    if places == [] then {}
    else
      var last := places[|places| - 1];
      FolderNames(places[..|places| - 1]) + (if last.In? then PrefixNames(last.folder, |last.folder|) else {})
  }

  lemma {:induction false} FolderNamesAre(places: seq<Place>, k: string)
    requires AllProper(places)
    ensures k in FolderNames(places) <==> IsFolder(places, k)
    decreases |places|
  {
    if places != [] {
      var n := |places| - 1;
      assert forall i :: 0 <= i < n ==> places[..n][i] == places[i];
      FolderNamesAre(places[..n], k);
      FoldersOneMore(places, n, k);
      assert places[..n + 1] == places;
      if places[n].In? {
        AllPrefixNames(places[n].folder, k);
      }
    }
  }

  /** Items per folder path, as the source's map counts them. */
  function OwnCounts(places: seq<Place>): map<string, nat>
    decreases |places|
  {
    if places == [] then map[]
    else
      var last := places[|places| - 1];
      var front := OwnCounts(places[..|places| - 1]);
      if last.In? then Bump(front, Join(last.folder)) else front
  }

  function Bump(counts: map<string, nat>, key: string): map<string, nat> {
    counts[key := (if key in counts then counts[key] else 0) + 1]
  }

  lemma PlacesOneMore(places: seq<Place>, n: nat)
    requires n < |places|
    ensures FolderNames(places[..n + 1])
            == FolderNames(places[..n])
               + (if places[n].In? then PrefixNames(places[n].folder, |places[n].folder|) else {})
    ensures OwnCounts(places[..n + 1])
            == if places[n].In? then Bump(OwnCounts(places[..n]), Join(places[n].folder)) else OwnCounts(places[..n])
  {
    assert places[..n + 1][..n] == places[..n];
  }

  lemma {:induction false} OwnCountsAre(places: seq<Place>, k: string)
    requires AllProper(places)
    ensures CountIn(places, SplitOn(k)) == if k in OwnCounts(places) then OwnCounts(places)[k] else 0
    decreases |places|
  {
    if places != [] {
      var n := |places| - 1;
      assert forall i :: 0 <= i < n ==> places[..n][i] == places[i];
      OwnCountsAre(places[..n], k);
      assert places[..n] + [places[n]] == places;
      UnderOneMore(places[..n], places[n], SplitOn(k));
      if places[n].In? {
        KeyOf(places[n].folder, k);
      }
    }
  }

  /** Growing the joined path by one segment. */
  lemma JoinGrows(f: seq<string>, j: nat)
    requires j < |f| && WellNamed(f)
    ensures j == 0 ==> Join(f[..0]) == "" && Join(f[..1]) == f[0]
    ensures j > 0 ==> Join(f[..j]) != "" && Join(f[..j + 1]) == Join(f[..j]) + [SLASH] + f[j]
  {
    if j > 0 {
      assert f[..j + 1] == f[..j] + [f[j]];
      JoinConcat(f[..j], [f[j]]);
      assert f[..j][0] == f[0];
    }
  }

  /** A key's parent by string is the key one level up. */
  lemma ParentIff(k: string, q: string)
    ensures IsChildOf(SplitOn(k), q) <==> RSplitOnce(q).Some? && RSplitOnce(q).value.0 == k
    ensures IsChildOf([], q) <==> RSplitOnce(q).None?
  {
    RSplitParent(q);
    if IsChildOf(SplitOn(k), q) {
      assert SplitOn(q)[..|SplitOn(q)| - 1] == SplitOn(k);
      SplitInjective(RSplitOnce(q).value.0, k);
    }
  }

  /** Folders are closed upwards. */
  lemma PrefixIsFolder(places: seq<Place>, k: string, m: nat)
    requires IsFolder(places, k) && 1 <= m <= |SplitOn(k)|
    ensures IsFolder(places, Join(SplitOn(k)[..m]))
    ensures SplitOn(Join(SplitOn(k)[..m])) == SplitOn(k)[..m]
  {
    var i :| 0 <= i < |places| && Under(places[i], SplitOn(k));
    PartsAreSlashFree(k);
    SplitJoin(SplitOn(k)[..m]);
    assert Under(places[i], SplitOn(k)[..m]);
  }

  lemma ShapedKids(places: seq<Place>, nodes: Nodes, p: seq<string>, kids: set<string>)
    requires AllProper(places)
    requires forall k :: k in nodes <==> IsFolder(places, k)
    requires ChildrenAre(kids, p, nodes.Keys)
    ensures Kids(places, p, kids)
  {
    forall i | 0 <= i < |places| && places[i].In? && p < places[i].folder
      ensures Join(places[i].folder[..|p| + 1]) in kids
    {
      var way := places[i].folder[..|p| + 1];
      SplitJoin(way);
      assert Under(places[i], SplitOn(Join(way)));
    }
  }

  /** How deep the folders go. */
  ghost function MaxDepth(places: seq<Place>): nat
    decreases |places|
  {
    if places == [] then 0
    else
      var last := places[|places| - 1];
      var d := if last.In? then |last.folder| else 0;
      var front := MaxDepth(places[..|places| - 1]);
      if d >= front then d else front
  }

  lemma {:induction false} DepthBounded(places: seq<Place>, k: string)
    requires IsFolder(places, k)
    ensures |SplitOn(k)| <= MaxDepth(places)
    decreases |places|
  {
    var i :| 0 <= i < |places| && Under(places[i], SplitOn(k));
    if i < |places| - 1 {
      assert places[..|places| - 1][i] == places[i];
      DepthBounded(places[..|places| - 1], k);
    }
  }

  /** Folders of a list with one more item. */
  lemma FoldersOneMore(places: seq<Place>, n: nat, k: string)
    requires n < |places|
    ensures IsFolder(places[..n + 1], k) <==> IsFolder(places[..n], k) || Under(places[n], SplitOn(k))
  {
    var more := places[..n + 1];
    if IsFolder(places[..n], k) {
      var i :| 0 <= i < n && Under(places[..n][i], SplitOn(k));
      assert more[i] == places[..n][i];
    }
    assert more[n] == places[n];
    if IsFolder(more, k) && !Under(places[n], SplitOn(k)) {
      var i :| 0 <= i < |more| && Under(more[i], SplitOn(k));
      assert places[..n][i] == more[i];
    }
  }

  /** Between a folder and one below it lies a child of the first. */
  lemma ChildAbove(places: seq<Place>, nodes: Nodes, path: string, k: string)
    requires Shaped(places, nodes) && path in nodes && k in nodes
    requires k != path && SplitOn(path) <= SplitOn(k)
    ensures exists c :: c in nodes[path].children && SplitOn(c) <= SplitOn(k)
  {
    var m := |SplitOn(path)| + 1;
    if |SplitOn(k)| < m {
      assert SplitOn(k) == SplitOn(path);
      SplitInjective(k, path);
    }
    PrefixIsFolder(places, k, m);
    assert Join(SplitOn(k)[..m]) in nodes[path].children;
  }

  lemma RootAbove(places: seq<Place>, nodes: Nodes, roots: set<string>, k: string)
    requires Shaped(places, nodes) && k in nodes && ChildrenAre(roots, [], nodes.Keys)
    ensures exists r :: r in roots && SplitOn(r) <= SplitOn(k)
  {
    PrefixIsFolder(places, k, 1);
    assert Join(SplitOn(k)[..1]) in roots;
  }

  lemma ShapeKept(places: seq<Place>, a: Nodes, b: Nodes)
    requires Shaped(places, a) && SameShape(a, b)
    ensures Shaped(places, b)
  {
  }

  /** Totalling one subtree does not undo another. */
  lemma StaysDone(places: seq<Place>, a: Nodes, b: Nodes, child: string, c: string)
    requires a.Keys == b.Keys && DoneUnder(places, a, c)
    requires DoneUnder(places, b, child) && OnlyUnder(a, b, child)
    ensures DoneUnder(places, b, c)
  {
    forall k | k in b && SplitOn(c) <= SplitOn(k) ensures TotalRight(places, b, k) {
      if !(SplitOn(child) <= SplitOn(k)) {
        assert TotalRight(places, a, k);
      }
    }
  }

  lemma OnlyDeeper(a: Nodes, b: Nodes, c: Nodes, path: string, child: string)
    requires SameShape(a, b) && SameShape(b, c)
    requires OnlyUnder(a, b, path) && OnlyUnder(b, c, child) && SplitOn(path) <= SplitOn(child)
    ensures OnlyUnder(a, c, path)
  {
  }

  /** Where one path goes. */
  function LinkOne(nodes: Nodes, roots: set<string>, path: string): (Nodes, set<string>) {
    match RSplitOnce(path)
    case Some((parent, _)) =>
      (if parent in nodes then nodes[parent := nodes[parent].(children := nodes[parent].children + {path})] else nodes,
       roots)
    case None => (nodes, roots + {path})
  }

  /** The paths in `done` have been entered. */
  ghost predicate Linked(start: Nodes, nodes: Nodes, roots: set<string>, done: set<string>) {
    && nodes.Keys == start.Keys
    && (forall k :: k in start ==> nodes[k] == start[k].(children := nodes[k].children))
    && (forall k :: k in start ==> ChildrenAre(nodes[k].children, SplitOn(k), done))
    && ChildrenAre(roots, [], done)
  }

  lemma ChildrenGrow(children: set<string>, p: seq<string>, done: set<string>, path: string)
    requires ChildrenAre(children, p, done)
    ensures ChildrenAre(if IsChildOf(p, path) then children + {path} else children, p, done + {path})
  {
  }

  lemma LinkStep(start: Nodes, nodes: Nodes, roots: set<string>, done: set<string>, path: string)
    requires Linked(start, nodes, roots, done)
    ensures var (n, r) := LinkOne(nodes, roots, path); Linked(start, n, r, done + {path})
  {
    var (n, r) := LinkOne(nodes, roots, path);
    ParentIff(path, path);
    ChildrenGrow(roots, [], done, path);
    forall k | k in start ensures ChildrenAre(n[k].children, SplitOn(k), done + {path}) {
      ParentIff(k, path);
      ChildrenGrow(nodes[k].children, SplitOn(k), done, path);
    }
  }

  /** The children of `path` outside `rest` are totalled. */
  ghost predicate Progress(places: seq<Place>, start: Nodes, nodes: Nodes, path: string, rest: set<string>, total: nat)
    requires path in start
  {
    && SameShape(start, nodes)
    && Summed(places, path, start[path].children - rest, total)
    && AllDone(places, nodes, start[path].children - rest)
    && OnlyUnder(start, nodes, path)
  }

  ghost predicate Summed(places: seq<Place>, path: string, done: set<string>, total: nat) {
    total == CountIn(places, SplitOn(path)) + Sum(done, Totals(places))
  }

  predicate AllDone(places: seq<Place>, nodes: Nodes, done: set<string>) {
    forall c :: c in done ==> DoneUnder(places, nodes, c)
  }

  lemma SameShapeTrans(a: Nodes, b: Nodes, c: Nodes)
    requires SameShape(a, b) && SameShape(b, c)
    ensures SameShape(a, c)
  {
  }

  lemma ProgressStart(places: seq<Place>, nodes: Nodes, path: string)
    requires Shaped(places, nodes) && path in nodes
    ensures Progress(places, nodes, nodes, path, nodes[path].children, nodes[path].itemCount)
  {
    assert nodes[path].children - nodes[path].children == {};
  }

  lemma ProgressStep(places: seq<Place>, start: Nodes, a: Nodes, b: Nodes, path: string, rest: set<string>,
                     total: nat, child: string, sub: nat)
    requires path in start && child in rest && rest <= start[path].children && SplitOn(path) <= SplitOn(child)
    requires Progress(places, start, a, path, rest, total)
    requires SameShape(a, b) && DoneUnder(places, b, child) && OnlyUnder(a, b, child)
    requires sub == CountUnder(places, SplitOn(child))
    ensures Progress(places, start, b, path, rest - {child}, total + sub)
  {
    var children := start[path].children;
    hide SameShape, Summed, AllDone, OnlyUnder, DoneUnder, SplitOn, CountUnder;
    assert children - (rest - {child}) == children - rest + {child};
    SumOneMore(places, path, children - rest, total, child);
    DoneOneMore(places, a, b, child, children - rest);
    SameShapeTrans(start, a, b);
    OnlyDeeper(start, a, b, path, child);
  }

  lemma ChildIsDeeper(places: seq<Place>, nodes: Nodes, path: string, child: string)
    requires Shaped(places, nodes) && path in nodes && child in nodes[path].children
    ensures SplitOn(path) <= SplitOn(child)
  {
    assert IsChildOf(SplitOn(path), child);
  }

  lemma SumOneMore(places: seq<Place>, path: string, done: set<string>, total: nat, child: string)
    requires Summed(places, path, done, total) && child !in done
    ensures Summed(places, path, done + {child}, total + CountUnder(places, SplitOn(child)))
  {
    assert done + {child} - {child} == done;
    SumTake(done + {child}, Totals(places), child);
  }

  lemma DoneOneMore(places: seq<Place>, a: Nodes, b: Nodes, child: string, done: set<string>)
    requires SameShape(a, b) && AllDone(places, a, done)
    requires DoneUnder(places, b, child) && OnlyUnder(a, b, child)
    ensures AllDone(places, b, done + {child})
  {
    forall c | c in done ensures DoneUnder(places, b, c) {
      StaysDone(places, a, b, child, c);
    }
  }

  lemma BelowIsDone(places: seq<Place>, nodes: Nodes, done: set<string>, k: string)
    requires AllDone(places, nodes, done)
    requires k in nodes && exists c :: c in done && SplitOn(c) <= SplitOn(k)
    ensures TotalRight(places, nodes, k)
  {
  }

  lemma ProgressTotal(places: seq<Place>, start: Nodes, nodes: Nodes, path: string, total: nat)
    requires AllProper(places) && Shaped(places, start) && path in start
    requires Progress(places, start, nodes, path, {}, total)
    ensures total == CountUnder(places, SplitOn(path))
  {
    var children := start[path].children;
    assert children - {} == children;
    ShapedKids(places, start, SplitOn(path), children);
    TotalIsSum(places, SplitOn(path), children);
  }

  /** With all children totalled, storing the own total finishes the subtree. */
  lemma StoreTotal(places: seq<Place>, nodes: Nodes, path: string, total: nat)
    requires Shaped(places, nodes) && path in nodes && total == CountUnder(places, SplitOn(path))
    requires AllDone(places, nodes, nodes[path].children)
    ensures DoneUnder(places, nodes[path := nodes[path].(totalCount := total)], path)
  {
    var end := nodes[path := nodes[path].(totalCount := total)];
    forall k | k in end && SplitOn(path) <= SplitOn(k) ensures TotalRight(places, end, k) {
      if k != path {
        ChildAbove(places, nodes, path, k);
        BelowIsDone(places, nodes, nodes[path].children, k);
      }
    }
  }

  lemma ProgressEnd(places: seq<Place>, start: Nodes, nodes: Nodes, path: string, total: nat)
    requires AllProper(places) && Shaped(places, start) && path in start
    requires Progress(places, start, nodes, path, {}, total)
    ensures total == CountUnder(places, SplitOn(path))
    ensures SameShape(start, nodes)
    ensures var end := nodes[path := nodes[path].(totalCount := total)];
            SameShape(start, end) && DoneUnder(places, end, path) && OnlyUnder(start, end, path)
  {
    ProgressTotal(places, start, nodes, path, total);
    ShapeKept(places, start, nodes);
    var end := nodes[path := nodes[path].(totalCount := total)];
    assert AllDone(places, nodes, nodes[path].children) by {
      assert start[path].children - {} == nodes[path].children;
    }
    StoreTotal(places, nodes, path, total);
    StoreIsLocal(start, nodes, path, total);
  }

  lemma StoreIsLocal(start: Nodes, nodes: Nodes, path: string, total: nat)
    requires SameShape(start, nodes) && path in nodes && OnlyUnder(start, nodes, path)
    ensures var end := nodes[path := nodes[path].(totalCount := total)];
            SameShape(start, end) && OnlyUnder(start, end, path)
  {
  }

  /** Linked nodes over exact folder paths and counts are the shape wanted. */
  lemma LinkedIsShaped(places: seq<Place>, start: Nodes, nodes: Nodes, roots: set<string>, counts: map<string, nat>)
    requires Linked(start, nodes, roots, start.Keys)
    requires forall k :: k in start <==> IsFolder(places, k)
    requires forall k :: CountIn(places, SplitOn(k)) == if k in counts then counts[k] else 0
    requires forall k :: k in start ==> start[k].path == k && start[k].itemCount == if k in counts then counts[k] else 0
    ensures Shaped(places, nodes) && ChildrenAre(roots, [], nodes.Keys)
  {
  }

  lemma RootDone(places: seq<Place>, start: Nodes, a: Nodes, b: Nodes, root: string, roots: set<string>,
                 rest: set<string>)
    requires SameShape(start, a) && SameShape(a, b) && root in rest && rest <= roots
    requires AllDone(places, a, roots - rest)
    requires DoneUnder(places, b, root) && OnlyUnder(a, b, root)
    ensures SameShape(start, b)
    ensures AllDone(places, b, roots - (rest - {root}))
  {
    hide DoneUnder, OnlyUnder, AllDone, SameShape;
    SameShapeTrans(start, a, b);
    DoneOneMore(places, a, b, root, roots - rest);
    assert roots - (rest - {root}) == roots - rest + {root};
  }

  lemma RootsDone(places: seq<Place>, nodes: Nodes, roots: set<string>)
    requires Shaped(places, nodes) && ChildrenAre(roots, [], nodes.Keys)
    requires AllDone(places, nodes, roots)
    ensures forall k :: k in nodes ==> TotalRight(places, nodes, k)
  {
    forall k | k in nodes ensures TotalRight(places, nodes, k) {
      RootAbove(places, nodes, roots, k);
      BelowIsDone(places, nodes, roots, k);
    }
  }

  /** The totals of all roots together with the loose items are all items that have a path. */
  lemma RootsCoverAll(places: seq<Place>, nodes: Nodes, roots: set<string>)
    requires AllProper(places) && Shaped(places, nodes) && ChildrenAre(roots, [], nodes.Keys)
    ensures Sum(roots, Totals(places)) + CountLoose(places) == CountPlaced(places)
  {
    ShapedKids(places, nodes, [], roots);
    TotalIsSum(places, [], roots);
    NoItemInRoot(places);
    FolderedPlusLoose(places);
  }

  lemma LooseOneMore(places: seq<Place>, n: nat)
    requires n < |places|
    ensures CountLoose(places[..n + 1]) == CountLoose(places[..n]) + (if places[n].Loose? then 1 else 0)
  {
    assert places[..n + 1][..n] == places[..n];
  }

  /** A folder's joined path is the one key that splits into its segments. */
  lemma KeyOf(folder: seq<string>, k: string)
    requires folder != [] && forall x :: x in folder ==> SlashFree(x)
    ensures k == Join(folder) <==> SplitOn(k) == folder
  {
    SplitJoin(folder);
    JoinSplit(k);
  }

  lemma NamesKept(a: Nodes, b: Nodes)
    requires a.Keys == b.Keys && forall k :: k in a ==> IsNameOf(k, a[k].name)
    requires forall k :: k in a ==> b[k].name == a[k].name
    ensures forall k :: k in b ==> IsNameOf(k, b[k].name)
  {
  }

  class Builder {
    var nodes: Nodes
    var roots: set<string>
    var loose: nat

    constructor ()
      ensures nodes == map[] && roots == {} && loose == 0
    {
      nodes, roots, loose := map[], {}, 0;
    }

    /** Every prefix of one item's folder joins the folder paths. */
    method AddPrefixes(before: set<string>, f: seq<string>) returns (paths: set<string>)
      requires WellNamed(f)
      ensures paths == before + PrefixNames(f, |f|)
    {
      paths := before;
      var current := "";
      for j := 0 to |f|
        invariant current == Join(f[..j])
        invariant paths == before + PrefixNames(f, j)
      {
        JoinGrows(f, j);
        if current != "" {
          current := current + [SLASH];
        }
        current := current + f[j];
        paths := paths + {current};
      }
    }

    /** The pass over the items. */
    method Scan(items: seq<Summary>) returns (paths: set<string>, counts: map<string, nat>)
      modifies this`loose
      ensures paths == FolderNames(Places(items)) && counts == OwnCounts(Places(items))
      ensures loose == CountLoose(Places(items))
    {
      ghost var places := Places(items);
      paths, counts, loose := {}, map[], 0;
      for n := 0 to |items|
        invariant paths == FolderNames(places[..n]) && counts == OwnCounts(places[..n])
        invariant loose == CountLoose(places[..n])
      {
        PlacesOneMore(places, n);
        LooseOneMore(places, n);
        match PlaceOf(items[n]) {
          case Blank =>
          case Loose =>
            loose := loose + 1;
          case In(folder) =>
            paths := AddPrefixes(paths, folder);
            counts := Bump(counts, Join(folder));
        }
      }
      assert places[..|items|] == places;
    }

    /** One node per folder path, without children and totals yet. */
    method MakeNodes(paths: set<string>, counts: map<string, nat>)
      modifies this`nodes
      ensures nodes.Keys == paths
      ensures forall k :: k in paths ==>
                nodes[k] == FolderNode(SplitOn(k)[|SplitOn(k)| - 1], k, if k in counts then counts[k] else 0, 0, {})
      ensures forall k :: k in paths ==> IsNameOf(k, nodes[k].name)
    {
      nodes := map[];
      var rest := paths;
      while rest != {}
        invariant rest <= paths && nodes.Keys == paths - rest
        invariant forall k :: k in nodes ==>
                    nodes[k] == FolderNode(SplitOn(k)[|SplitOn(k)| - 1], k, if k in counts then counts[k] else 0, 0, {})
        decreases rest
      {
        var path :| path in rest;
        var parts := SplitOn(path);
        nodes := nodes[path := FolderNode(parts[|parts| - 1], path, if path in counts then counts[path] else 0, 0, {})];
        rest := rest - {path};
      }
      forall k | k in paths ensures IsNameOf(k, nodes[k].name) {
        LastPartIsName(k);
      }
    }

    /** Each path is entered with its parent, or as a root. */
    method Link(paths: set<string>)
      requires nodes.Keys == paths && forall k :: k in paths ==> nodes[k].children == {}
      modifies this`nodes, this`roots
      ensures Linked(old(nodes), nodes, roots, paths)
    {
      roots := {};
      var rest := paths;
      while rest != {}
        invariant rest <= paths
        invariant Linked(old(nodes), nodes, roots, paths - rest)
        decreases rest
      {
        var path :| path in rest;
        LinkStep(old(nodes), nodes, roots, paths - rest, path);
        assert paths - (rest - {path}) == paths - rest + {path};
        match RSplitOnce(path) {
          case Some((parent, _)) =>
            if parent in nodes {
              nodes := nodes[parent := nodes[parent].(children := nodes[parent].children + {path})];
            }
          case None =>
            roots := roots + {path};
        }
        rest := rest - {path};
      }
      assert paths - rest == paths;
    }

    /**
      `compute_total`: it ends because children lie deeper, returns the number of items in the folder
      or below, and leaves every folder on the way down with the right total.
     */
    method ComputeTotal(ghost places: seq<Place>, path: string) returns (total: nat)
      requires AllProper(places) && Shaped(places, nodes) && path in nodes
      modifies this`nodes
      ensures total == CountUnder(places, SplitOn(path))
      ensures SameShape(old(nodes), nodes)
      ensures DoneUnder(places, nodes, path) && OnlyUnder(old(nodes), nodes, path)
      decreases MaxDepth(places) - |SplitOn(path)|
    {
      DepthBounded(places, path);
      total := nodes[path].itemCount;
      var rest := nodes[path].children;
      ProgressStart(places, nodes, path);
      while rest != {}
        invariant rest <= old(nodes)[path].children
        invariant Progress(places, old(nodes), nodes, path, rest, total)
        decreases rest
      {
        var child :| child in rest;
        ShapeKept(places, old(nodes), nodes);
        DepthBounded(places, child);
        ghost var before := nodes;
        var sub := ComputeTotal(places, child);
        ChildIsDeeper(places, old(nodes), path, child);
        ProgressStep(places, old(nodes), before, nodes, path, rest, total, child, sub);
        total, rest := total + sub, rest - {child};
      }
      ProgressEnd(places, old(nodes), nodes, path, total);
      nodes := nodes[path := nodes[path].(totalCount := total)];
    }

    /** `serialize_folders`, up to the rendering as JSON. */
    method Build(items: seq<Summary>)
      modifies this
      ensures Shaped(Places(items), nodes)
      ensures forall k :: k in nodes ==> TotalRight(Places(items), nodes, k)
      ensures ChildrenAre(roots, [], nodes.Keys)
      ensures forall k :: k in nodes ==> IsNameOf(k, nodes[k].name)
      ensures loose == CountLoose(Places(items))
      ensures Sum(roots, Totals(Places(items))) + loose == CountPlaced(Places(items))
    {
      ghost var places := Places(items);
      var paths, counts := Scan(items);
      MakeNodes(paths, counts);
      ghost var start := nodes;
      forall k
        ensures k in paths <==> IsFolder(places, k)
        ensures CountIn(places, SplitOn(k)) == if k in counts then counts[k] else 0
      {
        FolderNamesAre(places, k);
        OwnCountsAre(places, k);
      }
      Link(paths);
      LinkedIsShaped(places, start, nodes, roots, counts);
      NamesKept(start, nodes);
      ghost var linked := nodes;
      TotalRoots(places);
      NamesKept(linked, nodes);
      RootsCoverAll(places, nodes, roots);
    }

    /** `compute_total` on every root. */
    method TotalRoots(ghost places: seq<Place>)
      requires AllProper(places) && Shaped(places, nodes) && ChildrenAre(roots, [], nodes.Keys)
      modifies this`nodes
      ensures SameShape(old(nodes), nodes) && Shaped(places, nodes)
      ensures forall k :: k in nodes ==> TotalRight(places, nodes, k)
    {
      var rest := roots;
      while rest != {}
        invariant rest <= roots && SameShape(old(nodes), nodes)
        invariant AllDone(places, nodes, roots - rest)
        decreases rest
      {
        var root :| root in rest;
        ShapeKept(places, old(nodes), nodes);
        ghost var before := nodes;
        var _ := ComputeTotal(places, root);
        RootDone(places, old(nodes), before, nodes, root, roots, rest);
        rest := rest - {root};
      }
      ShapeKept(places, old(nodes), nodes);
      assert roots - rest == roots;
      RootsDone(places, nodes, roots);
    }
  }
}
