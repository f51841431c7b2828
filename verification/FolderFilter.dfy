/**
  The folder filter of the item list (apps/kde/src/cxxqt.rs:2137-2190) and its agreement with the
  tree's totals.
 */
module FolderFilter {
  import opened Base
  import opened Paths
  import opened FolderCounts

  datatype CategoryFilter = CategoryFilter(isDeleted: Option<bool>, typeIds: Option<seq<string>>)

  const NO_FOLDER := "__no_folder__"
  const TRASH := "trash"

  predicate MatchesCategory(item: Summary, category: string, filter: Option<CategoryFilter>) {
    match filter
    case Some(f) =>
      && (f.isDeleted.Some? ==> f.isDeleted.value == item.deleted)
      && (f.typeIds.Some? ==> item.typeId in f.typeIds.value)
    case None => category == TRASH ==> item.deleted
  }

  predicate MatchesFolder(item: Summary, folder: string) {
    if folder == "" then true
    else if folder == NO_FOLDER then SLASH !in item.path
    else match RSplitOnce(item.path)
      case None => false
      case Some((dir, _)) => dir == folder || folder + [SLASH] <= dir
  }

  /** `item_matches_filters`. */
  predicate MatchesFilters(item: Summary, category: string, filter: Option<CategoryFilter>, folder: string) {
    MatchesCategory(item, category, filter) && MatchesFolder(item, folder)
  }

  /** `rebuild_filtered_items`: exactly the matching positions, in order. */
  method RebuildFilteredItems(items: seq<Summary>, category: string, filter: Option<CategoryFilter>, folder: string)
    returns (indices: seq<nat>)
    ensures forall i, j :: 0 <= i < j < |indices| ==> indices[i] < indices[j]
    ensures forall n: nat :: n in indices <==> n < |items| && MatchesFilters(items[n], category, filter, folder)
    ensures |indices| == CountKept(items, category, filter, folder)
  {
    indices := [];
    for idx := 0 to |items|
      invariant forall i, j :: 0 <= i < j < |indices| ==> indices[i] < indices[j]
      invariant forall n: nat :: n in indices <==> n < idx && MatchesFilters(items[n], category, filter, folder)
      invariant |indices| == CountKept(items[..idx], category, filter, folder)
    {
      assert items[..idx + 1][..idx] == items[..idx];
      if MatchesFilters(items[idx], category, filter, folder) {
        assert forall i :: 0 <= i < |indices| ==> indices[i] in indices;
        indices := indices + [idx];
      }
    }
    assert items[..|items|] == items;
  }

  function CountKept(items: seq<Summary>, category: string, filter: Option<CategoryFilter>, folder: string): nat
    decreases |items|
  {
    if items == [] then 0
    else
      CountKept(items[..|items| - 1], category, filter, folder)
      + (if MatchesFilters(items[|items| - 1], category, filter, folder) then 1 else 0)
  }

  /** A stored path: trimmed, without empty parts. */
  predicate Normal(path: string) {
    path != "" && Trim(path) == path && "" !in SplitOn(path)
  }

  predicate AllNormal(items: seq<Summary>) {
    forall i :: 0 <= i < |items| ==> Normal(items[i].path)
  }

  lemma NormalPlace(item: Summary)
    requires Normal(item.path)
    ensures var parts := SplitOn(item.path);
            PlaceOf(item) == if |parts| < 2 then Loose else In(parts[..|parts| - 1])
  {
    DropEmptyKeepsFull(SplitOn(item.path));
  }

  /** On a normal path the string test of the filter is the prefix test of the tree. */
  lemma FilterIsUnder(item: Summary, folder: string)
    requires Normal(item.path)
    ensures folder != "" && folder != NO_FOLDER ==>
              (MatchesFolder(item, folder) <==> Under(PlaceOf(item), SplitOn(folder)))
    ensures MatchesFolder(item, NO_FOLDER) <==> PlaceOf(item).Loose?
  {
    NormalPlace(item);
    RSplitIsInit(item.path);
    SplitLength(item.path);
    match RSplitOnce(item.path)
    case None =>
    case Some((dir, name)) =>
      assert SplitOn(item.path)[..|SplitOn(item.path)| - 1] == SplitOn(dir);
      InsideIsPrefix(dir, folder);
  }

  /**
    Filter and tree agree: with no category filter, the number of items kept for a folder is the
    tree's total of that folder, and the number kept for "no folder" is the tree's loose count.
   */
  lemma {:induction false} FilterAgreesWithTree(items: seq<Summary>, folder: string, category: string)
    requires AllNormal(items) && category != TRASH
    ensures folder != "" && folder != NO_FOLDER ==>
              CountKept(items, category, None, folder) == CountUnder(Places(items), SplitOn(folder))
    ensures CountKept(items, category, None, NO_FOLDER) == CountLoose(Places(items))
    decreases |items|
  {
    if items != [] {
      var n := |items| - 1;
      FilterAgreesWithTree(items[..n], folder, category);
      assert Places(items)[..n] == Places(items[..n]);
      FilterIsUnder(items[n], folder);
    }
  }

  /**
    A real folder may bear the name of the "no folder" marker. The tree counts what lies in it,
    while selecting it keeps none of it, whatever else is in the list.
   */
  lemma MarkerNamedFolder(items: seq<Summary>, n: nat, category: string)
    requires AllNormal(items) && n < |items| && Under(PlaceOf(items[n]), SplitOn(NO_FOLDER))
    ensures CountUnder(Places(items), SplitOn(NO_FOLDER)) > 0
    ensures !MatchesFilters(items[n], category, None, NO_FOLDER)
  {
    FilterIsUnder(items[n], NO_FOLDER);
    UnderIsCounted(Places(items), n, SplitOn(NO_FOLDER));
  }

  /** The filter keeps as many items as the tree counts, on every list. */
  ghost predicate Selectable(folder: string, category: string) {
    forall items: seq<Summary> :: AllNormal(items) ==>
      CountKept(items, category, None, folder) == CountUnder(Places(items), SplitOn(folder))
  }

  /** An item directly in a folder with a one-part name. */
  lemma InFolder(item: Summary, folder: string, name: string)
    requires item.path == folder + [SLASH] + name && SlashFree(folder) && SlashFree(name)
    requires folder != "" && !IsSpace(folder[0]) && name != "" && !IsSpace(name[|name| - 1])
    ensures Normal(item.path) && PlaceOf(item) == In([folder]) && SplitOn(folder) == [folder]
  {
    SplitConcat(folder, name);
    SplitSlashFree(folder);
    SplitSlashFree(name);
    hide SplitOn;
    assert SplitOn(item.path) == [folder, name];
    assert item.path[0] == folder[0] && item.path[|item.path| - 1] == name[|name| - 1];
    assert TrimStart(item.path) == item.path;
    NormalPlace(item);
    assert [folder, name][..1] == [folder];
  }

  lemma MarkerIsPlain()
    ensures SlashFree(NO_FOLDER) && NO_FOLDER != "" && !IsSpace(NO_FOLDER[0])
    ensures SlashFree("x") && !IsSpace("x"[0])
  {
  }

  /** A list of one item that is not kept. */
  lemma NoneKept(item: Summary, category: string, folder: string)
    requires !MatchesFilters(item, category, None, folder)
    ensures CountKept([item], category, None, folder) == 0
  {
    hide MatchesFilters;
    assert [item][..0] == [];
    assert CountKept([item][..0], category, None, folder) == 0;
  }

  lemma OthersAreSelectable(folder: string, category: string)
    requires folder != "" && category != TRASH && folder != NO_FOLDER
    ensures Selectable(folder, category)
  {
    hide CountKept, CountUnder, Places, SplitOn, AllNormal;
    forall items: seq<Summary> | AllNormal(items)
      ensures CountKept(items, category, None, folder) == CountUnder(Places(items), SplitOn(folder))
    {
      FilterAgreesWithTree(items, folder, category);
    }
  }

  /** One item in a folder named like the marker: the tree counts it, the filter does not keep it. */
  lemma MarkerCounts(item: Summary, category: string)
    requires Normal(item.path) && PlaceOf(item) == In([NO_FOLDER]) && SplitOn(NO_FOLDER) == [NO_FOLDER]
    ensures AllNormal([item])
    ensures CountKept([item], category, None, NO_FOLDER) != CountUnder(Places([item]), SplitOn(NO_FOLDER))
  {
    hide Normal, PlaceOf, SplitOn, MatchesFilters, CountKept, CountUnder, Places;
    MarkerNamedFolder([item], 0, category);
    NoneKept(item, category, NO_FOLDER);
  }

  lemma MarkerIsNotSelectable(category: string)
    ensures !Selectable(NO_FOLDER, category)
  {
    MarkerIsPlain();
    hide IsSpace, SlashFree, Normal, PlaceOf, SplitOn, MatchesFilters, CountKept, CountUnder, Places, AllNormal;
    var item := Summary(NO_FOLDER + [SLASH] + "x", false, "");
    InFolder(item, NO_FOLDER, "x");
    MarkerCounts(item, category);
  }

  /** A folder can be selected, on every list of items, if and only if it is not named like the marker. */
  lemma SelectableIff(folder: string, category: string)
    requires folder != "" && category != TRASH
    ensures Selectable(folder, category) <==> folder != NO_FOLDER
  {
    hide Selectable;
    if folder != NO_FOLDER {
      OthersAreSelectable(folder, category);
    } else {
      MarkerIsNotSelectable(category);
    }
  }

  lemma {:induction false} UnderIsCounted(places: seq<Place>, n: nat, p: seq<string>)
    requires n < |places| && Under(places[n], p)
    ensures CountUnder(places, p) > 0
    decreases |places|
  {
    var last := |places| - 1;
    if n < last {
      UnderIsCounted(places[..last], n, p);
    }
  }

  // ----- the filter without its parts

  /** A prefix that ends in a slash ends at the last slash or before it. */
  lemma EndsBeforeName(folder: string, dir: string, name: string)
    requires SlashFree(name)
    ensures folder + "/" <= dir + "/" + name <==> dir == folder || folder + "/" <= dir
  {
    var path, n := dir + "/" + name, |folder|;
    assert path[..|dir|] == dir && path[|dir|] == '/' && path[|dir| + 1..] == name;
    assert folder + "/" <= path <==> n < |path| && path[..n] == folder && path[n] == '/';
    assert folder + "/" <= dir <==> n < |dir| && dir[..n] == folder && dir[n] == '/';
    if |dir| < n < |path| {
      assert path[n] == name[n - |dir| - 1] && path[n] in name;
    } else if n < |dir| {
      assert path[..n] == dir[..n] && path[n] == dir[n];
    }
  }

  /** Selecting a folder keeps exactly the items whose path starts with it and a slash. */
  lemma FolderIsPrefix(item: Summary, folder: string)
    requires folder != "" && folder != "__no_folder__"
    ensures MatchesFolder(item, folder) <==> folder + "/" <= item.path
  {
    if folder + "/" <= item.path {
      assert item.path[|folder|] == '/';
    }
    match RSplitOnce(item.path)
    case None =>
    case Some((dir, name)) =>
      assert item.path == dir + "/" + name;
      EndsBeforeName(folder, dir, name);
  }

  /**
    The whole filter. A category's own conditions replace the trash rule: the deletion mark it asks for, and one
    of its types. The folder is a prefix of the path, the marker stands for paths without a slash.
   */
  lemma FilterKeeps(item: Summary, category: string, filter: Option<CategoryFilter>, folder: string)
    ensures MatchesFilters(item, category, filter, folder) <==>
            && (filter == None ==> category != "trash" || item.deleted)
            && (filter.Some? ==>
                  && (filter.value.isDeleted == None || filter.value.isDeleted == Some(item.deleted))
                  && (filter.value.typeIds == None || item.typeId in filter.value.typeIds.value))
            && (folder == "" || (if folder == "__no_folder__" then '/' !in item.path else folder + "/" <= item.path))
  {
    if folder != "" && folder != "__no_folder__" {
      FolderIsPrefix(item, folder);
    }
  }
}
