/**
  What the folder tree should say: plain counts over the item list. Paths are cleaned as the
  desktop shell does it (apps/kde/src/cxxqt.rs:2040-2062).
 */
module FolderCounts {
  import opened Base
  import opened Paths

  datatype Summary = Summary(path: string, deleted: bool, typeId: string)

  /** Where an item stands: nowhere, at the top, or in a folder given by its segments. */
  datatype Place = Blank | Loose | In(folder: seq<string>)

  /** A folder whose joined path does not start with a slash. */
  predicate WellNamed(f: seq<string>) {
    f != [] && (|f| == 1 || f[0] != "") && forall x :: x in f ==> SlashFree(x)
  }

  predicate Proper(pl: Place) {
    pl.In? ==> WellNamed(pl.folder)
  }

  predicate AllProper(places: seq<Place>) {
    forall i :: 0 <= i < |places| ==> Proper(places[i])
  }

  /** The non-empty parts of the trimmed path decide. */
  function PlaceOf(item: Summary): (r: Place)
    ensures Proper(r)
  {
    var path := Trim(item.path);
    PartsAreSlashFree(path);
    var segs := DropEmpty(SplitOn(path));
    assert forall x :: x in segs ==> x != "" && SlashFree(x);
    assert |segs| >= 2 ==> segs[0] in segs && forall x :: x in segs[..|segs| - 1] ==> x in segs;
    if path == "" then Blank else if |segs| < 2 then Loose else In(segs[..|segs| - 1])
  }

  function Places(items: seq<Summary>): (r: seq<Place>)
    ensures |r| == |items| && AllProper(r)
    ensures forall i :: 0 <= i < |items| ==> r[i] == PlaceOf(items[i])
  {
    seq(|items|, i requires 0 <= i < |items| => PlaceOf(items[i]))
  }

  /** The item lies in folder `p` or below it. */
  predicate Under(pl: Place, p: seq<string>) {
    pl.In? && p <= pl.folder
  }

  function Count(places: seq<Place>, keep: Place -> bool): (n: nat)
    decreases |places|
  {
    if places == [] then 0
    else Count(places[..|places| - 1], keep) + (if keep(places[|places| - 1]) then 1 else 0)
  }

  /** Items in `p` or below. */
  function CountUnder(places: seq<Place>, p: seq<string>): nat {
    Count(places, pl => Under(pl, p))
  }

  /** Items directly in `p`. */
  function CountIn(places: seq<Place>, p: seq<string>): nat {
    Count(places, pl => pl == In(p))
  }

  /** Items with a path but no folder. */
  function CountLoose(places: seq<Place>): nat {
    Count(places, (pl: Place) => pl.Loose?)
  }

  /** Items with a path. */
  function CountPlaced(places: seq<Place>): nat {
    Count(places, (pl: Place) => !pl.Blank?)
  }

  /** Some item lies in the folder named by the joined path `k`, or below it. */
  predicate IsFolder(places: seq<Place>, k: string) {
    exists i :: 0 <= i < |places| && Under(places[i], SplitOn(k))
  }

  /** `k` is one level below `p`. */
  predicate IsChildOf(p: seq<string>, k: string) {
    |SplitOn(k)| == |p| + 1 && p <= SplitOn(k)
  }

  lemma {:induction false} CountExtensional(places: seq<Place>, f: Place -> bool, g: Place -> bool)
    requires forall i :: i in places ==> f(i) == g(i)
    ensures Count(places, f) == Count(places, g)
    decreases |places|
  {
    if places != [] {
      assert places[|places| - 1] in places;
      CountExtensional(places[..|places| - 1], f, g);
    }
  }

  /** The sum of `f` over a finite set of names. */
  ghost function Sum(s: set<string>, f: string -> nat): nat
    decreases |s|
  {
    if s == {} then 0
    else
      var x :| x in s;
      f(x) + Sum(s - {x}, f)
  }

  /** Any element may be taken out first. */
  lemma {:induction false} SumTake(s: set<string>, f: string -> nat, x: string)
    requires x in s
    ensures Sum(s, f) == f(x) + Sum(s - {x}, f)
    decreases |s|
  {
    var y :| y in s && Sum(s, f) == f(y) + Sum(s - {y}, f);
    if y != x {
      SumTake(s - {y}, f, x);
      SumTake(s - {x}, f, y);
      assert s - {y} - {x} == s - {x} - {y};
    }
  }

  lemma {:induction false} SumExtensional(s: set<string>, f: string -> nat, g: string -> nat)
    requires forall x :: x in s ==> f(x) == g(x)
    ensures Sum(s, f) == Sum(s, g)
    decreases |s|
  {
    if s != {} {
      var x :| x in s;
      SumTake(s, f, x);
      SumTake(s, g, x);
      SumExtensional(s - {x}, f, g);
    }
  }

  /** Raising one summand by one raises the sum by one. */
  lemma SumBump(s: set<string>, f: string -> nat, g: string -> nat, x: string)
    requires x in s && g(x) == f(x) + 1
    requires forall y :: y in s && y != x ==> f(y) == g(y)
    ensures Sum(s, g) == Sum(s, f) + 1
  {
    SumTake(s, f, x);
    SumTake(s, g, x);
    SumExtensional(s - {x}, f, g);
  }

  /** `kids` holds the name of every child of `p` that some item lies under, and only children of `p`. */
  predicate Kids(places: seq<Place>, p: seq<string>, kids: set<string>) {
    && (forall k :: k in kids ==> IsChildOf(p, k))
    && (forall i :: 0 <= i < |places| && places[i].In? && p < places[i].folder ==>
          Join(places[i].folder[..|p| + 1]) in kids)
  }

  lemma ChildOnTheWay(p: seq<string>, f: seq<string>, k: string)
    requires p < f && forall x :: x in f ==> SlashFree(x)
    requires IsChildOf(p, k)
    ensures SplitOn(k) <= f <==> k == Join(f[..|p| + 1])
  {
    var q := f[..|p| + 1];
    SplitJoin(q);
    if SplitOn(k) <= f {
      assert SplitOn(k) == q;
      SplitInjective(k, Join(q));
    }
  }

  /** The totals of the folders by name. */
  function Totals(places: seq<Place>): string -> nat {
    k => CountUnder(places, SplitOn(k))
  }

  lemma UnderOneMore(places: seq<Place>, pl: Place, p: seq<string>)
    ensures CountUnder(places + [pl], p) == CountUnder(places, p) + (if Under(pl, p) then 1 else 0)
    ensures CountIn(places + [pl], p) == CountIn(places, p) + (if pl == In(p) then 1 else 0)
  {
    var more := places + [pl];
    assert more[..|places|] == places && more[|places|] == pl;
  }

  lemma TotalsOneMore(places: seq<Place>, pl: Place, p: seq<string>, kids: set<string>)
    requires Proper(pl) && Kids(places + [pl], p, kids)
    ensures Sum(kids, Totals(places + [pl]))
            == Sum(kids, Totals(places))
               + (if pl.In? && p < pl.folder then 1 else 0)
  {
    var more := places + [pl];
    assert more[|places|] == pl;
    forall k | k in kids
      ensures Totals(more)(k) == Totals(places)(k) + (if Under(pl, SplitOn(k)) then 1 else 0)
    {
      UnderOneMore(places, pl, SplitOn(k));
    }
    if pl.In? && p < pl.folder {
      var folder := pl.folder;
      var way := Join(folder[..|p| + 1]);
      forall k | k in kids ensures Under(pl, SplitOn(k)) <==> k == way {
        ChildOnTheWay(p, folder, k);
      }
      SumBump(kids, Totals(places), Totals(more), way);
    } else {
      forall k | k in kids ensures !Under(pl, SplitOn(k)) {
        assert |p| < |SplitOn(k)| && p <= SplitOn(k);
      }
      SumExtensional(kids, Totals(places), Totals(more));
    }
  }

  /** One more item raises the totals of `p` and of exactly one child, or of `p`'s own count. */
  lemma OneMoreItem(places: seq<Place>, pl: Place, p: seq<string>, kids: set<string>)
    requires Proper(pl) && Kids(places + [pl], p, kids)
    requires CountUnder(places, p) == CountIn(places, p) + Sum(kids, Totals(places))
    ensures var more := places + [pl];
            CountUnder(more, p) == CountIn(more, p) + Sum(kids, Totals(more))
  {
    UnderOneMore(places, pl, p);
    TotalsOneMore(places, pl, p, kids);
    ProperOrEqual(pl, p);
  }

  lemma ProperOrEqual(pl: Place, p: seq<string>)
    ensures Under(pl, p) <==> pl == In(p) || (pl.In? && p < pl.folder)
    ensures !(pl == In(p) && pl.In? && p < pl.folder)
  {
    if Under(pl, p) && |p| == |pl.folder| {
      assert p == pl.folder;
    }
  }

  /** The total of a folder is its own count plus the totals of its children. */
  lemma {:induction false} TotalIsSum(places: seq<Place>, p: seq<string>, kids: set<string>)
    requires AllProper(places) && Kids(places, p, kids)
    ensures CountUnder(places, p) == CountIn(places, p) + Sum(kids, Totals(places))
    decreases |places|
  {
    if places == [] {
      SumZero(kids, Totals(places));
    } else {
      var front, pl := places[..|places| - 1], places[|places| - 1];
      assert front + [pl] == places;
      assert forall i :: 0 <= i < |front| ==> front[i] == places[i];
      TotalIsSum(front, p, kids);
      OneMoreItem(front, pl, p, kids);
    }
  }

  lemma {:induction false} SumZero(s: set<string>, f: string -> nat)
    requires forall x :: x in s ==> f(x) == 0
    ensures Sum(s, f) == 0
    decreases |s|
  {
    if s != {} {
      var x :| x in s;
      SumTake(s, f, x);
      SumZero(s - {x}, f);
    }
  }

  /** Items with a folder and items without one make up all items that have a path. */
  lemma {:induction false} FolderedPlusLoose(places: seq<Place>)
    ensures CountUnder(places, []) + CountLoose(places) == CountPlaced(places)
    decreases |places|
  {
    if places != [] {
      FolderedPlusLoose(places[..|places| - 1]);
    }
  }

  lemma NoItemInRoot(places: seq<Place>)
    requires AllProper(places)
    ensures CountIn(places, []) == 0
  {
    CountExtensional(places, (x: Place) => x == In([]), (x: Place) => false);
    CountNothing(places);
  }

  lemma {:induction false} CountNothing(places: seq<Place>)
    ensures Count(places, (x: Place) => false) == 0
    decreases |places|
  {
    if places != [] {
      CountNothing(places[..|places| - 1]);
    }
  }

  // ----- what cleaning a path means

  predicate AllSpace(s: string) {
    forall i :: 0 <= i < |s| ==> IsSpace(s[i])
  }

  lemma {:induction false} TrimStartIs(a: string, t: string)
    requires AllSpace(a) && (t == "" || !IsSpace(t[0]))
    ensures TrimStart(a + t) == t
    decreases |a|
  {
    if a == "" {
      assert a + t == t;
    } else {
      assert (a + t)[1..] == a[1..] + t;
      TrimStartIs(a[1..], t);
    }
  }

  lemma {:induction false} TrimEndIs(t: string, b: string)
    requires AllSpace(b) && (t == "" || !IsSpace(t[|t| - 1]))
    ensures TrimEnd(t + b) == t
    decreases |b|
  {
    if b == "" {
      assert t + b == t;
    } else {
      assert (t + b)[..|t + b| - 1] == t + b[..|b| - 1];
      TrimEndIs(t, b[..|b| - 1]);
    }
  }

  /** Trimming takes off the space around a text that has none at its ends. */
  lemma TrimIs(a: string, t: string, b: string)
    requires AllSpace(a) && AllSpace(b) && t != "" && !IsSpace(t[0]) && !IsSpace(t[|t| - 1])
    ensures Trim(a + t + b) == t
  {
    assert a + t + b == a + (t + b);
    assert (t + b)[0] == t[0];
    TrimStartIs(a, t + b);
    TrimEndIs(t, b);
  }

  lemma {:induction false} DropEmptyConcat(x: seq<string>, y: seq<string>)
    ensures DropEmpty(x + y) == DropEmpty(x) + DropEmpty(y)
    decreases |x|
  {
    if x == [] {
      assert x + y == y;
    } else {
      assert (x + y)[1..] == x[1..] + y;
      DropEmptyConcat(x[1..], y);
    }
  }

  predicate FullNames(names: seq<string>) {
    names != [] && forall i :: 0 <= i < |names| ==> names[i] != "" && '/' !in names[i]
  }

  /** A text with slashes added at its ends splits into the same parts and some empty ones. */
  lemma PartsAndSlashes(lead: bool, names: seq<string>, trail: bool)
    requires FullNames(names)
    ensures var t := (if lead then "/" else "") + Join(names) + (if trail then "/" else "");
            DropEmpty(SplitOn(t)) == names
  {
    var body := Join(names);
    SplitJoin(names);
    DropEmptyKeepsFull(names);
    var front := (if lead then "/" else "") + body;
    if lead {
      SplitConcat("", body);
      assert front == "" + [SLASH] + body;
      assert SplitOn("") == [""];
      DropEmptyConcat([""], names);
    } else {
      assert front == body;
    }
    assert DropEmpty(SplitOn(front)) == names;
    if trail {
      SplitConcat(front, "");
      assert front + [SLASH] + "" == front + "/";
      DropEmptyConcat(SplitOn(front), [""]);
    } else {
      assert front + "" == front;
    }
  }

  /**
    Where a path puts an item: space around it and slashes at its ends do not matter, the last name is the item's
    own, and the names before it are its folder. A path of spaces puts it nowhere.
   */
  lemma PlaceIs(item: Summary, a: string, lead: bool, names: seq<string>, trail: bool, b: string)
    requires AllSpace(a) && AllSpace(b) && FullNames(names)
    requires lead || !IsSpace(names[0][0])
    requires trail || !IsSpace(names[|names| - 1][|names[|names| - 1]| - 1])
    ensures item.path == a + ((if lead then "/" else "") + Join(names) + (if trail then "/" else "")) + b ==>
              PlaceOf(item) == if |names| == 1 then Loose else In(names[..|names| - 1])
    ensures item.path == a ==> PlaceOf(item) == Blank
  {
    var body := Join(names);
    var t := (if lead then "/" else "") + body + (if trail then "/" else "");
    JoinEnds(names);
    assert t[0] == if lead then '/' else body[0];
    assert t[|t| - 1] == if trail then '/' else body[|body| - 1];
    PartsAndSlashes(lead, names, trail);
    TrimIs(a, t, b);
    if item.path == a {
      TrimStartIs(a, "");
      assert a + "" == a;
    }
  }

  lemma {:induction false} JoinEnds(names: seq<string>)
    requires FullNames(names)
    ensures var s, last := Join(names), names[|names| - 1];
            && s != "" && s[0] == names[0][0] && last != "" && s[|s| - 1] == last[|last| - 1]
    decreases |names|
  {
    if |names| > 1 {
      var rest := Join(names[1..]);
      JoinEnds(names[1..]);
      hide Join, FullNames;
      assert names[1..][|names| - 2] == names[|names| - 1];
      assert (names[0] + [SLASH] + rest)[|names[0]| + 1 + |rest| - 1] == rest[|rest| - 1];
    }
  }

  lemma {:induction false} TrimEndAfterSlash(x: string, y: string)
    ensures TrimEnd(x + "/" + y) == x + "/" + TrimEnd(y)
    decreases |y|
  {
    var s := x + "/" + y;
    if y == "" {
      assert s[|s| - 1] == '/';
    } else {
      assert s[|s| - 1] == y[|y| - 1] && s[..|s| - 1] == x + "/" + y[..|y| - 1];
      TrimEndAfterSlash(x, y[..|y| - 1]);
    }
  }

  lemma {:induction false} TrimStartBeforeSlash(x: string, y: string)
    ensures TrimStart(x + "/" + y) == TrimStart(x) + "/" + y
    decreases |x|
  {
    var s := x + "/" + y;
    if x == "" {
      assert s[0] == '/';
    } else {
      assert s[0] == x[0] && s[1..] == x[1..] + "/" + y;
      TrimStartBeforeSlash(x[1..], y);
    }
  }

  lemma SegmentsAroundSlash(x: string, y: string)
    ensures DropEmpty(SplitOn(Trim(x + "/" + y)))
            == DropEmpty(SplitOn(TrimStart(x))) + DropEmpty(SplitOn(TrimEnd(y)))
  {
    TrimStartBeforeSlash(x, y);
    TrimEndAfterSlash(TrimStart(x), y);
    SplitConcat(TrimStart(x), TrimEnd(y));
    DropEmptyConcat(SplitOn(TrimStart(x)), SplitOn(TrimEnd(y)));
  }

  lemma SlashAddsNothing(y: string)
    ensures DropEmpty(SplitOn(TrimEnd("/" + y))) == DropEmpty(SplitOn(TrimEnd(y)))
  {
    TrimEndAfterSlash("", y);
    assert "" + "/" + y == "/" + y && "" + "/" + TrimEnd(y) == "/" + TrimEnd(y);
    SplitConcat("", TrimEnd(y));
    assert "" + [SLASH] + TrimEnd(y) == "/" + TrimEnd(y);
    DropEmptyConcat([""], SplitOn(TrimEnd(y)));
  }

  /** A doubled slash counts once, wherever it stands. */
  lemma DoubledSlash(x: string, y: string, item: Summary, other: Summary)
    requires item.path == x + "//" + y && other.path == x + "/" + y
    ensures PlaceOf(item) == PlaceOf(other)
  {
    hide Trim, TrimEnd, TrimStart, SplitOn, DropEmpty, SlashFree;
    assert x + "//" + y == x + "/" + ("/" + y);
    SegmentsAroundSlash(x, "/" + y);
    SegmentsAroundSlash(x, y);
    SlashAddsNothing(y);
    NotBlank(x, y);
    NotBlank(x, "/" + y);
  }

  lemma NotBlank(x: string, y: string)
    ensures Trim(x + "/" + y) != ""
  {
    TrimStartBeforeSlash(x, y);
    TrimEndAfterSlash(TrimStart(x), y);
  }
}
