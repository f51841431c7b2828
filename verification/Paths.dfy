/** Slash-separated item paths: splitting, joining, trimming, and how they undo each other. */
module Paths {
  import opened Base

  const SLASH := '/'

  predicate SlashFree(s: string) {
    SLASH !in s
  }

  /** `split('/')`: always at least one part, empty parts included. */
  function SplitOn(s: string): (parts: seq<string>)
    ensures parts != []
  {
    if s == "" then [""]
    else
      var rest := SplitOn(s[1..]);
      if s[0] == SLASH then [""] + rest else Grow(s[0], rest)
  }

  /** A character joins the first part. */
  function Grow(c: char, parts: seq<string>): seq<string>
    requires parts != []
  {
    [[c] + parts[0]] + parts[1..]
  }

  lemma GrowConcat(c: char, x: seq<string>, y: seq<string>)
    requires x != []
    ensures Grow(c, x + y) == Grow(c, x) + y
  {
    assert (x + y)[1..] == x[1..] + y;
  }

  lemma {:induction false} PartsAreSlashFree(s: string)
    ensures forall p :: p in SplitOn(s) ==> SlashFree(p)
  {
    if s != "" {
      PartsAreSlashFree(s[1..]);
      var rest := SplitOn(s[1..]);
      assert rest[0] in rest && forall p :: p in rest[1..] ==> p in rest;
    }
  }

  /** `join("/")`. */
  function Join(parts: seq<string>): string {
    if parts == [] then ""
    else if |parts| == 1 then parts[0]
    else parts[0] + [SLASH] + Join(parts[1..])
  }

  /** `rsplit_once('/')`: what lies before and after the last slash. */
  function RSplitOnce(s: string): (r: Option<(string, string)>)
    ensures r.Some? ==> s == r.value.0 + [SLASH] + r.value.1 && SlashFree(r.value.1)
    ensures r.None? ==> SlashFree(s)
    decreases |s|
  {
    if s == "" then None
    else
      var n := |s| - 1;
      if s[n] == SLASH then
        assert s == s[..n] + [SLASH] + "";
        Some((s[..n], ""))
      else match RSplitOnce(s[..n])
        case None =>
          assert s == s[..n] + [s[n]];
          None
        case Some((a, b)) =>
          assert s == s[..n] + [s[n]];
          Some((a, b + [s[n]]))
  }

  /** Unicode White_Space, as `char::is_whitespace` tests it. */
  predicate IsSpace(c: char) {
    var n := c as int;
    || 0x09 <= n <= 0x0D || n == 0x20 || n == 0x85 || n == 0xA0 || n == 0x1680 || 0x2000 <= n <= 0x200A
    || n == 0x2028 || n == 0x2029 || n == 0x202F || n == 0x205F || n == 0x3000
  }

  function TrimStart(s: string): string {
    if s != "" && IsSpace(s[0]) then TrimStart(s[1..]) else s
  }

  function TrimEnd(s: string): string
    decreases |s|
  {
    if s != "" && IsSpace(s[|s| - 1]) then TrimEnd(s[..|s| - 1]) else s
  }

  function Trim(s: string): string {
    TrimEnd(TrimStart(s))
  }

  function DropEmpty(parts: seq<string>): (r: seq<string>)
    ensures forall p :: p in r ==> p in parts && p != ""
  {
    if parts == [] then []
    else if parts[0] == "" then DropEmpty(parts[1..])
    else [parts[0]] + DropEmpty(parts[1..])
  }

  lemma {:induction false} JoinSplit(s: string)
    ensures Join(SplitOn(s)) == s
  {
    if s != "" {
      JoinSplit(s[1..]);
      var rest := SplitOn(s[1..]);
      assert [s[0]] + s[1..] == s;
      if s[0] == SLASH {
        assert SplitOn(s)[1..] == rest;
      } else if |rest| > 1 {
        assert SplitOn(s)[1..] == rest[1..];
      }
    }
  }

  lemma {:induction false} SplitSlashFree(s: string)
    requires SlashFree(s)
    ensures SplitOn(s) == [s]
  {
    if s != "" {
      assert s[0] in s && SlashFree(s[1..]);
      SplitSlashFree(s[1..]);
      assert [s[0]] + s[1..] == s;
    }
  }

  /** A slash separates what stands on its two sides. */
  lemma {:induction false} SplitConcat(a: string, b: string)
    ensures SplitOn(a + [SLASH] + b) == SplitOn(a) + SplitOn(b)
  {
    var s := a + [SLASH] + b;
    if a == "" {
      assert s == [SLASH] + b && s[1..] == b;
    } else {
      assert s[0] == a[0] && s[1..] == a[1..] + [SLASH] + b;
      SplitConcat(a[1..], b);
      GrowConcat(a[0], SplitOn(a[1..]), SplitOn(b));
    }
  }

  lemma {:induction false} JoinConcat(p: seq<string>, q: seq<string>)
    requires p != [] && q != []
    ensures Join(p + q) == Join(p) + [SLASH] + Join(q)
  {
    assert (p + q)[1..] == p[1..] + q;
    if |p| > 1 {
      JoinConcat(p[1..], q);
    } else {
      assert p[1..] + q == q;
    }
  }

  /** Joined parts split back into themselves. */
  lemma {:induction false} SplitJoin(p: seq<string>)
    requires p != [] && forall x :: x in p ==> SlashFree(x)
    ensures SplitOn(Join(p)) == p
  {
    SplitSlashFree(p[0]);
    if |p| > 1 {
      SplitJoin(p[1..]);
      SplitConcat(p[0], Join(p[1..]));
    }
  }

  /** Splitting off the last part drops exactly the last element of the split. */
  lemma RSplitIsInit(s: string)
    ensures match RSplitOnce(s)
            case None => SplitOn(s) == [s]
            case Some((a, b)) => SplitOn(s) == SplitOn(a) + [b]
  {
    match RSplitOnce(s)
    case None => SplitSlashFree(s);
    case Some((a, b)) =>
      SplitConcat(a, b);
      SplitSlashFree(b);
  }

  lemma RSplitParent(s: string)
    ensures RSplitOnce(s).None? <==> |SplitOn(s)| == 1
    ensures RSplitOnce(s).Some? ==> SplitOn(RSplitOnce(s).value.0) == SplitOn(s)[..|SplitOn(s)| - 1]
  {
    RSplitIsInit(s);
  }

  /** Being a folder or inside it, on strings, is being a prefix, on parts. */
  lemma InsideIsPrefix(folder: string, f: string)
    ensures (folder == f || f + [SLASH] <= folder) <==> SplitOn(f) <= SplitOn(folder)
  {
    hide SplitOn, Join;
    if f + [SLASH] <= folder {
      var rest := folder[|f| + 1..];
      assert folder == f + [SLASH] + rest;
      SplitConcat(f, rest);
    }
    if SplitOn(f) <= SplitOn(folder) && folder != f {
      var t := SplitOn(folder)[|SplitOn(f)|..];
      assert SplitOn(folder) == SplitOn(f) + t;
      JoinSplit(f);
      JoinSplit(folder);
      assert t == [] ==> SplitOn(f) + t == SplitOn(f);
      JoinConcat(SplitOn(f), t);
      assert folder == (f + [SLASH]) + Join(t);
    }
  }

  lemma SplitInjective(a: string, b: string)
    requires SplitOn(a) == SplitOn(b)
    ensures a == b
  {
    JoinSplit(a);
    JoinSplit(b);
  }

  lemma {:induction false} DropEmptyKeepsFull(parts: seq<string>)
    requires forall p :: p in parts ==> p != ""
    ensures DropEmpty(parts) == parts
  {
    if parts != [] {
      assert parts[0] in parts && forall p :: p in parts[1..] ==> p in parts;
      DropEmptyKeepsFull(parts[1..]);
    }
  }

  /** A slash among parts is a slash in the string. */
  lemma SplitLength(s: string)
    ensures |SplitOn(s)| == 1 <==> SlashFree(s)
  {
    if SlashFree(s) {
      SplitSlashFree(s);
    }
    if |SplitOn(s)| == 1 {
      JoinSplit(s);
      PartsAreSlashFree(s);
      assert SplitOn(s)[0] in SplitOn(s);
    }
  }

  /** Among the ASCII characters exactly six count as space. */
  lemma AsciiSpaces(c: char)
    requires c as int < 128
    ensures IsSpace(c) <==> c == ' ' || c == '\t' || c == '\n' || c == '\r' || c as int == 11 || c as int == 12
  {
  }
}
