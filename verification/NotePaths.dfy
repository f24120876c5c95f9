/**
  Resolving a relative link inside a knowledge-base note, compared with the path normaliser
  the repository's other path code relies on.
*/
module NotePaths {
  import opened Text
  import opened PosixPath

  function Init<T>(s: seq<T>): seq<T>
    requires s != []
  {
    s[..|s| - 1]
  }

  /** One segment of the link: `..` pops (nothing at the root), `.` and empty segments stay. */
  function LinkStep(parts: seq<string>, seg: string): seq<string> {
    if seg == ".." then (if parts == [] then [] else Init(parts))
    else if seg == "" || seg == "." then parts
    else parts + [seg]
  }

  function Walk(parts: seq<string>, segs: seq<string>): seq<string>
    decreases segs
  {
    if segs == [] then parts else Walk(LinkStep(parts, segs[0]), segs[1..])
  }

  function Folder(note: string): seq<string> {
    Init(SplitOn(note, '/'))
  }

  function Resolved(fromNote: string, href: string): string {
    JoinWith(Walk(Folder(fromNote), SplitOn(href, '/')), '/')
  }

  method ResolveRel(fromNote: string, href: string) returns (path: string)
    ensures path == Resolved(fromNote, href)
  {
    var parts := Init(SplitOn(fromNote, '/'));
    var segs := SplitOn(href, '/');
    for i := 0 to |segs|
      invariant Walk(parts, segs[i..]) == Walk(Folder(fromNote), segs)
    {
      var seg := segs[i];
      if seg == ".." {
        if parts != [] {
          parts := parts[..|parts| - 1];
        }
      } else if seg != "" && seg != "." {
        parts := parts + [seg];
      }
      assert segs[i..][1..] == segs[i + 1..];
    }
    path := JoinWith(parts, '/');
  }

  // ---------- Clean paths and climbing links ----------

  predicate CleanPart(p: string) {
    p != "" && p != "." && p != ".." && '/' !in p
  }

  predicate AllClean(parts: seq<string>) {
    forall p :: p in parts ==> CleanPart(p)
  }

  /** A note's path as the knowledge base stores it: no empty, `.` or `..` component. */
  predicate CleanPath(path: string) {
    AllClean(SplitOn(path, '/'))
  }

  /** Somewhere along the way the link asks for the parent of the root. */
  predicate Climbs(parts: seq<string>, segs: seq<string>)
    decreases segs
  {
    segs != [] && ((segs[0] == ".." && parts == []) || Climbs(LinkStep(parts, segs[0]), segs[1..]))
  }

  lemma {:induction false} WalkStaysClean(parts: seq<string>, segs: seq<string>)
    requires AllClean(parts) && forall s :: s in segs ==> '/' !in s
    ensures AllClean(Walk(parts, segs))
    decreases segs
  {
    if segs != [] {
      assert segs[0] in segs;
      WalkStaysClean(LinkStep(parts, segs[0]), segs[1..]);
    }
  }

  /** However far a link climbs, the resolved path has no `..` component. */
  lemma ResolvedStaysInside(fromNote: string, href: string)
    requires CleanPath(fromNote)
    ensures Resolved(fromNote, href) == "" || CleanPath(Resolved(fromNote, href))
  {
    SplitPartsLack(href, '/');
    var parts := Walk(Folder(fromNote), SplitOn(href, '/'));
    WalkStaysClean(Folder(fromNote), SplitOn(href, '/'));
    if parts != [] {
      SplitOfJoin(parts, '/');
    }
  }

  // ---------- Against normpath ----------

  lemma {:induction false} FoldAgrees(parts: seq<string>, segs: seq<string>)
    requires AllClean(parts) && (forall s :: s in segs ==> '/' !in s) && !Climbs(parts, segs)
    ensures NormFold(parts, segs, false) == Walk(parts, segs)
    decreases segs
  {
    if segs != [] {
      assert segs[0] in segs;
      assert parts != [] ==> parts[|parts| - 1] in parts;
      FoldAgrees(LinkStep(parts, segs[0]), segs[1..]);
    }
  }

  /** Once normpath has kept a leading `..` it never loses it. */
  lemma {:induction false} DotDotStays(done: seq<string>, segs: seq<string>)
    requires done != [] && done[0] == ".."
    ensures var r := NormFold(done, segs, false); r != [] && r[0] == ".."
    decreases segs
  {
    if segs == [] {
      assert NormFold(done, segs, false) == done;
    } else {
      var next := NormStep(done, segs[0], false);
      assert next != [] && next[0] == "..";
      DotDotStays(next, segs[1..]);
    }
  }

  lemma {:induction false} ClimbShows(parts: seq<string>, segs: seq<string>)
    requires AllClean(parts) && (forall s :: s in segs ==> '/' !in s) && Climbs(parts, segs)
    ensures var r := NormFold(parts, segs, false); r != [] && r[0] == ".."
    decreases segs
  {
    assert segs[0] in segs;
    assert parts != [] ==> parts[|parts| - 1] in parts;
    if segs[0] == ".." && parts == [] {
      assert NormStep(parts, segs[0], false) == [".."];
      DotDotStays([".."], segs[1..]);
    } else {
      ClimbShows(LinkStep(parts, segs[0]), segs[1..]);
    }
  }

  lemma {:induction false} FoldConcat(done: seq<string>, a: seq<string>, b: seq<string>)
    ensures NormFold(done, a + b, false) == NormFold(NormFold(done, a, false), b, false)
    decreases a
  {
    if a == [] {
      assert a + b == b;
    } else {
      assert (a + b)[1..] == a[1..] + b;
      FoldConcat(NormStep(done, a[0], false), a[1..], b);
    }
  }

  lemma {:induction false} FoldClean(done: seq<string>, parts: seq<string>)
    requires AllClean(parts)
    ensures NormFold(done, parts, false) == done + parts
    decreases parts
  {
    if parts != [] {
      assert parts[0] in parts;
      FoldClean(done + [parts[0]], parts[1..]);
      assert done + [parts[0]] + parts[1..] == done + parts;
    }
  }

  lemma {:induction false} NormFoldParts(done: seq<string>, segs: seq<string>)
    requires (forall d :: d in done ==> '/' !in d) && (forall s :: s in segs ==> '/' !in s)
    ensures forall r :: r in NormFold(done, segs, false) ==> '/' !in r
    decreases segs
  {
    if segs != [] {
      assert segs[0] in segs;
      NormFoldParts(NormStep(done, segs[0], false), segs[1..]);
    }
  }

  lemma JoinedEmptyIff(parts: seq<string>)
    requires forall p :: p in parts ==> p != ""
    ensures JoinWith(parts, '/') == "" <==> parts == []
  {
    if parts != [] {
      assert parts[0] in parts;
    }
  }

  /** The directory of a clean path is its folder joined back. */
  lemma DirOfClean(note: string)
    requires CleanPath(note)
    ensures DirName(note) == JoinWith(Folder(note), '/')
  {
    hide RFind, StripSlashes, SplitOn;
    var all := SplitOn(note, '/');
    var dir, name := Folder(note), all[|all| - 1];
    JoinOfSplit(note, '/');
    SplitPartsLack(note, '/');
    assert all == dir + [name];
    assert name in all;
    if dir == [] {
      assert note == name;
      NoSlash(note);
      NoStrip();
    } else {
      DirOfJoined(dir, name);
    }
  }

  lemma NoStrip()
    ensures StripSlashes("") == ""
  {
  }

  lemma DirOfJoined(dir: seq<string>, name: string)
    requires dir != [] && AllClean(dir) && '/' !in name
    ensures DirName(JoinWith(dir + [name], '/')) == JoinWith(dir, '/')
  {
    hide RFind, StripSlashes, JoinWith;
    JoinLast(dir, name);
    var d := JoinWith(dir, '/');
    LastSlash(d, name);
    assert (d + "/" + name)[..|d| + 1] == d + "/";
    CleanEnds(dir);
    StripOne(d);
  }

  lemma {:induction false} JoinLast(dir: seq<string>, name: string)
    requires dir != []
    ensures JoinWith(dir + [name], '/') == JoinWith(dir, '/') + "/" + name
  {
    var all := dir + [name];
    if |dir| == 1 {
      assert all[1..] == [name];
    } else {
      assert all[1..] == dir[1..] + [name];
      JoinLast(dir[1..], name);
    }
  }

  lemma {:induction false} CleanEnds(parts: seq<string>)
    requires parts != [] && AllClean(parts)
    ensures var d := JoinWith(parts, '/'); d != "" && d[0] != '/' && d[|d| - 1] != '/'
  {
    var p := parts[0];
    assert p in parts;
    assert p[0] in p && p[|p| - 1] in p;
    if |parts| > 1 {
      CleanEnds(parts[1..]);
    }
  }

  /** The path handed to normpath has the folder's components followed by the link's. */
  lemma JoinedComponents(note: string, href: string)
    requires CleanPath(note) && !("/" <= href)
    ensures var path := PathJoin(DirName(note), href);
            && !("/" <= path)
            && SplitOn(path, '/') == Folder(note) + SplitOn(href, '/')
  {
    hide DirName, SplitOn;
    DirOfClean(note);
    var dir := Folder(note);
    assert AllClean(dir);
    if dir != [] {
      CleanEnds(dir);
      var d := JoinWith(dir, '/');
      assert PathJoin(d, href) == d + "/" + href;
      SplitOfJoin(dir, '/');
      SplitAround(d, '/', href);
      assert d + ['/'] + href == d + "/" + href;
      assert (d + "/" + href)[0] == d[0];
    } else {
      assert DirName(note) == "";
      assert PathJoin("", href) == href;
      assert dir + SplitOn(href, '/') == SplitOn(href, '/');
    }
  }

  /**
    The link resolver and normpath-of-join give the same path (normpath spelling the empty one
    ".") if and only if the link never climbs above the root.
  */
  lemma AgreesWithNormPath(note: string, href: string)
    requires CleanPath(note) && !("/" <= href)
    ensures var r := Resolved(note, href);
            NormPath(PathJoin(DirName(note), href)) == (if r == "" then "." else r)
            <==> !Climbs(Folder(note), SplitOn(href, '/'))
  {
    hide NormFold, Walk, Climbs, SplitOn, JoinWith, DirName, PathJoin, NormPath;
    var dir, segs := Folder(note), SplitOn(href, '/');
    var path := PathJoin(DirName(note), href);
    JoinedComponents(note, href);
    assert AllClean(dir);
    SplitPartsLack(href, '/');
    FoldConcat([], dir, segs);
    FoldClean([], dir);
    assert [] + dir == dir;
    var norm := NormFold(dir, segs, false);
    WalkStaysClean(dir, segs);
    var walked := Walk(dir, segs);
    JoinedEmptyIff(walked);
    NormPathIs(path, norm);
    if Climbs(dir, segs) {
      ClimbShows(dir, segs);
      NormFoldParts(dir, segs);
      SplitOfJoin(norm, '/');
      SplitOfWhole("", '/');
      if walked != [] {
        SplitOfJoin(walked, '/');
        assert walked[0] in walked;
      } else {
        SplitOfWhole(".", '/');
      }
    } else {
      FoldAgrees(dir, segs);
    }
  }

  lemma NormPathIs(path: string, norm: seq<string>)
    requires !("/" <= path) && NormFold([], SplitOn(path, '/'), false) == norm
    ensures NormPath(path) == (if JoinWith(norm, '/') == "" then "." else JoinWith(norm, '/'))
  {
    assert "//" <= path ==> "/" <= path;
    if path == "" {
      assert SplitOn(path, '/') == [""];
      assert NormFold([], [""], false) == NormFold(NormStep([], "", false), [""][1..], false);
    }
  }

  lemma ClimbingParts()
    ensures SplitOn("a.md", '/') == ["a.md"] && SplitOn("../b.md", '/') == ["..", "b.md"]
    ensures JoinWith(["..", "b.md"], '/') == "../b.md"
  {
    hide SplitOn;
    SplitOfWhole("a.md", '/');
    SplitOfWhole("..", '/');
    SplitOfWhole("b.md", '/');
    assert "../b.md" == ".." + ['/'] + "b.md";
    SplitAround("..", '/', "b.md");
    SplitPartsLack("../b.md", '/');
    JoinOfSplit("../b.md", '/');
  }

  /** A link that climbs too far: the resolver stops at the root, normpath keeps the step up. */
  lemma ClimbingLinkDiffers()
    ensures Resolved("a.md", "../b.md") == "b.md"
    ensures NormPath(PathJoin(DirName("a.md"), "../b.md")) == "../b.md"
  {
    hide SplitOn, DirName, NormPath;
    ClimbingParts();
    var segs := ["..", "b.md"];
    assert segs[1..] == ["b.md"] && ["b.md"][1..] == [];
    assert Folder("a.md") == [];
    assert Walk([], segs) == Walk([], ["b.md"]) == ["b.md"];
    DirOfClean("a.md");
    assert PathJoin(DirName("a.md"), "../b.md") == "../b.md";
    assert NormFold([], segs, false) == NormFold([".."], ["b.md"], false) == segs;
    assert "../b.md"[0] != '/';
    NormPathIs("../b.md", segs);
  }

  // ---------- Links that lead where they should ----------

  function Ups(n: nat): string {
    if n == 0 then "" else "../" + Ups(n - 1)
  }

  function UpParts(n: nat): seq<string> {
    if n == 0 then [] else [".."] + UpParts(n - 1)
  }

  lemma {:induction false} SplitUps(n: nat, q: string)
    ensures SplitOn(Ups(n) + q, '/') == UpParts(n) + SplitOn(q, '/')
  {
    if n > 0 {
      SplitUps(n - 1, q);
      assert Ups(n) + q == ".." + ['/'] + (Ups(n - 1) + q);
      SplitAround("..", '/', Ups(n - 1) + q);
      SplitOfWhole("..", '/');
    } else {
      assert Ups(0) + q == q;
    }
  }

  lemma {:induction false} WalkUp(parts: seq<string>, rest: seq<string>)
    ensures Walk(parts, UpParts(|parts|) + rest) == Walk([], rest)
  {
    var ups := UpParts(|parts|) + rest;
    if parts != [] {
      assert ups[0] == ".." && ups[1..] == UpParts(|parts| - 1) + rest;
      WalkUp(Init(parts), rest);
    } else {
      assert ups == rest;
    }
  }

  lemma {:induction false} WalkDown(parts: seq<string>, q: seq<string>)
    requires AllClean(q)
    ensures Walk(parts, q) == parts + q
    decreases q
  {
    if q != [] {
      assert q[0] in q;
      WalkDown(parts + [q[0]], q[1..]);
    }
  }

  /** One `../` for each folder of p, then q: from p, that link opens q. */
  lemma RelativeLinkOpens(p: string, q: string)
    requires CleanPath(p) && CleanPath(q)
    ensures Resolved(p, Ups(|Folder(p)|) + q) == q
  {
    SplitUps(|Folder(p)|, q);
    WalkUp(Folder(p), SplitOn(q, '/'));
    WalkDown([], SplitOn(q, '/'));
    assert [] + SplitOn(q, '/') == SplitOn(q, '/');
    JoinOfSplit(q, '/');
  }
}
