/** The parts of Python's posixpath that the gate uses. */
module PosixPath {
  import opened Text

  /** `a` joined with `b`: an absolute `b` wins, and one slash separates the two. */
  function PathJoin(a: string, b: string): string {
    if "/" <= b then b
    else if a == "" || a[|a| - 1] == '/' then a + b
    else a + "/" + b
  }

  /** The index of the last `c`, or -1. */
  function RFind(s: string, c: char): (i: int)
    ensures -1 <= i < |s|
    ensures i >= 0 ==> s[i] == c
    ensures forall k :: i < k < |s| ==> s[k] != c
  {
    if s == [] then -1 else if s[|s| - 1] == c then |s| - 1 else RFind(s[..|s| - 1], c)
  }

  function StripSlashes(s: string): string {
    if s != [] && s[|s| - 1] == '/' then StripSlashes(s[..|s| - 1]) else s
  }

  /** `posixpath.split`: the directory and the last component. */
  function SplitPath(p: string): (string, string) {
    var i := RFind(p, '/') + 1;
    var head := p[..i];
    (if StripSlashes(head) == "" then head else StripSlashes(head), p[i..])
  }

  function DirName(p: string): string {
    SplitPath(p).0
  }

  /** One component folded into the normalised list; `rooted` when the path starts with a slash. */
  function NormStep(done: seq<string>, comp: string, rooted: bool): seq<string> {
    if comp == "" || comp == "." then done
    else if comp != ".." || (!rooted && done == []) || (done != [] && done[|done| - 1] == "..") then done + [comp]
    else if done != [] then done[..|done| - 1]
    else done
  }

  function NormFold(done: seq<string>, comps: seq<string>, rooted: bool): seq<string>
    decreases comps
  {
    if comps == [] then done else NormFold(NormStep(done, comps[0], rooted), comps[1..], rooted)
  }

  function Lead(path: string): string {
    if "//" <= path && !("///" <= path) then "//" else if "/" <= path then "/" else ""
  }

  /** `posixpath.normpath`: a leading slash, or exactly two, is kept. */
  function NormPath(path: string): string {
    if path == "" then "."
    else
      var slashes := Lead(path);
      var r := slashes + JoinWith(NormFold([], SplitOn(path, '/'), slashes != ""), '/');
      if r == "" then "." else r
  }

  /** `posixpath.splitext`: the extension starts at the last dot of the last component, leading dots aside. */
  function SplitExt(p: string): (string, string) {
    var sep := RFind(p, '/');
    var dot := RFind(p, '.');
    if dot > sep && exists k :: sep < k < dot && p[k] != '.' then (p[..dot], p[dot..]) else (p, "")
  }

  /** The last component has something besides dots. */
  predicate HasName(stem: string) {
    exists k :: 0 <= k < |stem| && stem[k] != '.' && '/' !in stem[k..]
  }

  lemma HasNameIff(stem: string)
    ensures HasName(stem) <==> exists k :: RFind(stem, '/') < k < |stem| && stem[k] != '.'
  {
    hide RFind;
    var sep := RFind(stem, '/');
    if k :| sep < k < |stem| && stem[k] != '.' {
      forall i | 0 <= i < |stem[k..]| ensures stem[k..][i] != '/' { assert stem[k..][i] == stem[k + i]; }
    }
    if k :| 0 <= k < |stem| && stem[k] != '.' && '/' !in stem[k..] {
      InTail(stem, k);
    }
  }

  lemma InTail(s: string, k: nat)
    requires k <= |s|
    ensures forall i :: k <= i < |s| ==> s[i] in s[k..]
  {
    forall i | k <= i < |s| ensures s[i] in s[k..] { assert s[k..][i - k] == s[i]; }
  }

  /** An extension is split off exactly when a name comes before it. */
  lemma SplitExtOf(stem: string, ext: string)
    requires ext != "" && ext[0] == '.' && '.' !in ext[1..] && '/' !in ext
    ensures SplitExt(stem + ext) == if HasName(stem) then (stem, ext) else (stem + ext, "")
  {
    hide RFind, HasName;
    var p, n := stem + ext, |stem|;
    HasNameIff(stem);
    forall k | n < k < |p| ensures p[k] != '.' {
      assert p[k] == ext[1..][k - n - 1] && ext[1..][k - n - 1] in ext[1..];
    }
    RFindIs(p, '.', n);
    forall k | n <= k < |p| ensures p[k] != '/' {
      assert p[k] == ext[k - n] && ext[k - n] in ext;
    }
    var sep := RFind(stem, '/');
    forall k | sep < k < |p| ensures p[k] != '/' { assert k < n ==> p[k] == stem[k]; }
    if sep >= 0 {
      RFindIs(p, '/', sep);
    } else {
      assert '/' !in p;
      NoSlash(p);
    }
    assert p[..n] == stem && p[n..] == ext;
    assert forall k :: 0 <= k < n ==> p[k] == stem[k];
  }

  lemma SplitExtParts(p: string)
    ensures var (stem, ext) := SplitExt(p);
            stem + ext == p && (ext != "" ==> ext[0] == '.' && '.' !in ext[1..] && '/' !in ext && HasName(stem))
  {
    hide RFind, HasName;
    var sep, dot := RFind(p, '/'), RFind(p, '.');
    var (stem, ext) := SplitExt(p);
    if ext != "" {
      assert stem == p[..dot] && ext == p[dot..] && stem + ext == p;
      forall i | 0 <= i < |ext[1..]| ensures ext[1..][i] != '.' { assert ext[1..][i] == p[dot + 1 + i]; }
      forall i | 0 <= i < |ext| ensures ext[i] != '/' { assert ext[i] == p[dot + i]; }
      SplitExtOf(stem, ext);
    } else {
      assert p + "" == p;
    }
  }

  lemma LastSlash(d: string, name: string)
    requires '/' !in name
    ensures RFind(d + "/" + name, '/') == |d|
  {
    hide RFind;
    var s := d + "/" + name;
    var i := |d| + 1;
    assert s[..i] == d + "/" && s[i..] == name;
    forall k | i <= k < |s| ensures s[k] != '/' {
      assert s[k] == s[i..][k - i];
      assert name[k - i] in name;
    }
    RFindIs(s, '/', |d|);
  }

  lemma RFindIs(s: string, c: char, i: nat)
    requires i < |s| && s[i] == c && forall k :: i < k < |s| ==> s[k] != c
    ensures RFind(s, c) == i
  {
    hide RFind;
  }

  lemma NoSlash(s: string)
    requires '/' !in s
    ensures RFind(s, '/') == -1
  {
  }

  lemma SplitPathOfName(base: string)
    requires '/' !in base
    ensures SplitPath(base) == ("", base)
  {
    hide RFind;
    NoSlash(base);
    assert base[0..] == base;
    assert StripSlashes("") == "";
  }

  lemma StripOne(d: string)
    requires d != "" && d[|d| - 1] != '/'
    ensures StripSlashes(d + "/") == d
  {
    assert (d + "/")[..|d|] == d;
  }

  /** Splitting a path at its last slash. */
  lemma SplitPathAt(dir: string, base: string)
    requires dir != "" && dir[|dir| - 1] != '/' && '/' !in base
    ensures SplitPath(dir + "/" + base) == (dir, base)
  {
    hide RFind, StripSlashes;
    LastSlash(dir, base);
    var p := dir + "/" + base;
    assert p[..|dir| + 1] == dir + "/" && p[|dir| + 1..] == base;
    StripOne(dir);
  }

  // ---------- What joining, splitting and normalising keep ----------

  /** One slash between the two, whether or not the first ends in one; nothing before an absolute path. */
  lemma JoinsWithOneSlash(a: string, b: string)
    ensures "/" <= b || a == "" ==> PathJoin(a, b) == b
    ensures !("/" <= b) && a != "" && a[|a| - 1] != '/' ==> PathJoin(a, b) == PathJoin(a + "/", b) == a + "/" + b
  {
    assert (a + "/")[|a|] == '/';
  }

  predicate AllSlash(s: string) {
    forall i :: 0 <= i < |s| ==> s[i] == '/'
  }

  /** A path is its directory, the slashes after it and its name; a directory of slashes alone keeps them. */
  lemma SplitPathLaw(p: string) returns (slashes: string)
    ensures var (dir, name) := SplitPath(p);
            && p == dir + slashes + name && '/' !in name && AllSlash(slashes)
            && if AllSlash(dir) then slashes == "" else slashes != "" && dir[|dir| - 1] != '/'
  {
    hide RFind, StripSlashes, AllSlash;
    var i := RFind(p, '/') + 1;
    slashes := HeadLaw(p[..i]);
    assert p == p[..i] + p[i..];
    forall k | 0 <= k < |p[i..]| ensures p[i..][k] != '/' { assert p[i..][k] == p[i + k]; }
  }

  lemma HeadLaw(head: string) returns (slashes: string)
    requires head == "" || head[|head| - 1] == '/'
    ensures var dir := if StripSlashes(head) == "" then head else StripSlashes(head);
            && head == dir + slashes && AllSlash(slashes)
            && if AllSlash(dir) then slashes == "" else slashes != "" && dir[|dir| - 1] != '/'
  {
    hide StripSlashes;
    StripLaw(head);
    var kept := StripSlashes(head);
    slashes := if kept == "" then "" else head[|kept|..];
    if kept == "" {
      assert head[0..] == head;
    }
  }

  lemma {:induction false} StripLaw(s: string)
    ensures var k := StripSlashes(s); k <= s && AllSlash(s[|k|..]) && (k != "" ==> k[|k| - 1] != '/')
  {
    if s != [] && s[|s| - 1] == '/' {
      StripLaw(s[..|s| - 1]);
      var k := StripSlashes(s);
      forall i | 0 <= i < |s[|k|..]| ensures s[|k|..][i] == '/' {
        assert i < |s| - 1 - |k| ==> s[|k|..][i] == s[..|s| - 1][|k|..][i];
      }
    }
  }

  /** Components with nothing left to do: `..` only in front, and never after the root. */
  ghost predicate Normal(parts: seq<string>, rooted: bool) {
    && (forall i :: 0 <= i < |parts| ==> parts[i] != "" && parts[i] != "." && '/' !in parts[i])
    && (forall i, k :: 0 <= k <= i < |parts| && parts[i] == ".." ==> parts[k] == ".." && !rooted)
  }

  lemma StepStaysNormal(done: seq<string>, comp: string, rooted: bool)
    requires Normal(done, rooted) && '/' !in comp
    ensures Normal(NormStep(done, comp, rooted), rooted)
  {
    if comp == ".." && done != [] && done[|done| - 1] == ".." {
      assert forall k :: 0 <= k < |done| ==> done[k] == "..";
      assert !rooted;
    }
  }

  lemma {:induction false} FoldIsNormal(done: seq<string>, comps: seq<string>, rooted: bool)
    requires Normal(done, rooted) && forall c :: c in comps ==> '/' !in c
    ensures Normal(NormFold(done, comps, rooted), rooted)
    decreases comps
  {
    hide Normal, NormStep;
    if comps != [] {
      assert comps[0] in comps;
      StepStaysNormal(done, comps[0], rooted);
      FoldIsNormal(NormStep(done, comps[0], rooted), comps[1..], rooted);
    }
  }

  lemma NormalStep(done: seq<string>, comp: string, rest: seq<string>, rooted: bool)
    requires Normal(done + ([comp] + rest), rooted)
    ensures NormStep(done, comp, rooted) == done + [comp]
  {
    var all := done + ([comp] + rest);
    assert all[|done|] == comp;
    if comp == ".." && done != [] {
      assert all[|done| - 1] == "..";
    }
  }

  lemma {:induction false} FoldOfNormal(done: seq<string>, comps: seq<string>, rooted: bool)
    requires Normal(done + comps, rooted)
    ensures NormFold(done, comps, rooted) == done + comps
    decreases comps
  {
    hide Normal, NormStep;
    if comps == [] {
      assert done + comps == done;
    } else {
      var c, rest := comps[0], comps[1..];
      assert comps == [c] + rest;
      NormalStep(done, c, rest, rooted);
      assert done + [c] + rest == done + ([c] + rest);
      FoldOfNormal(done + [c], rest, rooted);
    }
  }

  lemma {:induction false} NormalJoin(parts: seq<string>, rooted: bool)
    requires Normal(parts, rooted)
    ensures var j := JoinWith(parts, '/'); (j == "" <==> parts == []) && !("/" <= j)
  {
    if parts != [] {
      assert parts[0][0] in parts[0];
      assert JoinWith(parts, '/')[0] == parts[0][0];
    }
  }

  lemma SplitAfterSlash(rest: string)
    ensures SplitOn("/" + rest, '/') == [""] + SplitOn(rest, '/')
  {
    SplitOfWhole("", '/');
    SplitAround("", '/', rest);
    assert "" + ['/'] + rest == "/" + rest;
  }

  lemma EmptyIsSkipped(done: seq<string>, comps: seq<string>, rooted: bool)
    ensures NormFold(done, [""] + comps, rooted) == NormFold(done, comps, rooted)
  {
    hide NormFold;
    FoldStep(done, [""] + comps, rooted);
    assert ([""] + comps)[0] == "" && ([""] + comps)[1..] == comps;
    assert NormStep(done, "", rooted) == done;
  }

  lemma FoldStep(done: seq<string>, comps: seq<string>, rooted: bool)
    requires comps != []
    ensures NormFold(done, comps, rooted) == NormFold(NormStep(done, comps[0], rooted), comps[1..], rooted)
  {
  }

  lemma LeadOf(lead: string, rest: string)
    requires lead in {"", "/", "//"} && !("/" <= rest)
    ensures Lead(lead + rest) == lead && ("//" <= lead + rest <==> lead == "//") && !("///" <= lead + rest)
  {
    var r := lead + rest;
    assert r[|lead|..] == rest;
    assert |r| > |lead| ==> r[|lead|] == rest[0] != '/';
    assert "///"[1] == "///"[2] == '/' && "//"[1] == '/';
  }

  lemma LeadShows(path: string)
    ensures "/" <= path ==> NormPath(path) != "" && NormPath(path)[0] == '/'
  {
    hide NormFold, SplitOn, JoinWith;
    if "/" <= path {
      assert path != "" && Lead(path)[0] == '/' && Lead(path) <= NormPath(path);
    }
  }

  /** The components of a normal path put together with its leading slashes. */
  lemma PartsReadBack(lead: string, parts: seq<string>)
    requires lead in {"", "/", "//"} && Normal(parts, lead != "") && lead + JoinWith(parts, '/') != ""
    ensures var r := lead + JoinWith(parts, '/');
            && Lead(r) == lead && NormFold([], SplitOn(r, '/'), lead != "") == parts
            && (forall c :: c in SplitOn(r, '/') ==> c == "" || c in parts)
            && ("//" <= r <==> lead == "//") && !("///" <= r)
  {
    hide Normal, NormFold, JoinWith, SplitOn, Lead;
    var j := JoinWith(parts, '/');
    NormalJoin(parts, lead != "");
    LeadOf(lead, j);
    JoinReadsBack(parts, lead != "");
    EmptyIsSkipped([], SplitOn(j, '/'), lead != "");
    SplitAfterSlash(j);
    SplitAfterSlash("/" + j);
    EmptyIsSkipped([], SplitOn("/" + j, '/'), lead != "");
    assert "" + j == j;
    assert "//" + j == "/" + ("/" + j);
  }

  lemma JoinReadsBack(parts: seq<string>, rooted: bool)
    requires Normal(parts, rooted)
    ensures NormFold([], SplitOn(JoinWith(parts, '/'), '/'), rooted) == parts
    ensures forall c :: c in SplitOn(JoinWith(parts, '/'), '/') ==> c == "" || c in parts
  {
    hide JoinWith, SplitOn, NormStep;
    if parts == [] {
      assert JoinWith(parts, '/') == "" by { NormalJoin(parts, rooted); }
      SplitOfWhole("", '/');
      EmptyIsSkipped([], [], rooted);
      assert [""] + [] == [""];
    } else {
      SplitOfJoin(parts, '/');
      assert [] + parts == parts;
      FoldOfNormal([], parts, rooted);
    }
  }

  lemma DotIsNormal()
    ensures NormPath(".") == "." && NormPath("") == "." && SplitOn(".", '/') == ["."]
  {
    SplitOfWhole(".", '/');
    assert NormFold([], ["."], false) == NormFold([], [], false) == [];
  }

  lemma NormParts(path: string) returns (parts: seq<string>)
    requires NormPath(path) != "."
    ensures Normal(parts, Lead(path) != "") && NormPath(path) == Lead(path) + JoinWith(parts, '/') != ""
  {
    hide NormFold, SplitOn, JoinWith, Lead, Normal;
    assert path != "" by { DotIsNormal(); }
    parts := NormFold([], SplitOn(path, '/'), Lead(path) != "");
    SplitPartsLack(path, '/');
    assert Normal([], Lead(path) != "") by { NothingIsNormal(Lead(path) != ""); }
    FoldIsNormal([], SplitOn(path, '/'), Lead(path) != "");
  }

  lemma NothingIsNormal(rooted: bool)
    ensures Normal([], rooted)
  {
  }

  /** Normalising twice is normalising once. */
  lemma NormPathIdempotent(path: string)
    ensures NormPath(NormPath(path)) == NormPath(path)
  {
    hide NormFold, SplitOn, JoinWith, Normal;
    DotIsNormal();
    if NormPath(path) != "." {
      var parts := NormParts(path);
      PartsReadBack(Lead(path), parts);
    }
  }

  /** A normal path is absolute when the given one is, keeps exactly two slashes, and has no `..` after the root. */
  lemma NormPathShape(path: string)
    ensures var r := NormPath(path);
            && r != "" && ("/" <= r <==> "/" <= path)
            && ("//" <= r <==> "//" <= path && !("///" <= path)) && !("///" <= r)
            && ("." in SplitOn(r, '/') <==> r == ".")
            && ("/" <= path ==> ".." !in SplitOn(r, '/'))
  {
    hide NormFold, SplitOn, JoinWith;
    DotIsNormal();
    LeadShows(path);
    if NormPath(path) != "." {
      var parts := NormParts(path);
      PartsReadBack(Lead(path), parts);
      assert "." !in parts;
    }
  }
}
