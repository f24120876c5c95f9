/**
  The gate that stops a pull request from narrowing the test suite: no new skips, and no test
  deleted unless the code it tests is deleted with it.
*/
module TestIntegrity {
  import opened Options
  import opened Text
  import opened PosixPath

  const SRC_EXTS: seq<string> := [".ts", ".tsx", ".js", ".jsx", ".mts", ".cts"]
  const EMITTED_EXTS: seq<string> := [".js", ".jsx", ".mjs", ".cjs"]
  const TEST_SUFFIXES: seq<string> := [".test.ts", ".test.tsx", ".spec.ts", ".spec.tsx"]

  predicate EndsWith(s: string, suffix: string) {
    |suffix| <= |s| && s[|s| - |suffix|..] == suffix
  }

  /** `\.(test|spec)\.(ts|tsx)$` is found in the name. */
  predicate IsTestName(name: string) {
    exists i :: 0 <= i < |TEST_SUFFIXES| && EndsWith(name, TEST_SUFFIXES[i])
  }

  /** The name without its test suffix. */
  function Stem(base: string): string {
    if EndsWith(base, ".test.ts") || EndsWith(base, ".spec.ts") then base[..|base| - 8]
    else if EndsWith(base, ".test.tsx") || EndsWith(base, ".spec.tsx") then base[..|base| - 9]
    else base
  }

  // ---------- New skips ----------

  predicate IsWordChar(c: char) {
    'a' <= c <= 'z' || 'A' <= c <= 'Z' || '0' <= c <= '9' || c == '_'
  }

  /** `p` occurs with no word character just before it; `before` is what precedes `s`. */
  predicate WordStart(before: string, s: string, p: string)
    decreases |s|
  {
    (p <= s && (before == "" || !IsWordChar(before[|before| - 1])))
    || (s != "" && WordStart(before + [s[0]], s[1..], p))
  }

  predicate Narrows(line: string) {
    || Contains(line, ".skip(")
    || Contains(line, ".only(")
    || WordStart("", line, "xit(")
    || WordStart("", line, "xdescribe(")
  }

  predicate IsAdded(line: string) {
    "+" <= line && !("+++" <= line)
  }

  /** Nothing, or something that ends in no letter, digit or underscore. */
  predicate EndsWord(a: string) {
    a == "" ||
    var c := a[|a| - 1] as int;
    !(0x30 <= c <= 0x39 || 0x41 <= c <= 0x5A || c == 0x5F || 0x61 <= c <= 0x7A)
  }

  /** A line that skips or singles out a test: one of four calls, the last two at the start of a word. */
  ghost predicate SkipsTests(line: string) {
    exists a, b ::
      || IsAround(line, a, ".skip(", b)
      || IsAround(line, a, ".only(", b)
      || (IsAround(line, a, "xit(", b) && EndsWord(a))
      || (IsAround(line, a, "xdescribe(", b) && EndsWord(a))
  }

  lemma {:induction false} WordStartFound(before: string, s: string, p: string) returns (a: string, b: string)
    requires WordStart(before, s, p)
    ensures IsAround(s, a, p, b) && EndsWord(before + a)
    decreases |s|
  {
    if p <= s && EndsWord(before) {
      a, b := "", s[|p|..];
      assert before + a == before && s == a + p + b;
    } else {
      var c: string;
      c, b := WordStartFound(before + [s[0]], s[1..], p);
      a := [s[0]] + c;
      assert before + a == before + [s[0]] + c;
      assert s == [s[0]] + s[1..] == a + p + b;
    }
  }

  lemma {:induction false} WordStartThere(before: string, s: string, p: string, a: string, b: string)
    requires IsAround(s, a, p, b) && EndsWord(before + a)
    ensures WordStart(before, s, p)
    decreases |s|
  {
    if a == "" {
      assert before + a == before && s == p + b;
    } else {
      assert s[1..] == a[1..] + p + b && before + a == before + [s[0]] + a[1..];
      WordStartThere(before + [s[0]], s[1..], p, a[1..], b);
    }
  }

  lemma WordStartIff(s: string, p: string)
    ensures WordStart("", s, p) <==> exists a, b :: IsAround(s, a, p, b) && EndsWord(a)
  {
    hide WordStart, IsAround, EndsWord;
    if WordStart("", s, p) {
      var a, b := WordStartFound("", s, p);
      assert "" + a == a;
    }
    if a, b :| IsAround(s, a, p, b) && EndsWord(a) {
      assert "" + a == a;
      WordStartThere("", s, p, a, b);
    }
  }

  /** The search finds exactly the lines that skip tests. */
  lemma NarrowsIff(line: string)
    ensures Narrows(line) <==> SkipsTests(line)
  {
    hide Contains, WordStart, IsAround, EndsWord;
    ContainsIff(line, ".skip(");
    ContainsIff(line, ".only(");
    WordStartIff(line, "xit(");
    WordStartIff(line, "xdescribe(");
  }

  /** An added line that skips tests: one plus sign before it, not the three of a file header. */
  ghost predicate AddsSkip(line: string) {
    line != "" && line[0] == '+' && !(|line| >= 3 && line[1] == '+' && line[2] == '+') && SkipsTests(line)
  }

  lemma AddsSkipIff(line: string)
    ensures IsAdded(line) && Narrows(line) <==> AddsSkip(line)
  {
    hide Narrows, SkipsTests;
    NarrowsIff(line);
  }

  // ---------- Resolving an import ----------

  function WithEach(stem: string, exts: seq<string>): seq<string> {
    seq(|exts|, i requires 0 <= i < |exts| => stem + exts[i])
  }

  /** The files an import specifier may name, in the order they are tried. */
  function Candidates(spec: string, fromDir: string): seq<string> {
    var p := NormPath(PathJoin(fromDir, spec));
    var (stem, ext) := SplitExt(p);
    [p]
    + (if ext in EMITTED_EXTS then WithEach(stem, SRC_EXTS) else [])
    + WithEach(p, SRC_EXTS)
    + WithEach(p + "/index", SRC_EXTS)
  }

  function SixSources(stem: string): seq<string> {
    [stem + ".ts", stem + ".tsx", stem + ".js", stem + ".jsx", stem + ".mts", stem + ".cts"]
  }

  lemma WithSourceExts(stem: string)
    ensures WithEach(stem, SRC_EXTS) == SixSources(stem)
  {
  }

  predicate IsEmitted(ext: string) {
    ext == ".js" || ext == ".jsx" || ext == ".mjs" || ext == ".cjs"
  }

  /**
    What an import specifier may name, in order: the path itself; for an emitted file's name the
    sources it may have been emitted from; the path with a source extension; and the index file
    of a directory of that path.
  */
  lemma CandidatesAre(spec: string, fromDir: string)
    ensures var p := NormPath(PathJoin(fromDir, spec));
            && (forall stem, ext :: IsEmitted(ext) && HasName(stem) && p == stem + ext ==>
                  Candidates(spec, fromDir) == [p] + SixSources(stem) + SixSources(p) + SixSources(p + "/index"))
            && ((forall stem, ext :: IsEmitted(ext) && HasName(stem) ==> p != stem + ext) ==>
                  Candidates(spec, fromDir) == [p] + SixSources(p) + SixSources(p + "/index"))
  {
    hide NormPath, PathJoin, SplitExt, HasName, SixSources, WithEach;
    var p := NormPath(PathJoin(fromDir, spec));
    var (s, e) := SplitExt(p);
    WithSourceExts(s);
    WithSourceExts(p);
    WithSourceExts(p + "/index");
    SplitExtParts(p);
    assert e in EMITTED_EXTS <==> IsEmitted(e) by { EmittedIff(e); }
    forall stem, ext | IsEmitted(ext) && HasName(stem) && p == stem + ext ensures s == stem && e == ext {
      assert '.' !in ext[1..] && '/' !in ext;
      SplitExtOf(stem, ext);
    }
    if !IsEmitted(e) {
      assert [p] + [] == [p];
    }
  }

  lemma EmittedIff(ext: string)
    ensures ext in EMITTED_EXTS <==> IsEmitted(ext)
  {
  }

  function FirstIn(cands: seq<string>, tree: set<string>): (r: Option<string>)
    ensures r.Some? ==> exists i :: 0 <= i < |cands| && cands[i] == r.value && r.value in tree
                                    && forall k :: 0 <= k < i ==> cands[k] !in tree
    ensures r.None? ==> forall k :: 0 <= k < |cands| ==> cands[k] !in tree
  {
    if cands == [] then None
    else if cands[0] in tree then Some(cands[0])
    else
      var r := FirstIn(cands[1..], tree);
      assert r.Some? ==> forall i :: 0 <= i < |cands[1..]| ==> cands[1..][i] == cands[i + 1];
      r
  }

  function ResolvedTo(spec: string, fromDir: string, tree: set<string>): Option<string> {
    FirstIn(Candidates(spec, fromDir), tree)
  }

  method Resolve(spec: string, fromDir: string, tree: set<string>) returns (file: Option<string>)
    ensures file == ResolvedTo(spec, fromDir, tree)
  {
    hide Candidates;
    var cands := Candidates(spec, fromDir);
    var i := 0;
    while i < |cands|
      invariant 0 <= i <= |cands|
      invariant FirstIn(cands, tree) == FirstIn(cands[i..], tree)
    {
      if cands[i] in tree {
        return Some(cands[i]);
      }
      assert cands[i..][1..] == cands[i + 1..];
      i := i + 1;
    }
    file := None;
  }

  // ---------- Name match ----------

  /** The source files that would go by the first `n` dotted parts of the test's name. */
  function NameCandidates(dir: string, parts: seq<string>, n: nat): seq<string>
    requires n <= |parts|
  {
    seq(|SRC_EXTS|, i requires 0 <= i < |SRC_EXTS| => PathJoin(dir, JoinWith(parts[..n], '.') + SRC_EXTS[i]))
  }

  function TestParts(test: string): seq<string> {
    SplitOn(Stem(SplitPath(test).1), '.')
  }

  function NameMatchUpto(dir: string, parts: seq<string>, n: nat, deleted: set<string>): Option<string>
    requires n <= |parts|
  {
    if n == 0 then None
    else
      var hit := FirstIn(NameCandidates(dir, parts, n), deleted);
      if hit.Some? then hit else NameMatchUpto(dir, parts, n - 1, deleted)
  }

  /** The deleted source next to the test with its stem, dotted qualifiers stripped one at a time. */
  function NameMatched(test: string, deleted: set<string>): Option<string> {
    var parts := TestParts(test);
    NameMatchUpto(SplitPath(test).0, parts, |parts|, deleted)
  }

  method NameMatch(test: string, deleted: set<string>) returns (source: Option<string>)
    ensures source == NameMatched(test, deleted)
  {
    hide TestParts, SplitPath, NameCandidates;
    var dir := SplitPath(test).0;
    var all := TestParts(test);
    var parts := all;
    while parts != []
      invariant parts == all[..|parts|] && |parts| <= |all|
      invariant NameMatchUpto(dir, all, |parts|, deleted) == NameMatched(test, deleted)
      decreases |parts|
    {
      var cands := NameCandidates(dir, all, |parts|);
      var i := 0;
      while i < |cands|
        invariant 0 <= i <= |cands|
        invariant FirstIn(cands, deleted) == FirstIn(cands[i..], deleted)
      {
        if cands[i] in deleted {
          return Some(cands[i]);
        }
        assert cands[i..][1..] == cands[i + 1..];
        i := i + 1;
      }
      parts := parts[..|parts| - 1];
    }
    source := None;
  }

  /** `source` has the first `n` dotted parts of the test's stem and a source extension, in the test's directory. */
  ghost predicate NamesSource(test: string, n: nat, source: string) {
    n <= |TestParts(test)| && source in NameCandidates(SplitPath(test).0, TestParts(test), n)
  }

  lemma {:induction false} NameMatchIsLongest(test: string, n: nat, deleted: set<string>)
    requires n <= |TestParts(test)|
    ensures var r := NameMatchUpto(SplitPath(test).0, TestParts(test), n, deleted);
            && (r.Some? ==>
                  && r.value in deleted
                  && (exists k :: 1 <= k <= n && NamesSource(test, k, r.value)
                                  && (forall m, s :: k < m <= n && s in deleted ==> !NamesSource(test, m, s))))
            && (r.None? ==> forall m, s :: 1 <= m <= n && s in deleted ==> !NamesSource(test, m, s))
  {
    hide NameCandidates, TestParts, SplitPath;
    if n > 0 {
      var cands := NameCandidates(SplitPath(test).0, TestParts(test), n);
      var hit := FirstIn(cands, deleted);
      if hit.Some? {
        assert NamesSource(test, n, hit.value);
      } else {
        NameMatchIsLongest(test, n - 1, deleted);
        forall s | s in deleted ensures !NamesSource(test, n, s) {
          assert forall k :: 0 <= k < |cands| ==> cands[k] !in deleted;
        }
      }
    }
  }

  lemma StemOf(stem: string, suffix: string)
    requires suffix in TEST_SUFFIXES
    ensures Stem(stem + suffix) == stem
  {
    var base := stem + suffix;
    assert base[..|stem|] == stem && base[|stem|..] == suffix;
    assert base[|base| - 1] == suffix[|suffix| - 1];
  }

  /**
    The documented rule: for a test `dir/a.b.c.test.ts` the sources `dir/a.b.c.ts`, `dir/a.b.ts`,
    `dir/a.ts` count, with any source extension, and these are all that do.
  */
  lemma NameRule(dir: string, parts: seq<string>, suffix: string, n: nat, source: string)
    requires dir != "" && dir[|dir| - 1] != '/'
    requires suffix in {".test.ts", ".test.tsx", ".spec.ts", ".spec.tsx"} && parts != []
    requires forall p :: p in parts ==> '.' !in p && '/' !in p
    requires 1 <= n <= |parts|
    ensures NamesSource(dir + "/" + JoinWith(parts, '.') + suffix, n, source)
       <==> HasSourceExt(dir + "/" + JoinWith(parts[..n], '.'), source)
  {
    SourceExtIff(dir + "/" + JoinWith(parts[..n], '.'), source);
    hide TestParts, SplitPath, JoinWith, PathJoin, HasSourceExt;
    IsASuffix(suffix);
    PartsOfTest(dir, parts, suffix);
    var listed := WithEach(dir + "/" + JoinWith(parts[..n], '.'), SRC_EXTS);
    forall i | 0 <= i < |SRC_EXTS| ensures NameCandidates(dir, parts, n)[i] == listed[i] {
      CandidateIs(dir, parts[..n], i);
    }
    assert NameCandidates(dir, parts, n) == listed;
  }

  /** `file` is `stem` with one of the six source extensions. */
  predicate HasSourceExt(stem: string, file: string) {
    || file == stem + ".ts"
    || file == stem + ".tsx"
    || file == stem + ".js"
    || file == stem + ".jsx"
    || file == stem + ".mts"
    || file == stem + ".cts"
  }

  lemma SourceExtIff(stem: string, file: string)
    ensures HasSourceExt(stem, file) <==> file in WithEach(stem, SRC_EXTS)
  {
    var all := WithEach(stem, SRC_EXTS);
    assert all == [stem + ".ts", stem + ".tsx", stem + ".js", stem + ".jsx", stem + ".mts", stem + ".cts"];
  }

  /** The same for a test at the root of the repository. */
  lemma NameRuleAtRoot(parts: seq<string>, suffix: string, n: nat, source: string)
    requires suffix in {".test.ts", ".test.tsx", ".spec.ts", ".spec.tsx"} && parts != []
    requires forall p :: p in parts ==> '.' !in p && '/' !in p
    requires 1 <= n <= |parts|
    ensures NamesSource(JoinWith(parts, '.') + suffix, n, source)
       <==> HasSourceExt(JoinWith(parts[..n], '.'), source)
  {
    hide TestParts, SplitPath, JoinWith, PathJoin, HasSourceExt;
    var base := JoinWith(parts, '.') + suffix;
    SourceExtIff(JoinWith(parts[..n], '.'), source);
    IsASuffix(suffix);
    JoinLacksSlash(parts);
    SuffixLacksSlash(suffix);
    SplitPathOfName(base);
    StemOf(JoinWith(parts, '.'), suffix);
    TestPartsAre(base, JoinWith(parts, '.'));
    SplitOfJoin(parts, '.');
    var listed := WithEach(JoinWith(parts[..n], '.'), SRC_EXTS);
    JoinLacksSlash(parts[..n]);
    forall i | 0 <= i < |SRC_EXTS| ensures NameCandidates("", parts, n)[i] == listed[i] {
      RootCandidateIs(JoinWith(parts[..n], '.'), i);
    }
    assert NameCandidates("", parts, n) == listed;
  }

  lemma IsASuffix(suffix: string)
    ensures suffix in TEST_SUFFIXES <==> suffix in {".test.ts", ".test.tsx", ".spec.ts", ".spec.tsx"}
  {
  }

  lemma TestPartsAre(base: string, stem: string)
    requires SplitPath(base).1 == base && Stem(base) == stem
    ensures TestParts(base) == SplitOn(stem, '.')
  {
  }

  lemma RootCandidateIs(stem: string, i: nat)
    requires i < |SRC_EXTS| && '/' !in stem
    ensures PathJoin("", stem + SRC_EXTS[i]) == stem + SRC_EXTS[i]
  {
    var e := SRC_EXTS[i];
    assert e[0] == '.';
    var file := stem + e;
    assert file[0] == (if stem == "" then e[0] else stem[0]);
    assert "" + file == file;
  }

  lemma PartsOfTest(dir: string, parts: seq<string>, suffix: string)
    requires dir != "" && dir[|dir| - 1] != '/'
    requires suffix in TEST_SUFFIXES && parts != []
    requires forall p :: p in parts ==> '.' !in p && '/' !in p
    ensures var test := dir + "/" + JoinWith(parts, '.') + suffix;
            SplitPath(test).0 == dir && TestParts(test) == parts
  {
    hide SplitPath, Stem, JoinWith, SplitOn;
    var base := JoinWith(parts, '.') + suffix;
    assert dir + "/" + JoinWith(parts, '.') + suffix == dir + "/" + base;
    JoinLacksSlash(parts);
    SuffixLacksSlash(suffix);
    SplitPathAt(dir, base);
    StemOf(JoinWith(parts, '.'), suffix);
    SplitOfJoin(parts, '.');
  }

  lemma CandidateIs(dir: string, parts: seq<string>, i: nat)
    requires dir != "" && dir[|dir| - 1] != '/' && i < |SRC_EXTS|
    requires forall p :: p in parts ==> '/' !in p
    ensures PathJoin(dir, JoinWith(parts, '.') + SRC_EXTS[i]) == dir + "/" + JoinWith(parts, '.') + SRC_EXTS[i]
  {
    hide JoinWith;
    JoinLacksSlash(parts);
    var stem, e := JoinWith(parts, '.'), SRC_EXTS[i];
    assert e[0] == '.';
    var file := stem + e;
    assert file[0] == (if stem == "" then e[0] else stem[0]);
    assert dir + "/" + file == dir + "/" + stem + e;
  }

  lemma {:induction false} JoinLacksSlash(parts: seq<string>)
    requires forall p :: p in parts ==> '/' !in p
    ensures '/' !in JoinWith(parts, '.')
  {
    if parts != [] {
      assert parts[0] in parts;
      JoinLacksSlash(parts[1..]);
    }
  }

  lemma SuffixLacksSlash(suffix: string)
    requires suffix in TEST_SUFFIXES
    ensures '/' !in suffix
  {
    assert forall i :: 0 <= i < |suffix| ==> suffix[i] != '/';
  }

  // ---------- The decision ----------

  /** What git reports, and the relative imports of each test file at the base. */
  datatype Diff = Diff(
    testLines: seq<string>, deletedTests: seq<string>, deletedFiles: set<string>, baseTree: set<string>,
    imports: map<string, seq<string>>)

  function ImportsOf(d: Diff, test: string): seq<string> {
    if test in d.imports then d.imports[test] else []
  }

  function DeletedSources(d: Diff): set<string> {
    set f | f in d.deletedFiles && !IsTestName(f)
  }

  /** Deleted sources are the deleted files that are no tests, by any of the four suffixes. */
  lemma DeletedSourcesIff(d: Diff, f: string)
    ensures f in DeletedSources(d) <==>
              f in d.deletedFiles
              && !EndsWith(f, ".test.ts") && !EndsWith(f, ".test.tsx")
              && !EndsWith(f, ".spec.ts") && !EndsWith(f, ".spec.tsx")
  {
    hide EndsWith;
    assert TEST_SUFFIXES[0] == ".test.ts" && TEST_SUFFIXES[1] == ".test.tsx";
    assert TEST_SUFFIXES[2] == ".spec.ts" && TEST_SUFFIXES[3] == ".spec.tsx";
  }

  /** The import is resolved in the base tree, to a deleted source. */
  predicate ImportDeleted(spec: string, fromDir: string, deleted: set<string>, tree: set<string>) {
    var r := ResolvedTo(spec, fromDir, tree);
    r.Some? && r.value in deleted
  }

  method ImportMatch(test: string, specs: seq<string>, deleted: set<string>, tree: set<string>) returns (ok: bool)
    ensures ok <==> specs != [] && forall s :: s in specs ==> ImportDeleted(s, DirName(test), deleted, tree)
  {
    hide ResolvedTo, DirName;
    if specs == [] {
      return false;
    }
    var dir := DirName(test);
    var hits, kept: seq<string> := [], [];
    for i := 0 to |specs|
      invariant kept == [] <==> forall s :: s in specs[..i] ==> ImportDeleted(s, dir, deleted, tree)
    {
      var r := Resolve(specs[i], dir, tree);
      assert ImportDeleted(specs[i], dir, deleted, tree) <==> r.Some? && r.value in deleted;
      if r.Some? && r.value in deleted {
        hits := hits + [r.value];
      } else {
        kept := kept + [if r.None? then specs[i] else r.value];
      }
      assert specs[..i + 1] == specs[..i] + [specs[i]];
      assert specs[i] in specs[..i + 1];
      assert forall s :: s in specs[..i + 1] ==> s in specs[..i] || s == specs[i];
      assert forall s :: s in specs[..i] ==> s in specs[..i + 1];
    }
    assert specs[..|specs|] == specs;
    ok := kept == [];
  }

  /** A deleted source stands next to the deleted test under its stem or a dotted prefix of it. */
  ghost predicate NameWitness(d: Diff, test: string) {
    exists n, source :: 1 <= n && source in DeletedSources(d) && NamesSource(test, n, source)
  }

  /** The test imports something relative, and all of it is deleted. */
  ghost predicate ImportWitness(d: Diff, test: string) {
    && ImportsOf(d, test) != []
    && forall s :: s in ImportsOf(d, test) ==> ImportDeleted(s, DirName(test), DeletedSources(d), d.baseTree)
  }

  ghost predicate Justified(d: Diff, test: string) {
    NameWitness(d, test) || ImportWitness(d, test)
  }

  lemma NameMatchIff(d: Diff, test: string)
    ensures NameMatched(test, DeletedSources(d)).Some? <==> NameWitness(d, test)
  {
    hide NameCandidates, TestParts, SplitPath, DeletedSources;
    NameMatchIsLongest(test, |TestParts(test)|, DeletedSources(d));
  }

  /**
    The gate: exit 0 if and only if no added line of a test file narrows the suite and every
    deleted test is justified. The rejected list holds exactly the unjustified deletions.
  */
  method Gate(d: Diff) returns (exit: nat, rejected: seq<string>)
    ensures exit == 0 || exit == 1
    ensures exit == 0 <==> (forall l :: l in d.testLines ==> !AddsSkip(l))
                           && (forall t :: t in d.deletedTests ==> Justified(d, t))
    ensures forall t :: t in rejected <==> t in d.deletedTests && !Justified(d, t)
  {
    hide Narrows, IsAdded, AddsSkip, NameMatched, DirName, IsTestName, ResolvedTo;
    exit := 0;
    var hits: seq<string> := [];
    for i := 0 to |d.testLines|
      invariant hits == [] <==> forall l :: l in d.testLines[..i] ==> !AddsSkip(l)
    {
      AddsSkipIff(d.testLines[i]);
      if IsAdded(d.testLines[i]) && Narrows(d.testLines[i]) {
        hits := hits + [d.testLines[i]];
      }
      assert d.testLines[..i + 1] == d.testLines[..i] + [d.testLines[i]];
    }
    assert d.testLines[..|d.testLines|] == d.testLines;
    if hits != [] {
      exit := 1;
    }
    rejected := [];
    var deletedSrc := DeletedSources(d);
    for i := 0 to |d.deletedTests|
      invariant forall t :: t in rejected <==> t in d.deletedTests[..i] && !Justified(d, t)
    {
      var t := d.deletedTests[i];
      NameMatchIff(d, t);
      assert d.deletedTests[..i + 1] == d.deletedTests[..i] + [t];
      var source := NameMatch(t, deletedSrc);
      if source.Some? {
        continue;
      }
      var ok := ImportMatch(t, ImportsOf(d, t), deletedSrc, d.baseTree);
      if ok {
        continue;
      }
      rejected := rejected + [t];
    }
    assert d.deletedTests[..|d.deletedTests|] == d.deletedTests;
    if rejected != [] {
      assert rejected[0] in rejected;
      exit := 1;
    }
  }

  // ---------- Fail-closed ----------

  /** Deleting more files never turns an allowed test deletion into a rejected one. */
  lemma MoreDeletionsStayAllowed(d: Diff, more: set<string>, test: string)
    requires d.deletedFiles <= more && Justified(d, test)
    ensures Justified(d.(deletedFiles := more), test)
  {
    hide NameCandidates, TestParts, SplitPath, IsTestName, ResolvedTo, DirName;
    var e := d.(deletedFiles := more);
    assert DeletedSources(d) <= DeletedSources(e);
    if NameWitness(d, test) {
      var n, source :| 1 <= n && source in DeletedSources(d) && NamesSource(test, n, source);
      assert source in DeletedSources(e) && NamesSource(test, n, source);
    }
  }

  lemma {:induction false} ExtraFileKeepsFirst(cands: seq<string>, tree: set<string>, extra: string, hit: string)
    requires FirstIn(cands, tree + {extra}) == Some(hit) && hit != extra
    ensures FirstIn(cands, tree) == Some(hit)
  {
    if cands != [] && cands[0] != hit {
      ExtraFileKeepsFirst(cands[1..], tree, extra, hit);
    }
  }

  /** A kept file more in the base tree never turns a rejected test deletion into an allowed one. */
  lemma KeptFileNeverHelps(d: Diff, kept: string, test: string)
    requires kept !in DeletedSources(d) && Justified(d.(baseTree := d.baseTree + {kept}), test)
    ensures Justified(d, test)
  {
    hide NameCandidates, TestParts, SplitPath, IsTestName, DirName, Candidates;
    var e := d.(baseTree := d.baseTree + {kept});
    assert DeletedSources(e) == DeletedSources(d);
    if NameWitness(e, test) {
      var n, source :| 1 <= n && source in DeletedSources(e) && NamesSource(test, n, source);
      assert source in DeletedSources(d) && NamesSource(test, n, source);
    } else {
      forall s | s in ImportsOf(d, test)
        ensures ImportDeleted(s, DirName(test), DeletedSources(d), d.baseTree)
      {
        assert s in ImportsOf(e, test);
        var hit := ResolvedTo(s, DirName(test), e.baseTree).value;
        ExtraFileKeepsFirst(Candidates(s, DirName(test)), d.baseTree, kept, hit);
      }
    }
  }

  /** A test is never its own justification: no witness is itself a test file. */
  lemma WitnessIsNotATest(d: Diff, test: string)
    ensures NameMatched(test, DeletedSources(d)).Some? ==>
              var s := NameMatched(test, DeletedSources(d)).value; s in d.deletedFiles && !IsTestName(s)
    ensures forall spec :: ImportDeleted(spec, DirName(test), DeletedSources(d), d.baseTree) ==>
              !IsTestName(ResolvedTo(spec, DirName(test), d.baseTree).value)
  {
    hide NameCandidates, TestParts, SplitPath, IsTestName;
    NameMatchIsLongest(test, |TestParts(test)|, DeletedSources(d));
  }
}
