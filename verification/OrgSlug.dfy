/**
  From an organisation's name to its slug, from the slug to the /w/<slug> path, and from the
  path back to the selection.
*/
module OrgSlug {
  import opened Options
  import opened Text

  predicate SlugChar(c: char) {
    'a' <= c <= 'z' || IsDigit(c)
  }

  /** `s.replace(/[^a-z0-9]+/g, '-')`: every run of other characters becomes one hyphen. */
  function Collapse(s: string): string {
    if s == "" then ""
    else if SlugChar(s[0]) then [s[0]] + Collapse(s[1..])
    else
      var rest := Collapse(s[1..]);
      if |s| > 1 && !SlugChar(s[1]) then rest else "-" + rest
  }

  function DropLeading(s: string): string {
    if s != "" && s[0] == '-' then DropLeading(s[1..]) else s
  }

  function DropTrailing(s: string): string {
    if s != "" && s[|s| - 1] == '-' then DropTrailing(s[..|s| - 1]) else s
  }

  /** What is left of a lower-cased name before it is cut to 41 characters. */
  function Hyphenated(lowered: string): string {
    DropTrailing(DropLeading(Collapse(lowered)))
  }

  const MAX_SLUG: nat := 41

  function Cut(s: string): string {
    if |s| <= MAX_SLUG then s else s[..MAX_SLUG]
  }

  /** `slugifyOrg`; `lower` is `toLowerCase`. */
  function SlugifyOrg(lower: string -> string, name: string): string {
    Cut(Hyphenated(lower(name)))
  }

  /** All `toLowerCase` needs to do here: leave lower-case slugs as they are. */
  ghost predicate KeepsSlugs(lower: string -> string) {
    forall s :: (forall i :: 0 <= i < |s| ==> SlugChar(s[i]) || s[i] == '-') ==> lower(s) == s
  }

  /** Slug characters and single hyphens. */
  predicate Hyphened(s: string) {
    && (forall i :: 0 <= i < |s| ==> SlugChar(s[i]) || s[i] == '-')
    && (forall i :: 0 <= i < |s| - 1 ==> s[i] != '-' || s[i + 1] != '-')
  }

  predicate LeadsWell(s: string) {
    s == "" || s[0] != '-'
  }

  predicate EndsInHyphen(s: string) {
    s != "" && s[|s| - 1] == '-'
  }

  /** The server's rule: `^[a-z0-9][a-z0-9-]{1,40}$`. */
  predicate ServerRule(s: string) {
    2 <= |s| <= 41 && SlugChar(s[0]) && forall i :: 1 <= i < |s| ==> SlugChar(s[i]) || s[i] == '-'
  }

  lemma {:induction false} CollapseHyphened(s: string)
    ensures Hyphened(Collapse(s))
    ensures s != "" && SlugChar(s[0]) ==> Collapse(s) != "" && Collapse(s)[0] == s[0]
  {
    if s != "" {
      CollapseHyphened(s[1..]);
      var rest := Collapse(s[1..]);
      assert |s| > 1 ==> s[1..][0] == s[1];
    }
  }

  lemma {:induction false} CollapseFixed(s: string)
    requires Hyphened(s)
    ensures Collapse(s) == s
  {
    if s != "" {
      assert Hyphened(s[1..]) by {
        assert forall i :: 0 <= i < |s[1..]| ==> s[1..][i] == s[i + 1];
      }
      CollapseFixed(s[1..]);
    }
  }

  lemma {:induction false} DropLeadingWell(s: string)
    requires Hyphened(s)
    ensures Hyphened(DropLeading(s)) && LeadsWell(DropLeading(s))
    ensures LeadsWell(s) ==> DropLeading(s) == s
  {
    if s != "" && s[0] == '-' {
      assert forall i :: 0 <= i < |s[1..]| ==> s[1..][i] == s[i + 1];
      DropLeadingWell(s[1..]);
    }
  }

  lemma {:induction false} DropTrailingWell(s: string)
    requires Hyphened(s) && LeadsWell(s)
    ensures var r := DropTrailing(s);
            Hyphened(r) && LeadsWell(r) && !EndsInHyphen(r) && (r == s || (EndsInHyphen(s) && r == s[..|s| - 1]))
  {
    if EndsInHyphen(s) {
      var t := s[..|s| - 1];
      assert t != "" ==> t[|t| - 1] == s[|s| - 2] && s[|s| - 2] != '-';
      DropTrailingWell(t);
    }
  }

  lemma HyphenatedWell(lowered: string)
    ensures var h := Hyphenated(lowered); Hyphened(h) && LeadsWell(h) && !EndsInHyphen(h)
  {
    CollapseHyphened(lowered);
    DropLeadingWell(Collapse(lowered));
    DropTrailingWell(DropLeading(Collapse(lowered)));
  }

  /** The maximal runs of slug characters, in order. */
  function Runs(s: string): seq<string> {
    if s == "" then []
    else if !SlugChar(s[0]) then Runs(s[1..])
    else
      var rest := Runs(s[1..]);
      if |s| > 1 && SlugChar(s[1]) && rest != [] then [[s[0]] + rest[0]] + rest[1..]
      else [[s[0]]] + rest
  }

  lemma FirstRun(s: string)
    ensures s != "" && SlugChar(s[0]) ==> Runs(s) != []
  {
  }

  lemma {:induction false} RunsStart(s: string)
    ensures forall r :: r in Runs(s) ==> r != "" && forall i :: 0 <= i < |r| ==> SlugChar(r[i])
  {
    if s != "" {
      RunsStart(s[1..]);
      var rest := Runs(s[1..]);
      assert rest != [] ==> rest[0] in rest;
      assert |s| > 1 ==> s[1..][0] == s[1];
    }
  }

  /** Edge hyphens that `Collapse` leaves around the joined runs. */
  function Edge(c: char): string {
    if SlugChar(c) then "" else "-"
  }

  lemma {:induction false} CollapseIsRuns(s: string)
    requires s != ""
    ensures Collapse(s) == if Runs(s) == [] then "-"
                           else Edge(s[0]) + JoinWith(Runs(s), '-') + Edge(s[|s| - 1])
    ensures Runs(s) == [] ==> !SlugChar(s[|s| - 1])
    decreases |s|
  {
    hide Collapse, Runs, JoinWith;
    if |s| == 1 {
      CollapseOne(s);
    } else {
      var t := s[1..];
      CollapseIsRuns(t);
      Unfolded(s);
      var rest, last := Runs(t), Edge(s[|s| - 1]);
      assert last == Edge(t[|t| - 1]) && t[0] == s[1];
      FirstRun(t);
      if SlugChar(s[0]) {
        CollapseLetter(s, rest, last);
      } else {
        CollapseOther(s, rest, last);
      }
    }
  }

  lemma CollapseOne(s: string)
    requires |s| == 1
    ensures Collapse(s) == if SlugChar(s[0]) then s else "-"
    ensures Runs(s) == if SlugChar(s[0]) then [s] else []
    ensures JoinWith([s], '-') == s
  {
    assert s[1..] == "" && s == [s[0]];
    assert Collapse("") == "" && Runs("") == [];
  }

  lemma Unfolded(s: string)
    requires |s| > 1
    ensures Collapse(s) == if SlugChar(s[0]) then [s[0]] + Collapse(s[1..])
                           else if SlugChar(s[1]) then "-" + Collapse(s[1..]) else Collapse(s[1..])
    ensures var rest := Runs(s[1..]);
            Runs(s) == if !SlugChar(s[0]) then rest
                       else if SlugChar(s[1]) && rest != [] then [[s[0]] + rest[0]] + rest[1..]
                       else [[s[0]]] + rest
  {
  }

  lemma CollapseOther(s: string, rest: seq<string>, last: string)
    requires |s| > 1 && !SlugChar(s[0]) && rest == Runs(s[1..])
    requires Collapse(s[1..]) == if rest == [] then "-" else Edge(s[1]) + JoinWith(rest, '-') + last
    requires SlugChar(s[1]) ==> rest != []
    ensures Collapse(s) == if rest == [] then "-" else "-" + JoinWith(rest, '-') + last
    ensures Runs(s) == rest
  {
    hide Collapse, Runs, JoinWith;
    Unfolded(s);
    if SlugChar(s[1]) {
      var j := JoinWith(rest, '-');
      assert "" + j == j;
      Associates("-", j, last);
    }
  }

  lemma CollapseLetter(s: string, rest: seq<string>, last: string)
    requires |s| > 1 && SlugChar(s[0]) && rest == Runs(s[1..]) && (SlugChar(s[1]) ==> rest != [])
    requires Collapse(s[1..]) == if rest == [] then "-" else Edge(s[1]) + JoinWith(rest, '-') + last
    requires rest == [] ==> last == "-"
    ensures Runs(s) != [] && Collapse(s) == JoinWith(Runs(s), '-') + last
  {
    hide Collapse, Runs, JoinWith;
    Unfolded(s);
    var c, j := [s[0]], JoinWith(rest, '-');
    if rest == [] {
      JoinOne(c);
      assert [c] + rest == [c];
    } else if SlugChar(s[1]) {
      JoinFirst(s[0], rest);
      assert "" + j == j;
      Associates(c, j, last);
    } else {
      JoinMore(c, rest);
      Associates(c, "-" + j, last);
      Associates(c, "-", j);
    }
  }

  lemma Associates(a: string, b: string, c: string)
    ensures a + (b + c) == a + b + c
  {
  }

  lemma JoinOne(part: string)
    ensures JoinWith([part], '-') == part
  {
  }

  lemma JoinMore(part: string, rest: seq<string>)
    requires rest != []
    ensures JoinWith([part] + rest, '-') == part + "-" + JoinWith(rest, '-')
  {
    assert ([part] + rest)[1..] == rest;
  }

  lemma JoinFirst(c: char, parts: seq<string>)
    requires parts != []
    ensures JoinWith([[c] + parts[0]] + parts[1..], '-') == [c] + JoinWith(parts, '-')
  {
    var q := [[c] + parts[0]] + parts[1..];
    assert q[1..] == parts[1..];
  }

  lemma {:induction false} JoinedRunEnds(parts: seq<string>)
    requires parts != []
    requires forall r :: r in parts ==> r != "" && forall i :: 0 <= i < |r| ==> SlugChar(r[i])
    ensures var j := JoinWith(parts, '-'); j != "" && j[0] != '-' && j[|j| - 1] != '-'
  {
    assert parts[0] in parts;
    if |parts| > 1 {
      JoinedRunEnds(parts[1..]);
    }
  }

  /** The letters and digits of a text. */
  function Letters(s: string): string {
    if s == "" then "" else (if SlugCode(s[0]) then [s[0]] else "") + Letters(s[1..])
  }

  function Flattened(parts: seq<string>): string {
    if parts == [] then "" else parts[0] + Flattened(parts[1..])
  }

  /** The runs hold every letter and digit of the text, in order. */
  lemma {:induction false} RunsHoldLetters(s: string)
    ensures Flattened(Runs(s)) == Letters(s)
  {
    if s != "" {
      RunsHoldLetters(s[1..]);
      var rest := Runs(s[1..]);
      if SlugChar(s[0]) {
        if |s| > 1 && SlugChar(s[1]) && rest != [] {
          var q := [[s[0]] + rest[0]] + rest[1..];
          assert q[1..] == rest[1..];
          assert Flattened(q) == [s[0]] + rest[0] + Flattened(rest[1..]);
        } else {
          assert ([[s[0]]] + rest)[1..] == rest;
        }
      }
    }
  }

  /** Before the cut, a slug is the runs of letters and digits of the lower-cased name joined by single hyphens. */
  lemma HyphenatedIsRuns(lowered: string)
    ensures Hyphenated(lowered) == JoinWith(Runs(lowered), '-')
  {
    hide Collapse, Runs, JoinWith, DropTrailing;
    if lowered == "" {
      NoRuns();
    } else {
      var runs := Runs(lowered);
      CollapseHyphened(lowered);
      CollapseIsRuns(lowered);
      RunsStart(lowered);
      DropLeadingWell(Collapse(lowered));
      if runs == [] {
        LoneHyphen();
      } else {
        JoinedRunEnds(runs);
        TrimEdges(Edge(lowered[0]), JoinWith(runs, '-'), Edge(lowered[|lowered| - 1]));
      }
    }
  }

  lemma NoRuns()
    ensures Hyphenated("") == JoinWith(Runs(""), '-')
  {
  }

  lemma LoneHyphen()
    ensures DropTrailing(DropLeading("-")) == "" && JoinWith([], '-') == ""
  {
    assert DropLeading("-") == DropLeading("");
  }

  lemma TrimEdges(head: string, j: string, tail: string)
    requires head in {"", "-"} && tail in {"", "-"} && j != "" && j[0] != '-' && j[|j| - 1] != '-'
    ensures DropTrailing(DropLeading(head + j + tail)) == j
  {
    assert DropLeading(j + tail) == j + tail;
    if head == "" {
      assert head + j + tail == j + tail;
    } else {
      assert (head + j + tail)[1..] == j + tail;
    }
    assert DropTrailing(j) == j;
    if tail == "" {
      assert j + tail == j;
    } else {
      assert (j + tail)[..|j|] == j;
    }
  }

  /** Every slug has slug characters and single hyphens only, none of them first, and at most 41 in all. */
  lemma SlugShape(lower: string -> string, name: string)
    ensures var s := SlugifyOrg(lower, name); Hyphened(s) && LeadsWell(s) && |s| <= MAX_SLUG
  {
    HyphenatedWell(lower(name));
  }

  /** A slug can only end in a hyphen because the cut at 41 fell right after one. */
  lemma TrailingHyphenIff(lower: string -> string, name: string)
    ensures var h := Hyphenated(lower(name));
            EndsInHyphen(SlugifyOrg(lower, name)) <==> |h| > MAX_SLUG && h[MAX_SLUG - 1] == '-'
  {
    HyphenatedWell(lower(name));
  }

  /** The length check of the form is the whole of the server's rule. */
  lemma LongEnoughIsAccepted(lower: string -> string, name: string)
    ensures |SlugifyOrg(lower, name)| >= 2 <==> ServerRule(SlugifyOrg(lower, name))
  {
    SlugShape(lower, name);
  }

  /** A slug slugged again only loses a trailing hyphen. */
  lemma SlugAgain(lower: string -> string, s: string)
    requires KeepsSlugs(lower) && Hyphened(s) && LeadsWell(s) && |s| <= MAX_SLUG
    ensures SlugifyOrg(lower, s) == if EndsInHyphen(s) then s[..|s| - 1] else s
    ensures !EndsInHyphen(SlugifyOrg(lower, s))
  {
    assert lower(s) == s;
    CollapseFixed(s);
    DropLeadingWell(s);
    DropTrailingWell(s);
  }

  /** Slugging is not idempotent exactly when it is cut right after a hyphen; the second time settles it. */
  lemma SlugSettles(lower: string -> string, name: string)
    requires KeepsSlugs(lower)
    ensures var h := Hyphenated(lower(name));
            var once := SlugifyOrg(lower, name);
            var twice := SlugifyOrg(lower, once);
            && SlugifyOrg(lower, twice) == twice
            && (twice != once <==> |h| > MAX_SLUG && h[MAX_SLUG - 1] == '-')
  {
    SlugShape(lower, name);
    TrailingHyphenIff(lower, name);
    var once := SlugifyOrg(lower, name);
    SlugAgain(lower, once);
    SlugShape(lower, once);
    SlugAgain(lower, SlugifyOrg(lower, once));
  }

  /** Forty letters, a space and one more letter: the cut leaves a hyphen that a second slugging takes off. */
  lemma SlugMayLoseItsHyphen(lower: string -> string)
    requires KeepsSlugs(lower) && lower(LONG_NAME) == LONG_NAME
    ensures SlugifyOrg(lower, LONG_NAME) == FORTY + "-"
    ensures SlugifyOrg(lower, FORTY + "-") == FORTY
  {
    hide Collapse;
    CollapseAround(FORTY, " ", "a");
    CollapseOne("a");
    var h := FORTY + "-" + "a";
    assert FORTY[0] == 'a' && h[0] == 'a' && h[|h| - 1] == 'a';
    assert Cut(h) == FORTY + "-";
    SlugAgain(lower, FORTY + "-");
    assert (FORTY + "-")[..40] == FORTY;
  }

  const FORTY: string := seq(40, _ => 'a')

  const LONG_NAME: string := FORTY + " " + "a"

  lemma {:induction false} CollapseAround(a: string, gap: string, b: string)
    requires |gap| == 1 && !SlugChar(gap[0]) && b != "" && SlugChar(b[0])
    requires forall i :: 0 <= i < |a| ==> SlugChar(a[i])
    ensures Collapse(a + gap + b) == a + "-" + Collapse(b)
  {
    var s := a + gap + b;
    if a == "" {
      assert s[1..] == b;
    } else {
      assert s[1..] == a[1..] + gap + b;
      CollapseAround(a[1..], gap, b);
      assert [a[0]] + (a[1..] + "-" + Collapse(b)) == a + "-" + Collapse(b);
    }
  }

  // ---------- The workspace path ----------

  /** `[a-z0-9][a-z0-9-]{0,40}`. */
  predicate PathSlug(s: string) {
    1 <= |s| <= 41 && SlugChar(s[0]) && forall i :: 1 <= i < |s| ==> SlugChar(s[i]) || s[i] == '-'
  }

  /** `^\/w\/([a-z0-9][a-z0-9-]{0,40})\/?$`. */
  function WorkspaceFromPath(pathname: string): Option<string> {
    if !("/w/" <= pathname) then None
    else
      var rest := pathname[3..];
      if PathSlug(rest) then Some(rest)
      else if rest != "" && rest[|rest| - 1] == '/' && PathSlug(rest[..|rest| - 1]) then Some(rest[..|rest| - 1])
      else None
  }

  predicate SlugCode(c: char) {
    0x61 <= c as int <= 0x7A || 0x30 <= c as int <= 0x39
  }

  /** The workspace paths: /w/ and a slug of 1 to 41 characters, no hyphen first, and perhaps one more slash. */
  lemma WorkspaceFromPathIff(pathname: string, w: string)
    ensures WorkspaceFromPath(pathname) == Some(w) <==>
              && (pathname == "/w/" + w || pathname == "/w/" + w + "/")
              && 1 <= |w| <= 41 && SlugCode(w[0])
              && forall i :: 1 <= i < |w| ==> SlugCode(w[i]) || w[i] == '-'
  {
    PathSlugIff(w);
    hide PathSlug, WorkspaceFromPath;
    if WorkspaceFromPath(pathname) == Some(w) { PathIsOfSlug(pathname, w); }
    if PathSlug(w) { SlugHasPath(w); }
  }

  lemma SlugHasPath(w: string)
    requires PathSlug(w)
    ensures WorkspaceFromPath("/w/" + w) == Some(w) && WorkspaceFromPath("/w/" + w + "/") == Some(w)
  {
    assert "/w/" + w + "/" == "/w/" + (w + "/");
    PathOf(w);
    PathOf(w + "/");
    SlashIsNoSlug(w + "/");
    assert (w + "/")[..|w|] == w;
  }

  lemma PathIsOfSlug(pathname: string, w: string)
    requires WorkspaceFromPath(pathname) == Some(w)
    ensures PathSlug(w) && (pathname == "/w/" + w || pathname == "/w/" + w + "/")
  {
    hide PathSlug;
    var rest := pathname[3..];
    assert pathname == "/w/" + rest;
    if !PathSlug(rest) {
      assert rest == w + "/";
      assert "/w/" + (w + "/") == "/w/" + w + "/";
    }
  }

  lemma PathSlugIff(w: string)
    ensures PathSlug(w) <==> 1 <= |w| <= 41 && SlugCode(w[0])
                             && forall i :: 1 <= i < |w| ==> SlugCode(w[i]) || w[i] == '-'
  {
  }

  /** A slug of any name, once long enough to be used, is read back from its path, slash or no slash. */
  lemma PathRecoversSlug(lower: string -> string, name: string)
    requires SlugifyOrg(lower, name) != ""
    ensures var s := SlugifyOrg(lower, name);
            WorkspaceFromPath("/w/" + s) == Some(s) && WorkspaceFromPath("/w/" + s + "/") == Some(s)
  {
    SlugShape(lower, name);
    SlugHasPath(SlugifyOrg(lower, name));
  }

  lemma PathOf(w: string)
    ensures "/w/" <= "/w/" + w && ("/w/" + w)[3..] == w
  {
    var p := "/w/" + w;
    assert p[..3] == "/w/";
  }

  /** The pathname of a target: the router takes everything from the first `?` or `#` on as query and hash. */
  function PathnameOf(target: string): (p: string)
    ensures p <= target
    ensures '?' !in p && '#' !in p
    ensures p == target || target[|p|] in "?#"
  {
    if target == "" || target[0] in "?#" then "" else [target[0]] + PathnameOf(target[1..])
  }

  /** The one way to cut a target so: what the contract of `PathnameOf` says determines it. */
  lemma PathnameIs(target: string, p: string)
    requires p <= target && '?' !in p && '#' !in p && (p == target || target[|p|] in "?#")
    ensures PathnameOf(target) == p
  {
    var q := PathnameOf(target);
    assert q == target[..|q|] && p == target[..|p|];
    assert forall i :: 0 <= i < |p| ==> target[i] == p[i] && p[i] in p;
    assert forall i :: 0 <= i < |q| ==> target[i] == q[i] && q[i] in q;
  }

  /** A slug, with or without one final slash. */
  predicate SlugOrSlashed(w: string) {
    PathSlug(w) || (w != "" && w[|w| - 1] == '/' && PathSlug(w[..|w| - 1]))
  }

  /** The pathname of a workspace's target, and when another workspace is read back from it. */
  lemma PathReadsBack(w: string)
    ensures PathnameOf("/w/" + w) == "/w/" + PathnameOf(w)
    ensures WorkspaceFromPath("/w/" + PathnameOf(w)) in {None, Some(w)}
       <==> PathSlug(w) || !SlugOrSlashed(PathnameOf(w))
  {
    var core := PathnameOf(w);
    PathOf(core);
    PathnameIs("/w/" + w, "/w/" + core) by {
      assert forall c :: c in "/w/" + core ==> c in "/w/" || c in core;
      assert core != w ==> ("/w/" + w)[3 + |core|] == w[|core|];
    }
    if PathSlug(w) {
      assert forall i :: 0 <= i < |w| ==> w[i] !in "?#";
      assert core == w;
    } else if PathSlug(core) {
      assert core != w;
    } else if SlugOrSlashed(core) {
      assert core == w ==> core[..|core| - 1] != w;
      assert '?' !in core;
      SlashedIsNot(w, core);
    }
  }

  lemma SlashedIsNot(w: string, core: string)
    requires core <= w && core != ""
    ensures core[..|core| - 1] != w
  {
    assert |core| <= |w|;
  }

  /** The board's selection, the address bar and what is remembered for the next visit. */
  datatype App = App(selected: seq<string>, pathname: string, stored: seq<string>, storedOne: string)

  /** The effect that runs whenever the path changes. */
  function PathSeen(a: App): App {
    var w := WorkspaceFromPath(a.pathname);
    if w.Some? then a.(selected := [w.value]) else a
  }

  predicate OnBoard(pathname: string) {
    pathname == "/" || WorkspaceFromPath(pathname).Some?
  }

  /** Going to a target: the effect runs if the pathname is a new one. */
  function Navigated(a: App, target: string): App {
    var path := PathnameOf(target);
    if path == a.pathname then a else PathSeen(a.(pathname := path))
  }

  /** A new selection: remembered, shown in the address bar when on the board, and read back from it. */
  function WorkspacesChanged(a: App, next: seq<string>): App {
    var b := a.(selected := next, stored := next, storedOne := if |next| == 1 then next[0] else "all");
    var target := if |next| == 1 then "/w/" + next[0] else "/";
    if OnBoard(a.pathname) && a.pathname != target then Navigated(b, target) else b
  }

  class AppContent {
    var selectedWorkspaces: seq<string>
    var pathname: string
    var storedWorkspaces: seq<string>
    var storedWorkspace: string

    function View(): App
      reads this
    {
      App(selectedWorkspaces, pathname, storedWorkspaces, storedWorkspace)
    }

    constructor (a: App)
      ensures View() == a
    {
      selectedWorkspaces, pathname := a.selected, a.pathname;
      storedWorkspaces, storedWorkspace := a.stored, a.storedOne;
    }

    method RouterNavigate(target: string)
      modifies this
      ensures View() == Navigated(old(View()), target)
    {
      var path := PathnameOf(target);
      if path != pathname {
        pathname := path;
        var fromPath := WorkspaceFromPath(pathname);
        if fromPath.Some? {
          selectedWorkspaces := [fromPath.value];
        }
      }
    }

    method HandleWorkspacesChange(next: seq<string>)
      modifies this
      ensures View() == WorkspacesChanged(old(View()), next)
    {
      selectedWorkspaces := next;
      storedWorkspaces := next;
      storedWorkspace := if |next| == 1 then next[0] else "all";
      if pathname == "/" || WorkspaceFromPath(pathname).Some? {
        var target := if |next| == 1 then "/w/" + next[0] else "/";
        if pathname != target {
          RouterNavigate(target);
        }
      }
    }
  }

  /**
    Changing the selection keeps exactly what was chosen, through the address bar and back,
    unless on the board one workspace is chosen that is no slug itself while its name up to the
    first `?` or `#` is a slug, perhaps with a slash after it, and not the one in the address bar.
  */
  lemma SelectionKeptIff(a: App, next: seq<string>)
    ensures WorkspacesChanged(a, next).selected == next
       <==> !(OnBoard(a.pathname) && |next| == 1 && !PathSlug(next[0])
              && SlugOrSlashed(PathnameOf(next[0])) && a.pathname != "/w/" + PathnameOf(next[0]))
  {
    hide PathSlug, SlugOrSlashed;
    if |next| == 1 {
      PathReadsBack(next[0]);
      if OnBoard(a.pathname) {
        BoardPathIsCut(a.pathname);
      }
      assert next == [next[0]];
    } else {
      PathnameIs("/", "/");
      assert WorkspaceFromPath("/") == None;
    }
  }

  /** Several workspaces, or none: kept and remembered as chosen, and the board goes to the root path. */
  lemma ManyAreRemembered(a: App, next: seq<string>)
    requires |next| != 1
    ensures var b := WorkspacesChanged(a, next);
            && b.selected == next && b.stored == next && b.storedOne == "all"
            && b.pathname == (if a.pathname == "/" || WorkspaceFromPath(a.pathname).Some? then "/" else a.pathname)
  {
    PathnameIs("/", "/");
    assert WorkspaceFromPath("/") == None;
  }

  /** Away from the board a choice is remembered and the path stays. */
  lemma AwayPathStays(a: App, next: seq<string>)
    requires a.pathname != "/" && WorkspaceFromPath(a.pathname).None?
    ensures var b := WorkspacesChanged(a, next);
            && b == a.(selected := next, stored := next, storedOne := b.storedOne)
            && b.storedOne == if |next| == 1 then next[0] else "all"
  {
  }

  /** A board path holds neither a query nor a hash. */
  lemma BoardPathIsCut(pathname: string)
    requires OnBoard(pathname)
    ensures PathnameOf(pathname) == pathname
  {
    var rest := if pathname == "/" then "" else pathname[3..];
    assert forall i :: 3 <= i < |pathname| ==> pathname[i] == rest[i - 3];
    PathnameIs(pathname, pathname);
  }

  /** From the board of all workspaces, a slug with a query or a slash after it selects the bare slug. */
  lemma TailIsDropped(a: App, slug: string)
    requires a.pathname == "/" && PathSlug(slug)
    ensures WorkspacesChanged(a, [slug + "?x"]).selected == [slug] != [slug + "?x"]
    ensures WorkspacesChanged(a, [slug + "/"]).selected == [slug] != [slug + "/"]
  {
    hide PathSlug, PathnameOf;
    SlugIsPathname(slug);
    ReadsTail(slug, "?x");
    ReadsTail(slug, "/");
    assert |slug + "?x"| == |slug| + 2 && |slug + "/"| == |slug| + 1;
  }

  lemma SlugIsPathname(slug: string)
    requires PathSlug(slug)
    ensures '?' !in slug && '#' !in slug && '/' !in slug && PathnameOf(slug) == slug
  {
    assert forall i :: 0 <= i < |slug| ==> slug[i] !in "?#/";
    PathnameIs(slug, slug);
  }

  lemma ReadsTail(slug: string, tail: string)
    requires PathSlug(slug) && tail in {"?x", "/"}
    ensures var path := PathnameOf("/w/" + (slug + tail));
            path != "/" && WorkspaceFromPath(path) == Some(slug) && "/w/" + (slug + tail) != "/"
  {
    hide PathSlug;
    var w := slug + tail;
    var core := if tail == "/" then w else slug;
    SlugIsPathname(slug);
    assert core <= w && (core == w || w[|core|] == '?');
    PathnameIs(w, core);
    PathReadsBack(w);
    PathOf(core);
    assert (slug + "/")[..|slug|] == slug && (slug + "/")[|slug|] == '/';
    if tail == "/" {
      SlashIsNoSlug(w);
    }
  }

  lemma SlashIsNoSlug(w: string)
    requires w != "" && w[|w| - 1] == '/'
    ensures !PathSlug(w)
  {
  }

  /** Creating an organisation and opening it selects it, wherever the board was. */
  lemma NewOrganisationIsSelected(a: App, lower: string -> string, name: string)
    requires |SlugifyOrg(lower, name)| >= 2
    ensures var slug := SlugifyOrg(lower, name);
            var b := WorkspacesChanged(a, [slug]);
            && b.selected == [slug] && b.stored == [slug] && b.storedOne == slug
            && (OnBoard(a.pathname) ==> WorkspaceFromPath(b.pathname) == Some(slug))
  {
    var slug := SlugifyOrg(lower, name);
    SlugShape(lower, name);
    PathRecoversSlug(lower, name);
    PathReadsBack(slug);
    SlugIsPathname(slug);
  }
}
