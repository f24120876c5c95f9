/**
  What the transcripts of one objective say about the models its sessions really ran on:
  which files belong to it, the merged turn counts, and the `ran_model` list.
*/
module TranscriptEvidence {
  import opened Options
  import opened Text

  const FALLBACK: string := "claude-sonnet-5"

  // ---------- Evidence in one transcript ----------

  /** What the stream analyser reports: turns per model (first seen first), explicit switches, result model. */
  datatype Attribution = Attribution(turns: seq<(string, nat)>, switches: seq<string>, resultModel: Option<string>)

  /** A transcript file; `content` is None when it cannot be read. */
  datatype File = File(name: string, content: Option<Attribution>)

  function TurnsOf(entries: seq<(string, nat)>, model: string): nat {
    if entries == [] then 0
    else (if entries[0].0 == model then entries[0].1 else 0) + TurnsOf(entries[1..], model)
  }

  /** The main loop itself ran on the fallback model. */
  predicate DetectsFallback(attr: Attribution, requested: Option<string>) {
    && requested.Some? && requested.value != "" && requested.value != FALLBACK
    && (TurnsOf(attr.turns, FALLBACK) > 0
        || FALLBACK in attr.switches
        || (attr.turns == [] && attr.resultModel == Some(FALLBACK)))
  }

  lemma {:induction false} TurnsOfPositive(entries: seq<(string, nat)>, m: string)
    ensures TurnsOf(entries, m) > 0 <==> exists n :: n > 0 && (m, n) in entries
  {
    if entries != [] {
      TurnsOfPositive(entries[1..], m);
      forall n ensures (m, n) in entries <==> (m, n) == entries[0] || (m, n) in entries[1..] {}
    }
  }

  /**
    When the main loop counts as run on the fallback: some other model was asked for, and the
    stream shows turns of the fallback, or a switch to it, or no turns at all and it as the
    model of the result.
  */
  lemma DetectsFallbackIff(attr: Attribution, requested: Option<string>)
    ensures DetectsFallback(attr, requested) <==>
              && requested !in {None, Some(""), Some("claude-sonnet-5")}
              && (|| (exists n :: n > 0 && ("claude-sonnet-5", n) in attr.turns)
                  || "claude-sonnet-5" in attr.switches
                  || (|attr.turns| == 0 && attr.resultModel == Some("claude-sonnet-5")))
  {
    TurnsOfPositive(attr.turns, FALLBACK);
  }

  function CountOf(s: seq<string>, x: string): (n: nat)
    ensures n == multiset(s)[x]
  {
    if s == [] then 0
    else
      assert s == [s[0]] + s[1..];
      (if s[0] == x then 1 else 0) + CountOf(s[1..], x)
  }

  // ---------- Which files belong to an objective ----------

  function FilePrefix(id: nat): string {
    "cc-" + Decimal(id) + "-"
  }

  predicate Belongs(name: string, id: nat) {
    FilePrefix(id) <= name && |name| >= 6 && name[|name| - 6..] == ".jsonl"
  }

  lemma DashEndsNumeral(x: string, y: string, rest: string)
    requires x + "-" <= rest && y <= rest
    requires forall c :: c in y ==> IsDigit(c)
    ensures |y| <= |x|
  {
    assert rest[|x|] == (x + "-")[|x|] == '-';
    assert forall i :: 0 <= i < |y| ==> rest[i] == y[i] && y[i] in y;
  }

  /** A transcript belongs to at most one objective: the decimal id in its name decodes uniquely. */
  lemma BelongsToOne(name: string, a: nat, b: nat)
    requires Belongs(name, a) && Belongs(name, b)
    ensures a == b
  {
    var x, y := Decimal(a), Decimal(b);
    var rest := name[3..];
    assert x + "-" <= rest && y + "-" <= rest;
    DashEndsNumeral(x, y, rest);
    DashEndsNumeral(y, x, rest);
    assert x == rest[..|x|] == y;
    DecimalInjective(a, b);
  }

  predicate NamedAfter(name: string, id: nat, run: string) {
    name == "cc-" + Decimal(id) + "-" + run + ".jsonl"
  }

  /** The names of an objective's transcripts, read from both ends. */
  lemma BelongsIff(name: string, id: nat)
    ensures Belongs(name, id) <==> exists run :: NamedAfter(name, id, run)
  {
    hide Decimal;
    var head, tail := "cc-" + Decimal(id) + "-", ".jsonl";
    if Belongs(name, id) {
      var n := |name| - 6;
      if |head| > n {
        DashInTail(head, tail, name);
      }
      assert name == head + name[|head|..n] + tail;
      assert NamedAfter(name, id, name[|head|..n]);
    }
    if run :| NamedAfter(name, id, run) {
      assert |tail| == 6 && name[..|head|] == head && name[|name| - 6..] == tail;
      assert FilePrefix(id) == head && FilePrefix(id) <= name;
    }
  }

  lemma DashInTail(head: string, tail: string, name: string)
    requires head != "" && head[|head| - 1] == '-' && head <= name
    requires |tail| <= |name| && name[|name| - |tail|..] == tail
    requires |head| > |name| - |tail|
    ensures '-' in tail
  {
    var k := |head| - 1 - (|name| - |tail|);
    assert name[|head| - 1] == head[|head| - 1];
    assert tail[k] == name[|name| - |tail|..][k];
  }

  function FilesOf(files: seq<File>, id: nat): (r: seq<File>)
    ensures forall f :: f in r <==> f in files && Belongs(f.name, id)
  {
    if files == [] then []
    else if Belongs(files[0].name, id) then [files[0]] + FilesOf(files[1..], id)
    else FilesOf(files[1..], id)
  }

  lemma {:induction false} FilesOfCount(files: seq<File>, id: nat, f: File)
    ensures multiset(FilesOf(files, id))[f] == if Belongs(f.name, id) then multiset(files)[f] else 0
  {
    hide Belongs;
    if files != [] {
      FilesOfCount(files[1..], id, f);
      assert files == [files[0]] + files[1..];
    }
  }

  /** Listing the directory in another order lists each objective's files in another order. */
  lemma FilesOfReordered(a: seq<File>, b: seq<File>, id: nat)
    requires multiset(a) == multiset(b)
    ensures multiset(FilesOf(a, id)) == multiset(FilesOf(b, id)) && |FilesOf(a, id)| == |FilesOf(b, id)|
  {
    hide FilesOf;
    forall f ensures multiset(FilesOf(a, id))[f] == multiset(FilesOf(b, id))[f] {
      FilesOfCount(a, id, f);
      FilesOfCount(b, id, f);
    }
    var own, others := FilesOf(a, id), FilesOf(b, id);
    assert multiset(own) == multiset(others);
    assert |multiset(own)| == |own| && |multiset(others)| == |others|;
  }

  // ---------- Merging the transcripts of one objective ----------

  predicate DistinctModels(entries: seq<(string, nat)>) {
    forall i, j :: 0 <= i < j < |entries| ==> entries[i].0 != entries[j].0
  }

  function Models(entries: seq<(string, nat)>): seq<string> {
    seq(|entries|, i requires 0 <= i < |entries| => entries[i].0)
  }

  /** `total[m] = (total[m] ?? 0) + n`, keeping the order in which models were first seen. */
  function AddTurns(total: seq<(string, nat)>, model: string, n: nat): seq<(string, nat)> {
    if total == [] then [(model, n)]
    else if total[0].0 == model then [(model, total[0].1 + n)] + total[1..]
    else [total[0]] + AddTurns(total[1..], model, n)
  }

  function AddAll(total: seq<(string, nat)>, entries: seq<(string, nat)>): seq<(string, nat)>
    decreases entries
  {
    if entries == [] then total else AddAll(AddTurns(total, entries[0].0, entries[0].1), entries[1..])
  }

  lemma {:induction false} AddTurnsSums(total: seq<(string, nat)>, model: string, n: nat, m: string)
    ensures TurnsOf(AddTurns(total, model, n), m) == TurnsOf(total, m) + (if m == model then n else 0)
    ensures m in Models(AddTurns(total, model, n)) <==> m in Models(total) || m == model
  {
    var r := AddTurns(total, model, n);
    assert r != [];
    assert Models(r) == [r[0].0] + Models(r[1..]);
    if total == [] {
      assert r[1..] == [];
    } else {
      assert Models(total) == [total[0].0] + Models(total[1..]);
      if total[0].0 == model {
        assert r[1..] == total[1..];
      } else {
        assert r[1..] == AddTurns(total[1..], model, n);
        AddTurnsSums(total[1..], model, n, m);
      }
    }
  }

  lemma DistinctCons(e: (string, nat), rest: seq<(string, nat)>)
    ensures DistinctModels([e] + rest) <==> DistinctModels(rest) && e.0 !in Models(rest)
  {
    var s := [e] + rest;
    assert s[1..] == rest;
    if DistinctModels(s) {
      forall i, j | 0 <= i < j < |rest| ensures rest[i].0 != rest[j].0 {
        assert s[i + 1] == rest[i] && s[j + 1] == rest[j];
      }
      forall i | 0 <= i < |rest| ensures Models(rest)[i] != e.0 { assert s[i + 1] == rest[i] && s[0] == e; }
    }
    if DistinctModels(rest) && e.0 !in Models(rest) {
      forall i, j | 0 <= i < j < |s| ensures s[i].0 != s[j].0 {
        assert s[j] == rest[j - 1] && Models(rest)[j - 1] == s[j].0;
      }
    }
  }

  lemma {:induction false} AddTurnsDistinct(total: seq<(string, nat)>, model: string, n: nat)
    requires DistinctModels(total)
    ensures DistinctModels(AddTurns(total, model, n))
  {
    if total != [] {
      var e, rest := total[0], total[1..];
      assert total == [e] + rest;
      DistinctCons(e, rest);
      if e.0 == model {
        DistinctCons((model, e.1 + n), rest);
      } else {
        AddTurnsDistinct(rest, model, n);
        AddTurnsSums(rest, model, n, e.0);
        DistinctCons(e, AddTurns(rest, model, n));
      }
    }
  }

  lemma {:induction false} AddAllDistinct(total: seq<(string, nat)>, entries: seq<(string, nat)>)
    requires DistinctModels(total)
    ensures DistinctModels(AddAll(total, entries))
    decreases entries
  {
    if entries != [] {
      AddTurnsDistinct(total, entries[0].0, entries[0].1);
      AddAllDistinct(AddTurns(total, entries[0].0, entries[0].1), entries[1..]);
    }
  }

  datatype Tally = Tally(turns: seq<(string, nat)>, genuine: nat, switches: nat)

  function Scanned(t: Tally, f: File, requested: Option<string>): Tally {
    if f.content.None? then t
    else
      var attr := f.content.value;
      Tally(AddAll(t.turns, attr.turns),
            t.genuine + (if DetectsFallback(attr, requested) then 1 else 0),
            t.switches + CountOf(attr.switches, FALLBACK))
  }

  function TallyOf(files: seq<File>, requested: Option<string>): (t: Tally) {
    if files == [] then Tally([], 0, 0)
    else Scanned(TallyOf(files[..|files| - 1], requested), files[|files| - 1], requested)
  }

  lemma {:induction false} TallyDistinct(files: seq<File>, requested: Option<string>)
    ensures DistinctModels(TallyOf(files, requested).turns)
  {
    if files != [] {
      var k := |files| - 1;
      TallyDistinct(files[..k], requested);
      if files[k].content.Some? {
        AddAllDistinct(TallyOf(files[..k], requested).turns, files[k].content.value.turns);
      }
    }
  }

  method Scan(files: seq<File>, requested: Option<string>) returns (t: Tally)
    ensures t == TallyOf(files, requested)
  {
    var total: seq<(string, nat)> := [];
    var genuine: nat, switches: nat := 0, 0;
    var i := 0;
    while i < |files|
      invariant 0 <= i <= |files|
      invariant Tally(total, genuine, switches) == TallyOf(files[..i], requested)
    {
      assert files[..i + 1][..i] == files[..i];
      var f := files[i];
      if f.content.Some? {
        var attr := f.content.value;
        var j := 0;
        ghost var before := total;
        while j < |attr.turns|
          invariant 0 <= j <= |attr.turns|
          invariant AddAll(total, attr.turns[j..]) == AddAll(before, attr.turns)
        {
          total := AddTurns(total, attr.turns[j].0, attr.turns[j].1);
          j := j + 1;
        }
        switches := switches + CountOf(attr.switches, FALLBACK);
        if DetectsFallback(attr, requested) {
          genuine := genuine + 1;
        }
      }
      i := i + 1;
    }
    assert files[..i] == files;
    t := Tally(total, genuine, switches);
  }

  lemma {:induction false} AddAllSums(total: seq<(string, nat)>, entries: seq<(string, nat)>, m: string)
    ensures TurnsOf(AddAll(total, entries), m) == TurnsOf(total, m) + TurnsOf(entries, m)
    ensures m in Models(AddAll(total, entries)) <==> m in Models(total) || m in Models(entries)
    decreases entries
  {
    if entries != [] {
      AddTurnsSums(total, entries[0].0, entries[0].1, m);
      AddAllSums(AddTurns(total, entries[0].0, entries[0].1), entries[1..], m);
      assert Models(entries) == [entries[0].0] + Models(entries[1..]);
    }
  }

  function FileTurns(f: File, m: string): nat {
    if f.content.None? then 0 else TurnsOf(f.content.value.turns, m)
  }

  function TurnsBy(m: string): File -> nat {
    f => FileTurns(f, m)
  }

  function GenuineBy(requested: Option<string>): File -> nat {
    (f: File) => if f.content.Some? && DetectsFallback(f.content.value, requested) then 1 else 0
  }

  function SwitchesBy(): File -> nat {
    (f: File) => if f.content.Some? then CountOf(f.content.value.switches, FALLBACK) else 0
  }

  function SumBy(files: seq<File>, g: File -> nat): nat {
    if files == [] then 0 else g(files[0]) + SumBy(files[1..], g)
  }

  function SumTurns(files: seq<File>, m: string): nat {
    SumBy(files, TurnsBy(m))
  }

  lemma {:induction false} SumSplits(a: seq<File>, b: seq<File>, g: File -> nat)
    ensures SumBy(a + b, g) == SumBy(a, g) + SumBy(b, g)
  {
    if a == [] {
      assert a + b == b;
    } else {
      assert (a + b)[1..] == a[1..] + b;
      SumSplits(a[1..], b, g);
    }
  }

  lemma SumLast(files: seq<File>, g: File -> nat)
    requires files != []
    ensures var k := |files| - 1; SumBy(files, g) == SumBy(files[..k], g) + g(files[k])
  {
    var k := |files| - 1;
    assert files == files[..k] + [files[k]];
    SumSplits(files[..k], [files[k]], g);
    assert SumBy([files[k]], g) == g(files[k]) + SumBy([], g);
  }

  /** The merged totals are the per-model sums over the files. */
  lemma {:induction false} TotalsAreSums(files: seq<File>, requested: Option<string>, m: string)
    ensures TurnsOf(TallyOf(files, requested).turns, m) == SumTurns(files, m)
    ensures m in Models(TallyOf(files, requested).turns)
       <==> exists f :: f in files && f.content.Some? && m in Models(f.content.value.turns)
  {
    if files != [] {
      var k := |files| - 1;
      var init, last := files[..k], files[k];
      assert files == init + [last];
      TotalsAreSums(init, requested, m);
      SumLast(files, TurnsBy(m));
      if last.content.Some? {
        AddAllSums(TallyOf(init, requested).turns, last.content.value.turns, m);
      }
      assert forall f :: f in files <==> f in init || f == last;
    }
  }

  /** The counts of genuine sessions and of switches are sums over the files as well. */
  lemma {:induction false} CountsAreSums(files: seq<File>, requested: Option<string>)
    ensures TallyOf(files, requested).genuine == SumBy(files, GenuineBy(requested))
    ensures TallyOf(files, requested).switches == SumBy(files, SwitchesBy())
  {
    if files != [] {
      hide DetectsFallback, CountOf;
      CountsAreSums(files[..|files| - 1], requested);
      SumLast(files, GenuineBy(requested));
      SumLast(files, SwitchesBy());
    }
  }

  lemma {:induction false} SumIgnoresOrder(a: seq<File>, b: seq<File>, g: File -> nat)
    requires multiset(a) == multiset(b)
    ensures SumBy(a, g) == SumBy(b, g)
    decreases |a|
  {
    assert |multiset(a)| == |a| && |multiset(b)| == |b|;
    if a != [] {
      var i := PlaceOfHead(a, b);
      TakeOut(b, i, g);
      SumIgnoresOrder(a[1..], b[..i] + b[i + 1..], g);
    }
  }

  lemma PlaceOfHead(a: seq<File>, b: seq<File>) returns (i: nat)
    requires a != [] && multiset(a) == multiset(b)
    ensures i < |b| && b[i] == a[0] && multiset(a[1..]) == multiset(b) - multiset{b[i]}
  {
    assert a[0] in multiset(b);
    i :| 0 <= i < |b| && b[i] == a[0];
    assert a == [a[0]] + a[1..];
  }

  lemma TakeOut(s: seq<File>, i: nat, g: File -> nat)
    requires i < |s|
    ensures var rest := s[..i] + s[i + 1..];
            && multiset(rest) == multiset(s) - multiset{s[i]}
            && SumBy(s, g) == g(s[i]) + SumBy(rest, g)
  {
    var rest := s[..i] + s[i + 1..];
    var tail := [s[i]] + s[i + 1..];
    assert s == s[..i] + tail;
    assert multiset(s) == multiset(rest) + multiset{s[i]};
    SumSplits(s[..i], tail, g);
    SumSplits(s[..i], s[i + 1..], g);
    assert tail[1..] == s[i + 1..];
  }

  /** Directory order does not matter: any rearrangement of the files gives the same counts and totals. */
  lemma TotalsIgnoreOrder(a: seq<File>, b: seq<File>, requested: Option<string>)
    requires multiset(a) == multiset(b)
    ensures var s, t := TallyOf(a, requested), TallyOf(b, requested);
            && s.genuine == t.genuine && s.switches == t.switches
            && (forall m :: TurnsOf(s.turns, m) == TurnsOf(t.turns, m) == SumTurns(a, m))
            && multiset(s.turns) == multiset(t.turns)
  {
    hide TallyOf, TurnsOf;
    CountsAreSums(a, requested);
    CountsAreSums(b, requested);
    SumIgnoresOrder(a, b, GenuineBy(requested));
    SumIgnoresOrder(a, b, SwitchesBy());
    var s, t := TallyOf(a, requested).turns, TallyOf(b, requested).turns;
    forall f ensures f in a <==> f in b { assert f in multiset(a) <==> f in multiset(b); }
    forall m ensures TurnsOf(s, m) == TurnsOf(t, m) == SumTurns(a, m) && (m in Models(s) <==> m in Models(t)) {
      TotalsAreSums(a, requested, m);
      TotalsAreSums(b, requested, m);
      SumIgnoresOrder(a, b, TurnsBy(m));
    }
    TallyDistinct(a, requested);
    TallyDistinct(b, requested);
    SameTotals(s, t);
  }

  /** Two lists of distinct models with the same models and the same counts are rearrangements of each other. */
  lemma SameTotals(s: seq<(string, nat)>, t: seq<(string, nat)>)
    requires DistinctModels(s) && DistinctModels(t)
    requires forall m :: TurnsOf(s, m) == TurnsOf(t, m) && (m in Models(s) <==> m in Models(t))
    ensures multiset(s) == multiset(t)
  {
    hide TurnsOf, DistinctModels;
    forall e ensures multiset(s)[e] == multiset(t)[e] {
      EntryIff(s, e);
      EntryIff(t, e);
      if e in s {
        OnceInMultiset(s, e);
        OnceInMultiset(t, e);
      }
    }
  }

  lemma EntryIff(s: seq<(string, nat)>, e: (string, nat))
    requires DistinctModels(s)
    ensures e in s <==> e.0 in Models(s) && TurnsOf(s, e.0) == e.1
    ensures e in s <==> e in multiset(s)
  {
    hide TurnsOf;
    if e in s {
      var i :| 0 <= i < |s| && s[i] == e;
      assert Models(s)[i] == e.0;
      TurnsOfDistinct(s, e);
    }
    if e.0 in Models(s) {
      var i :| 0 <= i < |s| && Models(s)[i] == e.0;
      TurnsOfDistinct(s, s[i]);
    }
  }

  // ---------- ran_model ----------

  predicate Descending(entries: seq<(string, nat)>) {
    forall i, j :: 0 <= i < j < |entries| ==> entries[i].1 >= entries[j].1
  }

  /** Inserts before the first entry with fewer turns, so equal counts keep their order. */
  function InsertByTurns(e: (string, nat), s: seq<(string, nat)>): seq<(string, nat)> {
    if s == [] || s[0].1 < e.1 then [e] + s else [s[0]] + InsertByTurns(e, s[1..])
  }

  lemma {:induction false} InsertAddsOne(e: (string, nat), s: seq<(string, nat)>)
    ensures multiset(InsertByTurns(e, s)) == multiset{e} + multiset(s)
  {
    if s != [] && s[0].1 >= e.1 {
      InsertAddsOne(e, s[1..]);
      assert s == [s[0]] + s[1..];
    }
  }

  lemma DescendingCons(h: (string, nat), rest: seq<(string, nat)>)
    requires Descending(rest) && forall x :: x in rest ==> x.1 <= h.1
    ensures Descending([h] + rest)
  {
    var all := [h] + rest;
    forall i, j | 0 <= i < j < |all| ensures all[i].1 >= all[j].1 {
      assert all[j] == rest[j - 1] && rest[j - 1] in rest;
      if i > 0 {
        assert all[i] == rest[i - 1];
      }
    }
  }

  lemma DescendingParts(s: seq<(string, nat)>)
    requires Descending(s) && s != []
    ensures Descending(s[1..]) && forall x :: x in s ==> x.1 <= s[0].1
  {
    forall x | x in s ensures x.1 <= s[0].1 {
      var i :| 0 <= i < |s| && s[i] == x;
    }
  }

  lemma {:induction false} InsertKeepsDescending(e: (string, nat), s: seq<(string, nat)>)
    requires Descending(s)
    ensures Descending(InsertByTurns(e, s))
  {
    hide Descending;
    if s != [] {
      DescendingParts(s);
    }
    if s == [] || s[0].1 < e.1 {
      DescendingCons(e, s);
    } else {
      var rest := InsertByTurns(e, s[1..]);
      InsertKeepsDescending(e, s[1..]);
      InsertAddsOne(e, s[1..]);
      forall x | x in rest ensures x.1 <= s[0].1 {
        assert x in multiset(rest);
        assert x == e || x in s[1..];
      }
      DescendingCons(s[0], rest);
    }
  }

  /** `entries.sort((a, b) => b[1] - a[1])`, which is stable. */
  function SortByTurns(entries: seq<(string, nat)>): (r: seq<(string, nat)>)
    ensures Descending(r) && multiset(r) == multiset(entries)
  {
    if entries == [] then []
    else
      var k := |entries| - 1;
      assert entries == entries[..k] + [entries[k]];
      InsertKeepsDescending(entries[k], SortByTurns(entries[..k]));
      InsertAddsOne(entries[k], SortByTurns(entries[..k]));
      InsertByTurns(entries[k], SortByTurns(entries[..k]))
  }

  function WithCount(entries: seq<(string, nat)>, n: nat): seq<(string, nat)> {
    if entries == [] then []
    else (if entries[0].1 == n then [entries[0]] else []) + WithCount(entries[1..], n)
  }

  lemma {:induction false} NoneWithCount(entries: seq<(string, nat)>, n: nat)
    requires forall i :: 0 <= i < |entries| ==> entries[i].1 != n
    ensures WithCount(entries, n) == []
  {
    if entries != [] {
      NoneWithCount(entries[1..], n);
    }
  }

  lemma WithCountCons(e: (string, nat), rest: seq<(string, nat)>, n: nat)
    ensures WithCount([e] + rest, n) == (if e.1 == n then [e] else []) + WithCount(rest, n)
  {
    assert ([e] + rest)[1..] == rest;
  }

  lemma {:induction false} InsertGoesLast(e: (string, nat), s: seq<(string, nat)>, n: nat)
    requires Descending(s)
    ensures WithCount(InsertByTurns(e, s), n) == WithCount(s, n) + (if e.1 == n then [e] else [])
  {
    hide WithCount;
    if s == [] || s[0].1 < e.1 {
      WithCountCons(e, s, n);
      if e.1 == n {
        NoneWithCount(s, n);
      }
    } else {
      assert s == [s[0]] + s[1..];
      WithCountCons(s[0], s[1..], n);
      WithCountCons(s[0], InsertByTurns(e, s[1..]), n);
      InsertGoesLast(e, s[1..], n);
    }
  }

  lemma {:induction false} WithCountAppend(s: seq<(string, nat)>, e: (string, nat), n: nat)
    ensures WithCount(s + [e], n) == WithCount(s, n) + (if e.1 == n then [e] else [])
  {
    hide WithCount;
    if s == [] {
      assert s + [e] == [e] + [];
      WithCountCons(e, [], n);
      NoneWithCount(s, n);
    } else {
      WithCountAppend(s[1..], e, n);
      WithCountCons(s[0], s[1..], n);
      WithCountCons(s[0], s[1..] + [e], n);
      assert s + [e] == [s[0]] + (s[1..] + [e]);
      assert s == [s[0]] + s[1..];
    }
  }

  /** The sort is stable: models with equal counts stay in the order they were first seen. */
  lemma {:induction false} SortIsStable(entries: seq<(string, nat)>, n: nat)
    ensures WithCount(SortByTurns(entries), n) == WithCount(entries, n)
  {
    if entries != [] {
      var k := |entries| - 1;
      assert entries == entries[..k] + [entries[k]];
      SortIsStable(entries[..k], n);
      InsertGoesLast(entries[k], SortByTurns(entries[..k]), n);
      WithCountAppend(entries[..k], entries[k], n);
    }
  }

  // ---------- Which directory orders show in ran_model ----------

  /** Which of two models comes first in a list. */
  function FirstOf(entries: seq<(string, nat)>, x: string, y: string): (r: Option<string>)
    ensures r in {None, Some(x), Some(y)}
  {
    if entries == [] then None
    else if entries[0].0 in {x, y} then Some(entries[0].0)
    else FirstOf(entries[1..], x, y)
  }

  function FirstSome(a: Option<string>, b: Option<string>): Option<string> {
    if a.Some? then a else b
  }

  function FileFirst(f: File, x: string, y: string): Option<string> {
    if f.content.None? then None else FirstOf(f.content.value.turns, x, y)
  }

  /** Which of two models the files name first, in the order of the listing. */
  function FirstIn(files: seq<File>, x: string, y: string): Option<string> {
    if files == [] then None else FirstSome(FileFirst(files[0], x, y), FirstIn(files[1..], x, y))
  }

  ghost predicate Mentioned(files: seq<File>, m: string) {
    exists f :: f in files && f.content.Some? && m in Models(f.content.value.turns)
  }

  /** In every readable file that names either of the two, `x` comes first. */
  predicate Prefers(files: seq<File>, x: string, y: string) {
    forall f :: f in files ==> FileFirst(f, x, y) != Some(y)
  }

  /** Of two models with equal totals, one comes first in every readable file that names either. */
  ghost predicate OrderFixed(files: seq<File>) {
    forall x, y :: Mentioned(files, x) && Mentioned(files, y) && x != y && SumTurns(files, x) == SumTurns(files, y) ==>
      Prefers(files, x, y) || Prefers(files, y, x)
  }

  lemma {:induction false} FirstOfAdded(total: seq<(string, nat)>, m: string, n: nat, x: string, y: string)
    ensures FirstOf(AddTurns(total, m, n), x, y)
         == FirstSome(FirstOf(total, x, y), if m in {x, y} then Some(m) else None)
  {
    var r := AddTurns(total, m, n);
    if total == [] {
      assert r[1..] == [];
    } else if total[0].0 == m {
      assert r[1..] == total[1..];
    } else {
      FirstOfAdded(total[1..], m, n, x, y);
      assert r[1..] == AddTurns(total[1..], m, n);
    }
  }

  lemma {:induction false} FirstOfAll(total: seq<(string, nat)>, entries: seq<(string, nat)>, x: string, y: string)
    ensures FirstOf(AddAll(total, entries), x, y) == FirstSome(FirstOf(total, x, y), FirstOf(entries, x, y))
    decreases entries
  {
    if entries != [] {
      hide AddTurns;
      FirstOfAdded(total, entries[0].0, entries[0].1, x, y);
      FirstOfAll(AddTurns(total, entries[0].0, entries[0].1), entries[1..], x, y);
    }
  }

  lemma {:induction false} FirstInSplits(a: seq<File>, b: seq<File>, x: string, y: string)
    ensures FirstIn(a + b, x, y) == FirstSome(FirstIn(a, x, y), FirstIn(b, x, y))
  {
    if a == [] {
      assert a + b == b;
    } else {
      assert (a + b)[1..] == a[1..] + b;
      FirstInSplits(a[1..], b, x, y);
    }
  }

  /** Merging keeps the order in which models are first named. */
  lemma {:induction false} FirstOfTally(files: seq<File>, requested: Option<string>, x: string, y: string)
    ensures FirstOf(TallyOf(files, requested).turns, x, y) == FirstIn(files, x, y)
  {
    if files != [] {
      hide DetectsFallback, CountOf, FirstOf;
      var k := |files| - 1;
      var init, last := files[..k], files[k];
      FirstOfTally(init, requested, x, y);
      assert files == init + [last];
      FirstInSplits(init, [last], x, y);
      assert FirstIn([last], x, y) == FileFirst(last, x, y) by { assert [last][1..] == []; }
      if last.content.Some? {
        FirstOfAll(TallyOf(init, requested).turns, last.content.value.turns, x, y);
      }
    } else {
      assert TallyOf(files, requested).turns == [];
    }
  }

  lemma {:induction false} FirstOfCounted(entries: seq<(string, nat)>, n: nat, x: string, y: string)
    requires forall e :: e in entries && e.0 in {x, y} ==> e.1 == n
    ensures FirstOf(WithCount(entries, n), x, y) == FirstOf(entries, x, y)
  {
    if entries != [] {
      var e, rest := entries[0], entries[1..];
      assert e in entries;
      FirstOfCounted(rest, n, x, y);
      assert entries == [e] + rest;
      WithCountCons(e, rest, n);
      if e.1 == n {
        assert ([e] + WithCount(rest, n))[1..] == WithCount(rest, n);
      } else {
        assert [] + WithCount(rest, n) == WithCount(rest, n);
      }
    }
  }

  /** Sorting keeps the order of two models with equal counts. */
  lemma SortKeepsFirst(entries: seq<(string, nat)>, x: string, y: string)
    requires DistinctModels(entries) && TurnsOf(entries, x) == TurnsOf(entries, y)
    ensures FirstOf(SortByTurns(entries), x, y) == FirstOf(entries, x, y)
  {
    hide SortByTurns, FirstOf, WithCount, TurnsOf;
    var n, sorted := TurnsOf(entries, x), SortByTurns(entries);
    SameEntries(entries, sorted);
    forall e | e in entries && e.0 in {x, y} ensures e.1 == n { TurnsOfDistinct(entries, e); }
    FirstOfCounted(entries, n, x, y);
    FirstOfCounted(sorted, n, x, y);
    SortIsStable(entries, n);
  }

  function RanList(files: seq<File>, requested: Option<string>): seq<(string, nat)> {
    SortByTurns(TallyOf(files, requested).turns)
  }

  /** The sorted list names two models with equal totals in the order in which the files name them. */
  lemma FirstOfRan(files: seq<File>, requested: Option<string>, x: string, y: string)
    requires SumTurns(files, x) == SumTurns(files, y)
    ensures FirstOf(RanList(files, requested), x, y) == FirstIn(files, x, y)
  {
    hide SortByTurns, FirstOf, FirstIn, SumTurns, TurnsOf, TallyOf;
    TallyDistinct(files, requested);
    TotalsAreSums(files, requested, x);
    TotalsAreSums(files, requested, y);
    SortKeepsFirst(TallyOf(files, requested).turns, x, y);
    FirstOfTally(files, requested, x, y);
  }

  lemma {:induction false} FirstOfNamed(entries: seq<(string, nat)>, x: string, y: string)
    ensures FirstOf(entries, x, y).Some? <==> x in Models(entries) || y in Models(entries)
  {
    if entries != [] {
      FirstOfNamed(entries[1..], x, y);
      assert Models(entries) == [entries[0].0] + Models(entries[1..]);
    }
  }

  lemma {:induction false} FirstInPreferred(files: seq<File>, x: string, y: string)
    requires Prefers(files, x, y)
    ensures FirstIn(files, x, y) == if Mentioned(files, x) || Mentioned(files, y) then Some(x) else None
  {
    if files != [] {
      hide FirstOf;
      var f, rest := files[0], files[1..];
      forall g | g in rest ensures g in files {}
      FirstInPreferred(rest, x, y);
      assert f in files;
      if f.content.Some? {
        FirstOfNamed(f.content.value.turns, x, y);
      }
      forall m ensures Mentioned(files, m) <==>
                       Mentioned(rest, m) || (f.content.Some? && m in Models(f.content.value.turns)) {
        assert forall g :: g in files <==> g == f || g in rest;
      }
    }
  }

  lemma SameFiles(a: seq<File>, b: seq<File>)
    requires multiset(a) == multiset(b)
    ensures forall f :: f in a <==> f in b
    ensures forall m :: Mentioned(a, m) <==> Mentioned(b, m)
    ensures forall m :: SumTurns(a, m) == SumTurns(b, m)
  {
    hide SumTurns;
    forall f ensures f in a <==> f in b { assert f in multiset(a) <==> f in multiset(b); }
    forall m ensures SumTurns(a, m) == SumTurns(b, m) { SumTurnsReordered(a, b, m); }
  }

  lemma SumTurnsReordered(a: seq<File>, b: seq<File>, m: string)
    requires multiset(a) == multiset(b)
    ensures SumTurns(a, m) == SumTurns(b, m)
  {
    SumIgnoresOrder(a, b, TurnsBy(m));
  }

  /** Tied entries are ordered alike. */
  ghost predicate SameTies(r: seq<(string, nat)>, s: seq<(string, nat)>) {
    forall d, e :: d in r && e in r && d.0 != e.0 && d.1 == e.1 ==> FirstOf(r, d.0, e.0) == FirstOf(s, d.0, e.0)
  }

  lemma SameHead(r: seq<(string, nat)>, s: seq<(string, nat)>)
    requires multiset(r) == multiset(s) && Descending(r) && Descending(s) && DistinctModels(r) && SameTies(r, s)
    ensures |r| == |s| && (r != [] ==> r[0] == s[0])
  {
    assert |multiset(r)| == |r| && |multiset(s)| == |s|;
    if r != [] {
      assert r[0] in multiset(s) && s[0] in multiset(r);
      var i :| 0 <= i < |s| && s[i] == r[0];
      var j :| 0 <= j < |r| && r[j] == s[0];
      assert r[0] in r && s[0] in r && r[0].1 == s[0].1;
      HeadIsFirst(r, s[0].0);
      HeadIsFirst(s, r[0].0);
      FirstOfSwapped(s, s[0].0, r[0].0);
      assert r[0].0 == s[0].0;
    }
  }

  lemma HeadIsFirst(r: seq<(string, nat)>, y: string)
    requires r != []
    ensures FirstOf(r, r[0].0, y) == Some(r[0].0)
  {
  }

  lemma TailOf(r: seq<(string, nat)>)
    requires r != [] && Descending(r) && DistinctModels(r)
    ensures Descending(r[1..]) && DistinctModels(r[1..]) && multiset(r[1..]) == multiset(r) - multiset{r[0]}
    ensures forall e :: e in r[1..] ==> e in r && e.0 != r[0].0
  {
    assert r == [r[0]] + r[1..];
    forall e | e in r[1..] ensures e.0 != r[0].0 {
      var i :| 0 <= i < |r| - 1 && r[1..][i] == e;
      assert r[i + 1] == e;
    }
  }

  lemma SameTiesTail(r: seq<(string, nat)>, s: seq<(string, nat)>)
    requires SameTies(r, s) && r != [] && s != [] && r[0] == s[0]
    requires forall e :: e in r[1..] ==> e in r && e.0 != r[0].0
    ensures SameTies(r[1..], s[1..])
  {
    hide FirstOf;
    forall d, e | d in r[1..] && e in r[1..] && d.0 != e.0 && d.1 == e.1
      ensures FirstOf(r[1..], d.0, e.0) == FirstOf(s[1..], d.0, e.0)
    {
      FirstInTail(r, d.0, e.0);
      FirstInTail(s, d.0, e.0);
    }
  }

  lemma FirstInTail(r: seq<(string, nat)>, x: string, y: string)
    requires r != [] && r[0].0 !in {x, y}
    ensures FirstOf(r, x, y) == FirstOf(r[1..], x, y)
  {
  }

  /** Two sorted lists of the same entries, each model once, in which ties are ordered alike. */
  ghost predicate SortedAlike(r: seq<(string, nat)>, s: seq<(string, nat)>) {
    && multiset(r) == multiset(s)
    && Descending(r) && Descending(s)
    && DistinctModels(r) && DistinctModels(s)
    && SameTies(r, s)
  }

  lemma TailsAlike(r: seq<(string, nat)>, s: seq<(string, nat)>)
    requires SortedAlike(r, s) && r != [] && s != [] && r[0] == s[0]
    ensures SortedAlike(r[1..], s[1..])
  {
    hide Descending, DistinctModels, SameTies;
    TailOf(r);
    TailOf(s);
    SameTiesTail(r, s);
  }

  lemma {:induction false} OneSortedOrder(r: seq<(string, nat)>, s: seq<(string, nat)>)
    requires SortedAlike(r, s)
    ensures r == s
  {
    SameHead(r, s);
    hide SortedAlike, Descending, DistinctModels, SameTies, FirstOf;
    if r != [] {
      TailsAlike(r, s);
      OneSortedOrder(r[1..], s[1..]);
      assert r == [r[0]] + r[1..] && s == [s[0]] + s[1..];
    }
  }

  lemma FixedGivesOneList(a: seq<File>, b: seq<File>, requested: Option<string>)
    requires multiset(a) == multiset(b) && OrderFixed(a)
    ensures RanList(b, requested) == RanList(a, requested)
  {
    hide TallyOf, SortByTurns, FirstOf, FirstIn, SumTurns, Mentioned;
    var r, s := RanList(a, requested), RanList(b, requested);
    RanListFacts(a, requested);
    RanListFacts(b, requested);
    TotalsIgnoreOrder(a, b, requested);
    SameFiles(a, b);
    forall d, e | d in r && e in r && d.0 != e.0 && d.1 == e.1
      ensures FirstOf(r, d.0, e.0) == FirstOf(s, d.0, e.0)
    {
      var x, y := d.0, e.0;
      FirstOfRan(a, requested, x, y);
      FirstOfRan(b, requested, x, y);
      if Prefers(a, x, y) {
        FirstInPreferred(a, x, y);
        FirstInPreferred(b, x, y);
      } else {
        FirstInPreferred(a, y, x);
        FirstInPreferred(b, y, x);
        FirstInSwapped(a, x, y);
        FirstInSwapped(b, x, y);
      }
    }
    OneSortedOrder(r, s);
  }

  lemma {:induction false} FirstOfSwapped(entries: seq<(string, nat)>, x: string, y: string)
    ensures FirstOf(entries, x, y) == FirstOf(entries, y, x)
  {
    if entries != [] {
      FirstOfSwapped(entries[1..], x, y);
    }
  }

  lemma {:induction false} FirstInSwapped(files: seq<File>, x: string, y: string)
    ensures FirstIn(files, x, y) == FirstIn(files, y, x)
  {
    if files != [] {
      hide FirstOf;
      FirstInSwapped(files[1..], x, y);
      if files[0].content.Some? {
        FirstOfSwapped(files[0].content.value.turns, x, y);
      }
    }
  }

  lemma RanListFacts(files: seq<File>, requested: Option<string>)
    ensures var r := RanList(files, requested);
            && Descending(r) && DistinctModels(r)
            && multiset(r) == multiset(TallyOf(files, requested).turns)
            && forall e :: e in r ==> e.1 == SumTurns(files, e.0) && Mentioned(files, e.0)
  {
    hide TallyOf, SumTurns, SortByTurns;
    TallyDistinct(files, requested);
    SameEntries(TallyOf(files, requested).turns, RanList(files, requested));
    RanModelsOrdered(files, requested);
    forall e | e in RanList(files, requested) ensures Mentioned(files, e.0) {
      var ran := RanList(files, requested);
      var i :| 0 <= i < |ran| && ran[i] == e;
      assert Models(ran)[i] == e.0;
      assert e.0 in Models(ran) && e.0 in Models(TallyOf(files, requested).turns);
      TotalsAreSums(files, requested, e.0);
    }
  }

  function MovedFirst(files: seq<File>, i: nat): seq<File>
    requires i < |files|
  {
    [files[i]] + (files[..i] + files[i + 1..])
  }

  lemma MovedFirstIsRelisting(files: seq<File>, i: nat, x: string, y: string)
    requires i < |files| && FileFirst(files[i], x, y).Some?
    ensures multiset(MovedFirst(files, i)) == multiset(files)
    ensures FirstIn(MovedFirst(files, i), x, y) == FileFirst(files[i], x, y)
  {
    hide FileFirst;
    assert files == files[..i] + ([files[i]] + files[i + 1..]);
    var b := MovedFirst(files, i);
    assert b[1..] == files[..i] + files[i + 1..];
  }

  /** Two models that tie and of which neither is always first: moving one file to the front changes the list. */
  lemma UnfixedGivesTwoLists(a: seq<File>, requested: Option<string>) returns (b: seq<File>)
    requires !OrderFixed(a)
    ensures multiset(b) == multiset(a) && RanList(b, requested) != RanList(a, requested)
  {
    hide TallyOf, SortByTurns, FirstOf, FirstIn, SumTurns, Mentioned, RanList, FileFirst;
    var x, y :| Mentioned(a, x) && Mentioned(a, y) && x != y && SumTurns(a, x) == SumTurns(a, y)
                && !Prefers(a, x, y) && !Prefers(a, y, x);
    var f :| f in a && FileFirst(f, x, y) == Some(y);
    var g :| g in a && FileFirst(g, y, x) == Some(x);
    FileFirstSwapped(g, x, y);
    var i :| 0 <= i < |a| && a[i] == f;
    var j :| 0 <= j < |a| && a[j] == g;
    MovedFirstIsRelisting(a, i, x, y);
    MovedFirstIsRelisting(a, j, x, y);
    FirstOfRan(a, requested, x, y);
    b := MovedFirst(a, if FirstIn(a, x, y) == Some(y) then j else i);
    SameFiles(a, b);
    FirstOfRan(b, requested, x, y);
  }

  lemma FileFirstSwapped(f: File, x: string, y: string)
    ensures FileFirst(f, x, y) == FileFirst(f, y, x)
  {
    if f.content.Some? {
      FirstOfSwapped(f.content.value.turns, x, y);
    }
  }

  /**
    The sorted list is the same however the directory is listed if and only if, of any two models
    with equal totals, one comes first in every readable file that names either.
  */
  lemma SortIgnoresOrderIff(a: seq<File>, requested: Option<string>)
    ensures (forall b :: multiset(b) == multiset(a) ==> RanList(b, requested) == RanList(a, requested))
       <==> OrderFixed(a)
  {
    hide RanList, OrderFixed;
    if OrderFixed(a) {
      forall b | multiset(b) == multiset(a) ensures RanList(b, requested) == RanList(a, requested) {
        FixedGivesOneList(a, b, requested);
      }
    } else {
      var b := UnfixedGivesTwoLists(a, requested);
    }
  }

  /** The `ran_model` text. */
  function RanText(files: seq<File>, requested: Option<string>): string {
    JoinWith(Models(RanList(files, requested)), ',')
  }

  lemma ModelsTellLists(files: seq<File>, b: seq<File>, requested: Option<string>)
    requires multiset(b) == multiset(files) && RanList(b, requested) != RanList(files, requested)
    ensures var r, s := Models(RanList(b, requested)), Models(RanList(files, requested));
            r != s && |r| == |s| >= 2
  {
    hide TallyOf, SumTurns, SortByTurns, Mentioned;
    var r, s := RanList(b, requested), RanList(files, requested);
    RanListFacts(b, requested);
    RanListFacts(files, requested);
    TotalsIgnoreOrder(files, b, requested);
    SameFiles(files, b);
    assert |multiset(r)| == |r| && |multiset(s)| == |s|;
    if Models(r) == Models(s) {
      forall i | 0 <= i < |r| ensures r[i] == s[i] {
        assert Models(r)[i] == Models(s)[i];
        assert r[i] in r && s[i] in s;
      }
    }
    if |r| <= 1 {
      ShortListsEqual(r, s);
    }
  }

  lemma ShortListsEqual(r: seq<(string, nat)>, s: seq<(string, nat)>)
    requires multiset(r) == multiset(s) && |r| <= 1
    ensures r == s
  {
    assert |multiset(r)| == |r| && |multiset(s)| == |s|;
    if |r| == 1 {
      assert r[0] in multiset(s);
    }
  }

  /** The text tells the lists apart when no model's name has a comma. */
  lemma TextTellsLists(files: seq<File>, b: seq<File>, requested: Option<string>)
    requires multiset(b) == multiset(files) && RanList(b, requested) != RanList(files, requested)
    requires forall m :: Mentioned(files, m) ==> ',' !in m
    ensures RanText(b, requested) != RanText(files, requested)
    ensures RanText(b, requested) != "" && RanText(files, requested) != ""
  {
    hide RanList, Mentioned, SumTurns;
    var r, s := Models(RanList(b, requested)), Models(RanList(files, requested));
    ModelsTellLists(files, b, requested);
    NamesLackComma(files, requested);
    SameFiles(files, b);
    NamesLackComma(b, requested);
    SplitOfJoin(r, ',');
    SplitOfJoin(s, ',');
  }

  lemma NamesLackComma(files: seq<File>, requested: Option<string>)
    requires forall m :: Mentioned(files, m) ==> ',' !in m
    ensures forall m :: m in Models(RanList(files, requested)) ==> ',' !in m
  {
    hide RanList, Mentioned, SumTurns;
    RanListFacts(files, requested);
    var ran := RanList(files, requested);
    forall m | m in Models(ran) ensures ',' !in m {
      var i :| 0 <= i < |Models(ran)| && Models(ran)[i] == m;
      assert ran[i] in ran;
    }
  }

  /** With a tie the directory order shows: two models with one turn each are listed as their files come. */
  lemma TiesFollowTheFiles(a: File, b: File, requested: Option<string>)
    requires a.content == Some(OneTurn("x")) && b.content == Some(OneTurn("y"))
    ensures RanText([a, b], requested) == "x,y"
    ensures RanText([b, a], requested) == "y,x"
  {
    hide *;
    TwoFiles(a, b, "x", "y", requested);
    TwoFiles(b, a, "y", "x", requested);
    assert "x" + "," + "y" == "x,y" && "y" + "," + "x" == "y,x";
  }

  function OneTurn(model: string): Attribution {
    Attribution([(model, 1)], [], None)
  }

  lemma TwoFiles(a: File, b: File, x: string, y: string, requested: Option<string>)
    requires a.content == Some(OneTurn(x)) && b.content == Some(OneTurn(y)) && x != y
    ensures RanText([a, b], requested) == x + "," + y
  {
    hide DetectsFallback, CountOf, SortByTurns, JoinWith, Models;
    TwoTurns(x, y);
    assert [a, b][..1] == [a] && [a][..0] == [];
    assert TallyOf([], requested).turns == [];
    assert TallyOf([a], requested).turns == [(x, 1)];
  }

  lemma TwoTurns(x: string, y: string)
    requires x != y
    ensures AddAll([], [(x, 1)]) == [(x, 1)]
    ensures AddAll([(x, 1)], [(y, 1)]) == [(x, 1), (y, 1)]
    ensures JoinWith(Models(SortByTurns([(x, 1), (y, 1)])), ',') == x + "," + y
  {
    hide SortByTurns;
    var e: (string, nat), f: (string, nat) := (x, 1), (y, 1);
    assert [e][1..] == [] && [f][1..] == [];
    assert AddTurns([e], y, 1) == [e] + AddTurns([], y, 1) == [e, f];
    SortTwo(e, f);
    assert Models([e, f]) == [x, y] && [x, y][1..] == [y];
  }

  lemma SortTwo(e: (string, nat), f: (string, nat))
    requires e.1 == f.1
    ensures SortByTurns([e, f]) == [e, f]
  {
    hide Descending;
    assert [e][..0] == [] && [e, f][..1] == [e];
    assert SortByTurns([e]) == InsertByTurns(e, SortByTurns([])) == [e];
    assert InsertByTurns(f, [e]) == [e] + InsertByTurns(f, []) == [e, f];
  }

  /** `ran_model` lists each observed model exactly once, most turns first. */
  lemma RanModelsOrdered(files: seq<File>, requested: Option<string>)
    ensures var ran := SortByTurns(TallyOf(files, requested).turns);
            && (forall i, j :: 0 <= i < j < |ran| ==> ran[i].0 != ran[j].0 && ran[i].1 >= ran[j].1)
            && (forall e :: e in ran ==> e.1 == SumTurns(files, e.0))
            && (forall m :: m in Models(ran) <==>
                  exists f :: f in files && f.content.Some? && m in Models(f.content.value.turns))
  {
    var turns := TallyOf(files, requested).turns;
    var ran := SortByTurns(turns);
    TallyDistinct(files, requested);
    SameEntries(turns, ran);
    forall e | e in ran ensures e.1 == SumTurns(files, e.0) {
      TotalsAreSums(files, requested, e.0);
      TurnsOfDistinct(turns, e);
    }
    forall m ensures m in Models(ran) <==>
                     exists f :: f in files && f.content.Some? && m in Models(f.content.value.turns)
    {
      TotalsAreSums(files, requested, m);
    }
  }

  lemma {:induction false} TurnsOfDistinct(entries: seq<(string, nat)>, e: (string, nat))
    requires DistinctModels(entries) && e in entries
    ensures TurnsOf(entries, e.0) == e.1
  {
    if entries[0] == e {
      NoTurns(entries[1..], e.0);
    } else {
      assert e in entries[1..];
      TurnsOfDistinct(entries[1..], e);
    }
  }

  lemma {:induction false} NoTurns(entries: seq<(string, nat)>, m: string)
    requires forall i :: 0 <= i < |entries| ==> entries[i].0 != m
    ensures TurnsOf(entries, m) == 0
  {
    if entries != [] {
      NoTurns(entries[1..], m);
    }
  }

  /** A rearrangement of distinct models has distinct models, and the same ones. */
  lemma SameEntries(a: seq<(string, nat)>, b: seq<(string, nat)>)
    requires multiset(a) == multiset(b) && DistinctModels(a)
    ensures DistinctModels(b)
    ensures forall e :: e in a <==> e in b
    ensures forall m :: m in Models(a) <==> m in Models(b)
  {
    forall e ensures e in a <==> e in b { assert e in multiset(a) <==> e in multiset(b); }
    forall m ensures m in Models(a) <==> m in Models(b) {
      if m in Models(a) {
        var i :| 0 <= i < |a| && a[i].0 == m;
        assert a[i] in b;
        var j :| 0 <= j < |b| && b[j] == a[i];
        assert Models(b)[j] == m;
      }
      if m in Models(b) {
        var i :| 0 <= i < |b| && b[i].0 == m;
        assert b[i] in a;
        var j :| 0 <= j < |a| && a[j] == b[i];
        assert Models(a)[j] == m;
      }
    }
    forall i, j | 0 <= i < j < |b| ensures b[i].0 != b[j].0 {
      assert b[i] in a && b[j] in a;
      if b[i] == b[j] {
        TwiceInMultiset(b, i, j);
        OnceInMultiset(a, b[i]);
      }
    }
  }

  lemma TwiceInMultiset<T>(s: seq<T>, i: nat, j: nat)
    requires i < j < |s| && s[i] == s[j]
    ensures multiset(s)[s[i]] >= 2
  {
    assert s == s[..j] + ([s[j]] + s[j + 1..]);
    assert s[i] in s[..j];
  }

  lemma OnceInMultiset(s: seq<(string, nat)>, e: (string, nat))
    requires DistinctModels(s) && e in s
    ensures multiset(s)[e] == 1
  {
    var i :| 0 <= i < |s| && s[i] == e;
    assert s == s[..i] + ([e] + s[i + 1..]);
    assert e !in s[..i] && e !in s[i + 1..];
  }
}
