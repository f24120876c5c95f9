/**
  The one-off job that reconciles each Fable objective's stored fallback flag, `ran_model`
  and activity log with the evidence of its transcripts.
*/
module FallbackBackfill {
  import opened Options
  import opened Text
  import opened TranscriptEvidence

  const FLAG_TITLE: string := "ran_on_fallback"
  const CLEARED_TITLE: string := "fallback_flag_cleared"

  // ---------- The database ----------

  datatype Objective = Objective(
    model: Option<string>, flagged: bool, detectedAt: Option<string>, ranModel: Option<string>,
    project: Option<string>, workspace: Option<string>)

  /** The figures printed into a log row. */
  datatype Evidence = Evidence(files: nat, turns: seq<(string, nat)>, genuine: nat, switches: nat)

  datatype Detail =
    | Other(text: string)
    | Flagged(model: Option<string>, evidence: Evidence)
    | Confirmed(model: Option<string>, evidence: Evidence)
    | Cleared(removed: nat, evidence: Evidence)

  datatype Entry = Entry(project: string, workspace: string, objective: Option<nat>, title: string, detail: Detail)

  type Table = map<nat, Objective>

  datatype Db = Db(objectives: Table, log: seq<Entry>)

  predicate IsFableAt(s: string, i: nat)
    requires i + 5 <= |s|
  {
    && s[i] in "fF" && s[i + 1] in "aA" && s[i + 2] in "bB" && s[i + 3] in "lL" && s[i + 4] in "eE"
  }

  /** `model LIKE '%fable%'`, which ignores ASCII case and never matches NULL. */
  predicate IsFable(model: Option<string>) {
    model.Some? && exists i: nat :: i + 5 <= |model.value| && IsFableAt(model.value, i)
  }

  function AsciiLower(c: char): char {
    if 'A' <= c <= 'Z' then (c as int + 32) as char else c
  }

  function Lowered(s: string): (r: string)
    ensures |r| == |s| && forall i :: 0 <= i < |s| ==> r[i] == AsciiLower(s[i])
  {
    seq(|s|, i requires 0 <= i < |s| => AsciiLower(s[i]))
  }

  lemma FableAtIff(s: string, i: nat)
    requires i + 5 <= |s|
    ensures IsFableAt(s, i) <==> "fable" <= Lowered(s)[i..]
  {
    var t := Lowered(s)[i..];
    assert forall k :: 0 <= k < 5 ==> t[k] == AsciiLower(s[i + k]);
    assert "fable" <= t <==> t[0] == 'f' && t[1] == 'a' && t[2] == 'b' && t[3] == 'l' && t[4] == 'e';
  }

  /** The job selects the objectives whose model has "fable" in it, in any mixture of cases. */
  lemma FableIff(model: Option<string>)
    ensures IsFable(model) <==> model.Some? && Contains(Lowered(model.value), "fable")
  {
    hide IsFableAt, Contains;
    if model.Some? {
      var s := model.value;
      forall i: nat | i + 5 <= |s| ensures IsFableAt(s, i) <==> "fable" <= Lowered(s)[i..] { FableAtIff(s, i); }
      forall i | 0 <= i <= |s| && "fable" <= Lowered(s)[i..] ensures i + 5 <= |s| {
        assert |"fable"| <= |Lowered(s)[i..]|;
      }
    }
  }

  function Selected(t: Table): set<nat> {
    set id | id in t && IsFable(t[id].model)
  }

  lemma {:induction false} FindLeast(ids: set<nat>) returns (m: nat)
    requires ids != {}
    ensures m in ids && forall o :: o in ids ==> m <= o
    decreases |ids|
  {
    var x :| x in ids;
    var rest := ids - {x};
    m := x;
    if rest != {} {
      var n := FindLeast(rest);
      m := if n < x then n else x;
      forall o | o in ids ensures m <= o { assert o == x || o in rest; }
    } else {
      assert ids == {x};
    }
  }

  lemma HasLeast(ids: set<nat>)
    requires ids != {}
    ensures exists m :: m in ids && forall o :: o in ids ==> m <= o
  {
    var m := FindLeast(ids);
  }

  function Least(ids: set<nat>): (m: nat)
    requires ids != {}
    ensures m in ids && forall o :: o in ids ==> m <= o
  {
    HasLeast(ids);
    var m :| m in ids && forall o :: o in ids ==> m <= o;
    m
  }

  /** `ORDER BY id`. */
  function InOrder(ids: set<nat>): (s: seq<nat>)
    ensures forall id :: id in s <==> id in ids
    ensures forall i, j :: 0 <= i < j < |s| ==> s[i] < s[j]
  {
    if ids == {} then []
    else
      var m := Least(ids);
      var rest := InOrder(ids - {m});
      assert forall i :: 0 <= i < |rest| ==> rest[i] in rest;
      [m] + rest
  }

  // ---------- One objective ----------

  datatype Finding = Finding(ranModel: Option<string>, genuine: bool, switches: nat, evidence: Evidence)

  function FindingOf(files: seq<File>, id: nat, model: Option<string>): Finding {
    var own := FilesOf(files, id);
    var t := TallyOf(own, model);
    var ran := SortByTurns(t.turns);
    Finding(if ran == [] then None else Some(JoinWith(Models(ran), ',')), t.genuine > 0, t.switches,
            Evidence(|own|, ran, t.genuine, t.switches))
  }

  datatype Verdict = Skip | Leave | NewFlag | ClearFlag | ConfirmFlag

  function VerdictOf(files: seq<File>, id: nat, o: Objective): Verdict {
    var f := FindingOf(files, id, o.model);
    if FilesOf(files, id) == [] then Skip
    else if f.genuine && !o.flagged && f.switches > 0 then NewFlag
    else if !f.genuine && o.flagged then ClearFlag
    else if f.genuine && o.flagged then ConfirmFlag
    else Leave
  }

  /** The `ran_model` column is rewritten when there is an observed list and it differs. */
  function RanModelWritten(f: Finding, o: Objective): bool {
    f.ranModel.Some? && f.ranModel.value != "" && f.ranModel != o.ranModel
  }

  predicate RanModelDue(files: seq<File>, id: nat, o: Objective) {
    FilesOf(files, id) != [] && RanModelWritten(FindingOf(files, id, o.model), o)
  }

  function OrElse(o: Option<string>, fallback: string): string {
    if o.Some? then o.value else fallback
  }

  /** The objective's row after the job has dealt with it. */
  function RowAfter(files: seq<File>, id: nat, o: Objective, now: string): Objective {
    if FilesOf(files, id) == [] then o
    else
      var f := FindingOf(files, id, o.model);
      var r := if RanModelWritten(f, o) then o.(ranModel := f.ranModel) else o;
      match VerdictOf(files, id, o)
      case NewFlag => r.(flagged := true, detectedAt := Some(OrElse(o.detectedAt, now)))
      case ClearFlag => r.(flagged := false, detectedAt := None)
      case _ => r
  }

  predicate IsFlagEntry(e: Entry, id: nat) {
    e.objective == Some(id) && e.title == FLAG_TITLE
  }

  function WithoutFlagEntries(log: seq<Entry>, id: nat): seq<Entry> {
    if log == [] then []
    else if IsFlagEntry(log[0], id) then WithoutFlagEntries(log[1..], id)
    else [log[0]] + WithoutFlagEntries(log[1..], id)
  }

  /** `UPDATE activity_log SET detail = … WHERE objective_id = id AND title = 'ran_on_fallback'`. */
  function Rewritten(log: seq<Entry>, id: nat, detail: Detail): (r: seq<Entry>)
    ensures |r| == |log|
    ensures forall i :: 0 <= i < |log| ==>
              r[i] == if IsFlagEntry(log[i], id) then log[i].(detail := detail) else log[i]
  {
    if log == [] then []
    else [if IsFlagEntry(log[0], id) then log[0].(detail := detail) else log[0]] + Rewritten(log[1..], id, detail)
  }

  function NewEntry(o: Objective, id: nat, title: string, detail: Detail): Entry {
    Entry(OrElse(o.project, "operationkit"), OrElse(o.workspace, "example"), Some(id), title, detail)
  }

  /** The activity log after the job has dealt with the objective. */
  function LogAfter(files: seq<File>, id: nat, o: Objective, log: seq<Entry>): seq<Entry> {
    var evidence := FindingOf(files, id, o.model).evidence;
    match VerdictOf(files, id, o)
    case NewFlag => log + [NewEntry(o, id, FLAG_TITLE, Flagged(o.model, evidence))]
    case ClearFlag =>
      var kept := WithoutFlagEntries(log, id);
      kept + [NewEntry(o, id, CLEARED_TITLE, Cleared(if |kept| <= |log| then |log| - |kept| else 0, evidence))]
    case ConfirmFlag => Rewritten(log, id, Confirmed(o.model, evidence))
    case _ => log
  }

  // ---------- The whole run ----------

  function TableAfter(t: Table, files: seq<File>, now: string): (r: Table)
    ensures r.Keys == t.Keys
  {
    map id | id in t :: if IsFable(t[id].model) then RowAfter(files, id, t[id], now) else t[id]
  }

  function LogOver(t: Table, files: seq<File>, ids: seq<nat>, log: seq<Entry>): seq<Entry>
    requires forall id :: id in ids ==> id in t
    decreases ids
  {
    if ids == [] then log
    else
      assert ids[0] in ids;
      LogOver(t, files, ids[1..], LogAfter(files, ids[0], t[ids[0]], log))
  }

  function RunLog(t: Table, files: seq<File>, log: seq<Entry>): seq<Entry> {
    LogOver(t, files, InOrder(Selected(t)), log)
  }

  /** The database after one `--apply` run. */
  function Applied(db: Db, files: seq<File>, now: string): Db {
    Db(TableAfter(db.objectives, files, now), RunLog(db.objectives, files, db.log))
  }

  function Count(t: Table, files: seq<File>, ids: seq<nat>, v: Verdict): (n: nat)
    requires forall id :: id in ids ==> id in t
    ensures n <= |ids|
  {
    if ids == [] then 0
    else
      assert ids[0] in ids;
      (if VerdictOf(files, ids[0], t[ids[0]]) == v then 1 else 0) + Count(t, files, ids[1..], v)
  }

  function CountWritten(t: Table, files: seq<File>, ids: seq<nat>): nat
    requires forall id :: id in ids ==> id in t
  {
    if ids == [] then 0
    else
      assert ids[0] in ids;
      (if RanModelDue(files, ids[0], t[ids[0]]) then 1 else 0) + CountWritten(t, files, ids[1..])
  }

  function FlaggedIn(t: Table, ids: seq<nat>): seq<nat>
    requires forall id :: id in ids ==> id in t
  {
    if ids == [] then []
    else
      assert ids[0] in ids;
      (if t[ids[0]].flagged then [ids[0]] else []) + FlaggedIn(t, ids[1..])
  }

  datatype Summary = Summary(
    scanned: nat, skipped: nat, cleared: nat, newlyFlagged: nat, confirmed: nat, ranModelSet: nat,
    before: seq<nat>, after: seq<nat>)

  // ---------- The flag law ----------

  lemma FallbackIsNotFable()
    ensures !IsFable(Some(FALLBACK))
  {
    assert forall i :: 0 <= i < |FALLBACK| ==> FALLBACK[i] != 'f' && FALLBACK[i] != 'F';
    forall i: nat | i + 5 <= |FALLBACK| ensures !IsFableAt(FALLBACK, i) {}
  }

  /** An explicit switch to the fallback model is by itself genuine evidence. */
  lemma {:induction false} SwitchesAreGenuine(files: seq<File>, model: Option<string>)
    requires IsFable(model)
    ensures TallyOf(files, model).switches > 0 ==> TallyOf(files, model).genuine > 0
  {
    if files != [] {
      SwitchesAreGenuine(files[..|files| - 1], model);
      FallbackIsNotFable();
      assert model.value != "";
    }
  }

  /**
    After an apply run a scanned objective is flagged exactly when its evidence is genuine and
    it was flagged before or shows an explicit switch; a switch alone suffices. An objective
    without transcripts, or outside the selection, is untouched.
  */
  lemma FlagLaw(db: Db, files: seq<File>, now: string, id: nat)
    requires id in db.objectives
    ensures var o := db.objectives[id];
            var p := Applied(db, files, now).objectives[id];
            var f := FindingOf(files, id, o.model);
            if IsFable(o.model) && FilesOf(files, id) != [] then
              && p.flagged == (f.genuine && (o.flagged || f.switches > 0))
              && p.flagged == ((f.genuine && o.flagged) || f.switches > 0)
              && p.detectedAt == DetectedAfter(o, p.flagged, now)
              && p.ranModel == RanModelAfter(FilesOf(files, id), o)
              && p == o.(flagged := p.flagged, detectedAt := p.detectedAt, ranModel := p.ranModel)
            else p == o
  {
    hide RowAfter, FindingOf, FilesOf, IsFable;
    var o := db.objectives[id];
    if IsFable(o.model) {
      RowLaw(files, id, o, now);
    }
  }

  lemma RowLaw(files: seq<File>, id: nat, o: Objective, now: string)
    requires IsFable(o.model)
    ensures var p := RowAfter(files, id, o, now);
            var f := FindingOf(files, id, o.model);
            if FilesOf(files, id) == [] then p == o
            else
              && p.flagged == (f.genuine && (o.flagged || f.switches > 0))
              && p.flagged == ((f.genuine && o.flagged) || f.switches > 0)
              && p.detectedAt == DetectedAfter(o, p.flagged, now)
              && p.ranModel == RanModelAfter(FilesOf(files, id), o)
              && p == o.(flagged := p.flagged, detectedAt := p.detectedAt, ranModel := p.ranModel)
  {
    SwitchGivesFinding(files, id, o.model);
    FindingIs(files, id, o.model);
    hide FindingOf, FilesOf, IsFable, RanText, RanList, RowAfter, DetectedAfter;
    if FilesOf(files, id) == [] {
      NoFilesNoChange(files, id, o, now);
    } else {
      RowAfterIs(files, id, o, now);
    }
  }

  lemma NoFilesNoChange(files: seq<File>, id: nat, o: Objective, now: string)
    requires FilesOf(files, id) == []
    ensures RowAfter(files, id, o, now) == o
  {
    hide FilesOf;
  }

  lemma RowAfterIs(files: seq<File>, id: nat, o: Objective, now: string)
    requires FilesOf(files, id) != []
    requires var f := FindingOf(files, id, o.model); f.switches > 0 ==> f.genuine
    ensures var f := FindingOf(files, id, o.model);
            var flagged := f.genuine && (o.flagged || f.switches > 0);
            RowAfter(files, id, o, now)
            == o.(flagged := flagged, detectedAt := DetectedAfter(o, flagged, now),
                  ranModel := if f.ranModel.Some? && f.ranModel.value != "" then f.ranModel else o.ranModel)
  {
    hide FindingOf, FilesOf;
  }

  /** The date goes when the flag goes, and a flag that comes keeps a date already there. */
  function DetectedAfter(o: Objective, flagged: bool, now: string): Option<string> {
    if o.flagged == flagged then o.detectedAt
    else if !flagged then None
    else if o.detectedAt.Some? then o.detectedAt
    else Some(now)
  }

  /** The models the transcripts name, if they name any; the stored list stays otherwise. */
  function RanModelAfter(own: seq<File>, o: Objective): Option<string> {
    if RanText(own, o.model) != "" then Some(RanText(own, o.model)) else o.ranModel
  }

  /** The evidence of an objective: sums over its own files, and the sorted list of its models. */
  lemma FindingIs(files: seq<File>, id: nat, model: Option<string>)
    ensures var own := FilesOf(files, id);
            var f := FindingOf(files, id, model);
            && f.evidence
               == Evidence(|own|, RanList(own, model), SumBy(own, GenuineBy(model)), SumBy(own, SwitchesBy()))
            && f.genuine == (SumBy(own, GenuineBy(model)) > 0) && f.switches == SumBy(own, SwitchesBy())
            && (f.ranModel.Some? && f.ranModel.value != "" <==> RanText(own, model) != "")
            && (f.ranModel.Some? ==> f.ranModel.value == RanText(own, model))
  {
    hide FilesOf, TallyOf, SortByTurns;
    CountsAreSums(FilesOf(files, id), model);
    assert JoinWith(Models([]), ',') == "";
  }

  lemma SwitchGivesFinding(files: seq<File>, id: nat, model: Option<string>)
    requires IsFable(model)
    ensures var f := FindingOf(files, id, model); f.switches > 0 ==> f.genuine
  {
    SwitchesAreGenuine(FilesOf(files, id), model);
  }

  // ---------- Accounting ----------

  /** The `ran_model` count is of the rows that change there. */
  lemma DueIffChanged(files: seq<File>, id: nat, o: Objective, now: string)
    ensures RanModelDue(files, id, o) <==> RowAfter(files, id, o, now).ranModel != o.ranModel
  {
    hide FindingOf, FilesOf;
  }

  /** The ids printed are those of the flagged objectives. */
  lemma {:induction false} FlaggedInIff(t: Table, ids: seq<nat>, id: nat)
    requires forall i :: i in ids ==> i in t
    ensures id in FlaggedIn(t, ids) <==> id in ids && t[id].flagged
  {
    if ids != [] {
      assert ids[0] in ids;
      forall i | i in ids[1..] ensures i in ids {}
      FlaggedInIff(t, ids[1..], id);
    }
  }

  lemma FlagStep(t: Table, files: seq<File>, now: string, id: nat)
    requires id in t && IsFable(t[id].model)
    ensures TableAfter(t, files, now)[id].flagged
         == (match VerdictOf(files, id, t[id])
             case NewFlag => true
             case ClearFlag => false
             case _ => t[id].flagged)
    ensures VerdictOf(files, id, t[id]).NewFlag? ==> !t[id].flagged
    ensures VerdictOf(files, id, t[id]).ClearFlag? ==> t[id].flagged
  {
    hide FindingOf, FilesOf;
  }

  /** Flagged after = flagged before - cleared + newly flagged, and every objective gets one verdict. */
  lemma {:induction false} FlagsBalance(t: Table, files: seq<File>, now: string, ids: seq<nat>)
    requires forall id :: id in ids ==> id in t && IsFable(t[id].model)
    ensures |FlaggedIn(TableAfter(t, files, now), ids)|
         == |FlaggedIn(t, ids)| - Count(t, files, ids, ClearFlag) + Count(t, files, ids, NewFlag)
    ensures Count(t, files, ids, Skip) + Count(t, files, ids, Leave) + Count(t, files, ids, NewFlag)
          + Count(t, files, ids, ClearFlag) + Count(t, files, ids, ConfirmFlag) == |ids|
  {
    hide VerdictOf, TableAfter, IsFable;
    if ids != [] {
      assert ids[0] in ids;
      forall id | id in ids[1..] ensures id in ids {}
      FlagStep(t, files, now, ids[0]);
      FlagsBalance(t, files, now, ids[1..]);
    }
  }

  function Those(ids: seq<nat>, p: nat -> bool): set<nat> {
    set id | id in ids && p(id)
  }

  lemma ThoseNext(ids: seq<nat>, p: nat -> bool)
    requires ids != [] && Increasing(ids)
    ensures |Those(ids, p)| == (if p(ids[0]) then 1 else 0) + |Those(ids[1..], p)|
  {
    assert forall id :: id in ids <==> id == ids[0] || id in ids[1..];
    assert ids[0] !in ids[1..];
    assert Those(ids, p) == Those(ids[1..], p) + (if p(ids[0]) then {ids[0]} else {});
  }

  function HasVerdict(t: Table, files: seq<File>, v: Verdict): nat -> bool {
    (id: nat) => id in t && VerdictOf(files, id, t[id]) == v
  }

  /** Each counter is the number of objectives with its verdict. */
  lemma {:induction false} CountIsSize(t: Table, files: seq<File>, ids: seq<nat>, v: Verdict)
    requires Increasing(ids) && forall id :: id in ids ==> id in t
    ensures Count(t, files, ids, v) == |Those(ids, HasVerdict(t, files, v))|
  {
    hide VerdictOf, Those;
    if ids != [] {
      assert ids[0] in ids;
      forall id | id in ids[1..] ensures id in ids {}
      ThoseNext(ids, HasVerdict(t, files, v));
      CountIsSize(t, files, ids[1..], v);
    } else {
      NoneOfThose(HasVerdict(t, files, v));
    }
  }

  lemma NoneOfThose(p: nat -> bool)
    ensures |Those([], p)| == 0
  {
  }

  function ListChanges(t: Table, files: seq<File>, now: string): nat -> bool {
    (id: nat) => id in t && RowAfter(files, id, t[id], now).ranModel != t[id].ranModel
  }

  /** The printed figure for `ran_model` is the number of rows whose list the run changes. */
  lemma {:induction false} WrittenIsSize(t: Table, files: seq<File>, ids: seq<nat>, now: string)
    requires Increasing(ids) && forall id :: id in ids ==> id in t
    ensures CountWritten(t, files, ids) == |Those(ids, ListChanges(t, files, now))|
  {
    hide RowAfter, RanModelDue, Those;
    if ids != [] {
      assert ids[0] in ids;
      forall id | id in ids[1..] ensures id in ids {}
      ThoseNext(ids, ListChanges(t, files, now));
      DueIffChanged(files, ids[0], t[ids[0]], now);
      WrittenIsSize(t, files, ids[1..], now);
    } else {
      NoneOfThose(ListChanges(t, files, now));
    }
  }

  // ---------- Running it again ----------

  lemma RowSettled(files: seq<File>, id: nat, o: Objective, now: string, later: string)
    ensures RowAfter(files, id, RowAfter(files, id, o, now), later) == RowAfter(files, id, o, now)
    ensures VerdictOf(files, id, RowAfter(files, id, o, now))
         == (match VerdictOf(files, id, o)
             case NewFlag => ConfirmFlag
             case ClearFlag => Leave
             case v => v)
  {
    hide FindingOf, FilesOf;
    assert RowAfter(files, id, o, now).model == o.model;
  }

  lemma SelectionStays(t: Table, files: seq<File>, now: string)
    ensures forall id :: id in t ==> TableAfter(t, files, now)[id].model == t[id].model
    ensures Selected(TableAfter(t, files, now)) == Selected(t)
  {
    hide FindingOf, FilesOf;
  }

  /** A second apply run on the same transcripts changes no flag, no date and no `ran_model`. */
  lemma SecondRunSettled(t: Table, files: seq<File>, now: string, later: string)
    ensures TableAfter(TableAfter(t, files, now), files, later) == TableAfter(t, files, now)
  {
    hide RowAfter;
    var once := TableAfter(t, files, now);
    SelectionStays(t, files, now);
    forall id | id in t ensures TableAfter(once, files, later)[id] == once[id] {
      RowSettled(files, id, t[id], now, later);
    }
  }

  // ---------- Listing the transcripts in another order ----------

  /** The directory order can show only in which of two models with unsettled equal counts is listed first. */
  lemma FindingReordered(a: seq<File>, b: seq<File>, id: nat, model: Option<string>)
    requires multiset(a) == multiset(b)
    ensures var f, g := FindingOf(a, id, model), FindingOf(b, id, model);
            && f.genuine == g.genuine && f.switches == g.switches
            && f.ranModel.Some? == g.ranModel.Some?
            && f.evidence.(turns := []) == g.evidence.(turns := [])
            && multiset(f.evidence.turns) == multiset(g.evidence.turns)
            && (OrderFixed(FilesOf(a, id)) ==> f == g)
    ensures FilesOf(a, id) == [] <==> FilesOf(b, id) == []
  {
    hide TallyOf, FilesOf, OrderFixed, SortByTurns, Models, JoinWith;
    FilesOfReordered(a, b, id);
    var x, y := FilesOf(a, id), FilesOf(b, id);
    TotalsIgnoreOrder(x, y, model);
    var r, s := SortByTurns(TallyOf(x, model).turns), SortByTurns(TallyOf(y, model).turns);
    assert |multiset(r)| == |r| && |multiset(s)| == |s|;
    if OrderFixed(x) {
      FixedGivesOneList(x, y, model);
    }
  }

  lemma SameVerdict(a: seq<File>, b: seq<File>, id: nat, o: Objective)
    requires FilesOf(a, id) == [] <==> FilesOf(b, id) == []
    requires var f, g := FindingOf(a, id, o.model), FindingOf(b, id, o.model);
             f.genuine == g.genuine && f.switches == g.switches
    ensures VerdictOf(a, id, o) == VerdictOf(b, id, o)
  {
    hide FindingOf, FilesOf;
  }

  lemma SameRow(a: seq<File>, b: seq<File>, id: nat, o: Objective, now: string)
    requires FilesOf(a, id) == [] <==> FilesOf(b, id) == []
    requires VerdictOf(a, id, o) == VerdictOf(b, id, o)
    ensures RowAfter(a, id, o, now).(ranModel := o.ranModel) == RowAfter(b, id, o, now).(ranModel := o.ranModel)
    ensures FindingOf(a, id, o.model) == FindingOf(b, id, o.model) ==>
              RowAfter(a, id, o, now) == RowAfter(b, id, o, now)
  {
    hide FindingOf, FilesOf, VerdictOf, RanModelWritten;
  }

  lemma SameLog(a: seq<File>, b: seq<File>, id: nat, o: Objective, log: seq<Entry>)
    requires VerdictOf(a, id, o) == VerdictOf(b, id, o)
    requires FindingOf(a, id, o.model) == FindingOf(b, id, o.model)
    ensures LogAfter(a, id, o, log) == LogAfter(b, id, o, log)
  {
    hide FindingOf, VerdictOf, WithoutFlagEntries, Rewritten;
  }

  /** The verdict, the flag and its date never depend on the listing; with ties settled nothing does. */
  lemma RowReordered(a: seq<File>, b: seq<File>, id: nat, o: Objective, now: string)
    requires multiset(a) == multiset(b)
    ensures VerdictOf(a, id, o) == VerdictOf(b, id, o)
    ensures RowAfter(a, id, o, now).(ranModel := o.ranModel) == RowAfter(b, id, o, now).(ranModel := o.ranModel)
    ensures OrderFixed(FilesOf(a, id)) ==>
              && FindingOf(a, id, o.model) == FindingOf(b, id, o.model)
              && RowAfter(a, id, o, now) == RowAfter(b, id, o, now)
  {
    hide FindingOf, FilesOf, OrderFixed, VerdictOf, RowAfter;
    FindingReordered(a, b, id, o.model);
    SameVerdict(a, b, id, o);
    SameRow(a, b, id, o, now);
  }

  /** The transcripts of every selected objective settle how its ties are listed. */
  ghost predicate TiesSettled(t: Table, files: seq<File>) {
    forall id :: id in Selected(t) ==> OrderFixed(FilesOf(files, id))
  }

  /**
    Listing the same transcripts in another order gives every objective the same flag, date and
    verdict, and a wholly identical database when the transcripts settle every tie.
  */
  lemma ListingOrder(db: Db, a: seq<File>, b: seq<File>, now: string)
    requires multiset(a) == multiset(b)
    ensures forall id :: id in db.objectives ==>
              && VerdictOf(a, id, db.objectives[id]) == VerdictOf(b, id, db.objectives[id])
              && var x, y := Applied(db, a, now).objectives[id], Applied(db, b, now).objectives[id];
                 x.flagged == y.flagged && x.detectedAt == y.detectedAt && x.model == y.model
    ensures TiesSettled(db.objectives, a) ==> Applied(db, a, now) == Applied(db, b, now)
  {
    hide VerdictOf, RowAfter, OrderFixed, FilesOf, IsFable, LogOver, LogAfter;
    var t := db.objectives;
    forall id | id in t
      ensures VerdictOf(a, id, t[id]) == VerdictOf(b, id, t[id])
      ensures var x, y := TableAfter(t, a, now)[id], TableAfter(t, b, now)[id];
              && x.flagged == y.flagged && x.detectedAt == y.detectedAt && x.model == y.model
              && (TiesSettled(t, a) ==> x == y)
    {
      RowReordered(a, b, id, t[id], now);
    }
    if TiesSettled(t, a) {
      assert TableAfter(t, a, now) == TableAfter(t, b, now);
      var ids := InOrder(Selected(t));
      forall id | id in ids ensures id in Selected(t) {}
      LogReordered(t, a, b, ids, db.log);
    }
  }

  lemma {:induction false} LogReordered(t: Table, a: seq<File>, b: seq<File>, ids: seq<nat>, log: seq<Entry>)
    requires multiset(a) == multiset(b) && TiesSettled(t, a)
    requires forall id :: id in ids ==> id in t && id in Selected(t)
    ensures LogOver(t, a, ids, log) == LogOver(t, b, ids, log)
    decreases ids
  {
    hide VerdictOf, RowAfter, OrderFixed, FilesOf, LogAfter, Selected;
    if ids != [] {
      var id := ids[0];
      assert id in ids;
      assert id in Selected(t);
      RowReordered(a, b, id, t[id], "");
      SameLog(a, b, id, t[id], log);
      LogReordered(t, a, b, ids[1..], LogAfter(a, id, t[id], log));
    }
  }

  /** The files of other objectives, and those that are no transcripts. */
  function OtherFiles(files: seq<File>, id: nat): (r: seq<File>)
    ensures forall f :: f in r ==> !Belongs(f.name, id)
  {
    if files == [] then []
    else (if Belongs(files[0].name, id) then [] else [files[0]]) + OtherFiles(files[1..], id)
  }

  lemma {:induction false} FilesSplit(files: seq<File>, id: nat)
    ensures multiset(FilesOf(files, id) + OtherFiles(files, id)) == multiset(files)
  {
    hide Belongs;
    if files != [] {
      FilesSplit(files[1..], id);
      assert files == [files[0]] + files[1..];
    }
  }

  lemma {:induction false} OwnFilesFirst(own: seq<File>, others: seq<File>, id: nat)
    requires (forall f :: f in own ==> Belongs(f.name, id)) && forall f :: f in others ==> !Belongs(f.name, id)
    ensures FilesOf(own + others, id) == own
    decreases |own| + |others|
  {
    hide Belongs, FilesOf;
    if own != [] {
      assert own[0] in own;
      OwnFilesFirst(own[1..], others, id);
      assert own + others == [own[0]] + (own[1..] + others);
      FilesOfNext(own[0], own[1..] + others, id);
      assert own == [own[0]] + own[1..];
    } else if others != [] {
      assert others[0] in others;
      OwnFilesFirst([], others[1..], id);
      assert own + others == [others[0]] + ([] + others[1..]);
      FilesOfNext(others[0], [] + others[1..], id);
    } else {
      assert own + others == [];
      NoFiles(id);
    }
  }

  lemma FilesOfNext(f: File, rest: seq<File>, id: nat)
    ensures FilesOf([f] + rest, id) == (if Belongs(f.name, id) then [f] else []) + FilesOf(rest, id)
  {
    assert ([f] + rest)[1..] == rest;
  }

  lemma NoFiles(id: nat)
    ensures FilesOf([], id) == []
  {
  }

  /** The objective's own files in any order are those of some listing of the whole directory. */
  lemma Relisted(files: seq<File>, id: nat, own: seq<File>) returns (all: seq<File>)
    requires multiset(own) == multiset(FilesOf(files, id))
    ensures multiset(all) == multiset(files) && FilesOf(all, id) == own
  {
    hide Belongs;
    all := own + OtherFiles(files, id);
    FilesSplit(files, id);
    forall f | f in own ensures Belongs(f.name, id) {
      assert f in multiset(FilesOf(files, id));
      assert f in FilesOf(files, id);
    }
    OwnFilesFirst(own, OtherFiles(files, id), id);
  }

  lemma RowRanModel(files: seq<File>, id: nat, o: Objective, now: string)
    requires FilesOf(files, id) != [] && RanText(FilesOf(files, id), o.model) != ""
    ensures RowAfter(files, id, o, now).ranModel == Some(RanText(FilesOf(files, id), o.model))
  {
    hide TallyOf, FilesOf, SortByTurns, VerdictOf;
    assert JoinWith(Models([]), ',') == "";
  }

  /**
    The row written for an objective is the same however the directory is listed if and only if
    its transcripts settle every tie: of two models with equal totals, one comes first in every
    transcript that names either.
  */
  lemma RanModelReorderedIff(files: seq<File>, id: nat, o: Objective, now: string)
    requires forall m :: Mentioned(FilesOf(files, id), m) ==> ',' !in m
    ensures (forall b :: multiset(b) == multiset(files) ==> RowAfter(b, id, o, now) == RowAfter(files, id, o, now))
       <==> OrderFixed(FilesOf(files, id))
  {
    hide RowAfter, FilesOf, OrderFixed, RanText, RanList, FindingOf, VerdictOf, Mentioned;
    var own := FilesOf(files, id);
    if OrderFixed(own) {
      forall b | multiset(b) == multiset(files) ensures RowAfter(b, id, o, now) == RowAfter(files, id, o, now) {
        RowReordered(files, b, id, o, now);
      }
    } else {
      var c := UnfixedGivesTwoLists(own, o.model);
      TextTellsLists(own, c, o.model);
      var b := Relisted(files, id, c);
      SomeFiles(own);
      SameLengths(own, c);
      RowRanModel(files, id, o, now);
      RowRanModel(b, id, o, now);
    }
  }

  lemma SomeFiles(own: seq<File>)
    requires !OrderFixed(own)
    ensures own != []
  {
  }

  lemma SameLengths(a: seq<File>, b: seq<File>)
    requires multiset(a) == multiset(b)
    ensures |a| == |b|
  {
    assert |multiset(a)| == |a| && |multiset(b)| == |b|;
  }

  /** So a second run over the transcripts listed in any other order still changes no flag and no date. */
  lemma SecondRunReordered(t: Table, a: seq<File>, b: seq<File>, now: string, later: string, id: nat)
    requires multiset(a) == multiset(b) && id in t
    ensures var once := TableAfter(t, a, now);
            var p, q := once[id], TableAfter(once, b, later)[id];
            && p.flagged == q.flagged && p.detectedAt == q.detectedAt
            && (TiesSettled(t, a) ==> p == q)
  {
    hide RowAfter, VerdictOf, OrderFixed, FilesOf, IsFable;
    SelectionStays(t, a, now);
    RowSettled(a, id, t[id], now, later);
    RowReordered(a, b, id, RowAfter(a, id, t[id], now), later);
  }

  // ---------- The log ----------

  function FlagEntries(log: seq<Entry>, id: nat): seq<Entry> {
    if log == [] then []
    else (if IsFlagEntry(log[0], id) then [log[0]] else []) + FlagEntries(log[1..], id)
  }

  lemma FlagEntriesCons(e: Entry, rest: seq<Entry>, id: nat)
    ensures FlagEntries([e] + rest, id) == (if IsFlagEntry(e, id) then [e] else []) + FlagEntries(rest, id)
  {
    assert ([e] + rest)[1..] == rest;
  }

  lemma {:induction false} FlagEntriesAppend(log: seq<Entry>, e: Entry, id: nat)
    ensures FlagEntries(log + [e], id) == FlagEntries(log, id) + (if IsFlagEntry(e, id) then [e] else [])
  {
    hide FlagEntries, IsFlagEntry;
    if log == [] {
      NoFlagEntries(id);
      FlagEntriesCons(e, [], id);
      assert log + [e] == [e] + [];
    } else {
      FlagEntriesAppend(log[1..], e, id);
      FlagEntriesCons(log[0], log[1..], id);
      FlagEntriesCons(log[0], log[1..] + [e], id);
      assert log + [e] == [log[0]] + (log[1..] + [e]);
      assert log == [log[0]] + log[1..];
    }
  }

  lemma NoFlagEntries(id: nat)
    ensures FlagEntries([], id) == []
  {
  }

  lemma {:induction false} FlagEntriesWithout(log: seq<Entry>, gone: nat, id: nat)
    ensures FlagEntries(WithoutFlagEntries(log, gone), id) == if gone == id then [] else FlagEntries(log, id)
  {
    if log != [] {
      FlagEntriesWithout(log[1..], gone, id);
      var rest := WithoutFlagEntries(log[1..], gone);
      if !IsFlagEntry(log[0], gone) {
        assert ([log[0]] + rest)[1..] == rest;
      }
    }
  }

  lemma RewrittenCons(e: Entry, rest: seq<Entry>, id: nat, detail: Detail)
    ensures Rewritten([e] + rest, id, detail)
         == [if IsFlagEntry(e, id) then e.(detail := detail) else e] + Rewritten(rest, id, detail)
  {
    assert ([e] + rest)[1..] == rest;
  }

  lemma {:induction false} FlagEntriesRewritten(log: seq<Entry>, id: nat, detail: Detail, other: nat)
    ensures FlagEntries(Rewritten(log, id, detail), other)
         == if other == id then Rewritten(FlagEntries(log, id), id, detail) else FlagEntries(log, other)
  {
    hide FlagEntries, Rewritten;
    if log == [] {
      EmptyLog(id, detail, other);
    } else {
      var e, rest := log[0], log[1..];
      assert log == [e] + rest;
      FlagEntriesRewritten(rest, id, detail, other);
      FlagEntriesCons(e, rest, other);
      RewrittenCons(e, rest, id, detail);
      var e' := if IsFlagEntry(e, id) then e.(detail := detail) else e;
      FlagEntriesCons(e', Rewritten(rest, id, detail), other);
      RewrittenCons(e, FlagEntries(rest, id), id, detail);
    }
  }

  lemma EmptyLog(id: nat, detail: Detail, other: nat)
    ensures Rewritten([], id, detail) == [] && FlagEntries([], other) == []
  {
  }

  // ---------- The entries that are no flag entries ----------

  /** The entries that `keep` accepts, in order. */
  function Filtered(log: seq<Entry>, keep: Entry -> bool): seq<Entry> {
    if log == [] then [] else (if keep(log[0]) then [log[0]] else []) + Filtered(log[1..], keep)
  }

  /** Those are the entries at exactly the accepted places: each as often as it was, none moved. */
  ghost predicate TakenFrom(log: seq<Entry>, kept: seq<Entry>, keep: Entry -> bool, places: seq<nat>) {
    && |places| == |kept|
    && (forall k :: 0 <= k < |places| ==> places[k] < |log| && log[places[k]] == kept[k])
    && (forall j, k :: 0 <= j < k < |places| ==> places[j] < places[k])
    && (forall i :: 0 <= i < |log| ==> (i in places <==> keep(log[i])))
  }

  lemma FilteredCons(e: Entry, rest: seq<Entry>, keep: Entry -> bool)
    ensures Filtered([e] + rest, keep) == (if keep(e) then [e] else []) + Filtered(rest, keep)
  {
    assert ([e] + rest)[1..] == rest;
  }

  lemma {:induction false} FilteredAppend(log: seq<Entry>, e: Entry, keep: Entry -> bool)
    ensures Filtered(log + [e], keep) == Filtered(log, keep) + (if keep(e) then [e] else [])
  {
    hide Filtered;
    if log == [] {
      FilteredNone(keep);
      FilteredCons(e, [], keep);
      assert log + [e] == [e] + [];
    } else {
      FilteredAppend(log[1..], e, keep);
      FilteredCons(log[0], log[1..], keep);
      FilteredCons(log[0], log[1..] + [e], keep);
      assert log + [e] == [log[0]] + (log[1..] + [e]);
      assert log == [log[0]] + log[1..];
    }
  }

  lemma FilteredNone(keep: Entry -> bool)
    ensures Filtered([], keep) == []
  {
  }

  lemma {:induction false} FilteredPlaces(log: seq<Entry>, keep: Entry -> bool) returns (places: seq<nat>)
    ensures TakenFrom(log, Filtered(log, keep), keep, places)
  {
    places := [];
    if log != [] {
      hide Filtered, TakenFrom;
      var k := |log| - 1;
      var rest := FilteredPlaces(log[..k], keep);
      FilteredAppend(log[..k], log[k], keep);
      assert log == log[..k] + [log[k]];
      places := rest + (if keep(log[k]) then [k] else []);
      TakenNext(log[..k], Filtered(log[..k], keep), log[k], keep, rest);
    }
  }

  lemma TakenNext(init: seq<Entry>, kept: seq<Entry>, e: Entry, keep: Entry -> bool, rest: seq<nat>)
    requires TakenFrom(init, kept, keep, rest)
    ensures TakenFrom(init + [e], kept + (if keep(e) then [e] else []), keep,
                      rest + (if keep(e) then [|init|] else []))
  {
    var log, places := init + [e], rest + (if keep(e) then [|init|] else []);
    forall i | 0 <= i < |log| ensures i in places <==> keep(log[i]) {
      if i < |init| {
        assert i in places <==> i in rest;
      } else {
        assert forall k :: 0 <= k < |rest| ==> rest[k] != i;
      }
    }
  }

  function NoFlagEntryOf(id: nat): Entry -> bool {
    (e: Entry) => !(e.objective == Some(id) && e.title == "ran_on_fallback")
  }

  /** Deleting an objective's flag entries leaves every other entry, and as many go as there were. */
  lemma {:induction false} WithoutIsFiltered(log: seq<Entry>, id: nat)
    ensures WithoutFlagEntries(log, id) == Filtered(log, NoFlagEntryOf(id))
    ensures |log| - |WithoutFlagEntries(log, id)| == |FlagEntries(log, id)|
  {
    if log != [] {
      WithoutIsFiltered(log[1..], id);
    }
  }

  function NoFlagEntryOfAny(ids: seq<nat>): Entry -> bool {
    (e: Entry) => !(e.objective.Some? && e.objective.value in ids && e.title == "ran_on_fallback")
  }

  lemma {:induction false} WithoutKeepsOthers(log: seq<Entry>, id: nat, ids: seq<nat>)
    requires id in ids
    ensures Filtered(WithoutFlagEntries(log, id), NoFlagEntryOfAny(ids)) == Filtered(log, NoFlagEntryOfAny(ids))
  {
    if log != [] {
      WithoutKeepsOthers(log[1..], id, ids);
      if !IsFlagEntry(log[0], id) {
        FilteredCons(log[0], WithoutFlagEntries(log[1..], id), NoFlagEntryOfAny(ids));
      }
    }
  }

  lemma {:induction false} RewrittenKeepsOthers(log: seq<Entry>, id: nat, detail: Detail, ids: seq<nat>)
    requires id in ids
    ensures Filtered(Rewritten(log, id, detail), NoFlagEntryOfAny(ids)) == Filtered(log, NoFlagEntryOfAny(ids))
  {
    if log != [] {
      hide Rewritten;
      RewrittenKeepsOthers(log[1..], id, detail, ids);
      assert log == [log[0]] + log[1..];
      RewrittenCons(log[0], log[1..], id, detail);
      var e := if IsFlagEntry(log[0], id) then log[0].(detail := detail) else log[0];
      FilteredCons(e, Rewritten(log[1..], id, detail), NoFlagEntryOfAny(ids));
    } else {
      assert Rewritten(log, id, detail) == [];
    }
  }

  /** The note left when a flag is cleared: how many flag entries went, and the evidence. */
  function ClearedNote(files: seq<File>, id: nat, o: Objective, gone: nat): Entry {
    Entry(if o.project.Some? then o.project.value else "operationkit",
          if o.workspace.Some? then o.workspace.value else "example",
          Some(id), "fallback_flag_cleared", Cleared(gone, FindingOf(files, id, o.model).evidence))
  }

  lemma OthersStep(files: seq<File>, id: nat, o: Objective, log: seq<Entry>, ids: seq<nat>)
    requires id in ids
    ensures Filtered(LogAfter(files, id, o, log), NoFlagEntryOfAny(ids))
         == Filtered(log, NoFlagEntryOfAny(ids))
            + (if VerdictOf(files, id, o).ClearFlag? then [ClearedNote(files, id, o, |FlagEntries(log, id)|)] else [])
  {
    hide FindingOf, VerdictOf, FlagEntries, WithoutFlagEntries, Rewritten, Filtered;
    var keep := NoFlagEntryOfAny(ids);
    var evidence := FindingOf(files, id, o.model).evidence;
    match VerdictOf(files, id, o)
    case NewFlag => FilteredAppend(log, NewEntry(o, id, FLAG_TITLE, Flagged(o.model, evidence)), keep);
    case ClearFlag =>
      WithoutIsFiltered(log, id);
      WithoutKeepsOthers(log, id, ids);
      assert "fallback_flag_cleared"[0] != "ran_on_fallback"[0];
      FilteredAppend(WithoutFlagEntries(log, id), ClearedNote(files, id, o, |FlagEntries(log, id)|), keep);
    case ConfirmFlag => RewrittenKeepsOthers(log, id, Confirmed(o.model, evidence), ids);
    case _ =>
  }

  /** One note for each objective whose flag a run clears, in the order of the run. */
  function ClearedNotes(t: Table, files: seq<File>, ids: seq<nat>, log: seq<Entry>): seq<Entry>
    requires forall id :: id in ids ==> id in t
  {
    if ids == [] then []
    else
      assert ids[0] in ids;
      (if VerdictOf(files, ids[0], t[ids[0]]).ClearFlag?
       then [ClearedNote(files, ids[0], t[ids[0]], |FlagEntries(log, ids[0])|)] else [])
      + ClearedNotes(t, files, ids[1..], log)
  }

  lemma {:induction false} SameNotes(t: Table, files: seq<File>, ids: seq<nat>, a: seq<Entry>, b: seq<Entry>)
    requires forall id :: id in ids ==> id in t && FlagEntries(a, id) == FlagEntries(b, id)
    ensures ClearedNotes(t, files, ids, a) == ClearedNotes(t, files, ids, b)
  {
    if ids != [] {
      hide VerdictOf, FlagEntries, ClearedNote;
      assert ids[0] in ids;
      forall id | id in ids[1..] ensures id in ids {}
      SameNotes(t, files, ids[1..], a, b);
    }
  }

  lemma {:induction false} OthersOver(t: Table, files: seq<File>, ids: seq<nat>, log: seq<Entry>, all: seq<nat>)
    requires Increasing(ids) && forall id :: id in ids ==> id in t && id in all
    ensures Filtered(LogOver(t, files, ids, log), NoFlagEntryOfAny(all))
         == Filtered(log, NoFlagEntryOfAny(all)) + ClearedNotes(t, files, ids, log)
    decreases ids
  {
    hide LogAfter, VerdictOf, FlagEntries, Filtered, ClearedNote, ClearedNotes;
    if ids == [] {
      NoNotes(t, files, ids, log);
    } else {
      var first, rest := ids[0], ids[1..];
      assert first in ids;
      forall id | id in rest ensures id in ids && id != first {}
      var next := LogAfter(files, first, t[first], log);
      OthersStep(files, first, t[first], log, all);
      OthersOver(t, files, rest, next, all);
      forall id | id in rest ensures FlagEntries(next, id) == FlagEntries(log, id) {
        LogStep(files, first, t[first], log, id);
      }
      SameNotes(t, files, rest, next, log);
      NotesNext(t, files, ids, log, Filtered(log, NoFlagEntryOfAny(all)));
    }
  }

  lemma NoNotes(t: Table, files: seq<File>, ids: seq<nat>, log: seq<Entry>)
    requires ids == []
    ensures ClearedNotes(t, files, ids, log) == []
  {
  }

  lemma NotesNext(t: Table, files: seq<File>, ids: seq<nat>, log: seq<Entry>, before: seq<Entry>)
    requires ids != [] && forall id :: id in ids ==> id in t
    ensures ids[0] in t && forall id :: id in ids[1..] ==> id in t
    ensures before + (if VerdictOf(files, ids[0], t[ids[0]]).ClearFlag?
                      then [ClearedNote(files, ids[0], t[ids[0]], |FlagEntries(log, ids[0])|)] else [])
            + ClearedNotes(t, files, ids[1..], log)
         == before + ClearedNotes(t, files, ids, log)
  {
    hide VerdictOf, FlagEntries, ClearedNote;
    assert ids[0] in ids;
    forall id | id in ids[1..] ensures id in ids {}
  }

  /**
    Over a whole run, the log apart from the flag entries of selected objectives stays as it was,
    every entry in its order, and gains only one note for each flag cleared, with the number of
    flag entries deleted.
  */
  lemma OtherEntriesStay(db: Db, files: seq<File>, now: string)
    ensures var ids := InOrder(Selected(db.objectives));
            && (forall id :: id in ids <==> id in db.objectives && IsFable(db.objectives[id].model))
            && Filtered(Applied(db, files, now).log, NoFlagEntryOfAny(ids))
               == Filtered(db.log, NoFlagEntryOfAny(ids)) + ClearedNotes(db.objectives, files, ids, db.log)
  {
    hide IsFable, LogOver, Filtered, ClearedNotes;
    var ids := InOrder(Selected(db.objectives));
    OthersOver(db.objectives, files, ids, db.log, ids);
  }

  /** What one verdict does to the flag entries of its own objective. */
  function OwnAfter(files: seq<File>, id: nat, o: Objective, entries: seq<Entry>): seq<Entry> {
    var evidence := FindingOf(files, id, o.model).evidence;
    match VerdictOf(files, id, o)
    case NewFlag => entries + [NewEntry(o, id, FLAG_TITLE, Flagged(o.model, evidence))]
    case ClearFlag => []
    case ConfirmFlag => Rewritten(entries, id, Confirmed(o.model, evidence))
    case _ => entries
  }

  lemma LogStep(files: seq<File>, id: nat, o: Objective, log: seq<Entry>, other: nat)
    ensures FlagEntries(LogAfter(files, id, o, log), other)
         == if other == id then OwnAfter(files, id, o, FlagEntries(log, id)) else FlagEntries(log, other)
  {
    hide FindingOf, VerdictOf, FlagEntries, WithoutFlagEntries;
    var evidence := FindingOf(files, id, o.model).evidence;
    match VerdictOf(files, id, o)
    case NewFlag => FlagEntriesAppend(log, NewEntry(o, id, FLAG_TITLE, Flagged(o.model, evidence)), other);
    case ClearFlag =>
      var kept := WithoutFlagEntries(log, id);
      FlagEntriesWithout(log, id, other);
      var note := Cleared(if |kept| <= |log| then |log| - |kept| else 0, evidence);
      assert FLAG_TITLE[0] != CLEARED_TITLE[0];
      FlagEntriesAppend(kept, NewEntry(o, id, CLEARED_TITLE, note), other);
    case ConfirmFlag => FlagEntriesRewritten(log, id, Confirmed(o.model, evidence), other);
    case _ =>
  }

  predicate Increasing(ids: seq<nat>) {
    forall i, j :: 0 <= i < j < |ids| ==> ids[i] < ids[j]
  }

  /**
    The log law: over a whole run the flag entries of each objective change only by its own
    verdict. A cleared one has none left, a confirmed one has every entry rewritten, a newly
    flagged one gains exactly one, and any other keeps its entries as they were.
  */
  lemma {:induction false} LogLaw(t: Table, files: seq<File>, ids: seq<nat>, log: seq<Entry>, id: nat)
    requires Increasing(ids) && forall i :: i in ids ==> i in t
    ensures FlagEntries(LogOver(t, files, ids, log), id)
         == if id in ids then OwnAfter(files, id, t[id], FlagEntries(log, id)) else FlagEntries(log, id)
    decreases ids
  {
    hide LogAfter, OwnAfter;
    if ids != [] {
      var first := ids[0];
      assert first in ids;
      LogStep(files, first, t[first], log, id);
      LogLaw(t, files, ids[1..], LogAfter(files, first, t[first], log), id);
      assert first !in ids[1..];
    }
  }

  /** Which entry flags an objective: by its title and its objective, nothing else. */
  lemma {:induction false} FlagEntriesAre(log: seq<Entry>, id: nat)
    ensures FlagEntries(log, id) == Filtered(log, (e: Entry) => e.objective == Some(id) && e.title == "ran_on_fallback")
  {
    if log != [] {
      FlagEntriesAre(log[1..], id);
    }
  }

  /**
    The flag entries of a selected objective after a run, by what was stored and what its
    transcripts say: with a switch and no flag one entry more, with genuine evidence and a flag
    the same entries with the evidence written in, with a flag and none of it nothing, and else
    as they were.
  */
  lemma FlagEntriesAfterRun(db: Db, files: seq<File>, now: string, id: nat)
    requires id in Selected(db.objectives)
    ensures var o := db.objectives[id];
            var f := FindingOf(files, id, o.model);
            var was, are := FlagEntries(db.log, id), FlagEntries(Applied(db, files, now).log, id);
            if FilesOf(files, id) == [] then are == was
            else if f.switches > 0 && !o.flagged then
              are == was + [Entry(if o.project.Some? then o.project.value else "operationkit",
                                  if o.workspace.Some? then o.workspace.value else "example",
                                  Some(id), "ran_on_fallback", Flagged(o.model, f.evidence))]
            else if !o.flagged then are == was
            else if !f.genuine then are == []
            else
              |are| == |was|
              && forall i :: 0 <= i < |was| ==> are[i] == was[i].(detail := Confirmed(o.model, f.evidence))
  {
    hide FindingOf, FilesOf, IsFable, LogOver, FlagEntries, Rewritten;
    var o := db.objectives[id];
    LogLaw(db.objectives, files, InOrder(Selected(db.objectives)), db.log, id);
    SwitchGivesFinding(files, id, o.model);
    var was := FlagEntries(db.log, id);
    forall i | 0 <= i < |was| ensures IsFlagEntry(was[i], id) { FlagEntriesIn(db.log, id, was[i]); }
  }

  /** The detail a confirming run would write into an entry. */
  function Settled(t: Table, files: seq<File>, ids: seq<nat>, e: Entry): Entry
    requires forall id :: id in ids ==> id in t
  {
    if e.objective.Some? && e.title == FLAG_TITLE && e.objective.value in ids
       && VerdictOf(files, e.objective.value, t[e.objective.value]).ConfirmFlag?
    then
      var o := t[e.objective.value];
      e.(detail := Confirmed(o.model, FindingOf(files, e.objective.value, o.model).evidence))
    else e
  }

  /** A run that neither flags nor clears anything only settles entries, each in its place. */
  lemma {:induction false} QuietRun(t: Table, files: seq<File>, ids: seq<nat>, log: seq<Entry>)
    requires Increasing(ids) && forall id :: id in ids ==> id in t
    requires forall id :: id in ids ==> VerdictOf(files, id, t[id]) !in {NewFlag, ClearFlag}
    ensures var r := LogOver(t, files, ids, log);
            |r| == |log| && forall i :: 0 <= i < |log| ==> r[i] == Settled(t, files, ids, log[i])
    decreases ids
  {
    hide VerdictOf, LogAfter, Settled;
    if ids == [] {
      forall e ensures Settled(t, files, [], e) == e { SettledNone(t, files, e); }
    } else {
      var first, rest := ids[0], ids[1..];
      assert first in ids;
      forall id | id in rest ensures id in ids && id != first {}
      QuietStep(t, files, first, log);
      var next := LogAfter(files, first, t[first], log);
      QuietRun(t, files, rest, next);
      forall i | 0 <= i < |log|
        ensures Settled(t, files, rest, next[i]) == Settled(t, files, ids, log[i])
      {
        SettledTogether(t, files, ids, log[i]);
      }
    }
  }

  lemma SettledNone(t: Table, files: seq<File>, e: Entry)
    ensures Settled(t, files, [], e) == e
  {
  }

  lemma QuietStep(t: Table, files: seq<File>, id: nat, log: seq<Entry>)
    requires id in t && VerdictOf(files, id, t[id]) !in {NewFlag, ClearFlag}
    ensures var r := LogAfter(files, id, t[id], log);
            |r| == |log| && forall i :: 0 <= i < |log| ==> r[i] == Settled(t, files, [id], log[i])
  {
    hide FindingOf, VerdictOf;
  }

  lemma SettledTogether(t: Table, files: seq<File>, ids: seq<nat>, e: Entry)
    requires ids != [] && Increasing(ids) && forall id :: id in ids ==> id in t
    ensures ids[0] in t && forall id :: id in ids[1..] ==> id in t
    ensures Settled(t, files, ids[1..], Settled(t, files, [ids[0]], e)) == Settled(t, files, ids, e)
  {
    hide FindingOf, VerdictOf;
    assert ids[0] in ids;
    assert forall id :: id in ids <==> id == ids[0] || id in ids[1..];
    assert ids[0] !in ids[1..];
  }

  /** After one run no objective is left to flag or clear. */
  lemma NothingLeftToFlag(t: Table, files: seq<File>, now: string, id: nat)
    requires id in t && IsFable(t[id].model)
    ensures VerdictOf(files, id, TableAfter(t, files, now)[id]) !in {NewFlag, ClearFlag}
    ensures VerdictOf(files, id, TableAfter(t, files, now)[id]).ConfirmFlag?
       <==> VerdictOf(files, id, t[id]) in {NewFlag, ConfirmFlag}
  {
    hide VerdictOf, RowAfter;
    RowSettled(files, id, t[id], now, now);
  }

  lemma SecondRunIsQuiet(db: Db, files: seq<File>, now: string, later: string)
    ensures var once := Applied(db, files, now);
            var twice := Applied(once, files, later);
            var ids := InOrder(Selected(db.objectives));
            && twice.objectives == once.objectives
            && Selected(once.objectives) == Selected(db.objectives)
            && (forall id :: id in ids ==> id in once.objectives)
            && |twice.log| == |once.log|
            && forall i :: 0 <= i < |once.log| ==>
                 twice.log[i] == Settled(once.objectives, files, ids, once.log[i])
  {
    hide VerdictOf, RowAfter, IsFable, Settled;
    var once := Applied(db, files, now);
    var ids := InOrder(Selected(db.objectives));
    SelectionStays(db.objectives, files, now);
    SecondRunSettled(db.objectives, files, now, later);
    forall id | id in ids ensures VerdictOf(files, id, once.objectives[id]) !in {NewFlag, ClearFlag} {
      assert id in Selected(db.objectives);
      NothingLeftToFlag(db.objectives, files, now, id);
    }
    QuietRun(once.objectives, files, ids, once.log);
  }

  /** From the second run on, running the job again changes nothing at all. */
  lemma ThirdRunChangesNothing(db: Db, files: seq<File>, now: string, later: string, last: string)
    ensures var twice := Applied(Applied(db, files, now), files, later);
            Applied(twice, files, last) == twice
  {
    hide Applied;
    var once := Applied(db, files, now);
    var twice := Applied(once, files, later);
    var thrice := Applied(twice, files, last);
    SecondRunIsQuiet(db, files, now, later);
    SecondRunIsQuiet(once, files, later, last);
    var ids := InOrder(Selected(db.objectives));
    forall i | 0 <= i < |twice.log| ensures thrice.log[i] == twice.log[i] {
      SettledTwice(once.objectives, files, ids, once.log[i]);
    }
    assert thrice.log == twice.log;
  }

  lemma SettledTwice(t: Table, files: seq<File>, ids: seq<nat>, e: Entry)
    requires forall id :: id in ids ==> id in t
    ensures Settled(t, files, ids, Settled(t, files, ids, e)) == Settled(t, files, ids, e)
  {
    hide VerdictOf, FindingOf;
  }

  lemma {:induction false} FlagEntriesIn(log: seq<Entry>, id: nat, e: Entry)
    ensures e in FlagEntries(log, id) <==> e in log && IsFlagEntry(e, id)
  {
    if log != [] {
      FlagEntriesIn(log[1..], id, e);
    }
  }

  lemma ConfirmedEntrySettled(db: Db, files: seq<File>, now: string, id: nat, e: Entry)
    requires id in Selected(db.objectives) && VerdictOf(files, id, db.objectives[id]).ConfirmFlag?
    requires e in Applied(db, files, now).log && IsFlagEntry(e, id)
    ensures var o := db.objectives[id];
            e.detail == Confirmed(o.model, FindingOf(files, id, o.model).evidence)
  {
    hide VerdictOf, FindingOf, IsFable, LogOver, FlagEntries, Rewritten;
    var o := db.objectives[id];
    var d := Confirmed(o.model, FindingOf(files, id, o.model).evidence);
    LogLaw(db.objectives, files, InOrder(Selected(db.objectives)), db.log, id);
    FlagEntriesIn(Applied(db, files, now).log, id, e);
    RewrittenDetails(FlagEntries(db.log, id), db.log, id, d, e);
  }

  lemma RewrittenDetails(was: seq<Entry>, log: seq<Entry>, id: nat, d: Detail, e: Entry)
    requires was == FlagEntries(log, id) && e in Rewritten(was, id, d)
    ensures e.detail == d
  {
    var i :| 0 <= i < |was| && Rewritten(was, id, d)[i] == e;
    FlagEntriesIn(log, id, was[i]);
  }

  lemma NewFlagEntryUnsettled(db: Db, files: seq<File>, now: string, id: nat) returns (e: Entry)
    requires id in Selected(db.objectives) && VerdictOf(files, id, db.objectives[id]).NewFlag?
    ensures e in Applied(db, files, now).log && IsFlagEntry(e, id) && e.detail.Flagged?
  {
    var once := Applied(db, files, now);
    var o := db.objectives[id];
    LogLaw(db.objectives, files, InOrder(Selected(db.objectives)), db.log, id);
    e := NewEntry(o, id, FLAG_TITLE, Flagged(o.model, FindingOf(files, id, o.model).evidence));
    assert e in FlagEntries(once.log, id);
    FlagEntriesIn(once.log, id, e);
  }

  /** The second run leaves the log alone if and only if the first flagged nothing new. */
  lemma SecondRunLog(db: Db, files: seq<File>, now: string, later: string)
    ensures var once := Applied(db, files, now);
            Applied(once, files, later).log == once.log
            <==> (forall id :: id in Selected(db.objectives) ==> !VerdictOf(files, id, db.objectives[id]).NewFlag?)
  {
    hide Applied, VerdictOf, FindingOf, IsFable;
    var once := Applied(db, files, now);
    var twice := Applied(once, files, later);
    var ids := InOrder(Selected(db.objectives));
    SecondRunIsQuiet(db, files, now, later);
    AppliedTable(db, files, now);
    forall id | id in Selected(db.objectives)
      ensures VerdictOf(files, id, once.objectives[id]).ConfirmFlag?
         <==> VerdictOf(files, id, db.objectives[id]) in {NewFlag, ConfirmFlag}
    {
      NothingLeftToFlag(db.objectives, files, now, id);
    }
    if id :| id in Selected(db.objectives) && VerdictOf(files, id, db.objectives[id]).NewFlag? {
      var e := NewFlagEntryUnsettled(db, files, now, id);
      var i :| 0 <= i < |once.log| && once.log[i] == e;
      assert twice.log[i].detail.Confirmed?;
    } else {
      forall i | 0 <= i < |once.log| ensures twice.log[i] == once.log[i] {
        var e := once.log[i];
        if Settled(once.objectives, files, ids, e) != e {
          ConfirmedEntrySettled(db, files, now, e.objective.value, e);
        }
      }
      assert twice.log == once.log;
    }
  }

  /** A Fable objective that was not flagged. */
  const UNFLAGGED: Objective := Objective(Some("fable"), false, None, None, None, None)

  /** Its one transcript, with an explicit switch to the fallback model. */
  const SWITCHED: File := File("cc-1-1.jsonl", Some(Attribution([], [FALLBACK], None)))

  lemma SwitchedIsNew()
    ensures IsFable(UNFLAGGED.model)
    ensures VerdictOf([SWITCHED], 1, UNFLAGGED) == NewFlag
  {
    assert IsFableAt("fable", 0);
    assert FilePrefix(1) == "cc-1-" && "cc-1-1.jsonl"[6..] == ".jsonl" && Belongs(SWITCHED.name, 1);
    assert FilesOf([SWITCHED], 1) == [SWITCHED] + FilesOf([], 1) == [SWITCHED];
    assert [SWITCHED][..0] == [];
    assert TallyOf([SWITCHED], UNFLAGGED.model) == Scanned(TallyOf([], UNFLAGGED.model), SWITCHED, UNFLAGGED.model);
    assert CountOf([FALLBACK], FALLBACK) == 1 + CountOf([], FALLBACK);
    assert UNFLAGGED.model != Some(FALLBACK) by { assert |FALLBACK| != |"fable"|; }
  }

  /** A database whose log the second run still changes: it rewrites the entry the first run wrote. */
  lemma SecondRunMayRewrite(now: string, later: string)
    ensures var once := Applied(Db(map[1 := UNFLAGGED], []), [SWITCHED], now);
            Applied(once, [SWITCHED], later).log != once.log
  {
    hide VerdictOf, IsFable, Applied;
    SwitchedIsNew();
    var db := Db(map[1 := UNFLAGGED], []);
    assert 1 in Selected(db.objectives);
    SecondRunLog(db, [SWITCHED], now, later);
  }

  lemma AppliedTable(db: Db, files: seq<File>, now: string)
    ensures Applied(db, files, now).objectives == TableAfter(db.objectives, files, now)
    ensures forall id :: id in db.objectives ==> Applied(db, files, now).objectives[id].model == db.objectives[id].model
  {
    SelectionStays(db.objectives, files, now);
  }

  // ---------- The job ----------

  class Database {
    var objectives: Table
    var log: seq<Entry>

    function View(): Db
      reads this
    {
      Db(objectives, log)
    }

    constructor (db: Db)
      ensures View() == db
    {
      objectives, log := db.objectives, db.log;
    }

    /** The three writes for one objective, given the row read before the run. */
    method Reconcile(files: seq<File>, id: nat, obj: Objective, now: string)
      requires id in objectives && objectives[id] == obj && FilesOf(files, id) != []
      modifies this
      ensures objectives == old(objectives)[id := RowAfter(files, id, obj, now)]
      ensures log == LogAfter(files, id, obj, old(log))
    {
      hide FindingOf, FilesOf, RanModelWritten, WithoutFlagEntries, Rewritten;
      var f := FindingOf(files, id, obj.model);
      if RanModelWritten(f, obj) {
        objectives := objectives[id := objectives[id].(ranModel := f.ranModel)];
      }
      if f.genuine && !obj.flagged && f.switches > 0 {
        var row := objectives[id];
        objectives := objectives[id := row.(flagged := true, detectedAt := Some(OrElse(row.detectedAt, now)))];
        log := log + [NewEntry(obj, id, FLAG_TITLE, Flagged(obj.model, f.evidence))];
      } else if !f.genuine && obj.flagged {
        objectives := objectives[id := objectives[id].(flagged := false, detectedAt := None)];
        var kept := WithoutFlagEntries(log, id);
        var removed := if |kept| <= |log| then |log| - |kept| else 0;
        log := kept + [NewEntry(obj, id, CLEARED_TITLE, Cleared(removed, f.evidence))];
      } else if f.genuine && obj.flagged {
        log := Rewritten(log, id, Confirmed(obj.model, f.evidence));
      }
    }

    /** One turn of the job's loop: nothing without transcripts, nothing written in a dry run. */
    method Handle(files: seq<File>, id: nat, obj: Objective, apply: bool, now: string)
      returns (verdict: Verdict, wrote: bool)
      requires id in objectives && objectives[id] == obj
      modifies this
      ensures verdict == VerdictOf(files, id, obj)
      ensures wrote == RanModelDue(files, id, obj)
      ensures objectives == if apply then old(objectives)[id := RowAfter(files, id, obj, now)] else old(objectives)
      ensures log == if apply then LogAfter(files, id, obj, old(log)) else old(log)
    {
      hide FindingOf, FilesOf, RanModelWritten, VerdictOf, RowAfter, LogAfter;
      SkippedUntouched(files, id, obj, log, now);
      verdict := VerdictOf(files, id, obj);
      wrote := RanModelDue(files, id, obj);
      if FilesOf(files, id) == [] {
        assert objectives == objectives[id := obj];
      } else if apply {
        Reconcile(files, id, obj, now);
      }
    }

    method Backfill(files: seq<File>, apply: bool, now: string) returns (s: Summary)
      modifies this
      ensures objectives == if apply then TableAfter(old(objectives), files, now) else old(objectives)
      ensures log == if apply then RunLog(old(objectives), files, old(log)) else old(log)
      ensures var t := old(objectives);
              var ids := InOrder(Selected(t));
              s == Summary(
                |ids| - Count(t, files, ids, Skip), Count(t, files, ids, Skip),
                if apply then Count(t, files, ids, ClearFlag) else 0,
                if apply then Count(t, files, ids, NewFlag) else 0,
                if apply then Count(t, files, ids, ConfirmFlag) else 0,
                if apply then CountWritten(t, files, ids) else 0,
                FlaggedIn(t, ids), FlaggedIn(objectives, InOrder(Selected(objectives))))
    {
      hide *;
      var t := objectives;
      ghost var wasLog := log;
      var ids := InOrder(Selected(t));
      RunLogIs(t, files, wasLog);
      var before := FlaggedIn(t, ids);
      var scanned: nat, skipped: nat, cleared: nat, newly: nat, confirmed: nat, written: nat := 0, 0, 0, 0, 0, 0;
      var i := 0;
      PartTableEnds(t, files, ids, now);
      LoopStart(t, files, ids, apply);
      while i < |ids|
        invariant 0 <= i <= |ids|
        invariant forall k :: k in ids[i..] ==> k in t
        invariant objectives == if apply then PartTable(t, files, ids[..i], now) else t
        invariant if apply then LogOver(t, files, ids[i..], log) == LogOver(t, files, ids, wasLog) else log == wasLog
        invariant scanned + skipped == i
        invariant Progress(t, files, ids, i, apply, Counters(skipped, cleared, newly, confirmed, written))
      {
        var id := ids[i];
        LoopStep(t, files, ids, i, log);
        ProgressStep(t, files, ids, i, apply, Counters(skipped, cleared, newly, confirmed, written));
        PartTableStep(t, files, ids, i, now);
        var verdict, wrote := Handle(files, id, t[id], apply, now);
        if verdict.Skip? {
          skipped := skipped + 1;
        } else {
          scanned := scanned + 1;
        }
        if apply {
          cleared := cleared + if verdict.ClearFlag? then 1 else 0;
          newly := newly + if verdict.NewFlag? then 1 else 0;
          confirmed := confirmed + if verdict.ConfirmFlag? then 1 else 0;
          written := written + if wrote then 1 else 0;
        }
        i := i + 1;
      }
      assert ids[..i] == ids && ids[i..] == [];
      LoopEnd(t, files, ids, log, apply, Counters(skipped, cleared, newly, confirmed, written));
      SelectionStays(t, files, now);
      var after := if apply then FlaggedIn(objectives, InOrder(Selected(objectives))) else before;
      s := Summary(scanned, skipped, cleared, newly, confirmed, written, before, after);
    }
  }

  lemma RunLogIs(t: Table, files: seq<File>, log: seq<Entry>)
    ensures forall id :: id in InOrder(Selected(t)) ==> id in t
    ensures Increasing(InOrder(Selected(t)))
    ensures RunLog(t, files, log) == LogOver(t, files, InOrder(Selected(t)), log)
  {
    assert forall id :: id in InOrder(Selected(t)) ==> id in Selected(t);
  }

  /** The table once the objectives `done` have been dealt with. */
  ghost function PartTable(t: Table, files: seq<File>, done: seq<nat>, now: string): (r: Table)
    ensures r.Keys == t.Keys
  {
    map id | id in t :: if id in done then RowAfter(files, id, t[id], now) else t[id]
  }

  lemma PartTableEnds(t: Table, files: seq<File>, ids: seq<nat>, now: string)
    requires ids == InOrder(Selected(t))
    ensures PartTable(t, files, ids[..0], now) == t
    ensures PartTable(t, files, ids, now) == TableAfter(t, files, now)
  {
    hide RowAfter, IsFable;
    assert forall id :: id in t ==> (id in ids <==> IsFable(t[id].model));
  }

  lemma PartTableStep(t: Table, files: seq<File>, ids: seq<nat>, i: nat, now: string)
    requires Increasing(ids) && i < |ids| && ids[i] in t
    ensures PartTable(t, files, ids[..i], now)[ids[i]] == t[ids[i]]
    ensures PartTable(t, files, ids[..i + 1], now)
         == PartTable(t, files, ids[..i], now)[ids[i] := RowAfter(files, ids[i], t[ids[i]], now)]
  {
    hide RowAfter, IsFable;
    assert ids[..i + 1] == ids[..i] + [ids[i]];
    assert ids[i] !in ids[..i];
  }

  lemma LoopStep(t: Table, files: seq<File>, ids: seq<nat>, i: nat, log: seq<Entry>)
    requires i < |ids| && forall k :: k in ids[i..] ==> k in t
    ensures ids[i] in t && forall k :: k in ids[i + 1..] ==> k in t
    ensures LogOver(t, files, ids[i..], log)
         == LogOver(t, files, ids[i + 1..], LogAfter(files, ids[i], t[ids[i]], log))
  {
    hide VerdictOf, LogAfter;
    var rest := ids[i..];
    assert rest[0] == ids[i] && rest[1..] == ids[i + 1..];
    assert rest[0] in rest;
    forall k | k in rest[1..] ensures k in t { assert k in rest; }
  }

  datatype Counters = Counters(skipped: nat, cleared: nat, newly: nat, confirmed: nat, written: nat)

  /** Each counter and what is left to count make the whole count; a dry run counts only skips. */
  ghost predicate Progress(t: Table, files: seq<File>, ids: seq<nat>, i: nat, apply: bool, c: Counters)
    requires i <= |ids| && forall k :: k in ids ==> k in t
  {
    var rest := ids[i..];
    && c.skipped + Count(t, files, rest, Skip) == Count(t, files, ids, Skip)
    && (if apply then
          && c.cleared + Count(t, files, rest, ClearFlag) == Count(t, files, ids, ClearFlag)
          && c.newly + Count(t, files, rest, NewFlag) == Count(t, files, ids, NewFlag)
          && c.confirmed + Count(t, files, rest, ConfirmFlag) == Count(t, files, ids, ConfirmFlag)
          && c.written + CountWritten(t, files, rest) == CountWritten(t, files, ids)
        else c.cleared == c.newly == c.confirmed == c.written == 0)
  }

  lemma ProgressStep(t: Table, files: seq<File>, ids: seq<nat>, i: nat, apply: bool, c: Counters)
    requires i < |ids| && (forall k :: k in ids ==> k in t) && Progress(t, files, ids, i, apply, c)
    ensures ids[i] in ids
    ensures var v := VerdictOf(files, ids[i], t[ids[i]]);
            var w := RanModelDue(files, ids[i], t[ids[i]]);
            Progress(t, files, ids, i + 1, apply, Counters(
              c.skipped + (if v.Skip? then 1 else 0),
              c.cleared + (if apply && v.ClearFlag? then 1 else 0),
              c.newly + (if apply && v.NewFlag? then 1 else 0),
              c.confirmed + (if apply && v.ConfirmFlag? then 1 else 0),
              c.written + (if apply && w then 1 else 0)))
  {
    hide VerdictOf, RanModelDue;
    var rest := ids[i..];
    assert rest[0] == ids[i] && rest[1..] == ids[i + 1..];
    assert rest[0] in rest;
  }

  lemma LoopStart(t: Table, files: seq<File>, ids: seq<nat>, apply: bool)
    requires forall k :: k in ids ==> k in t
    ensures Progress(t, files, ids, 0, apply, Counters(0, 0, 0, 0, 0))
  {
    assert ids[0..] == ids;
  }

  lemma LoopEnd(t: Table, files: seq<File>, ids: seq<nat>, log: seq<Entry>, apply: bool, c: Counters)
    requires (forall k :: k in ids ==> k in t) && Progress(t, files, ids, |ids|, apply, c)
    ensures LogOver(t, files, [], log) == log
    ensures c == Counters(Count(t, files, ids, Skip),
                          if apply then Count(t, files, ids, ClearFlag) else 0,
                          if apply then Count(t, files, ids, NewFlag) else 0,
                          if apply then Count(t, files, ids, ConfirmFlag) else 0,
                          if apply then CountWritten(t, files, ids) else 0)
  {
    assert ids[|ids|..] == [];
  }

  lemma SkippedUntouched(files: seq<File>, id: nat, o: Objective, log: seq<Entry>, now: string)
    ensures VerdictOf(files, id, o) == Skip <==> FilesOf(files, id) == []
    ensures FilesOf(files, id) == [] ==> RowAfter(files, id, o, now) == o && LogAfter(files, id, o, log) == log
  {
  }

  /** The printed figures add up: scanned + skipped = selected, and the flags balance. */
  lemma SummaryAddsUp(db: Db, files: seq<File>, now: string)
    ensures var t := db.objectives;
            var ids := InOrder(Selected(t));
            && Selected(Applied(db, files, now).objectives) == Selected(t)
            && |FlaggedIn(Applied(db, files, now).objectives, ids)|
               == |FlaggedIn(t, ids)| - Count(t, files, ids, ClearFlag) + Count(t, files, ids, NewFlag)
            && Count(t, files, ids, Skip) <= |ids|
  {
    hide TableAfter, VerdictOf, IsFable, LogOver;
    var ids := InOrder(Selected(db.objectives));
    forall id | id in ids ensures id in db.objectives && IsFable(db.objectives[id].model) {
      assert id in Selected(db.objectives);
    }
    AppliedTable(db, files, now);
    SelectionStays(db.objectives, files, now);
    FlagsBalance(db.objectives, files, now, ids);
  }
}
