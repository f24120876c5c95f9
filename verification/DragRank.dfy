/**
  Drag-to-rank on the development board, across both tiers: the page turns a drop into a
  pair of neighbour ids, the server turns the neighbours into a rank, and the next listing
  is sorted by that rank.
*/
module DragRank {
  import opened Options

  // ---------- The page ----------

  /** What the page asks the server for: the dragged row and the two rows it should sit between. */
  datatype Move = Move(id: nat, before: Option<nat>, after: Option<nat>)

  predicate Distinct(s: seq<nat>) {
    forall i, j :: 0 <= i < j < |s| ==> s[i] != s[j]
  }

  function IndexOf(s: seq<nat>, x: nat): (i: int)
    ensures -1 <= i < |s|
    ensures i >= 0 ==> s[i] == x
    ensures i < 0 ==> x !in s
  {
    if s == [] then -1
    else if s[0] == x then 0
    else
      var k := IndexOf(s[1..], x);
      if k < 0 then -1 else k + 1
  }

  function At(s: seq<nat>, i: int): Option<nat> {
    if 0 <= i < |s| then Some(s[i]) else None
  }

  /** The before/after ids computed when row `drag` is dropped on row `target`. */
  function Neighbours(order: seq<nat>, drag: nat, target: nat): Option<Move> {
    var from := IndexOf(order, drag);
    var to := IndexOf(order, target);
    if from < 0 || to < 0 then None
    else
      var before := if to > 0 then At(order, if to > from then to else to - 1) else None;
      var after := if to > from then At(order, to + 1) else At(order, to);
      Some(Move(drag, before, after))
  }

  /** The list a reader of the board expects: take the row out, put it back at the target's index. */
  function Moved(s: seq<nat>, from: nat, to: nat): (r: seq<nat>)
    requires from < |s| && to < |s|
  {
    var rest := s[..from] + s[from + 1..];
    rest[..to] + [s[from]] + rest[to..]
  }

  class DevelopmentPage {
    var dragId: Option<nat>

    constructor ()
      ensures dragId == None
    {
      dragId := None;
    }

    /** A drop on `targetId`; `canRank` holds when the board is sorted by rank on one platform. */
    method OnDrop(order: seq<nat>, targetId: nat, canRank: bool) returns (request: Option<Move>)
      modifies this
      ensures request ==
              if old(dragId).Some? && old(dragId).value !in {0, targetId} && canRank
              then Neighbours(order, old(dragId).value, targetId) else None
      ensures dragId == if request.Some? then None else old(dragId)
    {
      if dragId.None? || dragId.value == 0 || dragId.value == targetId || !canRank {
        return None;
      }
      var from := IndexOf(order, dragId.value);
      var to := IndexOf(order, targetId);
      if from < 0 || to < 0 {
        return None;
      }
      var before := if to > 0 then At(order, if to > from then to else to - 1) else None;
      var after := if to > from then At(order, to + 1) else At(order, to);
      request := Some(Move(dragId.value, before, after));
      dragId := None;
    }
  }

  lemma IndexOfDistinct(s: seq<nat>, i: nat)
    requires Distinct(s) && i < |s|
    ensures IndexOf(s, s[i]) == i
  {
    assert s[IndexOf(s, s[i])] == s[i];
  }

  lemma MovedElements(s: seq<nat>, from: nat, to: nat)
    requires from < |s| && to < |s|
    ensures |Moved(s, from, to)| == |s|
    ensures Moved(s, from, to)[to] == s[from]
    ensures forall k :: 0 <= k < |s| && k != to ==>
              Moved(s, from, to)[k] == s[if from <= k < to then k + 1 else if to < k <= from then k - 1 else k]
  {
  }

  /**
    The ids sent are exactly the dragged row's neighbours in the moved list, missing exactly
    at the two ends, and never the dragged row itself.
  */
  lemma NeighboursAreAdjacent(s: seq<nat>, from: nat, to: nat)
    requires Distinct(s) && from < |s| && to < |s| && from != to
    ensures Neighbours(s, s[from], s[to]) ==
            Some(Move(s[from], At(Moved(s, from, to), to - 1), At(Moved(s, from, to), to + 1)))
    ensures s[from] !in Moved(s, from, to)[..to] + Moved(s, from, to)[to + 1..]
  {
    IndexOfDistinct(s, from);
    IndexOfDistinct(s, to);
    MovedElements(s, from, to);
  }

  /** A drop of or on a row that is not shown asks for nothing. */
  lemma NoNeighbours(s: seq<nat>, drag: nat, target: nat)
    requires drag !in s || target !in s
    ensures Neighbours(s, drag, target) == None
  {
  }

  lemma MovedPermutes(s: seq<nat>, from: nat, to: nat)
    requires from < |s| && to < |s|
    ensures multiset(Moved(s, from, to)) == multiset(s)
  {
    var head, tail := s[..from], s[from + 1..];
    var rest := head + tail;
    assert s == head + ([s[from]] + tail);
    assert multiset(s) == multiset(rest) + multiset{s[from]};
    assert rest == rest[..to] + rest[to..];
    assert multiset(rest) == multiset(rest[..to]) + multiset(rest[to..]);
  }

  /** The moved list is a rearrangement, and dragging back restores the original. */
  lemma MovedBack(s: seq<nat>, from: nat, to: nat)
    requires from < |s| && to < |s|
    ensures multiset(Moved(s, from, to)) == multiset(s)
    ensures Moved(Moved(s, from, to), to, from) == s
  {
    MovedPermutes(s, from, to);
    var m := Moved(s, from, to);
    MovedElements(s, from, to);
    MovedElements(m, to, from);
    forall k | 0 <= k < |s| ensures Moved(m, to, from)[k] == s[k] {}
  }

  /** Every other pair keeps its relative order: `Source` is increasing away from `to`. */
  function Source(k: int, from: int, to: int): int {
    if k == to then from else if from <= k < to then k + 1 else if to < k <= from then k - 1 else k
  }

  lemma MovedKeepsOrder(s: seq<nat>, from: nat, to: nat, i: nat, j: nat)
    requires from < |s| && to < |s|
    requires i < j < |s| && i != to && j != to
    ensures 0 <= Source(i, from, to) < Source(j, from, to) < |s|
    ensures Moved(s, from, to)[i] == s[Source(i, from, to)]
    ensures Moved(s, from, to)[j] == s[Source(j, from, to)]
  {
    MovedElements(s, from, to);
  }

  // ---------- The server ----------

  datatype Row = Row(workspace: string, rank: Option<real>, createdAt: int, deleted: bool)

  type Table = map<nat, Row>

  /** `ORDER BY priority_rank IS NULL, priority_rank ASC, created_at DESC, id DESC`. */
  predicate Precedes(t: Table, a: nat, b: nat)
    requires a in t && b in t
  {
    var x, y := t[a], t[b];
    if x.rank.Some? != y.rank.Some? then x.rank.Some?
    else if x.rank.Some? && x.rank.value != y.rank.value then x.rank.value < y.rank.value
    else if x.createdAt != y.createdAt then x.createdAt > y.createdAt
    else a > b
  }

  /** Ranked rows come first, by rank; equal or absent ranks go by the newer row, then by the higher id. */
  lemma BoardOrder(t: Table, a: nat, b: nat)
    requires a in t && b in t && Precedes(t, a, b)
    ensures t[a].rank.None? ==> t[b].rank.None?
    ensures t[a].rank.Some? && t[b].rank.Some? ==> t[a].rank.value <= t[b].rank.value
    ensures t[a].rank == t[b].rank ==> t[a].createdAt >= t[b].createdAt
    ensures t[a].rank == t[b].rank && t[a].createdAt == t[b].createdAt ==> a > b
  {
  }

  predicate Ordered(t: Table, s: seq<nat>) {
    && (forall i :: 0 <= i < |s| ==> s[i] in t)
    && (forall i, j :: 0 <= i < j < |s| ==> Precedes(t, s[i], s[j]))
  }

  lemma PrecedesTotal(t: Table, a: nat, b: nat, c: nat)
    requires a in t && b in t && c in t
    ensures a != b ==> Precedes(t, a, b) != Precedes(t, b, a)
    ensures !Precedes(t, a, a)
    ensures Precedes(t, a, b) && Precedes(t, b, c) ==> Precedes(t, a, c)
  {
  }

  function Live(t: Table, workspace: string): set<nat> {
    set id | id in t && !t[id].deleted && t[id].workspace == workspace
  }

  lemma {:induction false} FindFirst(t: Table, ids: set<nat>) returns (m: nat)
    requires ids != {}
    requires forall id :: id in ids ==> id in t
    ensures m in ids && forall o :: o in ids && o != m ==> Precedes(t, m, o)
    decreases |ids|
  {
    var x :| x in ids;
    var rest := ids - {x};
    m := x;
    if rest != {} {
      var n := FindFirst(t, rest);
      PrecedesTotal(t, x, n, n);
      m := if Precedes(t, n, x) then n else x;
      forall o | o in ids && o != m ensures Precedes(t, m, o) {
        assert o == x || o in rest;
        PrecedesTotal(t, x, n, o);
      }
    } else {
      assert ids == {x};
    }
  }

  lemma HasFirst(t: Table, ids: set<nat>)
    requires ids != {}
    requires forall id :: id in ids ==> id in t
    ensures exists m :: m in ids && forall o :: o in ids && o != m ==> Precedes(t, m, o)
  {
    var m := FindFirst(t, ids);
  }

  /** The rows a listing query returns, in its order. */
  function Listing(t: Table, ids: set<nat>): (s: seq<nat>)
    requires forall id :: id in ids ==> id in t
    ensures Ordered(t, s)
    ensures forall id :: id in s <==> id in ids
  {
    if ids == {} then []
    else
      HasFirst(t, ids);
      assert forall a, b :: a in ids && b in ids && a != b && Precedes(t, a, b) ==> !Precedes(t, b, a);
      var m :| m in ids && forall o :: o in ids && o != m ==> Precedes(t, m, o);
      [m] + Listing(t, ids - {m})
  }

  function Lowest(t: Table, s: seq<nat>): (lo: Option<real>)
    requires forall id :: id in s ==> id in t
    ensures forall id :: id in s && t[id].rank.Some? ==> lo.Some? && lo.value <= t[id].rank.value
  {
    if s == [] then None
    else
      assert s[0] in s;
      var rest := Lowest(t, s[1..]);
      var r := t[s[0]].rank;
      if r.None? then rest else if rest.Some? && rest.value <= r.value then rest else r
  }

  function Highest(t: Table, s: seq<nat>): (hi: Option<real>)
    requires forall id :: id in s ==> id in t
    ensures forall id :: id in s && t[id].rank.Some? ==> hi.Some? && t[id].rank.value <= hi.value
  {
    if s == [] then None
    else
      assert s[0] in s;
      var rest := Highest(t, s[1..]);
      var r := t[s[0]].rank;
      if r.None? then rest else if rest.Some? && rest.value >= r.value then rest else r
  }

  function GetOr(r: Option<real>, fallback: real): real {
    if r.Some? then r.value else fallback
  }

  /** The rank of a neighbour that may be absent or unranked. */
  function RankOf(t: Table, id: Option<nat>, fallback: real): real
    requires id.Some? ==> id.value in t
  {
    if id.Some? then GetOr(t[id.value].rank, fallback) else fallback
  }

  /** Writes 1000, 2000, … down the listing `s`, leaving every other row alone. */
  function Renumbered(t: Table, s: seq<nat>): (r: Table)
    requires forall id :: id in s ==> id in t
    ensures r.Keys == t.Keys
  {
    map id | id in t :: if id in s then t[id].(rank := Some((IndexOf(s, id) + 1) as real * 1000.0)) else t[id]
  }

  datatype RankResult =
    | NotFound
    | Refused(reason: string)
    | Ranked(rank: real, renormalized: bool)

  const PRECISION: real := 0.000000001

  function Gap(a: real, b: real): real {
    if a < b then b - a else a - b
  }

  predicate IsLive(t: Table, id: nat) {
    id in t && !t[id].deleted
  }

  /** Why a request is turned away, if it is. */
  function Refusal(t: Table, id: nat, before: Option<nat>, after: Option<nat>): Option<RankResult> {
    if !IsLive(t, id) then Some(NotFound)
    else if before.None? && after.None? then Some(Refused("before_id or after_id is required"))
    else if before.Some? && !IsLive(t, before.value) then Some(Refused("before_id not found"))
    else if after.Some? && !IsLive(t, after.value) then Some(Refused("after_id not found"))
    else if (before.Some? && t[before.value].workspace != t[id].workspace)
         || (after.Some? && t[after.value].workspace != t[id].workspace)
    then Some(Refused("neighbours must be in the same workspace"))
    else None
  }

  datatype Placement = Placement(base: Table, next: real, renormalized: bool)

  /** The table after a possible renumbering, and the rank to write into it. */
  function Place(t: Table, id: nat, before: Option<nat>, after: Option<nat>): (p: Placement)
    requires Refusal(t, id, before, after).None?
    ensures p.base.Keys == t.Keys
  {
    var scope := Listing(t, Live(t, t[id].workspace));
    var lo := GetOr(Lowest(t, scope), 0.0);
    var hi := GetOr(Highest(t, scope), 0.0);
    if before.Some? && after.Some? then
      var a := RankOf(t, before, lo - 1.0);
      var b := RankOf(t, after, hi + 1.0);
      if Gap(a, b) < PRECISION then
        var t' := Renumbered(t, scope);
        Placement(t', (RankOf(t', before, 0.0) + RankOf(t', after, 0.0)) / 2.0, true)
      else
        Placement(t, (a + b) / 2.0, false)
    else if before.Some? then
      Placement(t, RankOf(t, before, hi) + 1.0, false) // dropped at the bottom
    else
      Placement(t, RankOf(t, after, lo) - 1.0, false)  // dropped at the top
  }

  /** The whole effect of one rank request on the table. */
  function RankRow(t: Table, id: nat, before: Option<nat>, after: Option<nat>): (r: (Table, RankResult)) {
    var refusal := Refusal(t, id, before, after);
    if refusal.Some? then (t, refusal.value)
    else
      var p := Place(t, id, before, after);
      (p.base[id := p.base[id].(rank := Some(p.next))], Ranked(p.next, p.renormalized))
  }

  class DevItems {
    var rows: Table

    constructor (initial: Table)
      ensures rows == initial
    {
      rows := initial;
    }

    method Renormalize(workspace: string)
      modifies this
      ensures rows == Renumbered(old(rows), Listing(old(rows), Live(old(rows), workspace)))
    {
      hide Listing, Ordered, Renumbered, IndexOf;
      ghost var t := rows;
      RenumberedNone(t);
      var list := Listing(rows, Live(rows, workspace));
      OrderedDistinct(rows, list);
      var i := 0;
      while i < |list|
        invariant 0 <= i <= |list|
        invariant rows == Renumbered(t, list[..i])
      {
        RenumberedStep(t, list, i);
        var r := rows[list[i]];
        rows := rows[list[i] := r.(rank := Some((i + 1) as real * 1000.0))];
        i := i + 1;
      }
      assert list[..i] == list;
    }

    /** The midpoint, or one past the end, renumbering the workspace when the gap is exhausted. */
    method NextRank(id: nat, before: Option<nat>, after: Option<nat>) returns (next: real, renormalized: bool)
      requires Refusal(rows, id, before, after).None?
      modifies this
      ensures Placement(rows, next, renormalized) == Place(old(rows), id, before, after)
    {
      hide Listing, Ordered, Precedes, Lowest, Highest, Renumbered;
      var scope := Listing(rows, Live(rows, rows[id].workspace));
      var lo := GetOr(Lowest(rows, scope), 0.0);
      var hi := GetOr(Highest(rows, scope), 0.0);
      renormalized := false;
      if before.Some? && after.Some? {
        var a := RankOf(rows, before, lo - 1.0);
        var b := RankOf(rows, after, hi + 1.0);
        if Gap(a, b) < PRECISION {
          Renormalize(rows[id].workspace);
          renormalized := true;
          a := RankOf(rows, before, 0.0);
          b := RankOf(rows, after, 0.0);
        }
        next := (a + b) / 2.0;
      } else if before.Some? {
        next := RankOf(rows, before, hi) + 1.0;
      } else {
        next := RankOf(rows, after, lo) - 1.0;
      }
    }

    method RankDevItem(id: nat, before: Option<nat>, after: Option<nat>) returns (result: RankResult)
      modifies this
      ensures (rows, result) == RankRow(old(rows), id, before, after)
    {
      var refusal := Refusal(rows, id, before, after);
      if refusal.Some? {
        return refusal.value;
      }
      var next, renormalized := NextRank(id, before, after);
      rows := rows[id := rows[id].(rank := Some(next))];
      result := Ranked(next, renormalized);
    }
  }

  lemma OrderedDistinct(t: Table, s: seq<nat>)
    requires Ordered(t, s)
    ensures Distinct(s)
  {
    forall i, j | 0 <= i < j < |s| ensures s[i] != s[j] { PrecedesTotal(t, s[i], s[j], s[j]); }
  }

  lemma RenumberedNone(t: Table)
    ensures Renumbered(t, []) == t
  {
  }

  lemma RenumberedStep(t: Table, s: seq<nat>, i: nat)
    requires Distinct(s) && i < |s| && forall id :: id in s ==> id in t
    ensures Renumbered(t, s[..i])[s[i]] == t[s[i]]
    ensures Renumbered(t, s[..i + 1])
         == Renumbered(t, s[..i])[s[i] := t[s[i]].(rank := Some((i + 1) as real * 1000.0))]
  {
    var p, q := s[..i], s[..i + 1];
    assert q == p + [s[i]];
    IndexOfDistinct(q, i);
    forall id | id in p ensures IndexOf(q, id) == IndexOf(p, id) {
      IndexOfDistinct(q, IndexOf(p, id));
    }
  }

  // ---------- What a request does, in terms of the rows ----------

  predicate LiveIn(t: Table, id: nat, workspace: string) {
    id in t && !t[id].deleted && t[id].workspace == workspace
  }

  /** A request is carried out exactly for a live row and live neighbours of its workspace, one at least. */
  lemma RankedIff(t: Table, id: nat, before: Option<nat>, after: Option<nat>)
    ensures var (t', result) := RankRow(t, id, before, after);
            && (result.Ranked? <==>
                  && id in t && !t[id].deleted
                  && (before.Some? || after.Some?)
                  && (before.Some? ==> LiveIn(t, before.value, t[id].workspace))
                  && (after.Some? ==> LiveIn(t, after.value, t[id].workspace)))
            && (result.NotFound? <==> id !in t || t[id].deleted)
            && (!result.Ranked? ==> t' == t)
            && (result == Refused("before_id or after_id is required") <==>
                  IsLive(t, id) && before.None? && after.None?)
            && (result == Refused("before_id not found") <==>
                  IsLive(t, id) && before.Some? && (before.value !in t || t[before.value].deleted))
            && (result == Refused("after_id not found") <==>
                  IsLive(t, id) && after.Some? && (after.value !in t || t[after.value].deleted)
                  && (before.Some? ==> before.value in t && !t[before.value].deleted))
  {
  }

  /** `lo` is the least rank among the workspace's live rows, or 0 when none is ranked. */
  ghost predicate IsLowest(t: Table, workspace: string, lo: real) {
    if exists id :: LiveIn(t, id, workspace) && t[id].rank.Some? then
      && (exists id :: LiveIn(t, id, workspace) && t[id].rank == Some(lo))
      && (forall id :: LiveIn(t, id, workspace) && t[id].rank.Some? ==> lo <= t[id].rank.value)
    else lo == 0.0
  }

  ghost predicate IsHighest(t: Table, workspace: string, hi: real) {
    if exists id :: LiveIn(t, id, workspace) && t[id].rank.Some? then
      && (exists id :: LiveIn(t, id, workspace) && t[id].rank == Some(hi))
      && (forall id :: LiveIn(t, id, workspace) && t[id].rank.Some? ==> t[id].rank.value <= hi)
    else hi == 0.0
  }

  lemma {:induction false} LowestIsTaken(t: Table, s: seq<nat>)
    requires forall id :: id in s ==> id in t
    ensures Lowest(t, s).Some? ==> exists id :: id in s && t[id].rank == Lowest(t, s)
    ensures Highest(t, s).Some? ==> exists id :: id in s && t[id].rank == Highest(t, s)
  {
    if s != [] {
      assert s[0] in s;
      LowestIsTaken(t, s[1..]);
      forall id | id in s[1..] ensures id in s {}
    }
  }

  lemma ExtremesAre(t: Table, workspace: string)
    ensures var scope := Listing(t, Live(t, workspace));
            && IsLowest(t, workspace, GetOr(Lowest(t, scope), 0.0))
            && IsHighest(t, workspace, GetOr(Highest(t, scope), 0.0))
  {
    hide Ordered, Precedes;
    var scope := Listing(t, Live(t, workspace));
    LowestIsTaken(t, scope);
    forall id ensures id in scope <==> LiveIn(t, id, workspace) {}
  }

  /** Every row but `id` is as it was, and `id` only has a new rank. */
  ghost predicate OnlyRanked(t: Table, t': Table, id: nat, rank: real) {
    id in t && t' == t[id := t[id].(rank := Some(rank))]
  }

  /**
    What a request that is carried out writes. With two neighbours at least 0.000000001 apart it
    is the point halfway between them, and one row is written. Closer neighbours have the live
    rows of the workspace renumbered first, by thousands in board order. At an end it is 1 past
    the neighbour. A neighbour without a rank counts as 1 beyond the workspace's extremes in the
    middle, and as the extreme itself at an end.
  */
  ghost predicate RankLaw(t: Table, id: nat, before: Option<nat>, after: Option<nat>, t': Table, result: RankResult,
                          lo: real, hi: real)
    requires id in t && (before.Some? ==> before.value in t) && (after.Some? ==> after.value in t)
  {
    result.Ranked? &&
    if before.Some? && after.Some? then
      var a := if t[before.value].rank.Some? then t[before.value].rank.value else lo - 1.0;
      var b := if t[after.value].rank.Some? then t[after.value].rank.value else hi + 1.0;
      && (result.renormalized <==> -0.000000001 < a - b < 0.000000001)
      && if result.renormalized then Respaced(t, id, before.value, after.value, t', result.rank)
         else OnlyRanked(t, t', id, result.rank) && result.rank - a == b - result.rank
    else
      && !result.renormalized && OnlyRanked(t, t', id, result.rank)
      && (before.Some? ==>
            result.rank == 1.0 + if t[before.value].rank.Some? then t[before.value].rank.value else hi)
      && (after.Some? ==>
            result.rank + 1.0 == if t[after.value].rank.Some? then t[after.value].rank.value else lo)
  }

  /** `u` is `t` with the live rows of the workspace at 1000, 2000, … in board order. */
  ghost predicate IsRespacing(t: Table, workspace: string, s: seq<nat>, u: Table) {
    && Ordered(t, s) && (forall x :: x in s <==> LiveIn(t, x, workspace))
    && u.Keys == t.Keys
    && (forall i :: 0 <= i < |s| ==> u[s[i]] == t[s[i]].(rank := Some((i + 1) as real * 1000.0)))
    && (forall x :: x in t && x !in s ==> u[x] == t[x])
  }

  /** After a renumbering `id` stands halfway between its neighbours. */
  ghost predicate Respaced(t: Table, id: nat, before: nat, after: nat, t': Table, rank: real)
    requires id in t && before in t && after in t
  {
    exists u: Table, s: seq<nat> ::
      && IsRespacing(t, t[id].workspace, s, u)
      && u[before].rank.Some? && u[after].rank.Some?
      && rank - u[before].rank.value == u[after].rank.value - rank
      && OnlyRanked(u, t', id, rank)
  }

  lemma RenumberedRespaces(t: Table, workspace: string)
    ensures var s := Listing(t, Live(t, workspace)); IsRespacing(t, workspace, s, Renumbered(t, s))
  {
    hide Listing, Ordered, Precedes, IndexOf;
    var s := Listing(t, Live(t, workspace));
    OrderedDistinct(t, s);
    forall i | 0 <= i < |s| ensures Renumbered(t, s)[s[i]] == t[s[i]].(rank := Some((i + 1) as real * 1000.0)) {
      IndexOfDistinct(s, i);
    }
  }

  lemma AreRespaced(t: Table, workspace: string, s: seq<nat>, u: Table, x: nat)
    requires IsRespacing(t, workspace, s, u) && LiveIn(t, x, workspace)
    ensures u[x].rank.Some?
  {
    var i :| 0 <= i < |s| && s[i] == x;
  }

  lemma PlaceRespaces(t: Table, id: nat, before: nat, after: nat)
    requires Refusal(t, id, Some(before), Some(after)).None? && Place(t, id, Some(before), Some(after)).renormalized
    ensures var (t', result) := RankRow(t, id, Some(before), Some(after));
            result.Ranked? && Respaced(t, id, before, after, t', result.rank)
  {
    hide Listing, Ordered, Precedes, Lowest, Highest, IsRespacing, Renumbered;
    var workspace := t[id].workspace;
    var s := Listing(t, Live(t, workspace));
    var u := Renumbered(t, s);
    RenumberedRespaces(t, workspace);
    AreRespaced(t, workspace, s, u, before);
    AreRespaced(t, workspace, s, u, after);
    var p := Place(t, id, Some(before), Some(after));
    assert p.base == u && p.next == (u[before].rank.value + u[after].rank.value) / 2.0;
    assert OnlyRanked(u, RankRow(t, id, Some(before), Some(after)).0, id, p.next);
  }

  /** The rank request obeys the law, with the extremes of its workspace. */
  lemma RankRequestLaw(t: Table, id: nat, before: Option<nat>, after: Option<nat>) returns (lo: real, hi: real)
    requires RankRow(t, id, before, after).1.Ranked?
    ensures id in t && (before.Some? ==> before.value in t) && (after.Some? ==> after.value in t)
    ensures IsLowest(t, t[id].workspace, lo) && IsHighest(t, t[id].workspace, hi)
    ensures var (t', result) := RankRow(t, id, before, after);
            RankLaw(t, id, before, after, t', result, lo, hi)
  {
    hide Listing, Ordered, Precedes, Lowest, Highest, IsLowest, IsHighest, Renumbered, Respaced;
    var scope := Listing(t, Live(t, t[id].workspace));
    lo, hi := GetOr(Lowest(t, scope), 0.0), GetOr(Highest(t, scope), 0.0);
    ExtremesAre(t, t[id].workspace);
    if before.Some? && after.Some? && Place(t, id, before, after).renormalized {
      PlaceRespaces(t, id, before.value, after.value);
    }
  }

  /** Between ranked neighbours a billionth or more apart: halfway, one row written, nothing renumbered. */
  lemma DropIsHalfway(t: Table, id: nat, before: nat, after: nat)
    requires RankRow(t, id, Some(before), Some(after)).1.Ranked?
    requires before in t && after in t && t[before].rank.Some? && t[after].rank.Some?
    ensures var (t', result) := RankRow(t, id, Some(before), Some(after));
            var a, b := t[before].rank.value, t[after].rank.value;
            && (result.renormalized <==> -0.000000001 < a - b < 0.000000001)
            && (!result.renormalized ==> OnlyRanked(t, t', id, result.rank) && result.rank - a == b - result.rank)
  {
    hide RankRow, IsLowest, IsHighest, Respaced, OnlyRanked;
    var lo, hi := RankRequestLaw(t, id, Some(before), Some(after));
  }

  // ---------- The two together ----------

  /** A board view: live rows of one workspace, listed in board order (filters may hide others). */
  predicate BoardView(t: Table, workspace: string, view: seq<nat>) {
    Ordered(t, view) && forall id :: id in view ==> id in Live(t, workspace)
  }

  /** Renumbering keeps the board order of the whole workspace and ranks every row of it. */
  lemma RenumberedKeepsOrder(t: Table, scope: seq<nat>, a: nat, b: nat)
    requires Ordered(t, scope) && a in scope && b in scope && Precedes(t, a, b)
    ensures var r := Renumbered(t, scope);
            r[a].rank.Some? && r[b].rank.Some? && r[a].rank.value < r[b].rank.value
  {
    var i, j := IndexOf(scope, a), IndexOf(scope, b);
    PrecedesTotal(t, a, b, a);
    assert scope[i] == a && scope[j] == b;
  }

  /** After the request the dragged row has rank `next` and the others keep their order. */
  predicate Placed(t: Table, t': Table, s: seq<nat>, drag: nat, next: real) {
    && (forall id :: id in s ==> id in t && id in t')
    && (drag in t' ==> t'[drag].rank == Some(next))
    && (forall a, b :: a in s && b in s && a != drag && b != drag && Precedes(t, a, b) ==> Precedes(t', a, b))
  }

  lemma PlacedIsOrdered(t: Table, t': Table, s: seq<nat>, from: nat, to: nat, next: real)
    requires Ordered(t, s) && from < |s| && to < |s|
    requires Placed(t, t', s, s[from], next)
    requires var m := Moved(s, from, to);
             && (to > 0 ==> m[to - 1] in t' && t'[m[to - 1]].rank.Some? && t'[m[to - 1]].rank.value < next)
             && (to < |s| - 1 ==> m[to + 1] in t' && (t'[m[to + 1]].rank.Some? ==> next < t'[m[to + 1]].rank.value))
    ensures Ordered(t', Moved(s, from, to))
  {
    var m := Moved(s, from, to);
    MovedElements(s, from, to);
    OrderedDistinct(t, s);
    forall i | 0 <= i < |m| ensures m[i] in s && (i != to ==> m[i] != s[from]) {}
    forall i, j | 0 <= i < j < |m| && i != to && j != to ensures Precedes(t', m[i], m[j]) {
      MovedKeepsOrder(s, from, to, i, j);
    }
    forall i, j | 0 <= i < j < |m| ensures Precedes(t', m[i], m[j]) {
      if i == to {
        if j != to + 1 { assert Precedes(t', m[to + 1], m[j]); }
      } else if j == to {
        if i != to - 1 { assert Precedes(t', m[i], m[to - 1]); }
      }
    }
  }

  /** A ranked or absent row above, and any row below: the new rank falls strictly between them. */
  lemma PlaceIsBetween(t: Table, id: nat, before: Option<nat>, after: Option<nat>)
    requires Refusal(t, id, before, after).None?
    requires before.Some? ==> t[before.value].rank.Some?
    requires before.Some? && after.Some? ==> Precedes(t, before.value, after.value)
    ensures var p := Place(t, id, before, after);
            && (before.Some? ==> p.base[before.value].rank.Some? && p.base[before.value].rank.value < p.next)
            && (after.Some? && p.base[after.value].rank.Some? ==> p.next < p.base[after.value].rank.value)
  {
    var scope := Listing(t, Live(t, t[id].workspace));
    if before.Some? && after.Some? && Place(t, id, before, after).renormalized {
      RenumberedKeepsOrder(t, scope, before.value, after.value);
    } else {
      assert before.Some? ==> before.value in scope;
      assert after.Some? ==> after.value in scope;
    }
  }

  lemma PlaceKeepsOrder(t: Table, id: nat, before: Option<nat>, after: Option<nat>, a: nat, b: nat)
    requires Refusal(t, id, before, after).None?
    requires a in Live(t, t[id].workspace) && b in Live(t, t[id].workspace) && Precedes(t, a, b)
    ensures Precedes(Place(t, id, before, after).base, a, b)
  {
    hide Listing, Ordered, Renumbered, Lowest, Highest, Gap, RankOf;
    if Place(t, id, before, after).renormalized {
      RenumberedKeepsOrder(t, Listing(t, Live(t, t[id].workspace)), a, b);
    }
  }

  /** When the row above the drop is absent or ranked, the request puts the row exactly there. */
  lemma RankedDropIsOrdered(t: Table, workspace: string, view: seq<nat>, from: nat, to: nat)
    requires BoardView(t, workspace, view) && from < |view| && to < |view| && from != to
    requires to > 0 ==> t[Moved(view, from, to)[to - 1]].rank.Some?
    ensures var m := Moved(view, from, to);
            var r := RankRow(t, view[from], At(m, to - 1), At(m, to + 1));
            r.1.Ranked? && Ordered(r.0, m)
  {
    hide Ordered, Place, Precedes;
    var m := Moved(view, from, to);
    var drag, before, after := view[from], At(m, to - 1), At(m, to + 1);
    DropAccepted(t, workspace, view, from, to);
    PlaceIsBetween(t, drag, before, after);
    var (t', result) := RankRow(t, drag, before, after);
    forall a, b | a in view && b in view && a != drag && b != drag && Precedes(t, a, b)
      ensures Precedes(t', a, b)
    {
      OthersKeepOrder(t, drag, before, after, a, b);
    }
    assert Placed(t, t', view, drag, result.rank);
    PlacedIsOrdered(t, t', view, from, to, result.rank);
  }

  /** A drop inside a board view is never refused, and its neighbours stand in board order. */
  lemma DropAccepted(t: Table, workspace: string, view: seq<nat>, from: nat, to: nat)
    requires BoardView(t, workspace, view) && from < |view| && to < |view| && from != to
    ensures var m := Moved(view, from, to);
            var before, after := At(m, to - 1), At(m, to + 1);
            && Refusal(t, view[from], before, after).None?
            && (before.Some? ==> before.value != view[from])
            && (after.Some? ==> after.value != view[from])
            && (before.Some? && after.Some? ==> Precedes(t, before.value, after.value))
            && t[view[from]].workspace == workspace
            && (forall id :: id in view ==> id in Live(t, workspace))
  {
    var m := Moved(view, from, to);
    MovedElements(view, from, to);
    OrderedDistinct(t, view);
    forall id | id in view ensures IsLive(t, id) && t[id].workspace == workspace {
      assert id in Live(t, workspace);
    }
    var before, after := At(m, to - 1), At(m, to + 1);
    assert before.Some? ==> before.value in view;
    assert after.Some? ==> after.value in view;
    if before.Some? && after.Some? {
      MovedKeepsOrder(view, from, to, to - 1, to + 1);
    }
  }

  /** When the row above the drop is unranked, the dragged row always jumps over it. */
  lemma UnrankedDropIsNotOrdered(t: Table, workspace: string, view: seq<nat>, from: nat, to: nat)
    requires BoardView(t, workspace, view) && from < |view| && 0 < to < |view| && from != to
    requires t[Moved(view, from, to)[to - 1]].rank.None?
    ensures var m := Moved(view, from, to);
            var r := RankRow(t, view[from], At(m, to - 1), At(m, to + 1));
            r.1.Ranked? && !Ordered(r.0, m)
  {
    var m := Moved(view, from, to);
    var drag, before, after := view[from], At(m, to - 1), At(m, to + 1);
    DropAccepted(t, workspace, view, from, to);
    BoundsAgree(t, Listing(t, Live(t, workspace)));
    var r := RankRow(t, drag, before, after);
    assert r.0[before.value].rank.None? && r.0[drag].rank.Some?;
    assert !Precedes(r.0, m[to - 1], m[to]);
  }

  lemma BoundsAgree(t: Table, s: seq<nat>)
    requires forall id :: id in s ==> id in t
    ensures GetOr(Lowest(t, s), 0.0) <= GetOr(Highest(t, s), 0.0)
  {
    if s != [] {
      BoundsAgree(t, s[1..]);
    }
  }

  lemma TailMultiset(s: seq<nat>)
    requires s != []
    ensures s == [s[0]] + s[1..] && multiset(s[1..]) == multiset(s) - multiset{s[0]}
  {
    assert s == [s[0]] + s[1..];
  }

  lemma OrderedTail(t: Table, s: seq<nat>)
    requires s != [] && Ordered(t, s)
    ensures Ordered(t, s[1..])
  {
    hide Precedes;
  }

  /** Two listings of the same rows under one table are the same list. */
  lemma {:induction false} ListingUnique(t: Table, s: seq<nat>, u: seq<nat>)
    requires Ordered(t, s) && Ordered(t, u)
    requires multiset(s) == multiset(u)
    ensures s == u
  {
    hide Ordered;
    assert |multiset(s)| == |s| && |multiset(u)| == |u|;
    if s != [] {
      SameFirst(t, s, u);
      TailMultiset(s);
      TailMultiset(u);
      OrderedTail(t, s);
      OrderedTail(t, u);
      ListingUnique(t, s[1..], u[1..]);
    }
  }

  lemma FirstPrecedes(t: Table, s: seq<nat>, x: nat)
    requires Ordered(t, s) && x in s
    ensures x == s[0] || Precedes(t, s[0], x)
  {
    var i :| 0 <= i < |s| && s[i] == x;
  }

  lemma SameFirst(t: Table, s: seq<nat>, u: seq<nat>)
    requires Ordered(t, s) && Ordered(t, u) && multiset(s) == multiset(u)
    requires s != [] && u != []
    ensures s[0] == u[0]
  {
    assert s[0] in multiset(u) && u[0] in multiset(s);
    FirstPrecedes(t, s, u[0]);
    FirstPrecedes(t, u, s[0]);
    PrecedesTotal(t, s[0], u[0], u[0]);
  }

  /**
    The round trip through both tiers: drop a row, rank it on the server, list the same rows
    again. The board shows the moved list if and only if the row above the drop point is
    absent or already ranked.
  */
  lemma DropThenReload(t: Table, workspace: string, view: seq<nat>, from: nat, to: nat, reload: seq<nat>)
    requires BoardView(t, workspace, view) && from < |view| && to < |view| && from != to
    requires var move := Neighbours(view, view[from], view[to]);
             move.Some? ==>
               && Ordered(RankRow(t, move.value.id, move.value.before, move.value.after).0, reload)
               && multiset(reload) == multiset(view)
    ensures var move := Neighbours(view, view[from], view[to]);
            && move.Some?
            && RankRow(t, move.value.id, move.value.before, move.value.after).1.Ranked?
            && (reload == Moved(view, from, to)
                <==> (move.value.before.Some? ==> t[move.value.before.value].rank.Some?))
  {
    OrderedDistinct(t, view);
    NeighboursAreAdjacent(view, from, to);
    MovedElements(view, from, to);
    MovedBack(view, from, to);
    var m := Moved(view, from, to);
    var t' := RankRow(t, view[from], At(m, to - 1), At(m, to + 1)).0;
    if to > 0 && t[m[to - 1]].rank.None? {
      UnrankedDropIsNotOrdered(t, workspace, view, from, to);
    } else {
      RankedDropIsOrdered(t, workspace, view, from, to);
      ListingUnique(t', reload, m);
    }
  }

  /** Ranking one row never reorders any two other live rows of the workspace. */
  lemma OthersKeepOrder(t: Table, id: nat, before: Option<nat>, after: Option<nat>, a: nat, b: nat)
    requires id in t && a in Live(t, t[id].workspace) && b in Live(t, t[id].workspace)
    requires a != id && b != id
    requires Precedes(t, a, b)
    ensures Precedes(RankRow(t, id, before, after).0, a, b)
  {
    if Refusal(t, id, before, after).None? {
      PlaceKeepsOrder(t, id, before, after, a, b);
    }
  }

  /** A drop under an unranked row: row 3 is dropped on unranked row 2 and still lists above it. */
  lemma UnrankedDropExample()
    ensures var t: Table := map[3 := Row("acme", Some(1.0), 0, false),
                                2 := Row("acme", None, 0, false),
                                1 := Row("acme", None, 0, false)];
            && BoardView(t, "acme", [3, 2, 1])
            && Moved([3, 2, 1], 0, 1) == [2, 3, 1]
            && Neighbours([3, 2, 1], 3, 2) == Some(Move(3, Some(2), Some(1)))
            && !Ordered(RankRow(t, 3, Some(2), Some(1)).0, [2, 3, 1])
  {
    var t: Table := map[3 := Row("acme", Some(1.0), 0, false),
                        2 := Row("acme", None, 0, false),
                        1 := Row("acme", None, 0, false)];
    var view: seq<nat> := [3, 2, 1];
    assert Precedes(t, 3, 2) && Precedes(t, 3, 1) && Precedes(t, 2, 1);
    assert BoardView(t, "acme", view);
    assert Moved(view, 0, 1) == [2, 3, 1];
    NeighboursAreAdjacent(view, 0, 1);
    UnrankedDropIsNotOrdered(t, "acme", view, 0, 1);
  }
}
