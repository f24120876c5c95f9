/** The status workflow: the typed transition table, the legacy table, and the moves a card offers. */
module Workflow {
  import opened Options
  import opened ObjectiveStatus

  datatype Type = Project | Bug | Task

  /** `TRANSITIONS_BY_TYPE`. */
  function Transitions(t: Type, from: Status): seq<Status> {
    match (t, from)
    case (Project, Planning) => [Queue, Working, Done, Cancelled]
    case (Project, Queue) => [Planning, Working, Done, Cancelled]
    case (_, Planning) => []
    case (_, Queue) => [Working, Done, Cancelled]
    case (Task, Working) => [Done, Review, Cancelled]
    case (_, Working) => [AiReview, Review, Done, Cancelled]
    case (Task, AiReview) => [Working, Done, Cancelled]
    case (_, AiReview) => [Working, Review, Done, Cancelled]
    case (Task, Review) => [Working, Done, Cancelled]
    case (_, Review) => [Working, AiReview, Done, Cancelled]
    case (_, Done) => [Working]
    case (_, Cancelled) => [Working, Queue]
  }

  /** A missing type counts as a task. */
  function AllowedTransitions(t: Option<Type>, from: Status): seq<Status> {
    Transitions(if t.Some? then t.value else Task, from)
  }

  predicate IsTransitionAllowed(t: Option<Type>, from: Status, to: Status) {
    to in AllowedTransitions(t, from)
  }

  function InitialStatus(t: Type): Status {
    if t.Project? then Planning else Queue
  }

  /** `VALID_TRANSITIONS`, for callers that do not know the type. */
  function LegacyTransitions(from: Status): seq<Status> {
    match from
    case Planning => [Queue, Working, Done, Cancelled]
    case Queue => [Working, Done, Cancelled]
    case Working => [AiReview, Review, Done, Cancelled]
    case AiReview => [Review, Working, Done, Cancelled]
    case Review => [Working, Done, Cancelled]
    case Done => [Queue]
    case Cancelled => [Queue]
  }

  /** The statuses the buttons of a card lead to. */
  function CardTargets(s: Status): seq<Status> {
    match s
    case Planning => [Queue]
    case Queue => [Working]
    case Working => [Done]
    case AiReview => []
    case Review => [Done, Working]
    case Done => [Working]
    case Cancelled => [Queue]
  }

  /** The table read the other way: from where each status can be entered. */
  lemma EnteredFrom(t: Type, from: Status, to: Status)
    ensures to in Transitions(t, from) <==>
              match to
              case Planning => t == Project && from == Queue
              case Queue => from == Cancelled || (t == Project && from == Planning)
              case Working => from != Working && (from == Planning ==> t == Project)
              case AiReview => t != Task && from in {Working, Review}
              case Review => from == Working || (t != Task && from == AiReview)
              case _ => from !in {Done, Cancelled} && (from == Planning ==> t == Project)
    ensures InitialStatus(t) == (match t case Project => Planning case Bug => Queue case Task => Queue)
  {
  }

  lemma LegacyEnteredFrom(from: Status, to: Status)
    ensures to in LegacyTransitions(from) <==>
              match to
              case Planning => false
              case Queue => from in {Planning, Done, Cancelled}
              case Working => from in {Planning, Queue, AiReview, Review}
              case AiReview => from == Working
              case Review => from in {Working, AiReview}
              case _ => from !in {Done, Cancelled}
  {
  }

  /** The buttons, by where they lead. */
  lemma ButtonsLeadTo(from: Status, to: Status)
    ensures to in CardTargets(from) <==>
              match to
              case Queue => from in {Planning, Cancelled}
              case Working => from in {Queue, Review, Done}
              case Done => from in {Working, Review}
              case _ => false
  {
  }

  // ---------- Runs ----------

  /** A history of statuses in which every move is allowed. */
  predicate IsRun(t: Type, r: seq<Status>) {
    r != [] && forall i :: 0 <= i < |r| - 1 ==> IsTransitionAllowed(Some(t), r[i], r[i + 1])
  }

  predicate StartsRight(t: Type, r: seq<Status>) {
    IsRun(t, r) && r[0] == InitialStatus(t)
  }

  /** The statuses an objective of a type can ever be in. */
  predicate Reachable(t: Type, s: Status) {
    match t
    case Project => true
    case Bug => s != Planning
    case Task => s != Planning && s != AiReview
  }

  lemma {:induction false} RunsStayReachable(t: Type, r: seq<Status>, i: nat)
    requires StartsRight(t, r) && i < |r|
    ensures Reachable(t, r[i])
  {
    if i > 0 {
      RunsStayReachable(t, r, i - 1);
      assert IsTransitionAllowed(Some(t), r[i - 1], r[i]);
    }
  }

  function Witness(t: Type, s: Status): seq<Status> {
    var i := InitialStatus(t);
    match s
    case Planning => [Planning]
    case Queue => if t.Project? then [Planning, Queue] else [Queue]
    case Working => [i, Working]
    case AiReview => [i, Working, AiReview]
    case Review => [i, Working, Review]
    case Done => [i, Done]
    case Cancelled => [i, Cancelled]
  }

  /** Exactly these are reached: tasks never enter AI review or planning, bugs never planning. */
  lemma ReachableIff(t: Type, s: Status)
    ensures Reachable(t, s) <==> exists r :: StartsRight(t, r) && r[|r| - 1] == s
  {
    if Reachable(t, s) {
      var w := Witness(t, s);
      assert StartsRight(t, w) && w[|w| - 1] == s;
    }
    forall r | StartsRight(t, r) && r[|r| - 1] == s ensures Reachable(t, s) {
      RunsStayReachable(t, r, |r| - 1);
    }
  }

  predicate IsReviewStage(s: Status) {
    s in {AiReview, Review}
  }

  /** The first time an objective enters either review, it comes straight from working. */
  lemma FirstReviewComesFromWorking(t: Type, r: seq<Status>, i: nat)
    requires StartsRight(t, r) && i < |r| && IsReviewStage(r[i])
    requires forall k :: 0 <= k < i ==> !IsReviewStage(r[k])
    ensures i > 0 && r[i - 1] == Working
  {
    if i > 0 {
      assert IsTransitionAllowed(Some(t), r[i - 1], r[i]);
    }
  }

  /** Between a status outside review and any later review stage there is a spell of working. */
  lemma {:induction false} WorkBetweenDoneAndReview(t: Type, r: seq<Status>, i: nat, j: nat)
    requires IsRun(t, r) && i < j < |r| && r[i] in {Queue, Planning, Done, Cancelled} && IsReviewStage(r[j])
    ensures exists k :: i < k < j && r[k] == Working
  {
    assert IsTransitionAllowed(Some(t), r[j - 1], r[j]);
    if r[j - 1] != Working {
      assert IsReviewStage(r[j - 1]);
      WorkBetweenDoneAndReview(t, r, i, j - 1);
    }
  }

  /** A card's button is refused in exactly one situation, which no run reaches. */
  lemma CardButtonsAllowedIff(t: Type, s: Status)
    ensures (forall to :: to in CardTargets(s) ==> IsTransitionAllowed(Some(t), s, to)) <==> s != Planning || t.Project?
  {
    if s == Planning && !t.Project? {
      assert Queue in CardTargets(s);
    }
  }

  /** Every button a card offers is an allowed move at every moment of every run. */
  lemma CardButtonsWork(t: Type, r: seq<Status>, i: nat, to: Status)
    requires StartsRight(t, r) && i < |r| && to in CardTargets(r[i])
    ensures IsTransitionAllowed(Some(t), r[i], to)
    ensures StartsRight(t, r[..i + 1] + [to])
  {
    RunsStayReachable(t, r, i);
    CardButtonsAllowedIff(t, r[i]);
    var longer := r[..i + 1] + [to];
    forall k | 0 <= k < |longer| - 1 ensures IsTransitionAllowed(Some(t), longer[k], longer[k + 1]) {
      if k < i {
        assert longer[k] == r[k] && longer[k + 1] == r[k + 1];
      }
    }
  }

  /**
    The types differ exactly so: a bug is a project without planning, and a task is a bug that
    never enters AI review and never passes from AI review to human review.
  */
  lemma LighterTypesRestrict(from: Status, to: Status)
    ensures to in Transitions(Bug, from) <==> to in Transitions(Project, from) && from != Planning && to != Planning
    ensures to in Transitions(Task, from)
       <==> to in Transitions(Bug, from) && to != AiReview && !(from == AiReview && to == Review)
  {
  }

  /** Every reachable open status can be cancelled; a closed one reopens to working, done to nothing else. */
  lemma RetireAndReopen(t: Type, s: Status)
    requires Reachable(t, s)
    ensures IsTransitionAllowed(Some(t), s, Cancelled) <==> s !in {Done, Cancelled}
    ensures IsTransitionAllowed(Some(t), s, Done) <==> s !in {Done, Cancelled}
    ensures s in {Done, Cancelled} ==> IsTransitionAllowed(Some(t), s, Working)
    ensures forall to :: IsTransitionAllowed(Some(t), Done, to) ==> to == Working
    ensures forall to :: IsTransitionAllowed(None, s, to) <==> IsTransitionAllowed(Some(Task), s, to)
  {
  }

  // ---------- The legacy table ----------

  predicate IsLegacyRun(r: seq<Status>) {
    r != [] && forall i :: 0 <= i < |r| - 1 ==> r[i + 1] in LegacyTransitions(r[i])
  }

  /** The statuses a project passes through in place of one legacy move, between its two ends. */
  function Detour(from: Status, to: Status): seq<Status> {
    if from == Done && to == Queue then [Working, Cancelled] else []
  }

  function Expanded(r: seq<Status>): (e: seq<Status>)
    requires r != []
    ensures |r| <= |e| <= 3 * |r|
  {
    if |r| == 1 then r
    else Expanded(r[..|r| - 1]) + Detour(r[|r| - 2], r[|r| - 1]) + [r[|r| - 1]]
  }

  /** Where in the expanded run each status of the legacy run is. */
  function Places(r: seq<Status>): (p: seq<nat>)
    requires r != []
    ensures |p| == |r|
  {
    if |r| == 1 then [0] else Places(r[..|r| - 1]) + [|Expanded(r)| - 1]
  }

  /** `e` passes at `p` through the statuses of `r`, end to end, with exactly the detours between them. */
  ghost predicate Embeds(r: seq<Status>, e: seq<Status>, p: seq<nat>) {
    && |p| == |r| > 0
    && p[0] == 0 && p[|r| - 1] == |e| - 1
    && (forall k :: 0 <= k < |r| ==> p[k] < |e| && e[p[k]] == r[k])
    && (forall k :: 0 <= k < |r| - 1 ==> p[k] < p[k + 1] && e[p[k] + 1..p[k + 1]] == Detour(r[k], r[k + 1]))
  }

  /**
    Every legacy run is simulated by a project run that passes through the same statuses in
    order; between two of them it is in working and cancelled when the legacy run goes from
    done to queue, and nowhere otherwise.
  */
  lemma {:induction false} LegacySimulated(r: seq<Status>)
    requires IsLegacyRun(r)
    ensures IsRun(Project, Expanded(r)) && Embeds(r, Expanded(r), Places(r))
    ensures |r| <= |Expanded(r)| <= 3 * |r|
    decreases |r|
  {
    hide IsRun, IsLegacyRun, LegacyTransitions, Expanded, Places, Embeds;
    LegacyLast(r);
    if |r| == 1 {
      LoneStatus(r);
    } else {
      var k := |r| - 1;
      LegacySimulated(r[..k]);
      LegacyStep(r[..k], r[k]);
      assert r == r[..k] + [r[k]];
    }
  }

  lemma LegacyLast(r: seq<Status>)
    requires IsLegacyRun(r)
    ensures var k := |r| - 1;
            k > 0 ==> IsLegacyRun(r[..k]) && r[k] in LegacyTransitions(r[..k][k - 1])
    ensures r != []
  {
    hide LegacyTransitions;
    var k := |r| - 1;
    forall i | 0 <= i < k - 1 ensures r[..k][i + 1] in LegacyTransitions(r[..k][i]) {
      assert r[i + 1] in LegacyTransitions(r[i]);
    }
    assert k > 0 ==> r[k - 1 + 1] in LegacyTransitions(r[k - 1]);
  }

  lemma LoneStatus(r: seq<Status>)
    requires |r| == 1
    ensures IsRun(Project, Expanded(r)) && Embeds(r, Expanded(r), Places(r))
  {
  }

  lemma LegacyStep(init: seq<Status>, to: Status)
    requires init != [] && to in LegacyTransitions(init[|init| - 1])
    requires IsRun(Project, Expanded(init)) && Embeds(init, Expanded(init), Places(init))
    ensures var r := init + [to]; IsRun(Project, Expanded(r)) && Embeds(r, Expanded(r), Places(r))
  {
    hide IsRun, LegacyTransitions, Detour, Embeds, Expanded, Places;
    var last := init[|init| - 1];
    var d := Detour(last, to);
    ExpandedNext(init, to);
    DetourIsRun(last, to);
    EmbedsEnd(init, Expanded(init), Places(init));
    ExtendRun(Project, Expanded(init), d + [to]);
    assert Expanded(init) + d + [to] == Expanded(init) + (d + [to]);
    EmbedsNext(init, Expanded(init), Places(init), to);
  }

  lemma ExpandedNext(init: seq<Status>, to: Status)
    requires init != []
    ensures var r := init + [to];
            && Expanded(r) == Expanded(init) + Detour(init[|init| - 1], to) + [to]
            && Places(r) == Places(init) + [|Expanded(r)| - 1]
  {
    hide Detour;
    assert (init + [to])[..|init|] == init;
  }

  lemma EmbedsEnd(r: seq<Status>, e: seq<Status>, p: seq<nat>)
    requires Embeds(r, e, p)
    ensures e != [] && e[|e| - 1] == r[|r| - 1]
  {
  }

  lemma EmbedsNext(r: seq<Status>, e: seq<Status>, p: seq<nat>, to: Status)
    requires Embeds(r, e, p)
    ensures var f := e + Detour(r[|r| - 1], to) + [to];
            Embeds(r + [to], f, p + [|f| - 1])
  {
    hide Detour;
    var d := Detour(r[|r| - 1], to);
    var f := e + d + [to];
    var q, s := p + [|f| - 1], r + [to];
    forall k | 0 <= k < |s| - 1 ensures q[k] < q[k + 1] && f[q[k] + 1..q[k + 1]] == Detour(s[k], s[k + 1]) {
      if k < |r| - 1 {
        assert p[k] < p[k + 1] && e[p[k] + 1..p[k + 1]] == Detour(r[k], r[k + 1]);
        assert f[p[k] + 1..p[k + 1]] == e[p[k] + 1..p[k + 1]];
      } else {
        assert f[|e|..|f| - 1] == d;
      }
    }
  }

  lemma DetourIsRun(from: Status, to: Status)
    requires to in LegacyTransitions(from)
    ensures IsRun(Project, [from] + (Detour(from, to) + [to]))
  {
  }

  lemma ExtendRun(t: Type, r: seq<Status>, more: seq<Status>)
    requires IsRun(t, r) && IsRun(t, [r[|r| - 1]] + more) && more != []
    ensures IsRun(t, r + more)
  {
    var all, tail := r + more, [r[|r| - 1]] + more;
    forall i | 0 <= i < |all| - 1 ensures IsTransitionAllowed(Some(t), all[i], all[i + 1]) {
      if i < |r| - 1 {
        assert all[i] == r[i] && all[i + 1] == r[i + 1];
      } else {
        var k := i - (|r| - 1);
        assert all[i] == tail[k] && all[i + 1] == tail[k + 1];
        assert IsTransitionAllowed(Some(t), tail[k], tail[k + 1]);
      }
    }
  }

  /** A legacy move is a project move unless it leaves done; then three project moves are the fewest. */
  lemma LegacyMoveIff(from: Status, to: Status)
    requires to in LegacyTransitions(from)
    ensures IsTransitionAllowed(Some(Project), from, to) <==> from != Done
    ensures from == Done ==>
              forall r :: IsRun(Project, r) && r[0] == from && r[|r| - 1] == to ==> |r| >= 4
  {
    if from == Done {
      forall r | IsRun(Project, r) && r[0] == from && r[|r| - 1] == to ensures |r| >= 4 {
        assert |r| >= 2 ==> IsTransitionAllowed(Some(Project), r[0], r[1]);
        assert |r| >= 3 ==> IsTransitionAllowed(Some(Project), r[1], r[2]);
      }
    }
  }
}
