/**
  Grouping a session's messages for display: runs of tool calls are collapsed, noise is
  skipped, and an assistant message repeated by the next result is dropped. A message is
  referred to by its position in the list, which stands for its identity.
*/
module MessageGroups {
  import opened Options
  import opened Text
  import opened SessionTypes

  datatype Message = Message(kind: Kind, text: Option<string>)

  datatype Group =
    | ToolGroup(tools: seq<nat>, key: nat)
    | Single(at: nat, key: nat)

  function Has(text: Option<string>, part: string): bool {
    text.Some? && Contains(text.value, part)
  }

  /** User echoes and progress notices are never shown. */
  predicate Skipped(m: Message) {
    m.kind.User? || (m.kind.SystemNote? && (Has(m.text, "task_progress") || Has(m.text, "task_notification")))
  }

  /** The position of the first result at or after `i`, or the length of the list. */
  function NextResult(ms: seq<Message>, i: nat): (r: nat)
    requires i <= |ms|
    ensures i <= r <= |ms| && (r < |ms| ==> ms[r].kind.Result?)
    ensures forall k :: i <= k < r ==> !ms[k].kind.Result?
    decreases |ms| - i
  {
    if i == |ms| || ms[i].kind.Result? then i else NextResult(ms, i + 1)
  }

  predicate Truthy(text: Option<string>) {
    text.Some? && text.value != ""
  }

  /** An assistant message whose text the next result repeats, white space around it aside. */
  predicate Dropped(ms: seq<Message>, i: nat)
    requires i < |ms|
  {
    var r := NextResult(ms, i + 1);
    && ms[i].kind.Assistant? && Truthy(ms[i].text)
    && r < |ms| && Truthy(ms[r].text)
    && Trim(ms[i].text.value) == Trim(ms[r].text.value)
  }

  predicate Kept(ms: seq<Message>, i: nat)
    requires i < |ms|
  {
    !Skipped(ms[i]) && !Dropped(ms, i)
  }

  // ---------- The loop ----------

  /** The groups finished so far and the run of tool calls being collected. */
  datatype Acc = Acc(groups: seq<Group>, current: seq<nat>)

  function Flushed(a: Acc): Acc {
    if a.current == [] then a else Acc(a.groups + [ToolGroup(a.current, |a.groups|)], [])
  }

  function Step(ms: seq<Message>, a: Acc, i: nat): Acc
    requires i < |ms|
  {
    if Skipped(ms[i]) then a
    else if ms[i].kind.Tool? then a.(current := a.current + [i])
    else
      var f := Flushed(a);
      if Dropped(ms, i) then f else f.(groups := f.groups + [Single(i, |f.groups|)])
  }

  function Upto(ms: seq<Message>, n: nat): Acc
    requires n <= |ms|
  {
    if n == 0 then Acc([], []) else Step(ms, Upto(ms, n - 1), n - 1)
  }

  function Grouped(ms: seq<Message>): seq<Group> {
    Flushed(Upto(ms, |ms|)).groups
  }

  method GroupMessages(ms: seq<Message>) returns (groups: seq<Group>)
    ensures groups == Grouped(ms)
  {
    groups := [];
    var currentToolGroup: seq<nat> := [];
    var keyCounter := 0;
    for i := 0 to |ms|
      invariant Acc(groups, currentToolGroup) == Upto(ms, i)
      invariant keyCounter == |groups|
    {
      hide Skipped, Dropped;
      var msg := ms[i];
      if Skipped(msg) {
        continue;
      }
      if msg.kind.Tool? {
        currentToolGroup := currentToolGroup + [i];
      } else {
        if |currentToolGroup| > 0 {
          groups := groups + [ToolGroup(currentToolGroup, keyCounter)];
          keyCounter := keyCounter + 1;
          currentToolGroup := [];
        }
        if Dropped(ms, i) {
          continue;
        }
        groups := groups + [Single(i, keyCounter)];
        keyCounter := keyCounter + 1;
      }
    }
    if |currentToolGroup| > 0 {
      groups := groups + [ToolGroup(currentToolGroup, keyCounter)];
    }
  }

  // ---------- What the groups are ----------

  function Members(g: Group): seq<nat> {
    match g case ToolGroup(tools, _) => tools case Single(at, _) => [at]
  }

  function Flatten(groups: seq<Group>): seq<nat> {
    if groups == [] then [] else Flatten(groups[..|groups| - 1]) + Members(groups[|groups| - 1])
  }

  /** The positions of the kept messages before `n`, in order. */
  function KeptBefore(ms: seq<Message>, n: nat): seq<nat>
    requires n <= |ms|
  {
    if n == 0 then [] else KeptBefore(ms, n - 1) + (if Kept(ms, n - 1) then [n - 1] else [])
  }

  ghost predicate DropBetween(ms: seq<Message>, a: int, b: int) {
    exists d :: a < d < b && 0 <= d < |ms| && Dropped(ms, d) && !Skipped(ms[d])
  }

  /** A tool run: tool calls in order with no dropped message inside. */
  ghost predicate ToolRun(ms: seq<Message>, tools: seq<nat>) {
    && (forall j :: 0 <= j < |tools| ==> tools[j] < |ms| && ms[tools[j]].kind.Tool?)
    && (forall j :: 0 <= j < |tools| - 1 ==> tools[j] < tools[j + 1] && !DropBetween(ms, tools[j], tools[j + 1]))
  }

  ghost predicate GroupOk(ms: seq<Message>, g: Group) {
    match g
    case ToolGroup(tools, _) => tools != [] && ToolRun(ms, tools)
    case Single(at, _) => at < |ms| && !ms[at].kind.Tool?
  }

  ghost predicate GroupsOk(ms: seq<Message>, groups: seq<Group>) {
    && (forall k :: 0 <= k < |groups| ==> groups[k].key == k && GroupOk(ms, groups[k]))
    && (forall k :: 0 <= k < |groups| - 1 && groups[k].ToolGroup? && groups[k + 1].ToolGroup? ==>
          DropBetween(ms, groups[k].tools[|groups[k].tools| - 1], groups[k + 1].tools[0]))
  }

  /** The last group, if it is a tool group, is cut off from everything at or after `b` by a drop. */
  ghost predicate CutOff(ms: seq<Message>, groups: seq<Group>, b: int)
    requires GroupsOk(ms, groups)
  {
    groups != [] && groups[|groups| - 1].ToolGroup? ==>
      DropBetween(ms, groups[|groups| - 1].tools[|groups[|groups| - 1].tools| - 1], b)
  }

  ghost predicate Inv(ms: seq<Message>, a: Acc, n: nat)
    requires n <= |ms|
  {
    && Flatten(a.groups) + a.current == KeptBefore(ms, n)
    && GroupsOk(ms, a.groups)
    && ToolRun(ms, a.current)
    && (if a.current == [] then CutOff(ms, a.groups, n)
        else CutOff(ms, a.groups, a.current[0]) && a.current[|a.current| - 1] < n
             && !DropBetween(ms, a.current[|a.current| - 1], n))
  }

  lemma ToolsAreKept(ms: seq<Message>, i: nat)
    requires i < |ms| && ms[i].kind.Tool?
    ensures Kept(ms, i)
  {
  }

  lemma FlattenAppend(groups: seq<Group>, g: Group)
    ensures Flatten(groups + [g]) == Flatten(groups) + Members(g)
  {
    assert (groups + [g])[..|groups|] == groups;
  }

  lemma WidenCut(ms: seq<Message>, groups: seq<Group>, b: int, c: int)
    requires GroupsOk(ms, groups) && CutOff(ms, groups, b) && b <= c
    ensures CutOff(ms, groups, c)
  {
  }

  lemma NoDropAt(ms: seq<Message>, a: int, n: nat)
    requires n < |ms| && !DropBetween(ms, a, n) && (Skipped(ms[n]) || !Dropped(ms, n))
    ensures !DropBetween(ms, a, n + 1)
  {
    hide Skipped, Dropped;
  }

  lemma FlushKeeps(ms: seq<Message>, a: Acc, n: nat)
    requires n <= |ms| && Inv(ms, a, n)
    ensures var f := Flushed(a);
            && GroupsOk(ms, f.groups) && f.current == []
            && Flatten(f.groups) == KeptBefore(ms, n)
            && (f.groups != [] && f.groups[|f.groups| - 1].ToolGroup? && a.current == [] ==> CutOff(ms, f.groups, n))
            && (a.current != [] ==> f.groups[|f.groups| - 1] == ToolGroup(a.current, |a.groups|))
  {
    hide DropBetween, ToolRun, Flatten, KeptBefore;
    if a.current != [] {
      FlattenAppend(a.groups, ToolGroup(a.current, |a.groups|));
      AppendGroup(ms, a.groups, ToolGroup(a.current, |a.groups|));
    } else {
      assert Flatten(a.groups) + a.current == Flatten(a.groups);
    }
  }

  lemma AppendGroup(ms: seq<Message>, groups: seq<Group>, g: Group)
    requires GroupsOk(ms, groups) && GroupOk(ms, g) && g.key == |groups|
    requires g.ToolGroup? ==> CutOff(ms, groups, g.tools[0])
    ensures GroupsOk(ms, groups + [g])
  {
    hide DropBetween, ToolRun;
    var r := groups + [g];
    assert forall k :: 0 <= k < |groups| ==> r[k] == groups[k];
  }

  lemma StepKeepsInv(ms: seq<Message>, a: Acc, n: nat)
    requires n < |ms| && Inv(ms, a, n)
    ensures Inv(ms, Step(ms, a, n), n + 1)
  {
    hide Skipped, Dropped, Flatten;
    var b := Step(ms, a, n);
    if Skipped(ms[n]) {
      SkipKeepsInv(ms, a, n);
    } else if ms[n].kind.Tool? {
      ToolKeepsInv(ms, a, n);
    } else {
      OtherKeepsInv(ms, a, n);
    }
  }

  lemma SkipKeepsInv(ms: seq<Message>, a: Acc, n: nat)
    requires n < |ms| && Inv(ms, a, n) && Skipped(ms[n])
    ensures Inv(ms, a, n + 1)
  {
    hide Skipped, Dropped, Flatten, GroupOk, ToolRun;
    if a.current == [] {
      WidenCut(ms, a.groups, n, n + 1);
    } else {
      NoDropAt(ms, a.current[|a.current| - 1], n);
    }
  }

  lemma ToolKeepsInv(ms: seq<Message>, a: Acc, n: nat)
    requires n < |ms| && Inv(ms, a, n) && !Skipped(ms[n]) && ms[n].kind.Tool?
    ensures Inv(ms, a.(current := a.current + [n]), n + 1)
  {
    hide Skipped, Dropped, Kept, Flatten, DropBetween, ToolRun, GroupsOk, CutOff;
    ToolsAreKept(ms, n);
    NoGap(ms, n);
    ExtendRun(ms, a.current, n);
    var current := a.current + [n];
    assert Flatten(a.groups) + current == Flatten(a.groups) + a.current + [n];
    assert a.current != [] ==> current[0] == a.current[0];
  }

  lemma NoGap(ms: seq<Message>, n: nat)
    ensures !DropBetween(ms, n, n + 1)
  {
  }

  lemma ExtendRun(ms: seq<Message>, current: seq<nat>, n: nat)
    requires n < |ms| && ms[n].kind.Tool? && ToolRun(ms, current)
    requires current != [] ==> current[|current| - 1] < n && !DropBetween(ms, current[|current| - 1], n)
    ensures ToolRun(ms, current + [n])
  {
    hide DropBetween;
    var r := current + [n];
    assert forall j :: 0 <= j < |current| ==> r[j] == current[j];
  }

  lemma OtherKeepsInv(ms: seq<Message>, a: Acc, n: nat)
    requires n < |ms| && Inv(ms, a, n) && !Skipped(ms[n]) && !ms[n].kind.Tool?
    ensures Inv(ms, Step(ms, a, n), n + 1)
  {
    hide Skipped, Dropped, Flatten, ToolRun;
    var f := Flushed(a);
    FlushKeeps(ms, a, n);
    if Dropped(ms, n) {
      DropCuts(ms, a, f, n);
    } else {
      FlattenAppend(f.groups, Single(n, |f.groups|));
      var groups := f.groups + [Single(n, |f.groups|)];
      assert forall k :: 0 <= k < |f.groups| ==> groups[k] == f.groups[k];
      assert ToolRun(ms, []) by { EmptyRun(ms); }
    }
  }

  lemma EmptyRun(ms: seq<Message>)
    ensures ToolRun(ms, [])
  {
  }

  lemma DropCuts(ms: seq<Message>, a: Acc, f: Acc, n: nat)
    requires n < |ms| && Inv(ms, a, n) && !Skipped(ms[n]) && Dropped(ms, n) && f == Flushed(a)
    requires GroupsOk(ms, f.groups) && f.current == [] && Flatten(f.groups) == KeptBefore(ms, n)
    requires f.groups != [] && f.groups[|f.groups| - 1].ToolGroup? && a.current == [] ==> CutOff(ms, f.groups, n)
    ensures Inv(ms, f, n + 1)
  {
    hide Skipped, Dropped, Flatten, DropBetween, ToolRun, GroupsOk, CutOff;
    EmptyRun(ms);
    if a.current == [] {
      WidenCut(ms, a.groups, n, n + 1);
    } else {
      DropIsBetween(ms, a.current[|a.current| - 1], n);
      RunIsCut(ms, a.groups, a.current, n + 1);
    }
  }

  lemma RunIsCut(ms: seq<Message>, groups: seq<Group>, tools: seq<nat>, b: nat)
    requires tools != [] && DropBetween(ms, tools[|tools| - 1], b)
    requires GroupsOk(ms, groups + [ToolGroup(tools, |groups|)])
    ensures CutOff(ms, groups + [ToolGroup(tools, |groups|)], b)
  {
    hide DropBetween, GroupsOk;
  }

  lemma DropIsBetween(ms: seq<Message>, a: nat, n: nat)
    requires a < n < |ms| && !Skipped(ms[n]) && Dropped(ms, n)
    ensures DropBetween(ms, a, n + 1)
  {
  }

  lemma {:induction false} UptoInv(ms: seq<Message>, n: nat)
    requires n <= |ms|
    ensures Inv(ms, Upto(ms, n), n)
  {
    hide Inv, Step;
    if n == 0 {
      EmptyInv(ms);
    } else {
      UptoInv(ms, n - 1);
      StepKeepsInv(ms, Upto(ms, n - 1), n - 1);
    }
  }

  lemma EmptyInv(ms: seq<Message>)
    ensures Inv(ms, Acc([], []), 0)
  {
  }

  /**
    Flattened, the groups are exactly the kept messages in their order. Keys count up from 0, no
    group is empty, tool groups hold only tool calls with nothing dropped between them, and two
    tool groups are neighbours only across a dropped message.
  */
  lemma GroupingLaw(ms: seq<Message>)
    ensures Flatten(Grouped(ms)) == KeptBefore(ms, |ms|)
    ensures GroupsOk(ms, Grouped(ms))
  {
    hide Inv;
    UptoInv(ms, |ms|);
    FlushKeeps(ms, Upto(ms, |ms|), |ms|);
  }

  lemma LastMembers(ms: seq<Message>, groups: seq<Group>)
    requires groups != [] && GroupsOk(ms, groups)
    ensures var g, init := groups[|groups| - 1], groups[..|groups| - 1];
            && Flatten(groups) == Flatten(init) + Members(g) && Members(g) != []
            && GroupsOk(ms, init) && GroupOk(ms, g) && g.key == |init|
            && (init != [] ==> Flatten(init) != [])
  {
    hide DropBetween, ToolRun;
    var init := groups[..|groups| - 1];
    assert forall k :: 0 <= k < |init| ==> init[k] == groups[k];
    if init != [] {
      assert Flatten(init) == Flatten(init[..|init| - 1]) + Members(init[|init| - 1]);
      assert GroupOk(ms, init[|init| - 1]);
    }
  }

  /** Just before a closing tool run, a tool call can only be cut off from it by a drop. */
  lemma DropBeforeRun(ms: seq<Message>, a: seq<Group>)
    requires a != [] && GroupsOk(ms, a) && a[|a| - 1].ToolGroup?
    ensures var all, n := Flatten(a), |a[|a| - 1].tools|;
            && 1 <= n <= |all|
            && (n < |all| && all[|all| - n - 1] < |ms| && ms[all[|all| - n - 1]].kind.Tool? ==>
                  DropBetween(ms, all[|all| - n - 1], all[|all| - n]))
  {
    hide DropBetween, Flatten, ToolRun;
    LastMembers(ms, a);
    EmptyFlat();
    var all, ta, init := Flatten(a), a[|a| - 1].tools, a[..|a| - 1];
    if |ta| < |all| {
      LastMembers(ms, init);
      var p := init[|init| - 1];
      assert p == a[|a| - 2];
      LastIsTool(ms, p);
      var i := |all| - |ta| - 1;
      assert all[i] == Flatten(init)[i] == Members(p)[|Members(p)| - 1];
      assert all[i + 1] == ta[0];
    }
  }

  /** Inside a closing tool run everything is a tool call and nothing is dropped. */
  lemma NoDropInRun(ms: seq<Message>, b: seq<Group>, i: nat)
    requires b != [] && GroupsOk(ms, b) && b[|b| - 1].ToolGroup?
    requires |Flatten(b)| - |b[|b| - 1].tools| <= i < |Flatten(b)| - 1
    ensures var all := Flatten(b);
            all[i] < |ms| && ms[all[i]].kind.Tool? && !DropBetween(ms, all[i], all[i + 1])
  {
    hide DropBetween, Flatten;
    LastMembers(ms, b);
    var all, tb := Flatten(b), b[|b| - 1].tools;
    var j := i - (|all| - |tb|);
    assert all[i] == tb[j] && all[i + 1] == tb[j + 1];
  }

  lemma NoShorterRun(ms: seq<Message>, a: seq<Group>, b: seq<Group>)
    requires a != [] && b != [] && GroupsOk(ms, a) && GroupsOk(ms, b) && Flatten(a) == Flatten(b)
    requires a[|a| - 1].ToolGroup? && b[|b| - 1].ToolGroup?
    ensures |a[|a| - 1].tools| >= |b[|b| - 1].tools|
  {
    hide DropBetween, Flatten, GroupsOk;
    DropBeforeRun(ms, a);
    DropBeforeRun(ms, b);
    if |a[|a| - 1].tools| < |b[|b| - 1].tools| {
      NoDropInRun(ms, b, |Flatten(a)| - |a[|a| - 1].tools| - 1);
    }
  }

  lemma EmptyFlat()
    ensures Flatten([]) == []
  {
  }

  lemma SameLastGroup(ms: seq<Message>, a: seq<Group>, b: seq<Group>)
    requires a != [] && b != [] && GroupsOk(ms, a) && GroupsOk(ms, b) && Flatten(a) == Flatten(b)
    ensures Members(a[|a| - 1]) == Members(b[|b| - 1])
    ensures a[|a| - 1].ToolGroup? <==> b[|b| - 1].ToolGroup?
    ensures Flatten(a[..|a| - 1]) == Flatten(b[..|b| - 1])
  {
    hide DropBetween, Flatten, ToolRun, GroupsOk;
    LastMembers(ms, a);
    LastMembers(ms, b);
    var ga, gb, all := a[|a| - 1], b[|b| - 1], Flatten(a);
    LastIsTool(ms, ga);
    LastIsTool(ms, gb);
    var ma, mb := Members(ga), Members(gb);
    assert ma[|ma| - 1] == all[|all| - 1] == mb[|mb| - 1];
    if ga.ToolGroup? {
      NoShorterRun(ms, a, b);
      NoShorterRun(ms, b, a);
    }
    SameSuffix(Flatten(a[..|a| - 1]), ma, Flatten(b[..|b| - 1]), mb);
  }

  lemma SameSuffix(x: seq<nat>, y: seq<nat>, u: seq<nat>, v: seq<nat>)
    requires x + y == u + v && |y| == |v|
    ensures x == u && y == v
  {
    assert x == (x + y)[..|x|] && u == (u + v)[..|u|];
    assert y == (x + y)[|x|..] && v == (u + v)[|u|..];
  }

  /** These laws leave no choice: two groupings of the same messages that meet them are equal. */
  lemma {:induction false} GroupingUnique(ms: seq<Message>, a: seq<Group>, b: seq<Group>)
    requires GroupsOk(ms, a) && GroupsOk(ms, b) && Flatten(a) == Flatten(b)
    ensures a == b
    decreases |a|
  {
    hide *;
    EmptyFlat();
    if a == [] && b != [] {
      LastMembers(ms, b);
    } else if a != [] && b == [] {
      LastMembers(ms, a);
    } else if a != [] {
      LastMembers(ms, a);
      LastMembers(ms, b);
      SameLastGroup(ms, a, b);
      GroupingUnique(ms, a[..|a| - 1], b[..|b| - 1]);
      SameGroup(a[|a| - 1], b[|b| - 1]);
      assert a == a[..|a| - 1] + [a[|a| - 1]];
      assert b == b[..|b| - 1] + [b[|b| - 1]];
    }
  }

  lemma SameGroup(g: Group, h: Group)
    requires Members(g) == Members(h) && g.key == h.key && (g.ToolGroup? <==> h.ToolGroup?)
    ensures g == h
  {
  }

  lemma LastIsTool(ms: seq<Message>, g: Group)
    requires GroupOk(ms, g)
    ensures var m := Members(g);
            m != [] && m[|m| - 1] < |ms| && (g.ToolGroup? <==> ms[m[|m| - 1]].kind.Tool?)
  {
  }

  /** What is never shown: user echoes, and system notes that mention a task's progress or a notification. */
  ghost predicate Hidden(m: Message) {
    || m.kind.User?
    || (m.kind.SystemNote? && m.text.Some?
        && exists a, b ::
             || IsAround(m.text.value, a, "task_progress", b)
             || IsAround(m.text.value, a, "task_notification", b))
  }

  /** An assistant message whose words the first later result says again. */
  ghost predicate SaidAgain(ms: seq<Message>, i: nat)
    requires i < |ms|
  {
    && ms[i].kind.Assistant? && ms[i].text.Some? && ms[i].text.value != ""
    && exists r: nat :: IsNextResult(ms, i, r) && ms[r].text.Some? && ms[r].text.value != ""
                   && SameCore(ms[i].text.value, ms[r].text.value)
  }

  ghost predicate IsNextResult(ms: seq<Message>, i: nat, r: nat) {
    i < r < |ms| && ms[r].kind.Result? && forall k :: i < k < r ==> !ms[k].kind.Result?
  }

  lemma SkippedIff(m: Message)
    ensures Skipped(m) <==> Hidden(m)
  {
    hide Contains, IsAround;
    if m.text.Some? {
      ContainsIff(m.text.value, "task_progress");
      ContainsIff(m.text.value, "task_notification");
    }
  }

  lemma DroppedIff(ms: seq<Message>, i: nat)
    requires i < |ms|
    ensures Dropped(ms, i) <==> SaidAgain(ms, i)
  {
    hide Trim, SameCore;
    var r := NextResult(ms, i + 1);
    if ms[i].text.Some? && r < |ms| && ms[r].text.Some? {
      SameCoreIff(ms[i].text.value, ms[r].text.value);
      assert IsNextResult(ms, i, r);
    }
  }

  /** Exactly the messages that are neither hidden nor said again by the next result are shown, once each. */
  lemma ShownIff(ms: seq<Message>, i: nat)
    requires i < |ms|
    ensures i in Flatten(Grouped(ms)) <==> !Hidden(ms[i]) && !SaidAgain(ms, i)
    ensures forall j, k :: 0 <= j < k < |Flatten(Grouped(ms))| ==> Flatten(Grouped(ms))[j] < Flatten(Grouped(ms))[k]
  {
    hide *;
    GroupingLaw(ms);
    KeptIsListed(ms, i, |ms|);
    KeptIs(ms, i);
    SkippedIff(ms[i]);
    DroppedIff(ms, i);
    KeptRises(ms, |ms|);
  }

  lemma KeptIs(ms: seq<Message>, i: nat)
    requires i < |ms|
    ensures Kept(ms, i) <==> !Skipped(ms[i]) && !Dropped(ms, i)
  {
    hide Skipped, Dropped;
  }

  lemma {:induction false} KeptRises(ms: seq<Message>, n: nat)
    requires n <= |ms|
    ensures var p := KeptBefore(ms, n);
            && (forall j :: 0 <= j < |p| ==> p[j] < n)
            && (forall j, k :: 0 <= j < k < |p| ==> p[j] < p[k])
  {
    hide Kept;
    if n > 0 {
      KeptRises(ms, n - 1);
      assert KeptBefore(ms, n) == KeptBefore(ms, n - 1) + (if Kept(ms, n - 1) then [n - 1] else []);
    }
  }

  /** Every dropped text is still shown, by the next result, which is itself kept. */
  lemma DroppedTextIsShown(ms: seq<Message>, i: nat)
    requires i < |ms| && Dropped(ms, i)
    ensures exists r :: i < r < |ms| && Kept(ms, r) && ms[r].kind.Result? && r in KeptBefore(ms, |ms|)
                        && Truthy(ms[r].text) && Trim(ms[r].text.value) == Trim(ms[i].text.value)
  {
    var r := NextResult(ms, i + 1);
    assert Kept(ms, r);
    KeptIsListed(ms, r, |ms|);
  }

  lemma {:induction false} KeptIsListed(ms: seq<Message>, i: nat, n: nat)
    requires i < |ms| && n <= |ms|
    ensures i in KeptBefore(ms, n) <==> i < n && Kept(ms, i)
  {
    if n > 0 {
      KeptIsListed(ms, i, n - 1);
    }
  }

  // ---------- The visible part ----------

  /** `groups.slice(-cap)`; `-0` is 0, so a cap of 0 hides nothing. */
  function Visible(groups: seq<Group>, cap: nat): (v: seq<Group>)
    ensures |v| == if cap == 0 || |groups| <= cap then |groups| else cap
    ensures groups == groups[..|groups| - |v|] + v
  {
    if cap == 0 || |groups| <= cap then groups else groups[|groups| - cap..]
  }
}
