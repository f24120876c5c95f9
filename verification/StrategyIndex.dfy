/**
  A strategy's children, found two ways: the list page's index, filled once for all strategies,
  and the detail page's filter. And the status counts shown for them.
*/
module StrategyIndex {
  import opened ObjectiveStatus

  datatype Ref = NoRef | To(id: nat)

  datatype Objective = Objective(id: nat, isStrategy: bool, strategy: Ref, parent: Ref, status: Status)

  // ---------- The filter ----------

  predicate BelongsTo(o: Objective, sid: nat) {
    !o.isStrategy && (o.strategy == To(sid) || o.parent == To(sid))
  }

  /** `objectives.filter(…)` on the detail page. */
  function ChildrenOf(objectives: seq<Objective>, sid: nat): seq<Objective> {
    if objectives == [] then []
    else
      var k := |objectives| - 1;
      ChildrenOf(objectives[..k], sid) + (if BelongsTo(objectives[k], sid) then [objectives[k]] else [])
  }

  /** A strategy's children: what is assigned to it or directly under it, strategies themselves left out. */
  lemma {:induction false} ChildIff(objectives: seq<Objective>, sid: nat, o: Objective)
    ensures o in ChildrenOf(objectives, sid) <==>
              o in objectives && !o.isStrategy && To(sid) in {o.strategy, o.parent}
  {
    if objectives != [] {
      var k := |objectives| - 1;
      ChildIff(objectives[..k], sid, o);
      assert objectives == objectives[..k] + [objectives[k]];
    }
  }

  // ---------- The index ----------

  /** The keys an objective is filed under, each once. */
  function KeysOf(o: Objective): (ks: seq<nat>)
    ensures forall k :: k in ks <==> o.strategy == To(k) || o.parent == To(k)
    ensures |ks| == 2 ==> ks[0] != ks[1]
    ensures |ks| <= 2
  {
    match (o.strategy, o.parent)
    case (To(s), To(p)) => if s == p then [s] else [s, p]
    case (To(s), NoRef) => [s]
    case (NoRef, To(p)) => [p]
    case _ => []
  }

  function Lookup(index: map<nat, seq<Objective>>, sid: nat): seq<Objective> {
    if sid in index then index[sid] else []
  }

  /** The inner loop: one objective is appended under each of its keys. */
  method FileUnderKeys(index: map<nat, seq<Objective>>, o: Objective) returns (r: map<nat, seq<Objective>>)
    ensures forall sid :: Lookup(r, sid) == Lookup(index, sid) + (if sid in KeysOf(o) then [o] else [])
    ensures forall sid :: sid in r <==> sid in index || sid in KeysOf(o)
  {
    r := index;
    var keys := KeysOf(o);
    hide KeysOf;
    for j := 0 to |keys|
      invariant forall sid :: Lookup(r, sid) == Lookup(index, sid) + (if sid in keys[..j] then [o] else [])
      invariant forall sid :: sid in r <==> sid in index || sid in keys[..j]
    {
      var k := keys[j];
      assert keys[..j + 1] == keys[..j] + [k];
      assert k !in keys[..j];
      r := r[k := Lookup(r, k) + [o]];
    }
    assert keys[..|keys|] == keys;
  }

  lemma ChildrenStep(objectives: seq<Objective>, i: nat, sid: nat)
    requires i < |objectives|
    ensures ChildrenOf(objectives[..i + 1], sid)
         == ChildrenOf(objectives[..i], sid) + (if BelongsTo(objectives[i], sid) then [objectives[i]] else [])
  {
    assert objectives[..i + 1][..i] == objectives[..i];
  }

  /**
    The index page's nested loops. Looking a strategy up in the result gives exactly the list the
    detail page filters: same children, same order, no child twice.
  */
  method ChildrenByStrategy(objectives: seq<Objective>) returns (index: map<nat, seq<Objective>>)
    ensures forall sid :: Lookup(index, sid) == ChildrenOf(objectives, sid)
    ensures forall sid :: sid in index <==> ChildrenOf(objectives, sid) != []
  {
    index := map[];
    for i := 0 to |objectives|
      invariant forall sid :: Lookup(index, sid) == ChildrenOf(objectives[..i], sid)
      invariant forall sid :: sid in index <==> ChildrenOf(objectives[..i], sid) != []
    {
      hide ChildrenOf, Lookup, KeysOf;
      var o := objectives[i];
      forall sid: nat { ChildrenStep(objectives, i, sid); }
      if o.isStrategy {
        continue;
      }
      index := FileUnderKeys(index, o);
    }
    assert objectives[..|objectives|] == objectives;
  }

  // ---------- The counts ----------

  datatype Counts = Counts(total: nat, done: nat, working: nat, queued: nat, review: nat)

  function CountIn(children: seq<Objective>, statuses: set<Status>): nat {
    if children == [] then 0
    else
      var k := |children| - 1;
      CountIn(children[..k], statuses) + (if children[k].status in statuses then 1 else 0)
  }

  /** The four buckets partition the children; planning and cancelled ones are counted as queued. */
  method BucketCounts(children: seq<Objective>) returns (c: Counts)
    ensures c == Counts(|children|, CountIn(children, {Done}), CountIn(children, {Working, AiReview}),
                        CountIn(children, {Queue, Planning, Cancelled}), CountIn(children, {Review}))
    ensures c.done + c.working + c.queued + c.review == c.total
  {
    c := Counts(|children|, 0, 0, 0, 0);
    for i := 0 to |children|
      invariant c.total == |children|
      invariant c.done == CountIn(children[..i], {Done})
      invariant c.working == CountIn(children[..i], {Working, AiReview})
      invariant c.queued == CountIn(children[..i], {Queue, Planning, Cancelled})
      invariant c.review == CountIn(children[..i], {Review})
      invariant c.done + c.working + c.queued + c.review == i
    {
      assert children[..i + 1][..i] == children[..i];
      match children[i].status {
        case Done => c := c.(done := c.done + 1);
        case Working => c := c.(working := c.working + 1);
        case AiReview => c := c.(working := c.working + 1);
        case Review => c := c.(review := c.review + 1);
        case _ => c := c.(queued := c.queued + 1);
      }
    }
    assert children[..|children|] == children;
  }
}
