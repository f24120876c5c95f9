/**
  The dashboard polls three endpoints together and discards every answer but that of the
  newest request. Requests and answers interleave here in any order.
*/
module DashboardFetch {
  import opened Options

  /** What one refresh brought back; each part is None when its endpoint failed. */
  datatype Parts = Parts(accounts: Option<string>, system: Option<string>, limits: Option<seq<string>>)

  datatype View = View(
    fetchSeq: nat, accounts: Option<string>, system: Option<string>, limits: seq<string>, error: Option<string>)

  function Begun(v: View): View {
    v.(fetchSeq := v.fetchSeq + 1)
  }

  function Landed(v: View, id: nat, parts: Parts): View {
    if id != v.fetchSeq then v
    else v.(accounts := if parts.accounts.Some? then parts.accounts else v.accounts,
            system := if parts.system.Some? then parts.system else v.system,
            limits := if parts.limits.Some? then parts.limits.value else v.limits,
            error := None)
  }

  function Broken(v: View, id: nat): View {
    if id != v.fetchSeq then v else v.(error := Some("Failed to fetch dashboard data"))
  }

  class Dashboard {
    var fetchSeq: nat
    var accounts: Option<string>
    var system: Option<string>
    var rateLimitHistory: seq<string>
    var error: Option<string>

    function Shown(): View
      reads this
    {
      View(fetchSeq, accounts, system, rateLimitHistory, error)
    }

    constructor ()
      ensures Shown() == View(0, None, None, [], None)
    {
      fetchSeq, accounts, system, rateLimitHistory, error := 0, None, None, [], None;
    }

    method BeginFetch() returns (reqId: nat)
      modifies this
      ensures Shown() == Begun(old(Shown())) && reqId == fetchSeq
    {
      fetchSeq := fetchSeq + 1;
      reqId := fetchSeq;
    }

    method Receive(reqId: nat, parts: Parts)
      modifies this
      ensures Shown() == Landed(old(Shown()), reqId, parts)
    {
      if reqId != fetchSeq {
        return;
      }
      if parts.accounts.Some? { accounts := parts.accounts; }
      if parts.system.Some? { system := parts.system; }
      if parts.limits.Some? { rateLimitHistory := parts.limits.value; }
      error := None;
    }

    method Fail(reqId: nat)
      modifies this
      ensures Shown() == Broken(old(Shown()), reqId)
    {
      if reqId == fetchSeq {
        error := Some("Failed to fetch dashboard data");
      }
    }
  }

  // ---------- Any order of requests and answers ----------

  datatype Event =
    | Start                           // the interval, the mount, or a refetch after a save
    | Arrive(id: nat, parts: Parts)
    | Lose(id: nat)

  /** `applied` records the answers that were shown, oldest first. */
  datatype State = State(view: View, waiting: set<nat>, applied: seq<(nat, Parts)>)

  const INITIAL := State(View(0, None, None, [], None), {}, [])

  function Step(s: State, e: Event): State {
    match e
    case Start => s.(view := Begun(s.view), waiting := s.waiting + {s.view.fetchSeq + 1})
    case Arrive(id, parts) =>
      if id !in s.waiting then s
      else State(Landed(s.view, id, parts), s.waiting - {id},
                 if id == s.view.fetchSeq then s.applied + [(id, parts)] else s.applied)
    case Lose(id) =>
      if id !in s.waiting then s else s.(view := Broken(s.view, id), waiting := s.waiting - {id})
  }

  function Run(s: State, events: seq<Event>): State
    decreases events
  {
    if events == [] then s else Run(Step(s, events[0]), events[1..])
  }

  function AccountsOf(p: Parts): Option<string> { p.accounts }

  function SystemOf(p: Parts): Option<string> { p.system }

  function LimitsOf(p: Parts): Option<seq<string>> { p.limits }

  /** The newest value that a shown answer brought for one part. */
  function LastBrought<T>(applied: seq<(nat, Parts)>, part: Parts -> Option<T>): Option<T> {
    if applied == [] then None
    else
      var p := part(applied[|applied| - 1].1);
      if p.Some? then p else LastBrought(applied[..|applied| - 1], part)
  }

  /** Each part on screen is the newest that a shown answer brought. */
  ghost predicate ScreenIsNewest(s: State) {
    && s.view.accounts == LastBrought(s.applied, AccountsOf)
    && s.view.system == LastBrought(s.applied, SystemOf)
    && s.view.limits == (var l := LastBrought(s.applied, LimitsOf); if l.Some? then l.value else [])
  }

  ghost predicate Inv(s: State) {
    && (forall id :: id in s.waiting ==> 1 <= id <= s.view.fetchSeq)
    && (forall i :: 0 <= i < |s.applied| ==>
          s.applied[i].0 <= s.view.fetchSeq && s.applied[i].0 !in s.waiting)
    && (forall i, j :: 0 <= i < j < |s.applied| ==> s.applied[i].0 < s.applied[j].0)
    && ScreenIsNewest(s)
  }

  lemma LastBroughtNext<T>(applied: seq<(nat, Parts)>, a: (nat, Parts), part: Parts -> Option<T>)
    ensures LastBrought(applied + [a], part) == if part(a.1).Some? then part(a.1) else LastBrought(applied, part)
  {
    assert (applied + [a])[..|applied|] == applied;
  }

  lemma ShownKeepsScreen(s: State, id: nat, parts: Parts)
    requires ScreenIsNewest(s) && id in s.waiting && id == s.view.fetchSeq
    ensures ScreenIsNewest(Step(s, Arrive(id, parts)))
  {
    hide LastBrought;
    LastBroughtNext(s.applied, (id, parts), AccountsOf);
    LastBroughtNext(s.applied, (id, parts), SystemOf);
    LastBroughtNext(s.applied, (id, parts), LimitsOf);
  }

  lemma OtherKeepsScreen(s: State, e: Event)
    requires ScreenIsNewest(s) && !(e.Arrive? && e.id in s.waiting && e.id == s.view.fetchSeq)
    ensures ScreenIsNewest(Step(s, e))
  {
    hide LastBrought;
  }

  lemma StepKeepsInv(s: State, e: Event)
    requires Inv(s)
    ensures Inv(Step(s, e))
  {
    hide ScreenIsNewest;
    if e.Arrive? && e.id in s.waiting && e.id == s.view.fetchSeq {
      ShownKeepsScreen(s, e.id, e.parts);
      assert forall i :: 0 <= i < |s.applied| ==> s.applied[i].0 != e.id;
    } else {
      OtherKeepsScreen(s, e);
    }
  }

  /** The error shown goes with an answer that is shown, and comes with the loss of the newest request only. */
  lemma ErrorStep(s: State, e: Event)
    ensures Step(s, e).view.error
         == if e.Arrive? && e.id in s.waiting && e.id == s.view.fetchSeq then None
            else if e.Lose? && e.id in s.waiting && e.id == s.view.fetchSeq then Some("Failed to fetch dashboard data")
            else s.view.error
    ensures !e.Arrive? ==> Step(s, e).view.(error := None, fetchSeq := 0) == s.view.(error := None, fetchSeq := 0)
  {
  }

  lemma {:induction false} RunKeepsInv(s: State, events: seq<Event>)
    requires Inv(s)
    ensures Inv(Run(s, events))
    decreases events
  {
    if events != [] {
      StepKeepsInv(s, events[0]);
      RunKeepsInv(Step(s, events[0]), events[1..]);
    }
  }

  /**
    Under any arrival order the answers shown have strictly increasing request numbers, and each
    part of the screen is the newest that a shown answer brought: a failed endpoint keeps the old one.
  */
  lemma AppliedIncrease(events: seq<Event>)
    ensures var s := Run(INITIAL, events);
            && (forall i, j :: 0 <= i < j < |s.applied| ==> s.applied[i].0 < s.applied[j].0)
            && ScreenIsNewest(s)
  {
    RunKeepsInv(INITIAL, events);
  }

  /** Once a request is out, no older answer changes the screen, whenever it arrives. */
  lemma {:induction false} OlderNeverShown(s: State, events: seq<Event>, from: nat)
    requires Inv(s) && from <= s.view.fetchSeq
    ensures var t := Run(s, events);
            && s.view.fetchSeq <= t.view.fetchSeq
            && |s.applied| <= |t.applied| && t.applied[..|s.applied|] == s.applied
            && forall i :: |s.applied| <= i < |t.applied| ==> t.applied[i].0 >= from
    decreases events
  {
    if events != [] {
      StepKeepsInv(s, events[0]);
      var n := Step(s, events[0]);
      OlderNeverShown(n, events[1..], from);
      var t := Run(n, events[1..]);
      assert forall i :: |s.applied| <= i < |n.applied| ==> t.applied[i] == n.applied[i];
      assert t.applied[..|s.applied|] == s.applied;
    }
  }

  /**
    Between starting a request and its answer, whatever else arrives: the answer is shown if and
    only if no other request was started meanwhile.
  */
  lemma {:induction false} ShownIffStillNewest(s: State, events: seq<Event>, id: nat, parts: Parts)
    requires Inv(s) && id in s.waiting
    requires forall e :: e in events ==> !(e.Arrive? && e.id == id) && !(e.Lose? && e.id == id)
    ensures var t := Run(s, events);
            && id in t.waiting
            && (Step(t, Arrive(id, parts)).applied == t.applied + [(id, parts)]
                <==> id == s.view.fetchSeq && Start !in events)
    decreases events
  {
    if events != [] {
      assert events[0] in events;
      StepKeepsInv(s, events[0]);
      ShownIffStillNewest(Step(s, events[0]), events[1..], id, parts);
      assert Start in events <==> events[0] == Start || Start in events[1..];
    } else {
      assert s.applied != s.applied + [(id, parts)] by {
        assert |s.applied + [(id, parts)]| == |s.applied| + 1;
      }
    }
  }
}
