/**
  The objective search panel: a debounced keyword search and an on-demand AI search share one
  request counter, and only an answer carrying its latest value is shown.
*/
module ObjectiveSearch {
  import opened Options
  import opened Text

  datatype Mode = Keyword | Ai

  datatype Panel = Panel(
    open: bool, mode: Mode, query: string, workspace: string, loading: bool, aiError: Option<string>,
    kwResults: seq<nat>, aiResults: seq<nat>, seqRef: nat)

  /** A request's number, and the trimmed query and the workspace it searches for. */
  datatype Ticket = Ticket(number: nat, query: string, workspace: string)

  /** The keyword effect, which runs after every change of query, mode, workspace or visibility. */
  function KeywordEffect(p: Panel): (Panel, Option<Ticket>) {
    if !p.open || p.mode.Ai? then (p, None)
    else if Trim(p.query) == "" then (p.(kwResults := [], loading := false), None)
    else
      var n := p.seqRef + 1;
      (p.(seqRef := n, loading := true), Some(Ticket(n, Trim(p.query), p.workspace)))
  }

  function Reset(p: Panel): Panel {
    p.(open := true, mode := Keyword, query := "", loading := false, aiError := None, kwResults := [], aiResults := [])
  }

  function Typed(p: Panel, text: string): Panel {
    p.(query := text, aiResults := if p.mode.Ai? then [] else p.aiResults)
  }

  function AiBegun(p: Panel): (Panel, Option<Ticket>) {
    if Trim(p.query) == "" then (p, None)
    else
      var n := p.seqRef + 1;
      (p.(seqRef := n, loading := true, aiError := None), Some(Ticket(n, Trim(p.query), p.workspace)))
  }

  function ModeSwitched(p: Panel, next: Mode): Panel {
    if next == p.mode then p
    else p.(mode := next, aiError := None, loading := false, seqRef := p.seqRef + 1,
            aiResults := if next.Ai? then [] else p.aiResults)
  }

  function KeywordLanded(p: Panel, number: nat, results: Option<seq<nat>>): Panel {
    if number != p.seqRef then p
    else p.(kwResults := if results.Some? then results.value else [], loading := false)
  }

  function AiLanded(p: Panel, number: nat, results: Option<seq<nat>>, reason: string): Panel {
    if number != p.seqRef then p
    else if results.Some? then
      p.(aiResults := results.value, aiError := if results.value == [] then None else p.aiError, loading := false)
    else p.(aiResults := [], aiError := Some(reason), loading := false)
  }

  class SearchPanel {
    var open: bool
    var mode: Mode
    var query: string
    var workspace: string
    var loading: bool
    var aiError: Option<string>
    var kwResults: seq<nat>
    var aiResults: seq<nat>
    var seqRef: nat

    function View(): Panel
      reads this
    {
      Panel(open, mode, query, workspace, loading, aiError, kwResults, aiResults, seqRef)
    }

    constructor (current: string)
      ensures View() == CLOSED.(workspace := current)
    {
      open, mode, query, workspace, loading, aiError := false, Keyword, "", current, false, None;
      kwResults, aiResults, seqRef := [], [], 0;
    }

    method RunKeywordEffect() returns (debounced: Option<Ticket>)
      modifies this
      ensures (View(), debounced) == KeywordEffect(old(View()))
    {
      hide Trim, IsSpace;
      if !open || mode != Keyword {
        return None;
      }
      var q := Trim(query);
      if q == "" {
        kwResults := [];
        loading := false;
        return None;
      }
      seqRef := seqRef + 1;
      loading := true;
      debounced := Some(Ticket(seqRef, q, workspace));
    }

    method RunAiSearch() returns (request: Option<Ticket>)
      modifies this
      ensures (View(), request) == AiBegun(old(View()))
    {
      hide Trim, IsSpace;
      var q := Trim(query);
      if q == "" {
        return None;
      }
      seqRef := seqRef + 1;
      loading := true;
      aiError := None;
      request := Some(Ticket(seqRef, q, workspace));
    }

    method SwitchMode(next: Mode)
      modifies this
      ensures View() == ModeSwitched(old(View()), next)
    {
      if next == mode {
        return;
      }
      mode := next;
      aiError := None;
      loading := false;
      seqRef := seqRef + 1;
      if next == Ai {
        aiResults := [];
      }
    }

    method KeywordAnswer(number: nat, results: Option<seq<nat>>)
      modifies this
      ensures View() == KeywordLanded(old(View()), number, results)
    {
      if number == seqRef {
        kwResults := if results.Some? then results.value else [];
        loading := false;
      }
    }

    method AiAnswer(number: nat, results: Option<seq<nat>>, reason: string)
      modifies this
      ensures View() == AiLanded(old(View()), number, results, reason)
    {
      if number != seqRef {
        return;
      }
      if results.Some? {
        aiResults := results.value;
        if results.value == [] {
          aiError := None;
        }
      } else {
        aiResults := [];
        aiError := Some(reason);
      }
      loading := false;
    }
  }

  // ---------- Any order of edits, timers and answers ----------

  datatype Event =
    | Open
    | Close
    | Type(text: string)
    | ChangeWorkspace(next: string)
    | Fire                                                         // the debounce timer runs out
    | Submit                                                       // Enter in AI mode
    | Switch(mode: Mode)
    | KwAnswer(ticket: Ticket, results: Option<seq<nat>>)
    | AiAnswer(ticket: Ticket, results: Option<seq<nat>>, reason: string)

  /** `timer` is the one pending debounce; `kw` and `ai` are the requests under way. */
  datatype State = State(panel: Panel, timer: Option<Ticket>, kw: set<Ticket>, ai: set<Ticket>)

  const CLOSED := Panel(false, Keyword, "", "all", false, None, [], [], 0)
  const INITIAL := State(CLOSED, None, {}, {})

  /** A change the keyword effect depends on: the old timer is cleared and the effect runs. */
  function Rerun(s: State, p: Panel): State {
    var (q, t) := KeywordEffect(p);
    s.(panel := q, timer := t)
  }

  function Step(s: State, e: Event): State {
    match e
    case Open =>
      // The opening commit still runs the effect on the old query before the reset takes hold.
      if s.panel.open then s else Rerun(s, Reset(KeywordEffect(s.panel.(open := true)).0))
    case Close => if !s.panel.open then s else Rerun(s, s.panel.(open := false))
    case Type(text) =>
      if !s.panel.open then s
      else if text == s.panel.query then s.(panel := Typed(s.panel, text))
      else Rerun(s, Typed(s.panel, text))
    case ChangeWorkspace(next) =>
      if next == s.panel.workspace then s else Rerun(s, s.panel.(workspace := next))
    case Fire => if s.timer.None? then s else s.(timer := None, kw := s.kw + {s.timer.value})
    case Submit =>
      if !s.panel.open || s.panel.mode.Keyword? then s
      else
        var (p, t) := AiBegun(s.panel);
        if t.None? then s else s.(panel := p, ai := s.ai + {t.value})
    case Switch(next) =>
      if !s.panel.open || next == s.panel.mode then s else Rerun(s, ModeSwitched(s.panel, next))
    case KwAnswer(t, results) =>
      if t !in s.kw then s else s.(panel := KeywordLanded(s.panel, t.number, results), kw := s.kw - {t})
    case AiAnswer(t, results, reason) =>
      if t !in s.ai then s else s.(panel := AiLanded(s.panel, t.number, results, reason), ai := s.ai - {t})
  }

  function Run(s: State, events: seq<Event>): State
    decreases events
  {
    if events == [] then s else Run(Step(s, events[0]), events[1..])
  }

  // ---------- What each event does to the screen ----------

  /** Opening starts afresh: keyword mode, an empty box, no results, no error, nothing loading. */
  lemma OpeningResets(s: State)
    requires !s.panel.open
    ensures var p := Step(s, Open).panel;
            && p.open && p.mode == Keyword && p.query == "" && p.workspace == s.panel.workspace
            && p.kwResults == [] && p.aiResults == [] && p.aiError == None && !p.loading
    ensures Step(s, Open).timer == None && Step(s, Open).kw == s.kw && Step(s, Open).ai == s.ai
  {
    hide IsSpace;
  }

  /** Typing in keyword mode starts the debounce, or clears the results when only white space is left. */
  lemma TypingSearches(s: State, text: string)
    requires s.panel.open && s.panel.mode.Keyword? && text != s.panel.query
    ensures var t := Step(s, Type(text));
            && t.panel.query == text && t.panel.aiResults == s.panel.aiResults
            && if AllSpace(text) then
                 t.timer == None && !t.panel.loading && t.panel.kwResults == [] && t.panel.seqRef == s.panel.seqRef
               else
                 && t.timer == Some(Ticket(s.panel.seqRef + 1, Trim(text), s.panel.workspace))
                 && t.panel.loading && t.panel.kwResults == s.panel.kwResults
  {
    hide Trim, IsSpace;
    TrimEmptyIff(text);
  }

  /** Typing in AI mode clears the results of the last question and sends nothing. */
  lemma TypingInAiMode(s: State, text: string)
    requires s.panel.open && s.panel.mode.Ai? && text != s.panel.query
    ensures var t := Step(s, Type(text));
            t.panel == s.panel.(query := text, aiResults := []) && t.timer == None && t.ai == s.ai && t.kw == s.kw
  {
  }

  /** Asking the AI needs words, drops the last error and waits for the answer. */
  lemma AskingWaits(s: State)
    requires s.panel.open && s.panel.mode.Ai?
    ensures var t := Step(s, Submit);
            if AllSpace(s.panel.query) then t == s
            else
              var ticket := Ticket(s.panel.seqRef + 1, Trim(s.panel.query), s.panel.workspace);
              && t.ai == s.ai + {ticket}
              && t.panel == s.panel.(seqRef := s.panel.seqRef + 1, loading := true, aiError := None)
  {
    hide Trim, IsSpace;
    TrimEmptyIff(s.panel.query);
  }

  /** Switching modes drops the error and what was under way, and coming to AI mode the AI results. */
  lemma SwitchingClears(s: State, next: Mode)
    requires s.panel.open && next != s.panel.mode
    ensures var p := Step(s, Switch(next)).panel;
            && p.mode == next && p.query == s.panel.query && p.aiError == None
            && (next == Ai ==> !p.loading && p.aiResults == [] && p.kwResults == s.panel.kwResults)
            && (next == Keyword ==> p.aiResults == s.panel.aiResults && (p.loading <==> !AllSpace(s.panel.query)))
            && Step(s, Switch(next)).timer.Some? == (next == Keyword && !AllSpace(s.panel.query))
  {
    hide Trim, IsSpace;
    TrimEmptyIff(s.panel.query);
  }

  /** An answer that is still applicable replaces the results of its kind and ends the wait; a failure empties them. */
  lemma AnswersShow(s: State, t: Ticket, results: Option<seq<nat>>, reason: string)
    requires t.number == s.panel.seqRef
    ensures t in s.kw ==>
              var p := Step(s, KwAnswer(t, results)).panel;
              && !p.loading && p.kwResults == (if results.Some? then results.value else [])
              && p == s.panel.(loading := false, kwResults := p.kwResults)
    ensures t in s.ai ==>
              var p := Step(s, AiAnswer(t, results, reason)).panel;
              && !p.loading && p.aiResults == (if results.Some? then results.value else [])
              && (results.None? ==> p.aiError == Some(reason))
              && (results.Some? ==> p.aiError == if results.value == [] then None else s.panel.aiError)
              && p == s.panel.(loading := false, aiResults := p.aiResults, aiError := p.aiError)
  {
  }

  /** Something is still to come that will be shown: the debounce or an answer with the latest number. */
  ghost predicate Pending(s: State) {
    s.timer.Some? || exists t :: (t in s.kw || t in s.ai) && t.number == s.panel.seqRef
  }

  /**
    The keyword requests that could still be shown are for the text and, while the panel is
    open, for the workspace on screen, or that text is now empty.
  */
  ghost predicate Inv(s: State) {
    && (s.timer.Some? ==>
          && s.timer.value.number == s.panel.seqRef && s.panel.open && Trim(s.panel.query) != ""
          && Fits(s.panel, s.timer.value))
    && (forall t :: t in s.kw ==>
          t.number <= s.panel.seqRef && (t.number == s.panel.seqRef ==> s.timer.None? && Fits(s.panel, t)))
    && (forall t :: t in s.ai ==>
          t.number <= s.panel.seqRef && (t.number == s.panel.seqRef ==> s.timer.None? && t !in s.kw))
    && (s.panel.open && s.panel.loading ==> Pending(s))
  }

  predicate Fits(p: Panel, t: Ticket) {
    && p.mode.Keyword?
    && t.query != ""
    && Trim(p.query) in {t.query, ""}
    && (p.open && Trim(p.query) != "" ==> t.workspace == p.workspace)
  }

  predicate IsEdit(e: Event) {
    e.Open? || e.Close? || e.Type? || e.ChangeWorkspace? || e.Switch?
  }

  lemma EditKeepsInv(s: State, e: Event)
    requires Inv(s) && IsEdit(e)
    ensures Inv(Step(s, e))
  {
    hide Trim, IsSpace;
    EmptyTrims();
  }

  lemma RequestKeepsInv(s: State, e: Event)
    requires Inv(s) && !IsEdit(e)
    ensures Inv(Step(s, e))
  {
    hide Trim, IsSpace;
  }

  lemma StepKeepsInv(s: State, e: Event)
    requires Inv(s)
    ensures Inv(Step(s, e))
    ensures s.panel.seqRef <= Step(s, e).panel.seqRef
  {
    hide Inv, Step;
    CounterMovesIff(s, e);
    if IsEdit(e) {
      EditKeepsInv(s, e);
    } else {
      RequestKeepsInv(s, e);
    }
  }

  lemma EmptyTrims()
    ensures Trim("") == ""
  {
  }

  lemma {:induction false} RunKeepsInv(s: State, events: seq<Event>)
    requires Inv(s)
    ensures Inv(Run(s, events)) && s.panel.seqRef <= Run(s, events).panel.seqRef
    decreases events
  {
    hide Inv, Step;
    if events != [] {
      StepKeepsInv(s, events[0]);
      RunKeepsInv(Step(s, events[0]), events[1..]);
    }
  }

  /**
    A keyword answer that can still be shown is for the text in the box exactly while there is
    one, and then, in the open panel, for the workspace on screen too.
  */
  lemma KeywordResultsMatch(events: seq<Event>, t: Ticket)
    ensures var s := Run(INITIAL, events);
            t in s.kw && t.number == s.panel.seqRef ==>
              && s.panel.mode.Keyword?
              && (t.query == Trim(s.panel.query) <==> Trim(s.panel.query) != "")
              && (s.panel.open && Trim(s.panel.query) != "" ==> t.workspace == s.panel.workspace)
  {
    hide Trim, IsSpace;
    EmptyTrims();
    RunKeepsInv(INITIAL, events);
  }

  /** The spinner never turns for nothing: while the panel is open, loading means an answer is still to come. */
  lemma SpinnerHasCause(events: seq<Event>)
    ensures var s := Run(INITIAL, events); s.panel.open && s.panel.loading ==> Pending(s)
  {
    RunKeepsInv(INITIAL, events);
  }

  /** A request overtaken once is never shown, however the run goes on. */
  lemma {:induction false} StaleForever(s: State, events: seq<Event>, number: nat)
    requires Inv(s) && number < s.panel.seqRef
    ensures var p := Run(s, events).panel;
            && (forall r :: KeywordLanded(p, number, r) == p)
            && (forall r, why :: AiLanded(p, number, r, why) == p)
  {
    RunKeepsInv(s, events);
  }

  /** After a mode switch nothing that was under way before it, timer included, is ever shown. */
  lemma SwitchInvalidates(s: State, next: Mode, events: seq<Event>, t: Ticket)
    requires Inv(s) && s.panel.open && next != s.panel.mode
    requires t in s.kw || t in s.ai || s.timer == Some(t)
    ensures var p := Run(Step(s, Switch(next)), events).panel;
            && (forall r :: KeywordLanded(p, t.number, r) == p)
            && (forall r, why :: AiLanded(p, t.number, r, why) == p)
    ensures Step(s, Switch(next)).timer != Some(t)
  {
    var n := Step(s, Switch(next));
    StepKeepsInv(s, Switch(next));
    assert n.panel.seqRef > s.panel.seqRef >= t.number;
    StaleForever(n, events, t.number);
  }

  /** The events that overtake every request under way. */
  predicate Overtakes(s: State, e: Event) {
    match e
    case Open => !s.panel.open && s.panel.mode.Keyword? && Trim(s.panel.query) != ""
    case Type(text) => s.panel.open && s.panel.mode.Keyword? && text != s.panel.query && Trim(text) != ""
    case ChangeWorkspace(next) =>
      next != s.panel.workspace && s.panel.open && s.panel.mode.Keyword? && Trim(s.panel.query) != ""
    case Submit => s.panel.open && s.panel.mode.Ai? && Trim(s.panel.query) != ""
    case Switch(next) => s.panel.open && next != s.panel.mode
    case _ => false
  }

  /** The counter moves exactly on those; clearing the box, or closing the panel, leaves it alone. */
  lemma CounterMovesIff(s: State, e: Event)
    ensures s.panel.seqRef < Step(s, e).panel.seqRef <==> Overtakes(s, e)
    ensures s.panel.seqRef == Step(s, e).panel.seqRef <==> !Overtakes(s, e)
  {
    hide Trim, IsSpace;
    EmptyTrims();
  }

  predicate SomeOvertakes(s: State, events: seq<Event>)
    decreases events
  {
    events != [] && (Overtakes(s, events[0]) || SomeOvertakes(Step(s, events[0]), events[1..]))
  }

  lemma {:induction false} CounterStaysIff(s: State, events: seq<Event>)
    ensures Run(s, events).panel.seqRef >= s.panel.seqRef
    ensures Run(s, events).panel.seqRef == s.panel.seqRef <==> !SomeOvertakes(s, events)
    decreases events
  {
    if events != [] {
      hide Step, Overtakes;
      CounterMovesIff(s, events[0]);
      CounterStaysIff(Step(s, events[0]), events[1..]);
    }
  }

  /** The text in the box after the events: the last one typed while open, or none since the last opening. */
  function TextAfter(open: bool, text: string, events: seq<Event>): string
    decreases events
  {
    if events == [] then text
    else
      match events[0]
      case Open => TextAfter(true, if open then text else "", events[1..])
      case Close => TextAfter(false, text, events[1..])
      case Type(x) => TextAfter(open, if open then x else text, events[1..])
      case _ => TextAfter(open, text, events[1..])
  }

  /** The workspace after the events: the last one changed to. */
  function WorkspaceAfter(workspace: string, events: seq<Event>): string
    decreases events
  {
    if events == [] then workspace
    else WorkspaceAfter(if events[0].ChangeWorkspace? then events[0].next else workspace, events[1..])
  }

  lemma ScreenStep(s: State, e: Event)
    ensures var p := Step(s, e).panel;
            && p.open == (e.Open? || (s.panel.open && !e.Close?))
            && p.query == (if e.Open? && !s.panel.open then ""
                           else if e.Type? && s.panel.open then e.text
                           else s.panel.query)
            && p.workspace == if e.ChangeWorkspace? then e.next else s.panel.workspace
  {
    hide Trim, IsSpace;
  }

  lemma {:induction false} ScreenAfter(s: State, events: seq<Event>)
    ensures var p := Run(s, events).panel;
            && p.query == TextAfter(s.panel.open, s.panel.query, events)
            && p.workspace == WorkspaceAfter(s.panel.workspace, events)
    decreases events
  {
    if events != [] {
      hide Step;
      ScreenStep(s, events[0]);
      ScreenAfter(Step(s, events[0]), events[1..]);
    }
  }

  /**
    The fate of an AI request over any events after it was submitted: its answer can still be
    shown if and only if none of them overtakes it, and it is then for the text and the workspace
    on screen if and only if the last text typed since, and the last workspace changed to, are
    those it was submitted with.
  */
  lemma AiAnswerFate(s: State, events: seq<Event>, results: seq<nat>, reason: string)
    requires s.panel.open && s.panel.mode.Ai? && Trim(s.panel.query) != ""
    ensures var t := Ticket(s.panel.seqRef + 1, Trim(s.panel.query), s.panel.workspace);
            var sent := Step(s, Submit);
            var p := Run(sent, events).panel;
            && t in sent.ai
            && (t.number == p.seqRef <==> !SomeOvertakes(sent, events))
            && AiLanded(p, t.number, Some(results), reason).aiResults
               == (if SomeOvertakes(sent, events) then p.aiResults else results)
            && (t.query == Trim(p.query) <==> t.query == Trim(TextAfter(true, s.panel.query, events)))
            && (t.workspace == p.workspace <==> t.workspace == WorkspaceAfter(t.workspace, events))
  {
    hide Trim, IsSpace, Run;
    var sent := Step(s, Submit);
    CounterStaysIff(sent, events);
    ScreenAfter(sent, events);
  }

  /** So a request is still shown after clearing the box: results for a query no longer there. */
  lemma ClearedQueryStillShows(text: string, results: seq<nat>)
    requires text != "" && Trim(text) == text
    ensures var s := Run(INITIAL, [Open, Type(text), Fire, Type(""), KwAnswer(Ticket(1, text, "all"), Some(results))]);
            s.panel.query == "" && s.panel.kwResults == results
  {
    EmptyTrims();
    var s1 := State(CLOSED.(open := true), None, {}, {});
    var s2 := State(s1.panel.(query := text, loading := true, seqRef := 1), Some(Ticket(1, text, "all")), {}, {});
    var s3 := s2.(timer := None, kw := {Ticket(1, text, "all")});
    var s4 := s3.(panel := s3.panel.(query := "", kwResults := [], loading := false));
    assert Step(INITIAL, Open) == s1 && Step(s1, Type(text)) == s2 && Step(s2, Fire) == s3;
    assert Step(s3, Type("")) == s4;
    RunFive(INITIAL, Open, Type(text), Fire, Type(""), KwAnswer(Ticket(1, text, "all"), Some(results)));
  }

  /** In AI mode typing does not overtake the request: its results appear under a different text. */
  lemma AiResultsCanBeStale(asked: string, typed: string, results: seq<nat>)
    requires asked != "" && Trim(asked) == asked && typed != asked
    ensures var s := Run(INITIAL, [Open, Switch(Ai), Type(asked), Submit, Type(typed)]);
            && Ticket(2, asked, "all") in s.ai && s.panel.query == typed
            && Step(s, AiAnswer(Ticket(2, asked, "all"), Some(results), "")).panel.aiResults == results
  {
    EmptyTrims();
    var s1 := State(CLOSED.(open := true), None, {}, {});
    var s2 := s1.(panel := s1.panel.(mode := Ai, seqRef := 1));
    var s3 := s2.(panel := s2.panel.(query := asked));
    var s4 := s3.(panel := s3.panel.(seqRef := 2, loading := true), ai := {Ticket(2, asked, "all")});
    assert Step(INITIAL, Open) == s1 && Step(s1, Switch(Ai)) == s2 && Step(s2, Type(asked)) == s3;
    assert Step(s3, Submit) == s4;
    RunFive(INITIAL, Open, Switch(Ai), Type(asked), Submit, Type(typed));
  }

  /** Nor does a change of workspace: results of another workspace appear. */
  lemma AiResultsOfAnotherWorkspace(asked: string, other: string, results: seq<nat>)
    requires asked != "" && Trim(asked) == asked && other != "all"
    ensures var t := Ticket(2, asked, "all");
            var s := Run(INITIAL, [Open, Switch(Ai), Type(asked), Submit, ChangeWorkspace(other)]);
            && t in s.ai && s.panel.workspace == other
            && Step(s, AiAnswer(t, Some(results), "")).panel.aiResults == results
  {
    EmptyTrims();
    var s1 := State(CLOSED.(open := true), None, {}, {});
    var s2 := s1.(panel := s1.panel.(mode := Ai, seqRef := 1));
    var s3 := s2.(panel := s2.panel.(query := asked));
    var s4 := s3.(panel := s3.panel.(seqRef := 2, loading := true), ai := {Ticket(2, asked, "all")});
    assert Step(INITIAL, Open) == s1 && Step(s1, Switch(Ai)) == s2 && Step(s2, Type(asked)) == s3;
    assert Step(s3, Submit) == s4;
    RunFive(INITIAL, Open, Switch(Ai), Type(asked), Submit, ChangeWorkspace(other));
  }

  lemma RunUnrolls(s: State, e: Event, rest: seq<Event>)
    ensures Run(s, [e] + rest) == Run(Step(s, e), rest)
  {
    assert ([e] + rest)[1..] == rest;
  }

  lemma RunFive(s: State, a: Event, b: Event, c: Event, d: Event, e: Event)
    ensures Run(s, [a, b, c, d, e]) == Step(Step(Step(Step(Step(s, a), b), c), d), e)
  {
    hide Step;
    RunUnrolls(s, a, [b, c, d, e]);
    RunUnrolls(Step(s, a), b, [c, d, e]);
    RunUnrolls(Step(Step(s, a), b), c, [d, e]);
    RunUnrolls(Step(Step(Step(s, a), b), c), d, [e]);
    RunUnrolls(Step(Step(Step(Step(s, a), b), c), d), e, []);
  }
}
