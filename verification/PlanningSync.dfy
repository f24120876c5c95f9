/**
  The planning panel mirrors the planner's log through offset polling, with an optimistic
  echo of each message the user sends. The log gains entries at its end, and entries of it
  change in place: a streamed reply grows, and a tool call gets its result. This module
  interleaves the panel's own steps with those of the server and the network, and decides
  when the mirror is faithful and when polling stops for good.
*/
module PlanningSync {
  import opened Options
  import opened Text
  import opened SessionTypes

  /** `result` is a tool call's result; `streaming` says that more of the text is still to come. */
  datatype Message = Message(kind: Kind, text: string, result: string, streaming: bool, timestamp: string) {
    /** What a reader sees: the echo carries the browser's clock, the log the server's. */
    function Content(): (Kind, string, string, bool) {
      (kind, text, result, streaming)
    }
  }

  function UserMessage(text: string, at: string): Message {
    Message(Followup, text, "", false, at)
  }

  datatype Post = Post(text: string, files: seq<string>)

  datatype Reply = Reply(messages: seq<Message>, total: Option<nat>)

  // ---------- The panel ----------

  datatype Client = Client(started: bool, messages: seq<Message>, count: nat, fetching: bool, sending: bool)

  function FetchBegun(c: Client): (Client, Option<nat>) {
    if !c.started || c.fetching then (c, None) else (c.(fetching := true), Some(c.count))
  }

  /** A reply to the fetch that asked for everything from `after` on. The guard's early return keeps `fetching`. */
  function ReplyApplied(c: Client, after: nat, reply: Reply): Client {
    if c.count != after then c
    else
      var shown := if after > 0 && |reply.messages| > 0 then c.messages + reply.messages
                   else if after == 0 then reply.messages
                   else c.messages;
      var total := if reply.total.Some? then reply.total.value else |reply.messages|;
      c.(messages := shown, count := total, fetching := false)
  }

  function FetchAbandoned(c: Client): Client {
    c.(fetching := false)
  }

  function SendBegun(c: Client, draft: string, files: seq<string>): (Client, Option<Post>) {
    if (Trim(draft) == [] && files == []) || c.sending then (c, None)
    else
      var text := if Trim(draft) != [] then Trim(draft) else "(see attached files)";
      (c.(sending := true), Some(Post(text, files)))
  }

  /**
    What starting to send must do: a request goes out exactly when none is under way and there
    are words or files, with just those files, and the words without the white space around
    them, or a placeholder when there are none.
  */
  ghost predicate SendsRight(sending: bool, draft: string, files: seq<string>, post: Option<Post>) {
    && (post.Some? <==> !sending && ((exists i :: 0 <= i < |draft| && !IsSpace(draft[i])) || files != []))
    && (post.Some? ==>
          && post.value.files == files
          && if exists i :: 0 <= i < |draft| && !IsSpace(draft[i])
             then post.value.text != "" && TrimmedTo(draft, post.value.text)
             else post.value.text == "(see attached files)")
  }

  lemma SendBegunIsRight(c: Client, draft: string, files: seq<string>)
    ensures var (d, post) := SendBegun(c, draft, files);
            SendsRight(c.sending, draft, files, post) && d == if post.Some? then c.(sending := true) else c
  {
    hide IsSpace, Trim, TrimmedTo;
    TrimDropsSpace(draft);
    TrimEmptyIff(draft);
  }

  function Echo(post: Post, now: string): Message {
    UserMessage(post.text, now)
  }

  function SendAcknowledged(c: Client, post: Post, now: string): Client {
    c.(messages := c.messages + [Echo(post, now)], count := c.count + 1, sending := false)
  }

  function SendAbandoned(c: Client): Client {
    c.(sending := false)
  }

  class PlanningPanel {
    var sessionStarted: bool
    var messages: seq<Message>
    var messageCount: nat
    var fetchingRef: bool
    var sending: bool

    function View(): Client
      reads this
    {
      Client(sessionStarted, messages, messageCount, fetchingRef, sending)
    }

    constructor (started: bool)
      ensures View() == Client(started, [], 0, false, false)
    {
      sessionStarted, messages, messageCount, fetchingRef, sending := started, [], 0, false, false;
    }

    method BeginFetch() returns (after: Option<nat>)
      modifies this
      ensures (View(), after) == FetchBegun(old(View()))
    {
      if !sessionStarted || fetchingRef {
        return None;
      }
      fetchingRef := true;
      after := Some(messageCount);
    }

    method Receive(after: nat, reply: Reply)
      modifies this
      ensures View() == ReplyApplied(old(View()), after, reply)
    {
      if messageCount != after {
        return;
      }
      var total := if reply.total.Some? then reply.total.value else |reply.messages|;
      if after > 0 && |reply.messages| > 0 {
        messages := messages + reply.messages;
      } else if after == 0 {
        messages := reply.messages;
      }
      messageCount := total;
      fetchingRef := false;
    }

    method FetchFailed()
      modifies this
      ensures View() == FetchAbandoned(old(View()))
    {
      fetchingRef := false;
    }

    method BeginSend(draft: string, files: seq<string>) returns (post: Option<Post>)
      modifies this
      ensures (View(), post) == SendBegun(old(View()), draft, files)
      ensures SendsRight(old(sending), draft, files, post)
      ensures View() == if post.Some? then old(View()).(sending := true) else old(View())
    {
      SendBegunIsRight(View(), draft, files);
      if (Trim(draft) == [] && files == []) || sending {
        return None;
      }
      sending := true;
      post := Some(Post(if Trim(draft) != [] then Trim(draft) else "(see attached files)", files));
    }

    method SendSucceeded(post: Post, now: string)
      modifies this
      ensures View() == SendAcknowledged(old(View()), post, now)
    {
      messages := messages + [Echo(post, now)];
      messageCount := messageCount + 1;
      sending := false;
    }

    method SendFailed()
      modifies this
      ensures View() == SendAbandoned(old(View()))
    {
      sending := false;
    }
  }

  // ---------- The server ----------

  function FileList(files: seq<string>): string {
    if files == [] then "" else "\n- " + files[0] + FileList(files[1..])
  }

  /** The text the message route passes on: attachments are listed under the user's words. */
  function FullText(post: Post): string {
    if post.files == [] then post.text
    else post.text + "\n\n" + "Attached files (accessible on disk):" + FileList(post.files)
  }

  function FileLine(f: string): string {
    "- " + f
  }

  function FileLines(files: seq<string>): (r: seq<string>)
    ensures |r| == |files| && forall i :: 0 <= i < |files| ==> r[i] == FileLine(files[i])
  {
    seq(|files|, i requires 0 <= i < |files| => FileLine(files[i]))
  }

  /** The text passed on, line by line: the user's own, a blank one, a heading and one for each file. */
  lemma FilesAreListed(post: Post)
    requires post.files != [] && forall f :: f in post.files ==> '\n' !in f
    ensures SplitOn(FullText(post), '\n')
         == SplitOn(post.text, '\n') + (["", "Attached files (accessible on disk):"] + FileLines(post.files))
  {
    hide SplitOn, FileList, FileLines;
    var heading := "Attached files (accessible on disk):";
    var list := heading + FileList(post.files);
    FullTextParts(post);
    SplitAround(post.text, '\n', "" + ['\n'] + list);
    SplitAround("", '\n', list);
    SplitOfWhole("", '\n');
    ListLines(heading, post.files);
    assert [""] + ([heading] + FileLines(post.files)) == ["", heading] + FileLines(post.files);
  }

  lemma FullTextParts(post: Post)
    requires post.files != []
    ensures FullText(post)
         == post.text + ['\n'] + ("" + ['\n'] + ("Attached files (accessible on disk):" + FileList(post.files)))
  {
    TwoBreaks(post.text, "Attached files (accessible on disk):", FileList(post.files));
  }

  lemma TwoBreaks(a: string, b: string, c: string)
    ensures a + "\n\n" + b + c == a + ['\n'] + ("" + ['\n'] + (b + c))
  {
    assert "\n\n" == ['\n'] + ['\n'];
  }

  lemma {:induction false} ListLines(head: string, files: seq<string>)
    requires '\n' !in head && forall f :: f in files ==> '\n' !in f
    ensures SplitOn(head + FileList(files), '\n') == [head] + FileLines(files)
    decreases files
  {
    hide SplitOn;
    SplitOfWhole(head, '\n');
    if files == [] {
      assert head + FileList(files) == head;
      assert [head] + FileLines(files) == [head];
    } else {
      hide FileList, FileLines;
      assert files[0] in files;
      var line := FileLine(files[0]);
      ListStep(head, files);
      SplitAround(head, '\n', line + FileList(files[1..]));
      ListLines(line, files[1..]);
      LinesStep(files);
    }
  }

  lemma ListStep(head: string, files: seq<string>)
    requires files != []
    ensures head + FileList(files) == head + ['\n'] + (FileLine(files[0]) + FileList(files[1..]))
  {
    hide FileList;
    assert FileList(files) == "\n- " + files[0] + FileList(files[1..]) by { ListUnfolds(files); }
    assert "\n- " == ['\n'] + "- ";
    Reassociate(head, ['\n'], "- ", files[0], FileList(files[1..]));
  }

  lemma ListUnfolds(files: seq<string>)
    requires files != []
    ensures FileList(files) == "\n- " + files[0] + FileList(files[1..])
  {
  }

  lemma Reassociate(a: string, b: string, c: string, d: string, e: string)
    ensures a + (b + c + d + e) == a + b + (c + d + e)
  {
  }

  lemma LinesStep(files: seq<string>)
    requires files != []
    ensures FileLines(files) == [FileLine(files[0])] + FileLines(files[1..])
  {
    hide FileLine;
  }

  /** What becomes of credentials in a text when a message is stored, and again whenever the log is read. */
  datatype Redaction = Redaction(stored: string -> string, read: string -> string)

  function ReadText(red: Redaction, text: string): string {
    if text == "" then "" else red.read(text)
  }

  function ReadOut(red: Redaction, m: Message): Message {
    m.(text := ReadText(red, m.text), result := ReadText(red, m.result))
  }

  /** The log as the messages route reads it. */
  function Served(red: Redaction, log: seq<Message>): (r: seq<Message>)
    ensures |r| == |log|
    ensures forall i :: 0 <= i < |log| ==> r[i] == ReadOut(red, log[i])
  {
    seq(|log|, i requires 0 <= i < |log| => ReadOut(red, log[i]))
  }

  /** The messages route; the panel leaves `after` out of the query when it is 0. */
  function MessagesRoute(red: Redaction, log: seq<Message>, after: nat): Reply {
    var all := Served(red, log);
    if after == 0 then Reply(all, Some(|all|))
    else Reply(if after < |all| then all[after..] else [], Some(|all|))
  }

  // ---------- Interleaving ----------

  datatype Fetch = Fetch(after: nat, reply: Option<Reply>)

  /** A message on its way to the server; `index` is its place in the log once stored. */
  datatype Outgoing = Outgoing(post: Post, index: Option<nat>)

  datatype State = State(client: Client, log: seq<Message>, fetches: seq<Fetch>, posts: seq<Outgoing>)

  datatype Event =
    | StartSession
    | Poll                                         // the interval, the mount or the 500 ms timer fires
    | Append(message: Message)                     // the planner writes to the log
    | Amend(entry: nat, text: string, result: string, streaming: bool)  // it changes an entry in place
    | Serve(fetch: nat)                            // the server answers a fetch
    | Deliver(fetch: nat)                          // its answer reaches the panel
    | LoseFetch(fetch: nat)                        // a fetch fails
    | Send(draft: string, files: seq<string>)
    | Accept(post: nat, at: string)                // the server stores a sent message
    | Ack(post: nat, at: string)                   // the panel learns that it was stored
    | LoseSend(post: nat)

  const START := State(Client(false, [], 0, false, false), [], [], [])

  function Without<T>(s: seq<T>, i: nat): seq<T>
    requires i < |s|
  {
    s[..i] + s[i + 1..]
  }

  /** One step of the system; an event that is not enabled changes nothing. */
  function Step(red: Redaction, s: State, e: Event): State {
    match e
    case StartSession => s.(client := s.client.(started := true))
    case Poll =>
      var (c, after) := FetchBegun(s.client);
      if after.None? then s else s.(client := c, fetches := s.fetches + [Fetch(after.value, None)])
    case Append(m) => s.(log := s.log + [m])
    case Amend(i, text, result, streaming) =>
      if !Amendable(s.log, i) then s
      else s.(log := s.log[i := s.log[i].(text := text, result := result, streaming := streaming)])
    case Serve(i) =>
      if i >= |s.fetches| || s.fetches[i].reply.Some? then s
      else s.(fetches := s.fetches[i := s.fetches[i].(reply := Some(MessagesRoute(red, s.log, s.fetches[i].after)))])
    case Deliver(i) =>
      if i >= |s.fetches| || s.fetches[i].reply.None? then s
      else s.(client := ReplyApplied(s.client, s.fetches[i].after, s.fetches[i].reply.value),
              fetches := Without(s.fetches, i))
    case LoseFetch(i) =>
      if i >= |s.fetches| then s
      else s.(client := FetchAbandoned(s.client), fetches := Without(s.fetches, i))
    case Send(draft, files) =>
      var (c, post) := SendBegun(s.client, draft, files);
      if post.None? then s else s.(client := c, posts := s.posts + [Outgoing(post.value, None)])
    case Accept(j, at) =>
      if j >= |s.posts| || s.posts[j].index.Some? then s
      else s.(log := s.log + [UserMessage(red.stored(FullText(s.posts[j].post)), at)],
              posts := s.posts[j := s.posts[j].(index := Some(|s.log|))])
    case Ack(j, at) =>
      if !AckEnabled(s, j) then s
      else s.(client := SendAcknowledged(s.client, s.posts[j].post, at), posts := Without(s.posts, j))
    case LoseSend(j) =>
      if j >= |s.posts| then s
      else s.(client := SendAbandoned(s.client), posts := Without(s.posts, j))
  }

  /** Only replies and tool calls ever change in place. */
  predicate Amendable(log: seq<Message>, i: nat) {
    i < |log| && log[i].kind in {Assistant, Tool}
  }

  /** A change in place rewrites one reply or tool call and nothing else; any other entry stays. */
  lemma AmendRewrites(red: Redaction, s: State, i: nat, text: string, result: string, streaming: bool)
    ensures var t := Step(red, s, Amend(i, text, result, streaming));
            && t == s.(log := t.log) && |t.log| == |s.log|
            && (forall k :: 0 <= k < |s.log| && k != i ==> t.log[k] == s.log[k])
            && (i < |s.log| ==>
                  t.log[i] == if s.log[i].kind.Assistant? || s.log[i].kind.Tool?
                              then Message(s.log[i].kind, text, result, streaming, s.log[i].timestamp)
                              else s.log[i])
  {
  }

  predicate AckEnabled(s: State, j: nat) {
    j < |s.posts| && s.posts[j].index.Some?
  }

  function Run(red: Redaction, s: State, events: seq<Event>): State
    decreases events
  {
    if events == [] then s else Run(red, Step(red, s, events[0]), events[1..])
  }

  // ---------- What every step keeps ----------

  /** At most one fetch and one send are under way, and the flags cover them. */
  ghost predicate Covered(s: State) {
    && |s.fetches| <= 1
    && (s.fetches != [] ==> s.client.fetching && s.client.started)
    && |s.posts| <= 1
    && (s.posts != [] <==> s.client.sending)
    && (forall f :: f in s.fetches ==> f.after <= s.client.count)
  }

  /** A message once stored stays where it was stored, as it was stored. */
  ghost predicate InPlace(red: Redaction, s: State) {
    forall p :: p in s.posts && p.index.Some? ==>
      && p.index.value < |s.log|
      && s.log[p.index.value].Content() == UserMessage(red.stored(FullText(p.post)), "").Content()
  }

  ghost predicate Inv(red: Redaction, s: State) {
    Covered(s) && InPlace(red, s)
  }

  lemma StepKeepsCovered(red: Redaction, s: State, e: Event)
    requires Covered(s)
    ensures Covered(Step(red, s, e))
  {
    hide Trim, IsSpace, FullText, MessagesRoute;
  }

  lemma StepKeepsInPlace(red: Redaction, s: State, e: Event)
    requires InPlace(red, s)
    ensures InPlace(red, Step(red, s, e))
  {
    hide Trim, IsSpace, FullText, MessagesRoute;
  }

  lemma StepKeepsInv(red: Redaction, s: State, e: Event)
    requires Inv(red, s)
    ensures Inv(red, Step(red, s, e))
  {
    hide Step, Covered, InPlace;
    StepKeepsCovered(red, s, e);
    StepKeepsInPlace(red, s, e);
  }

  lemma {:induction false} RunKeepsInv(red: Redaction, s: State, events: seq<Event>)
    requires Inv(red, s)
    ensures Inv(red, Run(red, s, events))
    decreases events
  {
    if events != [] {
      StepKeepsInv(red, s, events[0]);
      RunKeepsInv(red, Step(red, s, events[0]), events[1..]);
    }
  }

  lemma AtMostOneFetch(red: Redaction, events: seq<Event>)
    ensures |Run(red, START, events).fetches| <= 1
  {
    RunKeepsInv(red, START, events);
  }

  // ---------- The mirror ----------

  /** The panel shows exactly the first `count` entries of the log as it is read. */
  ghost predicate Mirror(red: Redaction, s: State) {
    && |s.client.messages| == s.client.count <= |s.log|
    && forall i :: 0 <= i < s.client.count ==> s.client.messages[i].Content() == Served(red, s.log)[i].Content()
  }

  /** An acknowledged message is the log entry at the panel's current count. */
  ghost predicate Aligned(red: Redaction, s: State, e: Event) {
    e.Ack? && AckEnabled(s, e.post) ==>
      && s.client.count < |s.log|
      && Served(red, s.log)[s.client.count].Content() == UserMessage(s.posts[e.post].post.text, "").Content()
  }

  /** A change in place is of an entry the panel does not show yet, or makes no difference as it is read. */
  ghost predicate Unseen(red: Redaction, s: State, e: Event) {
    e.Amend? && Amendable(s.log, e.entry) && e.entry < s.client.count ==>
      Served(red, Step(red, s, e).log)[e.entry].Content() == Served(red, s.log)[e.entry].Content()
  }

  /** The entries of an answer to the fetch from `after` on are still those of the log as it is read. */
  ghost predicate Current(red: Redaction, log: seq<Message>, after: nat, reply: Reply) {
    forall k :: 0 <= k < |reply.messages| && after + k < |log| ==>
      reply.messages[k].Content() == Served(red, log)[after + k].Content()
  }

  /** An answer that is applied holds no entry that has changed since it was served. */
  ghost predicate UpToDate(red: Redaction, s: State, e: Event) {
    Delivers(s, e) && s.fetches[e.fetch].after == s.client.count ==>
      Current(red, s.log, s.fetches[e.fetch].after, s.fetches[e.fetch].reply.value)
  }

  ghost predicate Clean(red: Redaction, s: State, e: Event) {
    Aligned(red, s, e) && Unseen(red, s, e) && UpToDate(red, s, e)
  }

  ghost predicate AllClean(red: Redaction, s: State, events: seq<Event>)
    decreases events
  {
    events != [] ==> Clean(red, s, events[0]) && AllClean(red, Step(red, s, events[0]), events[1..])
  }

  ghost predicate AlwaysMirror(red: Redaction, s: State, events: seq<Event>)
    decreases events
  {
    Mirror(red, s) && (events != [] ==> AlwaysMirror(red, Step(red, s, events[0]), events[1..]))
  }

  /** An answer under way has the entries from `after` up to its total, the length of the log when it was served. */
  predicate Measured(f: Fetch, log: seq<Message>) {
    && f.after <= |log|
    && (f.reply.Some? ==>
          && f.reply.value.total.Some?
          && f.after <= f.reply.value.total.value <= |log|
          && |f.reply.value.messages| == f.reply.value.total.value - f.after)
  }

  ghost predicate Sound(s: State) {
    s.client.count <= |s.log| && forall f :: f in s.fetches ==> Measured(f, s.log)
  }

  lemma StepKeepsSound(red: Redaction, s: State, e: Event)
    requires Inv(red, s) && Sound(s) && (e.Ack? && AckEnabled(s, e.post) ==> s.client.count < |s.log|)
    ensures Sound(Step(red, s, e))
  {
    hide Trim, IsSpace, FullText, MessagesRoute;
    var t := Step(red, s, e);
    if e.Serve? && e.fetch < |s.fetches| {
      ServedIsMeasured(red, s.log, s.fetches[e.fetch].after);
    }
    assert t.client.count <= |t.log| by {
      if Delivers(s, e) {
        assert Measured(s.fetches[e.fetch], s.log);
      }
    }
    forall f | f in t.fetches ensures Measured(f, t.log) {
      if f in s.fetches {
        assert Measured(f, s.log);
      }
    }
  }

  lemma ServedIsMeasured(red: Redaction, log: seq<Message>, after: nat)
    requires after <= |log|
    ensures Measured(Fetch(after, Some(MessagesRoute(red, log, after))), log)
  {
  }

  lemma SameMirror(red: Redaction, s: State, t: State)
    requires s.client.messages == t.client.messages && s.client.count == t.client.count && s.log == t.log
    ensures Mirror(red, s) <==> Mirror(red, t)
  {
  }

  lemma AppendKeepsMirror(red: Redaction, s: State, t: State, m: Message)
    requires Mirror(red, s) && t.log == s.log + [m] && t.client == s.client
    ensures Mirror(red, t)
  {
  }

  lemma AmendMirrorIff(red: Redaction, s: State, e: Event)
    requires Mirror(red, s) && e.Amend?
    ensures Mirror(red, Step(red, s, e)) <==> Unseen(red, s, e)
  {
    var t := Step(red, s, e);
    if Amendable(s.log, e.entry) && e.entry < s.client.count {
      assert s.client.messages[e.entry].Content() == Served(red, s.log)[e.entry].Content();
      assert t.client.messages[e.entry] == s.client.messages[e.entry];
    }
  }

  lemma DeliverMirrorIff(red: Redaction, s: State, f: Fetch)
    requires Mirror(red, s) && Measured(f, s.log) && f.reply.Some? && s.client.count == f.after
    ensures Mirror(red, s.(client := ReplyApplied(s.client, f.after, f.reply.value)))
       <==> Current(red, s.log, f.after, f.reply.value)
  {
    var all, reply := Served(red, s.log), f.reply.value;
    var c := ReplyApplied(s.client, f.after, reply);
    var n := reply.total.value;
    assert c.count == n && c.messages == s.client.messages + reply.messages;
    if Current(red, s.log, f.after, reply) {
      forall i | 0 <= i < n ensures c.messages[i].Content() == all[i].Content() {
        if i >= f.after {
          assert c.messages[i] == reply.messages[i - f.after];
          assert all[f.after + (i - f.after)] == all[i];
        }
      }
    }
    if Mirror(red, s.(client := c)) {
      forall k | 0 <= k < |reply.messages| ensures reply.messages[k].Content() == all[f.after + k].Content() {
        assert c.messages[f.after + k] == reply.messages[k];
      }
    }
  }

  lemma DeliveryMirrorIff(red: Redaction, s: State, e: Event)
    requires Inv(red, s) && Mirror(red, s) && Sound(s) && e.Deliver?
    ensures Mirror(red, Step(red, s, e)) <==> UpToDate(red, s, e)
  {
    hide Mirror, Measured, Current, Served;
    if Delivers(s, e) {
      var f := s.fetches[e.fetch];
      if f.after == s.client.count {
        DeliverMirrorIff(red, s, f);
        SameMirror(red, s.(client := ReplyApplied(s.client, f.after, f.reply.value)), Step(red, s, e));
      } else {
        SameMirror(red, s, Step(red, s, e));
      }
    }
  }

  lemma AckMirrorIff(red: Redaction, s: State, e: Event)
    requires Mirror(red, s) && e.Ack?
    ensures Mirror(red, Step(red, s, e)) <==> Aligned(red, s, e)
  {
    if AckEnabled(s, e.post) {
      var c := Step(red, s, e).client;
      assert c.messages[s.client.count].Content() == UserMessage(s.posts[e.post].post.text, "").Content();
    }
  }

  lemma OtherStepKeepsMirror(red: Redaction, s: State, e: Event)
    requires Mirror(red, s) && !e.Append? && !e.Accept? && !e.Amend? && !e.Deliver? && !e.Ack?
    ensures Mirror(red, Step(red, s, e))
  {
    hide Mirror, Served;
    SameMirror(red, s, Step(red, s, e));
  }

  /** One step keeps the mirror if and only if it is clean. */
  lemma StepMirrorIff(red: Redaction, s: State, e: Event)
    requires Inv(red, s) && Mirror(red, s) && Sound(s)
    ensures Mirror(red, Step(red, s, e)) <==> Clean(red, s, e)
  {
    hide Inv, Mirror, Sound, MessagesRoute, ReplyApplied;
    match e
    case Append(m) => AppendKeepsMirror(red, s, Step(red, s, e), m);
    case Accept(j, at) =>
      if Step(red, s, e) != s {
        AppendKeepsMirror(red, s, Step(red, s, e), UserMessage(red.stored(FullText(s.posts[j].post)), at));
      }
    case Amend(_, _, _, _) => AmendMirrorIff(red, s, e);
    case Deliver(_) => DeliveryMirrorIff(red, s, e);
    case Ack(_, _) => AckMirrorIff(red, s, e);
    case _ => OtherStepKeepsMirror(red, s, e);
  }

  lemma {:induction false} MirrorIffClean(red: Redaction, s: State, events: seq<Event>)
    requires Inv(red, s) && Mirror(red, s) && Sound(s)
    ensures AlwaysMirror(red, s, events) <==> AllClean(red, s, events)
    decreases events
  {
    if events != [] {
      hide Inv, Mirror, Sound, Unseen, UpToDate, Step;
      StepMirrorIff(red, s, events[0]);
      if Clean(red, s, events[0]) {
        StepKeepsInv(red, s, events[0]);
        StepKeepsSound(red, s, events[0]);
        MirrorIffClean(red, Step(red, s, events[0]), events[1..]);
      }
    }
  }

  /**
    Over every interleaving of polls, appends, changes in place, sends, answers and failures:
    the panel shows exactly the first `count` log entries at every moment if and only if each
    acknowledged message is the log entry at the panel's count, no entry already shown changes
    as it is read, and no applied answer holds an entry that has changed since it was served.
  */
  lemma MirrorTheorem(red: Redaction, events: seq<Event>)
    ensures AlwaysMirror(red, START, events) <==> AllClean(red, START, events)
  {
    MirrorIffClean(red, START, events);
  }

  // ---------- Logs that only grow ----------

  ghost predicate AllAligned(red: Redaction, s: State, events: seq<Event>)
    decreases events
  {
    events != [] ==> Aligned(red, s, events[0]) && AllAligned(red, Step(red, s, events[0]), events[1..])
  }

  /** Every answer under way still says what the log says. */
  ghost predicate AllCurrent(red: Redaction, s: State) {
    forall f :: f in s.fetches && f.reply.Some? ==> Current(red, s.log, f.after, f.reply.value)
  }

  lemma ServedIsCurrent(red: Redaction, log: seq<Message>, after: nat)
    requires after <= |log|
    ensures Current(red, log, after, MessagesRoute(red, log, after))
  {
  }

  lemma CurrentStays(red: Redaction, log: seq<Message>, m: Message, f: Fetch)
    requires Measured(f, log) && f.reply.Some? && Current(red, log, f.after, f.reply.value)
    ensures Current(red, log + [m], f.after, f.reply.value)
  {
    forall k | 0 <= k < |f.reply.value.messages| && f.after + k < |log + [m]|
      ensures f.reply.value.messages[k].Content() == Served(red, log + [m])[f.after + k].Content()
    {
      assert f.after + k < |log|;
      assert Served(red, log + [m])[f.after + k] == Served(red, log)[f.after + k];
    }
  }

  lemma GrowingStep(red: Redaction, s: State, e: Event)
    requires Inv(red, s) && Sound(s) && AllCurrent(red, s) && !e.Amend?
    ensures AllCurrent(red, Step(red, s, e)) && Unseen(red, s, e) && UpToDate(red, s, e)
  {
    hide Current, Measured, MessagesRoute, Trim, FullText, ReplyApplied;
    var t := Step(red, s, e);
    if e.Serve? && e.fetch < |s.fetches| {
      AfterWithinLog(s, e.fetch);
      ServedIsCurrent(red, s.log, s.fetches[e.fetch].after);
    }
    forall f | f in t.fetches && f.reply.Some? ensures Current(red, t.log, f.after, f.reply.value) {
      if f in s.fetches && t.log != s.log {
        assert t.log == s.log + [t.log[|s.log|]];
        CurrentStays(red, s.log, t.log[|s.log|], f);
      }
    }
  }

  lemma AfterWithinLog(s: State, i: nat)
    requires Sound(s) && i < |s.fetches|
    ensures s.fetches[i].after <= |s.log|
  {
    assert Measured(s.fetches[i], s.log);
  }

  lemma {:induction false} GrowingRun(red: Redaction, s: State, events: seq<Event>)
    requires Inv(red, s) && Sound(s) && AllCurrent(red, s) && forall e :: e in events ==> !e.Amend?
    ensures AllClean(red, s, events) <==> AllAligned(red, s, events)
    decreases events
  {
    if events != [] {
      hide Inv, Sound, AllCurrent, Unseen, UpToDate, Step;
      var e := events[0];
      assert e in events;
      forall x | x in events[1..] ensures x in events {}
      GrowingStep(red, s, e);
      if Aligned(red, s, e) {
        StepKeepsInv(red, s, e);
        StepKeepsSound(red, s, e);
        GrowingRun(red, Step(red, s, e), events[1..]);
      }
    }
  }

  /** While the log only grows, the alignment of the acknowledgements alone decides. */
  lemma GrowingLogMirror(red: Redaction, events: seq<Event>)
    requires forall e :: e in events ==> !e.Amend?
    ensures AlwaysMirror(red, START, events) <==> AllAligned(red, START, events)
  {
    MirrorTheorem(red, events);
    GrowingRun(red, START, events);
  }

  // ---------- Replies that stream in ----------

  /** The place of the last reply if it is still streaming, or -1. */
  function FindOpenStreaming(log: seq<Message>): (i: int)
    ensures -1 <= i < |log|
    ensures i >= 0 ==> log[i].kind.Assistant? && log[i].streaming
    ensures i >= 0 ==> forall k :: i < k < |log| ==> !log[k].kind.Assistant?
    ensures i < 0 ==> forall k :: 0 <= k < |log| && log[k].kind.Assistant? && log[k].streaming ==>
              exists j :: k < j < |log| && log[j].kind.Assistant?
  {
    if log == [] then -1
    else
      var last := |log| - 1;
      assert forall k :: 0 <= k < last ==> log[..last][k] == log[k];
      if log[last].kind.Assistant? then (if log[last].streaming then last else -1)
      else FindOpenStreaming(log[..last])
  }

  /** A piece of a reply joins the one that is streaming, or opens one. */
  function TextDelta(log: seq<Message>, piece: string, at: string): seq<Message> {
    var i := FindOpenStreaming(log);
    if i < 0 then log + [Message(Assistant, piece, "", true, at)]
    else log[i := log[i].(text := log[i].text + piece)]
  }

  /** The complete reply replaces the one that is streaming, or is an entry of its own. */
  function FinalText(log: seq<Message>, text: string, at: string): seq<Message> {
    var i := FindOpenStreaming(log);
    if i < 0 then log + [Message(Assistant, text, "", false, at)]
    else log[i := log[i].(text := text, streaming := false)]
  }

  /** Both are an append or a change in place. */
  lemma StreamingSteps(red: Redaction, s: State, text: string, at: string)
    ensures var i := FindOpenStreaming(s.log);
            if i < 0 then
              && Step(red, s, Append(Message(Assistant, text, "", true, at))).log == TextDelta(s.log, text, at)
              && Step(red, s, Append(Message(Assistant, text, "", false, at))).log == FinalText(s.log, text, at)
            else
              var m := s.log[i];
              && Step(red, s, Amend(i, m.text + text, m.result, true)).log == TextDelta(s.log, text, at)
              && Step(red, s, Amend(i, text, m.result, false)).log == FinalText(s.log, text, at)
  {
  }

  /** What the panel counts is in a log that has begun, also as an answer under way reports it. */
  ghost predicate Begun(s: State) {
    && (s.client.count > 0 ==> s.log != [])
    && forall f :: f in s.fetches && f.reply.Some? ==>
         && f.reply.value.total.Some?
         && (f.after > 0 ==> f.reply.value.total.value > 0)
         && (f.reply.value.total.value > 0 ==> s.log != [])
  }

  lemma BegunStep(red: Redaction, s: State, e: Event)
    requires Inv(red, s) && Begun(s)
    ensures Begun(Step(red, s, e))
  {
    hide Trim, IsSpace, FullText, MessagesRoute, Served;
    if e.Serve? && e.fetch < |s.fetches| {
      ServedTotal(red, s.log, s.fetches[e.fetch].after);
    }
  }

  lemma ShownStep(red: Redaction, s: State, e: Event)
    requires Inv(red, s) && Begun(s)
    ensures s.client.count > 0 ==>
              Step(red, s, e).client.count > 0 && s.client.messages <= Step(red, s, e).client.messages
  {
    hide Trim, IsSpace, FullText, MessagesRoute, Served;
  }

  lemma ServedTotal(red: Redaction, log: seq<Message>, after: nat)
    ensures MessagesRoute(red, log, after).total == Some(|log|)
  {
  }

  /** Once the panel has counted an entry, what it shows is only ever added to, whatever changes in the log. */
  lemma {:induction false} ShownNeverChanges(red: Redaction, s: State, events: seq<Event>)
    requires Inv(red, s) && Begun(s) && s.client.count > 0
    ensures s.client.messages <= Run(red, s, events).client.messages
    decreases events
  {
    if events != [] {
      hide Inv, Step, Begun;
      BegunStep(red, s, events[0]);
      ShownStep(red, s, events[0]);
      StepKeepsInv(red, s, events[0]);
      ShownNeverChanges(red, Step(red, s, events[0]), events[1..]);
    }
  }

  /** Had the route left out the total, only a first fetch would have kept the mirror; it always sends it. */
  lemma MissingTotalBreaksMirror(red: Redaction, s: State, n: nat)
    requires Mirror(red, s) && s.client.count <= n <= |s.log|
    ensures var after := s.client.count;
            var reply := Reply(Served(red, s.log)[after..n], None);
            Mirror(red, s.(client := ReplyApplied(s.client, after, reply))) <==> after == 0
  {
  }

  /**
    A message stored exactly at the panel's count is mirrored if and only if it is read back as
    it was typed, with its attachments listed and credentials taken out of it.
  */
  lemma AlignedAtCount(red: Redaction, s: State, j: nat, at: string)
    requires Inv(red, s) && AckEnabled(s, j) && s.posts[j].index == Some(s.client.count)
    ensures var post := s.posts[j].post;
            Aligned(red, s, Ack(j, at)) <==> ReadText(red, red.stored(FullText(post))) == post.text
  {
    var p := s.posts[j];
    assert p in s.posts;
    assert s.log[s.client.count].Content() == UserMessage(red.stored(FullText(p.post)), "").Content();
  }

  /** When there is nothing to redact, only a message without attachments is mirrored. */
  lemma AttachmentsAreNotEchoed(red: Redaction, s: State, j: nat, at: string)
    requires Inv(red, s) && AckEnabled(s, j) && s.posts[j].index == Some(s.client.count)
    requires var full := FullText(s.posts[j].post); ReadText(red, red.stored(full)) == full
    ensures Aligned(red, s, Ack(j, at)) <==> s.posts[j].post.files == []
  {
    AlignedAtCount(red, s, j, at);
    var post := s.posts[j].post;
    if post.files != [] {
      assert |FullText(post)| > |post.text|;
    }
  }

  /** From an idle faithful panel, one undisturbed poll shows the whole log. */
  lemma OnePollCatchesUp(red: Redaction, s: State)
    requires Inv(red, s) && Mirror(red, s) && s.client.started && !s.client.fetching
    ensures var t := Run(red, s, [Poll, Serve(0), Deliver(0)]);
            Mirror(red, t) && t.client.count == |t.log| && t.log == s.log && !t.client.fetching
  {
    hide Run, Mirror, Served;
    var n, all := s.client.count, Served(red, s.log);
    var s1 := s.(client := s.client.(fetching := true), fetches := [Fetch(n, None)]);
    var s2 := s1.(fetches := [Fetch(n, Some(MessagesRoute(red, s.log, n)))]);
    assert Step(red, s, Poll) == s1 && Step(red, s1, Serve(0)) == s2;
    SameMirror(red, s, s2);
    CountWithinLog(red, s);
    ServedIsCurrent(red, s.log, n);
    DeliverMirrorIff(red, s2, s2.fetches[0]);
    SameMirror(red, s2.(client := ReplyApplied(s2.client, n, MessagesRoute(red, s.log, n))), Step(red, s2, Deliver(0)));
    RunThree(red, s, Poll, Serve(0), Deliver(0));
  }

  lemma CountWithinLog(red: Redaction, s: State)
    requires Mirror(red, s)
    ensures s.client.count <= |s.log|
  {
  }

  // ---------- When polling stops ----------

  /** The flag says a fetch is under way, but none is. */
  predicate Stuck(s: State) {
    s.client.fetching && s.fetches == []
  }

  /** A fetch is under way whose answer the count guard will drop. */
  predicate Doomed(s: State) {
    |s.fetches| == 1 && s.fetches[0].after < s.client.count
  }

  predicate Drops(s: State, e: Event) {
    && e.Deliver?
    && e.fetch < |s.fetches|
    && s.fetches[e.fetch].reply.Some?
    && s.fetches[e.fetch].after != s.client.count
  }

  predicate SomeReplyDropped(red: Redaction, s: State, events: seq<Event>)
    decreases events
  {
    events != [] && (Drops(s, events[0]) || SomeReplyDropped(red, Step(red, s, events[0]), events[1..]))
  }

  /** Everything shown after `old` is an echo of the user's own messages. */
  ghost predicate OnlyEchoesSince(was: seq<Message>, now: seq<Message>) {
    was <= now && forall i :: |was| <= i < |now| ==> now[i].kind == Followup
  }

  lemma StuckStays(red: Redaction, s: State, e: Event)
    requires Inv(red, s) && Stuck(s)
    ensures Stuck(Step(red, s, e)) && OnlyEchoesSince(s.client.messages, Step(red, s, e).client.messages)
  {
    hide Trim, IsSpace, FullText, MessagesRoute;
  }

  /** Once stuck, always stuck: no later fetch starts and no log entry is shown again. */
  lemma {:induction false} StuckForever(red: Redaction, s: State, events: seq<Event>)
    requires Inv(red, s) && Stuck(s)
    ensures Stuck(Run(red, s, events))
    ensures OnlyEchoesSince(s.client.messages, Run(red, s, events).client.messages)
    decreases events
  {
    if events != [] {
      hide Inv, Step, Stuck;
      StuckStays(red, s, events[0]);
      StepKeepsInv(red, s, events[0]);
      StuckForever(red, Step(red, s, events[0]), events[1..]);
    }
  }

  lemma DropSticks(red: Redaction, s: State, e: Event)
    requires Inv(red, s) && !Stuck(s)
    ensures Stuck(Step(red, s, e)) <==> Drops(s, e)
  {
  }

  /** The panel gets stuck exactly when the count guard drops an answer. */
  lemma {:induction false} StuckIffReplyDropped(red: Redaction, s: State, events: seq<Event>)
    requires Inv(red, s) && !Stuck(s)
    ensures Stuck(Run(red, s, events)) <==> SomeReplyDropped(red, s, events)
    decreases events
  {
    if events != [] {
      hide Inv, Step, Stuck, Drops;
      var t := Step(red, s, events[0]);
      StepKeepsInv(red, s, events[0]);
      DropSticks(red, s, events[0]);
      if Stuck(t) {
        StuckForever(red, t, events[1..]);
      } else {
        StuckIffReplyDropped(red, t, events[1..]);
      }
    }
  }

  predicate AcksDuringFetch(s: State, e: Event) {
    e.Ack? && AckEnabled(s, e.post) && s.fetches != []
  }

  /** Only an acknowledgement during a fetch dooms it. */
  lemma OnlyAckDooms(red: Redaction, s: State, e: Event)
    requires Inv(red, s) && !Doomed(s)
    ensures Doomed(Step(red, s, e)) <==> AcksDuringFetch(s, e)
  {
  }

  /** A doomed fetch either fails outright or leaves the panel stuck; meanwhile only echoes appear. */
  lemma {:induction false} DoomedFetchSticks(red: Redaction, s: State, events: seq<Event>)
    requires Inv(red, s) && Doomed(s)
    requires LoseFetch(0) !in events
    ensures Doomed(Run(red, s, events)) || Stuck(Run(red, s, events))
    ensures OnlyEchoesSince(s.client.messages, Run(red, s, events).client.messages)
    decreases events
  {
    if events != [] {
      hide Inv, Step, Doomed, Stuck;
      var t := Step(red, s, events[0]);
      StepKeepsInv(red, s, events[0]);
      DoomedStep(red, s, events[0]);
      assert events[0] in events;
      if Doomed(t) {
        DoomedFetchSticks(red, t, events[1..]);
      } else {
        StuckForever(red, t, events[1..]);
      }
    }
  }

  /** A delivered answer ends its fetch, whether it is applied or dropped. */
  predicate Delivers(s: State, e: Event) {
    e.Deliver? && e.fetch < |s.fetches| && s.fetches[e.fetch].reply.Some?
  }

  predicate EndsFetch(s: State, e: Event) {
    Delivers(s, e) || (e.LoseFetch? && e.fetch < |s.fetches|)
  }

  lemma DoomedStep(red: Redaction, s: State, e: Event)
    requires Inv(red, s) && Doomed(s)
    ensures Doomed(Step(red, s, e)) <==> !EndsFetch(s, e)
    ensures Stuck(Step(red, s, e)) <==> Delivers(s, e)
    ensures e != LoseFetch(0) && EndsFetch(s, e) ==> Delivers(s, e)
    ensures OnlyEchoesSince(s.client.messages, Step(red, s, e).client.messages)
  {
    hide Trim, IsSpace, FullText, MessagesRoute, Served, OnlyEchoesSince;
    DoomedShowsEchoes(red, s, e);
  }

  lemma DoomedShowsEchoes(red: Redaction, s: State, e: Event)
    requires Inv(red, s) && Doomed(s)
    ensures OnlyEchoesSince(s.client.messages, Step(red, s, e).client.messages)
  {
    hide Trim, IsSpace, FullText, MessagesRoute, Served;
  }

  lemma StuckStepIff(red: Redaction, s: State, e: Event)
    requires Inv(red, s) && !Stuck(s)
    ensures Stuck(Step(red, s, e)) <==> Doomed(s) && Delivers(s, e)
  {
  }

  lemma AckDooms(red: Redaction, s: State, e: Event)
    requires Inv(red, s) && AcksDuringFetch(s, e)
    ensures Doomed(Step(red, s, e))
  {
  }

  /** The state after the first `k` events. */
  function StateAt(red: Redaction, s: State, events: seq<Event>, k: nat): State
    requires k <= |events|
  {
    Run(red, s, events[..k])
  }

  lemma StateAtNext(red: Redaction, s: State, events: seq<Event>, k: nat)
    requires k < |events|
    ensures StateAt(red, s, events, k + 1) == Step(red, StateAt(red, s, events, k), events[k])
  {
    assert events[..k + 1] == events[..k] + [events[k]];
    RunSplits(red, s, events[..k], [events[k]]);
    RunOne(red, StateAt(red, s, events, k), events[k]);
  }

  /** The `k`-th event acknowledges a message during a fetch, and the `m`-th delivers that fetch's answer. */
  ghost predicate AckedThenDelivered(red: Redaction, events: seq<Event>, k: nat, m: nat) {
    && k < m < |events|
    && AcksDuringFetch(StateAt(red, START, events, k), events[k])
    && Delivers(StateAt(red, START, events, m), events[m])
    && forall j :: k < j < m ==> !EndsFetch(StateAt(red, START, events, j), events[j])
  }

  /** A doomed fetch was doomed by an acknowledgement during it. */
  lemma {:induction false} DoomedHasCause(red: Redaction, events: seq<Event>, m: nat) returns (k: nat)
    requires m <= |events| && Doomed(StateAt(red, START, events, m))
    ensures k < m && AcksDuringFetch(StateAt(red, START, events, k), events[k])
    ensures forall j :: k < j < m ==> !EndsFetch(StateAt(red, START, events, j), events[j])
  {
    hide Inv, Step, Stuck, AcksDuringFetch, EndsFetch;
    if m == 0 {
      assert false;
    } else {
      var s := StateAt(red, START, events, m - 1);
      StateAtNext(red, START, events, m - 1);
      StartKeepsInv(red, events[..m - 1]);
      if Doomed(s) {
        DoomedStep(red, s, events[m - 1]);
        assert !EndsFetch(s, events[m - 1]);
        k := DoomedHasCause(red, events, m - 1);
      } else {
        OnlyAckDooms(red, s, events[m - 1]);
        k := m - 1;
      }
    }
  }

  lemma StartKeepsInv(red: Redaction, events: seq<Event>)
    ensures Inv(red, Run(red, START, events))
  {
    RunKeepsInv(red, START, events);
  }

  lemma {:induction false} StuckHasCause(red: Redaction, events: seq<Event>, n: nat) returns (k: nat, m: nat)
    requires n <= |events| && Stuck(StateAt(red, START, events, n))
    ensures AckedThenDelivered(red, events, k, m)
  {
    hide Inv, Step, Doomed, Stuck, AcksDuringFetch, EndsFetch, Delivers;
    if n == 0 {
      NotStuckAtStart(red, events);
      assert false;
    } else {
      var s := StateAt(red, START, events, n - 1);
      StateAtNext(red, START, events, n - 1);
      StartKeepsInv(red, events[..n - 1]);
      if Stuck(s) {
        k, m := StuckHasCause(red, events, n - 1);
      } else {
        m := n - 1;
        StuckStepIff(red, s, events[m]);
        k := DoomedHasCause(red, events, m);
      }
    }
  }

  lemma NotStuckAtStart(red: Redaction, events: seq<Event>)
    ensures !Stuck(StateAt(red, START, events, 0))
  {
  }

  lemma {:induction false} DoomedUntil(red: Redaction, events: seq<Event>, k: nat, m: nat)
    requires k < m <= |events| && AcksDuringFetch(StateAt(red, START, events, k), events[k])
    requires forall j :: k < j < m ==> !EndsFetch(StateAt(red, START, events, j), events[j])
    ensures Doomed(StateAt(red, START, events, m))
  {
    hide Inv, Step, Doomed, Stuck, AcksDuringFetch, EndsFetch;
    var s := StateAt(red, START, events, m - 1);
    StateAtNext(red, START, events, m - 1);
    StartKeepsInv(red, events[..m - 1]);
    if k == m - 1 {
      AckDooms(red, s, events[k]);
    } else {
      DoomedUntil(red, events, k, m - 1);
      DoomedStep(red, s, events[m - 1]);
    }
  }

  lemma AckedThenDeliveredSticks(red: Redaction, events: seq<Event>, k: nat, m: nat)
    requires AckedThenDelivered(red, events, k, m)
    ensures m < |events| && Stuck(StateAt(red, START, events, m + 1))
  {
    hide Inv, Step, Doomed, Stuck, AcksDuringFetch, EndsFetch, Delivers;
    DoomedUntil(red, events, k, m);
    StartKeepsInv(red, events[..m]);
    DoomedStep(red, StateAt(red, START, events, m), events[m]);
    StateAtNext(red, START, events, m);
  }

  lemma StuckFrom(red: Redaction, events: seq<Event>, n: nat)
    requires n <= |events| && Stuck(StateAt(red, START, events, n))
    ensures Stuck(Run(red, START, events))
  {
    hide Inv, Stuck;
    StartKeepsInv(red, events[..n]);
    StuckForever(red, StateAt(red, START, events, n), events[n..]);
    assert events == events[..n] + events[n..];
    RunSplits(red, START, events[..n], events[n..]);
  }

  /**
    Over whole schedules: polling has stopped for good if and only if at some moment a message
    was acknowledged during a fetch whose answer was delivered later.
  */
  lemma StuckIffAckDuringDeliveredFetch(red: Redaction, events: seq<Event>)
    ensures Stuck(Run(red, START, events)) <==> exists k: nat, m: nat :: AckedThenDelivered(red, events, k, m)
  {
    hide Run, Stuck, AckedThenDelivered;
    if Stuck(Run(red, START, events)) {
      assert events[..|events|] == events;
      var k, m := StuckHasCause(red, events, |events|);
    }
    if k: nat, m: nat :| AckedThenDelivered(red, events, k, m) {
      AckedThenDeliveredSticks(red, events, k, m);
      StuckFrom(red, events, m + 1);
    }
  }

  // ---------- When a stored message sits at the panel's count ----------

  /** The total of the answer that an event applies, if it applies one: the length of the log when it was served. */
  function AppliedTotal(s: State, e: Event): Option<nat> {
    if Delivers(s, e) && s.fetches[e.fetch].after == s.client.count then s.fetches[e.fetch].reply.value.total else None
  }

  predicate SomeAppliedAt(red: Redaction, s: State, events: seq<Event>, i: nat)
    decreases events
  {
    && events != []
    && (AppliedTotal(s, events[0]) == Some(i) || SomeAppliedAt(red, Step(red, s, events[0]), events[1..], i))
  }

  predicate SomeAppliedBeyond(red: Redaction, s: State, events: seq<Event>, i: nat)
    decreases events
  {
    && events != []
    && var n := AppliedTotal(s, events[0]);
       (n.Some? && n.value > i) || SomeAppliedBeyond(red, Step(red, s, events[0]), events[1..], i)
  }

  /** Without acknowledgements the count moves only to the total of an applied answer, and never down. */
  lemma CountStep(red: Redaction, s: State, e: Event)
    requires Inv(red, s) && Sound(s) && !e.Ack?
    ensures var c, n := Step(red, s, e).client.count, AppliedTotal(s, e);
            if n.Some? then c == n.value >= s.client.count else c == s.client.count
  {
    hide Trim, IsSpace, FullText;
    if Delivers(s, e) {
      var f := s.fetches[e.fetch];
      assert Measured(f, s.log);
    }
  }

  lemma PendingStep(red: Redaction, s: State, e: Event)
    requires Inv(red, s) && |s.posts| == 1 && s.posts[0].index.Some? && !e.Ack? && !e.LoseSend?
    ensures Step(red, s, e).posts == s.posts
  {
  }

  /**
    Between its storing and its acknowledgement a message sits at the panel's count if and only
    if no answer that already held it has been applied, and the panel had caught up with the
    entries before it: at once, or by an answer served when the log held exactly those.
  */
  lemma {:induction false} StoredAtCountIff(red: Redaction, s: State, events: seq<Event>, i: nat)
    requires Inv(red, s) && Sound(s) && |s.posts| == 1 && s.posts[0].index == Some(i)
    requires forall e :: e in events ==> !e.Ack? && !e.LoseSend?
    ensures var t := Run(red, s, events);
            && t.posts == s.posts && AckEnabled(t, 0)
            && (t.posts[0].index == Some(t.client.count)
                <==> !SomeAppliedBeyond(red, s, events, i)
                     && (s.client.count == i || SomeAppliedAt(red, s, events, i)))
    ensures Run(red, s, events).client.count >= s.client.count
    decreases events
  {
    hide Inv, Step, Sound, AppliedTotal;
    if events != [] {
      var e := events[0];
      assert e in events;
      forall x | x in events[1..] ensures x in events {}
      StepKeepsInv(red, s, e);
      StepKeepsSound(red, s, e);
      CountStep(red, s, e);
      PendingStep(red, s, e);
      StoredAtCountIff(red, Step(red, s, e), events[1..], i);
    }
  }

  // ---------- Concrete runs ----------

  function Sent(text: string): Message {
    UserMessage(text, "t")
  }

  function Waiting(text: string, files: seq<string>, index: Option<nat>): seq<Outgoing> {
    [Outgoing(Post(text, files), index)]
  }

  /** A text that redaction leaves alone. */
  predicate Harmless(red: Redaction, text: string) {
    red.stored(text) == text == red.read(text)
  }

  /** One message stored during the first fetch, whose answer is on its way back with it. */
  function Answered(text: string): State {
    State(Client(true, [], 0, true, true), [Sent(text)], [Fetch(0, Some(Reply([Sent(text)], Some(1))))],
          Waiting(text, [], Some(0)))
  }

  lemma AnsweredIsReached(red: Redaction, text: string)
    requires text != [] && Trim(text) == text && Harmless(red, text)
    ensures Run(red, START, [StartSession, Poll, Send(text, []), Accept(0, "t"), Serve(0)]) == Answered(text)
  {
    hide Run, Trim;
    var m := Sent(text);
    var s1 := State(Client(true, [], 0, false, false), [], [], []);
    var s2 := State(Client(true, [], 0, true, false), [], [Fetch(0, None)], []);
    var s3 := State(Client(true, [], 0, true, true), [], [Fetch(0, None)], Waiting(text, [], None));
    var s4 := State(Client(true, [], 0, true, true), [m], [Fetch(0, None)], Waiting(text, [], Some(0)));
    assert Step(red, START, StartSession) == s1 && Step(red, s1, Poll) == s2 && Step(red, s2, Send(text, [])) == s3;
    assert Served(red, [m]) == [m];
    assert Step(red, s3, Accept(0, "t")) == s4 && Step(red, s4, Serve(0)) == Answered(text);
    RunFive(red, START, StartSession, Poll, Send(text, []), Accept(0, "t"), Serve(0));
  }

  /** A message sent during a fetch: the answer is dropped and the next tick fetches nothing. */
  lemma NextTickDoesNotFetch(red: Redaction, text: string, planner: Message)
    requires text != [] && Trim(text) == text && Harmless(red, text)
    ensures Run(red, START, [StartSession, Poll, Send(text, []), Accept(0, "t"), Serve(0)]
                            + [Ack(0, "t"), Deliver(0), Append(planner), Poll])
         == State(Client(true, [Sent(text)], 1, true, false), [Sent(text), planner], [], [])
  {
    hide Run, Trim;
    var m := Sent(text);
    var s5 := Answered(text);
    AnsweredIsReached(red, text);
    var s6 := State(Client(true, [m], 1, true, false), [m], s5.fetches, []);
    var s7 := State(Client(true, [m], 1, true, false), [m], [], []);
    var s8 := s7.(log := [m, planner]);
    assert Step(red, s5, Ack(0, "t")) == s6 && Step(red, s6, Deliver(0)) == s7;
    assert Step(red, s7, Append(planner)) == s8 && Step(red, s8, Poll) == s8;
    RunFour(red, s5, Ack(0, "t"), Deliver(0), Append(planner), Poll);
    RunSplits(red, START, [StartSession, Poll, Send(text, []), Accept(0, "t"), Serve(0)],
              [Ack(0, "t"), Deliver(0), Append(planner), Poll]);
  }

  /** One message sent and stored, its acknowledgement still on the way. */
  function Stored(red: Redaction, text: string, files: seq<string>): State {
    State(Client(true, [], 0, false, true), [Sent(red.stored(FullText(Post(text, files))))], [],
          Waiting(text, files, Some(0)))
  }

  lemma StoredIsReached(red: Redaction, text: string, files: seq<string>)
    requires text != [] && Trim(text) == text
    ensures Run(red, START, [StartSession, Send(text, files), Accept(0, "t")]) == Stored(red, text, files)
  {
    hide Run;
    var s1 := State(Client(true, [], 0, false, false), [], [], []);
    var s2 := State(Client(true, [], 0, false, true), [], [], Waiting(text, files, None));
    assert Step(red, START, StartSession) == s1 && Step(red, s1, Send(text, files)) == s2;
    assert Step(red, s2, Accept(0, "t")) == Stored(red, text, files);
    RunThree(red, START, StartSession, Send(text, files), Accept(0, "t"));
  }

  /** A message sent on its own to an idle panel: the mirror breaks exactly when it is read back changed. */
  lemma LoneMessageMirrored(red: Redaction, text: string, files: seq<string>)
    requires text != [] && Trim(text) == text
    ensures var t := Run(red, START, [StartSession, Send(text, files), Accept(0, "t")] + [Ack(0, "t")]);
            && t.client.messages == [Sent(text)]
            && (Mirror(red, t) <==> ReadText(red, red.stored(FullText(Post(text, files)))) == text)
  {
    hide Run;
    var s := Stored(red, text, files);
    StoredIsReached(red, text, files);
    RunSplits(red, START, [StartSession, Send(text, files), Accept(0, "t")], [Ack(0, "t")]);
    RunOne(red, s, Ack(0, "t"));
    var m := Sent(red.stored(FullText(Post(text, files))));
    var t := State(Client(true, [Sent(text)], 1, false, false), [m], [], []);
    assert Step(red, s, Ack(0, "t")) == t;
    assert Served(red, [m])[0].text == ReadText(red, m.text);
    assert t.client.messages[0].Content() == Served(red, t.log)[0].Content() <==> text == ReadText(red, m.text);
  }

  /** A whole poll between the server storing a message and the panel hearing of it shows the message twice. */
  lemma EchoCanDouble(red: Redaction, text: string)
    requires text != [] && Trim(text) == text && Harmless(red, text)
    ensures Run(red, START, [StartSession, Send(text, []), Accept(0, "t")]
                            + [Poll, Serve(0), Deliver(0), Ack(0, "t")])
         == State(Client(true, [Sent(text), Sent(text)], 2, false, false), [Sent(text)], [], [])
  {
    hide Run;
    var m := Sent(text);
    var s3 := Stored(red, text, []);
    StoredIsReached(red, text, []);
    var s4 := s3.(client := s3.client.(fetching := true), fetches := [Fetch(0, None)]);
    var s5 := s4.(fetches := [Fetch(0, Some(Reply([m], Some(1))))]);
    var s6 := State(Client(true, [m], 1, false, true), [m], [], Waiting(text, [], Some(0)));
    var s7 := State(Client(true, [m, m], 2, false, false), [m], [], []);
    assert Served(red, [m]) == [m];
    assert Step(red, s3, Poll) == s4 && Step(red, s4, Serve(0)) == s5;
    assert Step(red, s5, Deliver(0)) == s6 && Step(red, s6, Ack(0, "t")) == s7;
    RunFour(red, s3, Poll, Serve(0), Deliver(0), Ack(0, "t"));
    RunSplits(red, START, [StartSession, Send(text, []), Accept(0, "t")], [Poll, Serve(0), Deliver(0), Ack(0, "t")]);
  }

  /** The panel has fetched the first part of a reply that is still streaming. */
  function HalfShown(red: Redaction, head: string): State {
    var m := Message(Assistant, head, "", true, "t");
    State(Client(true, [ReadOut(red, m)], 1, false, false), [m], [], [])
  }

  lemma HalfIsReached(red: Redaction, head: string)
    ensures Run(red, START, [StartSession, Append(HalfShown(red, head).log[0]), Poll, Serve(0), Deliver(0)])
         == HalfShown(red, head)
  {
    hide Run;
    var m := HalfShown(red, head).log[0];
    var s1 := State(Client(true, [], 0, false, false), [], [], []);
    var s3 := State(Client(true, [], 0, true, false), [m], [Fetch(0, None)], []);
    var s4 := s3.(fetches := [Fetch(0, Some(Reply([ReadOut(red, m)], Some(1))))]);
    assert Step(red, START, StartSession) == s1 && Step(red, Step(red, s1, Append(m)), Poll) == s3;
    assert Served(red, [m]) == [ReadOut(red, m)];
    assert Step(red, s3, Serve(0)) == s4 && Step(red, s4, Deliver(0)) == HalfShown(red, head);
    RunFive(red, START, StartSession, Append(m), Poll, Serve(0), Deliver(0));
  }

  /**
    A poll that catches a reply half-way: without any message sent the mirror breaks with the
    next piece, and however the run goes on the panel shows the first part only.
  */
  lemma StreamedReplyStaysCut(red: Redaction, head: string, tail: string, rest: seq<Event>)
    requires ReadText(red, head + tail) != ReadText(red, head)
    ensures var m := Message(Assistant, head, "", true, "t");
            var s := Run(red, START, [StartSession, Append(m), Poll, Serve(0), Deliver(0)]);
            var t := Step(red, s, Amend(0, head + tail, "", true));
            && Mirror(red, s) && t.log == TextDelta(s.log, tail, "t") && !Mirror(red, t)
            && var shown := Run(red, t, rest).client.messages;
               shown != [] && shown[0] == ReadOut(red, m)
  {
    hide Run;
    HalfIsReached(red, head);
    var s := HalfShown(red, head);
    var t := Step(red, s, Amend(0, head + tail, "", true));
    StreamingSteps(red, s, tail, "t");
    assert t.client.messages[0] == ReadOut(red, s.log[0]);
    assert Served(red, t.log)[0].text == ReadText(red, head + tail);
    ShownNeverChanges(red, t, rest);
  }

  lemma RunUnrolls(red: Redaction, s: State, e: Event, rest: seq<Event>)
    ensures Run(red, s, [e] + rest) == Run(red, Step(red, s, e), rest)
  {
    assert ([e] + rest)[1..] == rest;
  }

  lemma {:induction false} RunSplits(red: Redaction, s: State, a: seq<Event>, b: seq<Event>)
    ensures Run(red, s, a + b) == Run(red, Run(red, s, a), b)
    decreases a
  {
    if a == [] {
      assert a + b == b;
    } else {
      assert (a + b)[1..] == a[1..] + b;
      RunSplits(red, Step(red, s, a[0]), a[1..], b);
    }
  }

  lemma RunOne(red: Redaction, s: State, a: Event)
    ensures Run(red, s, [a]) == Step(red, s, a)
  {
    RunUnrolls(red, s, a, []);
  }

  lemma RunThree(red: Redaction, s: State, a: Event, b: Event, c: Event)
    ensures Run(red, s, [a, b, c]) == Step(red, Step(red, Step(red, s, a), b), c)
  {
    RunUnrolls(red, s, a, [b, c]);
    RunUnrolls(red, Step(red, s, a), b, [c]);
    RunOne(red, Step(red, Step(red, s, a), b), c);
  }

  lemma RunFour(red: Redaction, s: State, a: Event, b: Event, c: Event, d: Event)
    ensures Run(red, s, [a, b, c, d]) == Step(red, Step(red, Step(red, Step(red, s, a), b), c), d)
  {
    RunUnrolls(red, s, a, [b, c, d]);
    RunThree(red, Step(red, s, a), b, c, d);
  }

  lemma RunFive(red: Redaction, s: State, a: Event, b: Event, c: Event, d: Event, e: Event)
    ensures Run(red, s, [a, b, c, d, e]) == Step(red, Step(red, Step(red, Step(red, Step(red, s, a), b), c), d), e)
  {
    RunUnrolls(red, s, a, [b, c, d, e]);
    RunFour(red, Step(red, s, a), b, c, d, e);
  }
}
