/**
  Splitting an assistant message into text and objective-proposal cards:
  the scanner behind /```objective-proposal\n?([\s\S]*?)```/g.
*/
module ProposalSplitter {
  import opened Options
  import opened Text

  const OPEN: string := "```objective-proposal"
  const FENCE: string := "```"

  datatype Segment = Words(content: string) | Proposal(content: string)

  // ---------- One match ----------

  /** The first place at or after `from` where `p` occurs, or -1. */
  function Find(p: string, s: string, from: nat): (i: int)
    requires from <= |s|
    ensures i == -1 || from <= i <= |s| - |p|
    decreases |s| - from
  {
    if p <= s[from..] then from
    else if from == |s| then -1
    else Find(p, s, from + 1)
  }

  /** `Find` is the least occurrence, and -1 means there is none. */
  lemma {:induction false} FindFirst(p: string, s: string, from: nat)
    requires from <= |s|
    ensures var i := Find(p, s, from);
            && (i >= 0 ==> p <= s[i..])
            && (forall k :: from <= k <= |s| && (i < 0 || k < i) ==> !(p <= s[k..]))
    decreases |s| - from
  {
    if !(p <= s[from..]) && from < |s| {
      FindFirst(p, s, from + 1);
    }
  }

  lemma FindIs(p: string, s: string, from: nat, i: nat)
    requires from <= i <= |s| && p <= s[i..]
    requires forall k :: from <= k < i ==> !(p <= s[k..])
    ensures Find(p, s, from) == i
  {
    FindFirst(p, s, from);
  }

  /** One match: where it starts, its captured payload and where it ends. */
  datatype Match = Match(start: nat, payloadStart: nat, payloadEnd: nat, end: nat)

  /** The payload of an opener at `i` starts after it and one optional newline. */
  function PayloadStart(s: string, i: nat): (k: nat)
    requires i <= |s| && OPEN <= s[i..]
    ensures i + |OPEN| <= k <= |s|
  {
    assert |s[i..]| >= |OPEN|;
    var k := i + |OPEN|;
    if k < |s| && s[k] == '\n' then k + 1 else k
  }

  /** The lazy match at `i`: the payload runs to the first closing fence. */
  function MatchAt(s: string, i: nat): (m: Option<Match>)
    requires i <= |s|
    ensures m.Some? ==> m.value.start == i
                        && i + |OPEN| <= m.value.payloadStart <= m.value.payloadEnd < m.value.end <= |s|
  {
    if !(OPEN <= s[i..]) then None
    else
      var k := PayloadStart(s, i);
      var j := Find(FENCE, s, k);
      if j < 0 then None else Some(Match(i, k, j, j + |FENCE|))
  }

  /** `regex.exec` from `from`: the leftmost match. */
  function Exec(s: string, from: nat): (m: Option<Match>)
    requires from <= |s|
    ensures m.Some? ==> from <= m.value.start && m.value.start + |OPEN| <= m.value.payloadStart
                        && m.value.payloadStart <= m.value.payloadEnd < m.value.end <= |s|
    decreases |s| - from
  {
    if MatchAt(s, from).Some? then MatchAt(s, from)
    else if from == |s| then None
    else Exec(s, from + 1)
  }

  lemma {:induction false} ExecFirst(s: string, from: nat)
    requires from <= |s|
    ensures var m := Exec(s, from);
            && (m.Some? ==> MatchAt(s, m.value.start) == m)
            && (forall k :: from <= k <= |s| && (m.Some? ==> k < m.value.start) ==> MatchAt(s, k).None?)
    decreases |s| - from
  {
    hide MatchAt;
    if MatchAt(s, from).None? && from < |s| {
      ExecFirst(s, from + 1);
    }
  }

  lemma ExecIs(s: string, from: nat, i: nat)
    requires from <= i <= |s| && MatchAt(s, i).Some?
    requires forall k :: from <= k < i ==> MatchAt(s, k).None?
    ensures Exec(s, from) == MatchAt(s, i)
  {
    hide MatchAt, Exec;
    ExecFirst(s, from);
  }

  lemma ExecNone(s: string, from: nat)
    requires from <= |s|
    requires forall k :: from <= k <= |s| ==> MatchAt(s, k).None?
    ensures Exec(s, from) == None
  {
    hide MatchAt, Exec;
    ExecFirst(s, from);
  }

  // ---------- The split ----------

  function WordsOf(s: string): seq<Segment> {
    if s == "" then [] else [Words(s)]
  }

  /** The segments from position `from` on. */
  function SegmentsFrom(s: string, from: nat): seq<Segment>
    requires from <= |s|
    decreases |s| - from
  {
    var m := Exec(s, from);
    if m.None? then WordsOf(s[from..])
    else
      WordsOf(s[from..m.value.start])
      + [Proposal(Trim(s[m.value.payloadStart..m.value.payloadEnd]))]
      + SegmentsFrom(s, m.value.end)
  }

  lemma SegmentsStep(s: string, from: nat)
    requires from <= |s|
    ensures var m := Exec(s, from);
            SegmentsFrom(s, from)
            == if m.None? then WordsOf(s[from..])
               else WordsOf(s[from..m.value.start])
                    + [Proposal(Trim(s[m.value.payloadStart..m.value.payloadEnd]))]
                    + SegmentsFrom(s, m.value.end)
  {
    hide Exec, Trim;
  }

  function Split(text: string): seq<Segment> {
    var segments := SegmentsFrom(text, 0);
    if segments == [] then [Words(text)] else segments
  }

  lemma LoopStep(s: string, from: nat, done: seq<Segment>)
    requires from <= |s| && Exec(s, from).Some?
    ensures var m := Exec(s, from).value;
            done + SegmentsFrom(s, from)
            == done + (if m.start > from then [Words(s[from..m.start])] else [])
               + [Proposal(Trim(s[m.payloadStart..m.payloadEnd]))]
               + SegmentsFrom(s, m.end)
  {
    hide Exec, Trim, SegmentsFrom;
    SegmentsStep(s, from);
  }

  lemma LoopEnd(s: string, from: nat, done: seq<Segment>)
    requires from <= |s| && Exec(s, from).None? && done + SegmentsFrom(s, from) == SegmentsFrom(s, 0)
    ensures var all := done + (if from < |s| then [Words(s[from..])] else []);
            Split(s) == if all == [] then [Words(s)] else all
  {
    hide Exec, Trim, SegmentsFrom;
    SegmentsStep(s, from);
  }

  method SplitObjectiveProposals(text: string) returns (segments: seq<Segment>)
    ensures segments == Split(text)
  {
    hide *;
    segments := [];
    var lastIndex := 0;
    var m := Exec(text, 0);
    while m.Some?
      invariant lastIndex <= |text|
      invariant m == Exec(text, lastIndex)
      invariant segments + SegmentsFrom(text, lastIndex) == SegmentsFrom(text, 0)
      decreases |text| - lastIndex
    {
      LoopStep(text, lastIndex, segments);
      if m.value.start > lastIndex {
        segments := segments + [Words(text[lastIndex..m.value.start])];
      }
      segments := segments + [Proposal(Trim(text[m.value.payloadStart..m.value.payloadEnd]))];
      lastIndex := m.value.end;
      m := Exec(text, lastIndex);
    }
    LoopEnd(text, lastIndex, segments);
    if lastIndex < |text| {
      segments := segments + [Words(text[lastIndex..])];
    }
    if segments == [] {
      segments := [Words(text)];
    }
  }

  // ---------- Nothing lost: the segments tile the text ----------

  /** A stretch of the text and the segment shown for it. */
  datatype Piece = Piece(start: nat, end: nat, segment: Segment)

  /** The stretch from `start` to `end` is either the words themselves or one whole proposal fence. */
  ghost predicate Shows(s: string, p: Piece) {
    && p.start < p.end <= |s|
    && match p.segment
       case Words(w) => w == s[p.start..p.end]
       case Proposal(c) =>
         exists k, j :: p.start <= k <= j <= p.end && c == Trim(s[k..j])
                        && (s[p.start..k] == OPEN || s[p.start..k] == OPEN + "\n")
                        && s[j..p.end] == FENCE
                        && !Occurs(FENCE, s[k..j])
  }

  ghost predicate Occurs(p: string, s: string) {
    exists k :: 0 <= k <= |s| && p <= s[k..]
  }

  ghost predicate Tiles(s: string, pieces: seq<Piece>, from: nat) {
    if pieces == [] then from == |s|
    else pieces[0].start == from && Shows(s, pieces[0]) && Tiles(s, pieces[1..], pieces[0].end)
  }

  ghost function SegmentsIn(pieces: seq<Piece>): seq<Segment> {
    seq(|pieces|, i requires 0 <= i < |pieces| => pieces[i].segment)
  }

  lemma TilesCons(s: string, p: Piece, rest: seq<Piece>)
    requires Shows(s, p) && Tiles(s, rest, p.end)
    ensures Tiles(s, [p] + rest, p.start)
    ensures SegmentsIn([p] + rest) == [p.segment] + SegmentsIn(rest)
  {
    hide Shows;
    assert ([p] + rest)[1..] == rest;
  }

  lemma PrefixOfStretch(p: string, s: string, from: nat, to: nat, i: nat)
    requires from <= to <= |s| && i <= to - from && p <= s[from..to][i..]
    ensures i + |p| <= to - from && p <= s[from + i..]
  {
    assert s[from..to][i..] == s[from + i..to];
    assert s[from + i..][..|p|] == s[from + i..to][..|p|];
  }

  lemma MatchShows(s: string, i: nat)
    requires i <= |s| && MatchAt(s, i).Some?
    ensures var m := MatchAt(s, i).value;
            Shows(s, Piece(i, m.end, Proposal(Trim(s[m.payloadStart..m.payloadEnd]))))
  {
    var m := MatchAt(s, i).value;
    var k, j := m.payloadStart, m.payloadEnd;
    FindFirst(FENCE, s, k);
    assert s[j..m.end] == FENCE;
    assert s[i..i + |OPEN|] == OPEN;
    assert k == i + |OPEN| || s[i..k] == OPEN + "\n";
    forall n | 0 <= n <= |s[k..j]| ensures !(FENCE <= s[k..j][n..]) {
      if FENCE <= s[k..j][n..] {
        PrefixOfStretch(FENCE, s, k, j, n);
      }
    }
  }

  lemma WordsShow(s: string, from: nat, to: nat)
    requires from <= to <= |s|
    ensures from < to ==> Shows(s, Piece(from, to, Words(s[from..to])))
  {
  }

  lemma {:induction false} FromTiles(s: string, from: nat) returns (pieces: seq<Piece>)
    requires from <= |s|
    ensures Tiles(s, pieces, from) && SegmentsIn(pieces) == SegmentsFrom(s, from)
    decreases |s| - from
  {
    hide Exec, MatchAt, Trim, SegmentsFrom, Shows;
    WordsShow(s, from, |s|);
    assert s[from..] == s[from..|s|];
    var m := Exec(s, from);
    SegmentsStep(s, from);
    if m.None? {
      if from == |s| {
        pieces := [];
      } else {
        TilesCons(s, Piece(from, |s|, Words(s[from..])), []);
        pieces := [Piece(from, |s|, Words(s[from..]))] + [];
      }
    } else {
      ExecFirst(s, from);
      var i := m.value.start;
      var rest := FromTiles(s, m.value.end);
      MatchShows(s, i);
      var p := Piece(i, m.value.end, Proposal(Trim(s[m.value.payloadStart..m.value.payloadEnd])));
      TilesCons(s, p, rest);
      pieces := [p] + rest;
      if from < i {
        WordsShow(s, from, i);
        TilesCons(s, Piece(from, i, Words(s[from..i])), pieces);
        pieces := [Piece(from, i, Words(s[from..i]))] + pieces;
      }
    }
  }

  /**
    The segments come from consecutive stretches that tile the whole text in order: words stand
    for themselves, a proposal for one opener, a payload without a fence in it, and one fence.
  */
  lemma SplitTiles(text: string)
    requires text != ""
    ensures exists pieces :: Tiles(text, pieces, 0) && SegmentsIn(pieces) == Split(text)
  {
    var pieces := FromTiles(text, 0);
    assert pieces != [];
    assert |SegmentsIn(pieces)| == |pieces|;
  }

  // ---------- Stability ----------

  /** No proposal fence starts anywhere in the text. */
  ghost predicate NoMatch(s: string) {
    forall i :: 0 <= i <= |s| ==> MatchAt(s, i).None?
  }

  lemma NoMatchExec(s: string)
    requires NoMatch(s)
    ensures Exec(s, 0).None? && Split(s) == [Words(s)]
  {
    ExecFirst(s, 0);
    assert s[0..] == s;
  }

  /** An opener at `i` and three backticks at `j`, somewhere after it. */
  predicate ProposalAt(s: string, i: nat, j: nat) {
    i + 21 <= j <= |s| - 3 && s[i..i + 21] == "```objective-proposal" && s[j..j + 3] == "```"
  }

  /** Every opener with a fence after it begins a match, newline or not, and the match ends at the first such fence. */
  lemma MatchAtIff(s: string, i: nat)
    requires i <= |s|
    ensures MatchAt(s, i).Some? <==> exists j: nat :: ProposalAt(s, i, j)
    ensures MatchAt(s, i).Some? ==>
              var m := MatchAt(s, i).value;
              && ProposalAt(s, i, m.payloadEnd) && m.end == m.payloadEnd + 3
              && (forall j: nat :: ProposalAt(s, i, j) ==> m.payloadEnd <= j)
              && m.payloadStart == if s[i + 21] == '\n' then i + 22 else i + 21
  {
    hide Find;
    if OPEN <= s[i..] {
      assert s[i..i + 21] == s[i..][..21] == "```objective-proposal";
      var k := PayloadStart(s, i);
      FindFirst(FENCE, s, k);
      forall j: nat | i + 21 <= j <= |s| - 3 ensures FENCE <= s[j..] <==> s[j..j + 3] == "```" {
        assert s[j..][..3] == s[j..j + 3];
      }
      var first := Find(FENCE, s, k);
      forall j: nat | ProposalAt(s, i, j) ensures k <= j && 0 <= first <= j {
        assert s[j..j + 3][0] == s[j];
        assert FENCE <= s[j..];
      }
      if first >= 0 {
        assert ProposalAt(s, i, first);
      }
    } else {
      forall j: nat ensures !ProposalAt(s, i, j) {
        assert i + 21 <= |s| ==> s[i..][..21] == s[i..i + 21];
      }
    }
  }

  /** The words left over hold no whole proposal. */
  lemma WordsHoldNoProposal(text: string, w: Segment, i: nat, j: nat)
    requires w in Split(text) && w.Words?
    ensures !ProposalAt(w.content, i, j)
  {
    hide Exec, MatchAt, SegmentsFrom;
    if SegmentsFrom(text, 0) == [] {
      SegmentsStep(text, 0);
      ExecFirst(text, 0);
      assert text[0..] == text;
    } else {
      WordsAreStable(text, 0, w);
    }
    if i <= |w.content| {
      MatchAtIff(w.content, i);
    }
  }

  /** A match inside a stretch of a text is a match of the text itself, at the same place. */
  lemma MatchInStretch(s: string, from: nat, to: nat, i: nat)
    requires from <= to <= |s| && i <= to - from && MatchAt(s[from..to], i).Some?
    ensures MatchAt(s, from + i).Some?
  {
    var w := s[from..to];
    var m := MatchAt(w, i).value;
    PrefixOfStretch(OPEN, s, from, to, i);
    hide Find;
    FindFirst(FENCE, w, m.payloadStart);
    PrefixOfStretch(FENCE, s, from, to, m.payloadEnd);
    var k := i + |OPEN|;
    assert w[k] == s[from + k];
    FindFirst(FENCE, s, PayloadStart(s, from + i));
  }

  lemma {:induction false} WordsAreStable(s: string, from: nat, w: Segment)
    requires from <= |s| && w in SegmentsFrom(s, from) && w.Words?
    ensures NoMatch(w.content)
    decreases |s| - from
  {
    ExecFirst(s, from);
    var m := Exec(s, from);
    var to := if m.Some? then m.value.start else |s|;
    if m.None? || w in WordsOf(s[from..to]) {
      assert w == Words(s[from..to]);
      forall i | 0 <= i <= |w.content| ensures MatchAt(w.content, i).None? {
        if MatchAt(w.content, i).Some? {
          MatchInStretch(s, from, to, i);
        }
      }
    } else {
      WordsAreStable(s, m.value.end, w);
    }
  }

  /** Splitting a text segment again returns it unchanged. */
  lemma ResplitIsStable(text: string, w: Segment)
    requires w in Split(text) && w.Words?
    ensures Split(w.content) == [w]
  {
    if SegmentsFrom(text, 0) == [] {
      assert w == Words(text);
      assert Split(text) == [w];
    } else {
      WordsAreStable(text, 0, w);
      NoMatchExec(w.content);
    }
  }

  // ---------- The round trip ----------

  /** How a segment is written in a message. */
  function Written(x: Segment): string {
    match x
    case Words(w) => w
    case Proposal(c) => OPEN + "\n" + c + FENCE
  }

  function WrittenAll(segments: seq<Segment>): string {
    if segments == [] then "" else Written(segments[0]) + WrittenAll(segments[1..])
  }

  /** Words without an opener, or a trimmed payload without a fence (not even one begun at its end). */
  ghost predicate ReadableAlone(x: Segment) {
    match x
    case Words(w) => w != "" && !Occurs(OPEN, w)
    case Proposal(c) => Trim(c) == c && !Occurs(FENCE, c + "``")
  }

  ghost predicate Readable(segments: seq<Segment>) {
    && (forall x :: x in segments ==> ReadableAlone(x))
    && (forall i :: 0 <= i < |segments| - 1 ==> !(segments[i].Words? && segments[i + 1].Words?))
  }

  lemma PrefixIs(p: string, s: string, i: nat)
    requires i + |p| <= |s|
    ensures p <= s[i..] <==> s[i..i + |p|] == p
  {
    assert s[i..][..|p|] == s[i..i + |p|];
  }

  lemma NowhereIn(p: string, s: string, k: nat)
    requires !Occurs(p, s) && k <= |s|
    ensures !(p <= s[k..])
  {
  }

  lemma NotPrefixAt(p: string, s: string, i: nat, j: nat)
    requires i <= |s| && j < |p|
    requires i + j < |s| ==> s[i + j] != p[j]
    ensures !(p <= s[i..])
  {
    assert i + j < |s| ==> s[i..][j] == s[i + j];
  }

  /** The opener cannot start inside words and run on into the next opener: it has no border. */
  lemma NoStraddle(s: string, from: nat, w: string, i: nat)
    requires from + |w| <= |s| && s[from..from + |w|] == w && !Occurs(OPEN, w)
    requires OPEN <= s[from + |w|..] || s[from + |w|..] == ""
    requires from <= i < from + |w|
    ensures !(OPEN <= s[i..])
  {
    var next := from + |w|;
    var left := next - i;
    if |OPEN| <= left {
      PrefixIs(OPEN, s, i);
      PrefixIs(OPEN, w, i - from);
      NowhereIn(OPEN, w, i - from);
      SliceOfSlice(s, from, next, i - from, i - from + |OPEN|);
    } else {
      var j := if left < 3 then 3 else left;
      assert OPEN[j] != '`' && OPEN[j - left] == '`';
      if next < |s| {
        assert |s[next..]| > 0;
        assert s[next..][j - left] == OPEN[j - left];
        assert s[i + j] == s[next..][j - left];
      }
      NotPrefixAt(OPEN, s, i, j);
    }
  }

  lemma ProposalLayout(s: string, from: nat, c: string)
    requires from <= |s| && Written(Proposal(c)) <= s[from..]
    ensures var k := from + |OPEN| + 1;
            && k + |c| + 3 <= |s|
            && OPEN <= s[from..] && PayloadStart(s, from) == k
            && s[k..k + |c|] == c && s[k + |c|..k + |c| + 3] == FENCE
  {
    var t := Written(Proposal(c));
    var k := from + |OPEN| + 1;
    assert |t| == |OPEN| + 1 + |c| + 3;
    assert t[..|OPEN|] == OPEN && t[|OPEN|] == '\n';
    assert s[from..][..|t|] == t;
    assert OPEN == s[from..][..|OPEN|];
    assert s[from + |OPEN|] == s[from..][|OPEN|] == '\n';
    assert t[|OPEN| + 1..|OPEN| + 1 + |c|] == c;
    assert s[k..k + |c|] == s[from..][|OPEN| + 1..|OPEN| + 1 + |c|];
    assert s[k + |c|..k + |c| + 3] == s[from..][|OPEN| + 1 + |c|..|t|];
  }

  lemma NoEarlierFence(s: string, k: nat, c: string, n: nat)
    requires k + |c| + 3 <= |s| && s[k..k + |c|] == c && s[k + |c|..k + |c| + 3] == FENCE
    requires !Occurs(FENCE, c + "``") && k <= n < k + |c|
    ensures !(FENCE <= s[n..])
  {
    var d := c + "``";
    assert s[k..k + |d|] == d by {
      assert s[k + |c|..k + |c| + 2] == s[k + |c|..k + |c| + 3][..2] == "``";
      assert s[k..k + |c| + 2] == s[k..k + |c|] + s[k + |c|..k + |c| + 2];
    }
    PrefixIs(FENCE, s, n);
    PrefixIs(FENCE, d, n - k);
    SliceOfSlice(s, k, k + |d|, n - k, n - k + 3);
    NowhereIn(FENCE, d, n - k);
  }

  lemma ProposalMatches(s: string, from: nat, c: string)
    requires from <= |s| && Written(Proposal(c)) <= s[from..]
    requires !Occurs(FENCE, c + "``")
    ensures var k := from + |OPEN| + 1;
            && MatchAt(s, from) == Some(Match(from, k, k + |c|, k + |c| + |FENCE|))
            && k + |c| <= |s| && s[k..k + |c|] == c
  {
    hide Occurs, Written, PayloadStart, Find;
    var k := from + |OPEN| + 1;
    ProposalLayout(s, from, c);
    PrefixIs(FENCE, s, k + |c|);
    forall n | k <= n < k + |c| ensures !(FENCE <= s[n..]) { NoEarlierFence(s, k, c, n); }
    FindIs(FENCE, s, k, k + |c|);
  }

  lemma {:induction false} ReadsBack(s: string, from: nat, segments: seq<Segment>)
    requires from <= |s| && s[from..] == WrittenAll(segments) && Readable(segments)
    ensures SegmentsFrom(s, from) == segments
    decreases segments
  {
    hide Exec, MatchAt, SegmentsFrom, Trim, Occurs, Written;
    if segments == [] {
      NothingMore(s, from);
    } else {
      var x, rest := segments[0], segments[1..];
      var next := from + |Written(x)|;
      assert x in segments && ReadableAlone(x);
      assert s[from..] == Written(x) + WrittenAll(rest);
      assert s[next..] == WrittenAll(rest);
      ReadableTail(segments);
      ReadsBack(s, next, rest);
      if x.Proposal? {
        ProposalReadsBack(s, from, x.content);
      } else {
        WrittenWords(x);
        assert rest != [] ==> rest[0] == segments[1];
        WordsReadBack(s, from, x.content, rest);
      }
      assert segments == [x] + rest;
    }
  }

  lemma WrittenWords(x: Segment)
    requires x.Words?
    ensures Written(x) == x.content
  {
  }

  lemma ReadableTail(segments: seq<Segment>)
    requires segments != [] && Readable(segments)
    ensures Readable(segments[1..])
  {
    hide ReadableAlone;
    var rest := segments[1..];
    assert forall x :: x in rest ==> x in segments;
    assert forall i :: 0 <= i < |rest| ==> rest[i] == segments[i + 1];
  }

  lemma NothingMore(s: string, from: nat)
    requires from <= |s| && s[from..] == ""
    ensures SegmentsFrom(s, from) == []
  {
    assert |s[from..]| == 0;
    assert MatchAt(s, |s|).None?;
    ExecNone(s, from);
    SegmentsStep(s, from);
    assert WordsOf(s[from..]) == [];
  }

  lemma ProposalReadsBack(s: string, from: nat, c: string)
    requires from <= |s| && Written(Proposal(c)) <= s[from..]
    requires !Occurs(FENCE, c + "``")
    ensures var next := from + |Written(Proposal(c))|;
            next <= |s| && SegmentsFrom(s, from) == [Proposal(Trim(c))] + SegmentsFrom(s, next)
  {
    hide Exec, MatchAt, SegmentsFrom, Trim, Occurs, Written;
    ProposalMatches(s, from, c);
    WrittenLength(c);
    ExecIs(s, from, from);
    SegmentsStep(s, from);
    assert s[from..from] == "";
    var rest := SegmentsFrom(s, from + |Written(Proposal(c))|);
    assert [] + [Proposal(Trim(c))] + rest == [Proposal(Trim(c))] + rest;
  }

  lemma WrittenLength(c: string)
    ensures |Written(Proposal(c))| == |OPEN| + 1 + |c| + |FENCE|
  {
  }

  lemma WordsReadBack(s: string, from: nat, w: string, rest: seq<Segment>)
    requires from + |w| <= |s| && s[from..from + |w|] == w && w != "" && !Occurs(OPEN, w)
    requires s[from + |w|..] == WrittenAll(rest) && Readable(rest) && (rest != [] ==> rest[0].Proposal?)
    requires SegmentsFrom(s, from + |w|) == rest
    ensures SegmentsFrom(s, from) == [Words(w)] + rest
  {
    hide Exec, MatchAt, SegmentsFrom, Trim, Occurs;
    if rest == [] {
      assert |s[from + |w|..]| == 0;
      WordsThen(s, from, w, "");
    } else {
      assert rest[0] in rest && ReadableAlone(rest[0]);
      assert Written(rest[0]) <= s[from + |w|..];
      WordsThen(s, from, w, rest[0].content);
    }
  }

  lemma OpensFirst(c: string)
    ensures OPEN <= Written(Proposal(c))
  {
  }

  lemma NoOpenerNoMatch(s: string, i: nat)
    requires i <= |s| && !(OPEN <= s[i..])
    ensures MatchAt(s, i).None?
  {
  }

  /** No match starts within opener-free words that the text ends with or that a written proposal follows. */
  lemma NoMatchInWords(s: string, from: nat, w: string, c: string)
    requires from + |w| <= |s| && s[from..from + |w|] == w && !Occurs(OPEN, w)
    requires from + |w| == |s| || Written(Proposal(c)) <= s[from + |w|..]
    ensures forall i :: from <= i < from + |w| ==> MatchAt(s, i).None?
  {
    hide Occurs, MatchAt, Written;
    var next := from + |w|;
    if next < |s| {
      OpensFirst(c);
      assert OPEN <= s[next..];
    } else {
      assert s[next..] == "";
    }
    forall i | from <= i < next ensures MatchAt(s, i).None? {
      NoStraddle(s, from, w, i);
      NoOpenerNoMatch(s, i);
    }
  }

  lemma WordsThenProposal(s: string, from: nat, next: nat)
    requires from <= next <= |s| && MatchAt(s, next).Some? && MatchAt(s, next).value.start == next
    requires forall i :: from <= i < next ==> MatchAt(s, i).None?
    ensures SegmentsFrom(s, from) == WordsOf(s[from..next]) + SegmentsFrom(s, next)
  {
    hide Exec, SegmentsFrom, Trim, MatchAt, WordsOf;
    SegmentsStep(s, from);
    SegmentsStep(s, next);
    NoWords();
    ExecIs(s, from, next);
    ExecIs(s, next, next);
    assert s[next..next] == "";
    var m := MatchAt(s, next).value;
    PutInFront(WordsOf(s[from..next]), [Proposal(Trim(s[m.payloadStart..m.payloadEnd]))], SegmentsFrom(s, m.end));
  }

  lemma PutInFront(words: seq<Segment>, proposal: seq<Segment>, rest: seq<Segment>)
    ensures words + proposal + rest == words + ([] + proposal + rest)
  {
  }

  lemma NoWords()
    ensures WordsOf("") == []
  {
  }

  lemma WordsThenEnd(s: string, from: nat)
    requires from <= |s| && forall i :: from <= i < |s| ==> MatchAt(s, i).None?
    ensures SegmentsFrom(s, from) == WordsOf(s[from..]) && SegmentsFrom(s, |s|) == []
  {
    hide Exec, SegmentsFrom, Trim, MatchAt;
    assert s[|s|..] == "";
    NoOpenerNoMatch(s, |s|);
    SegmentsStep(s, from);
    SegmentsStep(s, |s|);
    ExecNone(s, from);
    ExecNone(s, |s|);
  }

  /** Opener-free words come out whole, in front of whatever the rest of the text splits into. */
  lemma WordsThen(s: string, from: nat, w: string, c: string)
    requires from + |w| <= |s| && s[from..from + |w|] == w && !Occurs(OPEN, w)
    requires from + |w| == |s| || (Written(Proposal(c)) <= s[from + |w|..] && !Occurs(FENCE, c + "``"))
    ensures SegmentsFrom(s, from) == WordsOf(w) + SegmentsFrom(s, from + |w|)
  {
    hide Exec, SegmentsFrom, Trim, Occurs, MatchAt, Written, WordsOf;
    var next := from + |w|;
    NoMatchInWords(s, from, w, c);
    if next < |s| {
      ProposalMatches(s, next, c);
      WordsThenProposal(s, from, next);
    } else {
      assert s[from..] == w;
      WordsThenEnd(s, from);
    }
  }

  /** Written words and proposals are read back exactly: every payload and all the text around it. */
  lemma RoundTrip(segments: seq<Segment>)
    requires segments != [] && Readable(segments)
    ensures Split(WrittenAll(segments)) == segments
  {
    var t := WrittenAll(segments);
    assert t[0..] == t;
    ReadsBack(t, 0, segments);
  }

  /** A payload that begins or ends in white space comes back trimmed. */
  lemma PayloadComesBackTrimmed(c: string, before: string, after: string)
    requires !Occurs(FENCE, c + "``") && !Occurs(OPEN, before) && !Occurs(OPEN, after)
    ensures SegmentsFrom(before + Written(Proposal(c)) + after, 0)
         == WordsOf(before) + [Proposal(Trim(c))] + WordsOf(after)
    ensures TrimmedTo(c, Trim(c))
  {
    hide Exec, MatchAt, SegmentsFrom, Trim, Occurs;
    TrimDropsSpace(c);
    var t := before + Written(Proposal(c)) + after;
    var i := |before|;
    var end := i + |Written(Proposal(c))|;
    assert t[i..] == Written(Proposal(c)) + after;
    assert t[0..i] == before && t[end..] == after && t[end..end + |after|] == after;
    WordsThen(t, 0, before, c);
    ProposalReadsBack(t, i, c);
    WordsThen(t, end, after, "");
    NothingMore(t, |t|);
  }
}
