/**
  The document editor's tree rewrite: mermaid code fences become mermaid blocks when a page is
  loaded, and mermaid blocks become fences again when it is saved.
*/
module MermaidBlocks {
  import opened Options

  datatype Inline = Inline(kind: string, text: Option<string>, styles: map<string, string>)

  datatype Content =
    | NoContent
    | Plain(text: string)
    | Items(items: seq<Inline>)
    | OtherContent

  /** A block as the editor's parser and document hold it; absent fields are None. */
  datatype Block = Block(
    id: Option<string>, kind: string, props: Option<map<string, string>>, content: Content,
    children: Children)

  datatype Children = Absent | Listed(blocks: seq<Block>)

  function Prop(b: Block, name: string): Option<string> {
    if b.props.Some? && name in b.props.value then Some(b.props.value[name]) else None
  }

  predicate IsFence(b: Block) {
    b.kind == "codeBlock" && Prop(b, "language") == Some("mermaid")
  }

  predicate IsMermaid(b: Block) {
    b.kind == "mermaid"
  }

  function TextOf(item: Inline): string {
    if item.text.Some? then item.text.value else ""
  }

  function JoinTexts(items: seq<Inline>): string {
    if items == [] then "" else TextOf(items[0]) + JoinTexts(items[1..])
  }

  function ExtractCodeText(b: Block): string {
    match b.content
    case Plain(text) => text
    case Items(items) => JoinTexts(items)
    case _ => ""
  }

  function MermaidBlock(source: string): Block {
    Block(None, "mermaid", Some(map["source" := source]), NoContent, Absent)
  }

  function FenceBlock(source: string): Block {
    Block(None, "codeBlock", Some(map["language" := "mermaid"]), Items([Inline("text", Some(source), map[])]), Absent)
  }

  predicate HasChildren(b: Block) {
    b.children.Listed? && |b.children.blocks| > 0
  }

  function InBlock(b: Block): Block {
    if IsFence(b) then MermaidBlock(ExtractCodeText(b))
    else if HasChildren(b) then b.(children := Listed(BlocksIn(b.children.blocks)))
    else b
  }

  /** `blocksMermaidIn`. */
  function BlocksIn(bs: seq<Block>): (r: seq<Block>)
    ensures |r| == |bs|
  {
    seq(|bs|, i requires 0 <= i < |bs| => InBlock(bs[i]))
  }

  function OutBlock(b: Block): Block {
    if IsMermaid(b) then FenceBlock(if Prop(b, "source").Some? then Prop(b, "source").value else "")
    else if HasChildren(b) then b.(children := Listed(BlocksOut(b.children.blocks)))
    else b
  }

  /** `blocksMermaidOut`. */
  function BlocksOut(bs: seq<Block>): (r: seq<Block>)
    ensures |r| == |bs|
  {
    seq(|bs|, i requires 0 <= i < |bs| => OutBlock(bs[i]))
  }

  /** The text of a code block's inline content is that of its pieces, one after another. */
  lemma {:induction false} TextsJoin(a: seq<Inline>, b: seq<Inline>)
    ensures JoinTexts(a + b) == JoinTexts(a) + JoinTexts(b)
    ensures |b| == 1 ==> JoinTexts(b) == if b[0].text.Some? then b[0].text.value else ""
  {
    hide JoinTexts;
    NoText();
    if |b| == 1 {
      NextText(b[0], []);
      assert b == [b[0]] + [];
    }
    if a == [] {
      assert a + b == b;
    } else {
      TextsJoin(a[1..], b);
      assert a == [a[0]] + a[1..];
      assert a + b == [a[0]] + (a[1..] + b);
      NextText(a[0], a[1..]);
      NextText(a[0], a[1..] + b);
      Associate(TextOf(a[0]), JoinTexts(a[1..]), JoinTexts(b));
    }
  }

  lemma NoText()
    ensures JoinTexts([]) == ""
  {
  }

  lemma NextText(item: Inline, rest: seq<Inline>)
    ensures JoinTexts([item] + rest) == TextOf(item) + JoinTexts(rest)
  {
    assert ([item] + rest)[1..] == rest;
  }

  lemma Associate(x: string, y: string, z: string)
    ensures x + (y + z) == x + y + z
  {
  }

  predicate HasProp(b: Block, name: string, value: string) {
    b.props.Some? && name in b.props.value && b.props.value[name] == value
  }

  /** Loading turns a code block in the language mermaid into a block with its source, and touches no other block. */
  lemma LoadedBlock(b: Block)
    ensures b.kind == "codeBlock" && HasProp(b, "language", "mermaid") ==>
              var text := if b.content.Plain? then b.content.text
                          else if b.content.Items? then JoinTexts(b.content.items)
                          else "";
              InBlock(b) == Block(None, "mermaid", Some(map["source" := text]), NoContent, Absent)
    ensures !(b.kind == "codeBlock" && HasProp(b, "language", "mermaid")) ==>
              && InBlock(b).(children := b.children) == b
              && SameCount(InBlock(b).children, b.children)
              && (b.children.Listed? ==> forall i :: 0 <= i < |b.children.blocks| ==>
                    InBlock(b).children.blocks[i] == InBlock(b.children.blocks[i]))
  {
  }

  predicate SameCount(c: Children, d: Children) {
    if d.Listed? then c.Listed? && |c.blocks| == |d.blocks| else c.Absent?
  }

  /** Saving turns a mermaid block into a code block with its source as the one text, and touches no other block. */
  lemma SavedBlock(b: Block)
    ensures b.kind == "mermaid" ==>
              var source := if b.props.Some? && "source" in b.props.value then b.props.value["source"] else "";
              OutBlock(b) == Block(None, "codeBlock", Some(map["language" := "mermaid"]),
                                   Items([Inline("text", Some(source), map[])]), Absent)
    ensures b.kind != "mermaid" ==>
              && OutBlock(b).(children := b.children) == b
              && SameCount(OutBlock(b).children, b.children)
              && (b.children.Listed? ==> forall i :: 0 <= i < |b.children.blocks| ==>
                    OutBlock(b).children.blocks[i] == OutBlock(b.children.blocks[i]))
  {
  }

  // ---------- Properties of every block of a tree ----------

  /** `p` holds of the block and of every block below it, at any depth. */
  ghost predicate Every(b: Block, p: Block -> bool) {
    p(b) && (b.children.Listed? ==> forall c :: c in b.children.blocks ==> Every(c, p))
  }

  ghost predicate EveryBlock(bs: seq<Block>, p: Block -> bool) {
    forall b :: b in bs ==> Every(b, p)
  }

  ghost predicate NotFence(b: Block) {
    !IsFence(b)
  }

  ghost predicate NotMermaid(b: Block) {
    !IsMermaid(b)
  }

  /** A mermaid block exactly as loading makes them: a source and nothing else. */
  ghost predicate PlainMermaid(b: Block) {
    IsMermaid(b) ==> exists source :: b == MermaidBlock(source)
  }

  /** A fence exactly as saving makes them: one unstyled text, no children, nothing else. */
  ghost predicate PlainFence(b: Block) {
    IsFence(b) ==> exists source :: b == FenceBlock(source)
  }

  lemma {:induction false} InLeavesNoFence(b: Block)
    ensures Every(InBlock(b), NotFence)
  {
    if !IsFence(b) && HasChildren(b) {
      var cs := b.children.blocks;
      forall c | c in BlocksIn(cs) ensures Every(c, NotFence) {
        var i :| 0 <= i < |cs| && BlocksIn(cs)[i] == c;
        InLeavesNoFence(cs[i]);
      }
    }
  }

  lemma {:induction false} OutLeavesNoMermaid(b: Block)
    ensures Every(OutBlock(b), NotMermaid)
  {
    if !IsMermaid(b) && HasChildren(b) {
      var cs := b.children.blocks;
      forall c | c in BlocksOut(cs) ensures Every(c, NotMermaid) {
        var i :| 0 <= i < |cs| && BlocksOut(cs)[i] == c;
        OutLeavesNoMermaid(cs[i]);
      }
    }
  }

  /** After loading no mermaid fence is left at any depth; after saving no mermaid block is. */
  lemma NothingLeft(bs: seq<Block>)
    ensures EveryBlock(BlocksIn(bs), NotFence)
    ensures EveryBlock(BlocksOut(bs), NotMermaid)
  {
    forall b | b in BlocksIn(bs) ensures Every(b, NotFence) {
      var i :| 0 <= i < |bs| && BlocksIn(bs)[i] == b;
      InLeavesNoFence(bs[i]);
    }
    forall b | b in BlocksOut(bs) ensures Every(b, NotMermaid) {
      var i :| 0 <= i < |bs| && BlocksOut(bs)[i] == b;
      OutLeavesNoMermaid(bs[i]);
    }
  }

  /** Loading changes a block if and only if there is a fence in its tree. */
  lemma {:induction false} InFixedIff(b: Block)
    ensures InBlock(b) == b <==> Every(b, NotFence)
  {
    if IsFence(b) {
      assert InBlock(b).kind == "mermaid" != "codeBlock";
    } else if HasChildren(b) {
      var cs := b.children.blocks;
      forall c | c in cs ensures InBlock(c) == c <==> Every(c, NotFence) { InFixedIff(c); }
      assert BlocksIn(cs) == cs <==> forall i :: 0 <= i < |cs| ==> InBlock(cs[i]) == cs[i];
    }
  }

  /** Saving changes a block if and only if there is a mermaid block in its tree. */
  lemma {:induction false} OutFixedIff(b: Block)
    ensures OutBlock(b) == b <==> Every(b, NotMermaid)
  {
    if IsMermaid(b) {
      assert OutBlock(b).kind == "codeBlock" != "mermaid";
    } else if HasChildren(b) {
      var cs := b.children.blocks;
      forall c | c in cs ensures OutBlock(c) == c <==> Every(c, NotMermaid) { OutFixedIff(c); }
      assert BlocksOut(cs) == cs <==> forall i :: 0 <= i < |cs| ==> OutBlock(cs[i]) == cs[i];
    }
  }

  lemma InFixesAll(bs: seq<Block>)
    ensures BlocksIn(bs) == bs <==> EveryBlock(bs, NotFence)
  {
    forall b | b in bs ensures InBlock(b) == b <==> Every(b, NotFence) { InFixedIff(b); }
    assert BlocksIn(bs) == bs <==> forall i :: 0 <= i < |bs| ==> InBlock(bs[i]) == bs[i];
  }

  lemma OutFixesAll(bs: seq<Block>)
    ensures BlocksOut(bs) == bs <==> EveryBlock(bs, NotMermaid)
  {
    forall b | b in bs ensures OutBlock(b) == b <==> Every(b, NotMermaid) { OutFixedIff(b); }
    assert BlocksOut(bs) == bs <==> forall i :: 0 <= i < |bs| ==> OutBlock(bs[i]) == bs[i];
  }

  /** Loading twice is loading once, and saving twice is saving once. */
  lemma Idempotent(bs: seq<Block>)
    ensures BlocksIn(BlocksIn(bs)) == BlocksIn(bs)
    ensures BlocksOut(BlocksOut(bs)) == BlocksOut(bs)
  {
    NothingLeft(bs);
    InFixesAll(BlocksIn(bs));
    OutFixesAll(BlocksOut(bs));
  }

  // ---------- The inverse laws ----------

  lemma FenceTurnsMermaid(source: string)
    ensures ExtractCodeText(FenceBlock(source)) == source
    ensures InBlock(FenceBlock(source)) == MermaidBlock(source)
    ensures OutBlock(MermaidBlock(source)) == FenceBlock(source)
  {
    var items := [Inline("text", Some(source), map[])];
    assert JoinTexts(items) == source + JoinTexts(items[1..]);
    assert source + "" == source;
  }

  /** On a fence-free block, saving and loading again gives it back exactly when its mermaid blocks are plain. */
  lemma {:induction false} OutThenIn(b: Block)
    requires Every(b, NotFence)
    ensures InBlock(OutBlock(b)) == b <==> Every(b, PlainMermaid)
  {
    if IsMermaid(b) {
      var source := if Prop(b, "source").Some? then Prop(b, "source").value else "";
      FenceTurnsMermaid(source);
    } else if HasChildren(b) {
      var cs := b.children.blocks;
      forall c | c in cs ensures InBlock(OutBlock(c)) == c <==> Every(c, PlainMermaid) { OutThenIn(c); }
      var o := OutBlock(b);
      assert !IsFence(o) && HasChildren(o);
      assert BlocksIn(BlocksOut(cs)) == cs <==> forall i :: 0 <= i < |cs| ==> InBlock(OutBlock(cs[i])) == cs[i];
    }
  }

  /** On a mermaid-free block, loading and saving again gives it back exactly when its fences are plain. */
  lemma {:induction false} InThenOut(b: Block)
    requires Every(b, NotMermaid)
    ensures OutBlock(InBlock(b)) == b <==> Every(b, PlainFence)
  {
    if IsFence(b) {
      FenceTurnsMermaid(ExtractCodeText(b));
      if source :| b == FenceBlock(source) {
        FenceTurnsMermaid(source);
      }
    } else if HasChildren(b) {
      var cs := b.children.blocks;
      forall c | c in cs ensures OutBlock(InBlock(c)) == c <==> Every(c, PlainFence) { InThenOut(c); }
      var o := InBlock(b);
      assert !IsMermaid(o) && HasChildren(o);
      assert BlocksOut(BlocksIn(cs)) == cs <==> forall i :: 0 <= i < |cs| ==> OutBlock(InBlock(cs[i])) == cs[i];
    }
  }

  lemma {:induction false} LoadedIsPlain(b: Block)
    requires Every(b, NotMermaid)
    ensures Every(InBlock(b), PlainMermaid)
  {
    if !IsFence(b) && HasChildren(b) {
      var cs := b.children.blocks;
      forall c | c in BlocksIn(cs) ensures Every(c, PlainMermaid) {
        var i :| 0 <= i < |cs| && BlocksIn(cs)[i] == c;
        LoadedIsPlain(cs[i]);
      }
    }
  }

  /**
    A page that held no mermaid block is not changed by another save and load: what the editor
    shows after loading is what it shows after saving and loading again.
  */
  lemma LoadSaveLoad(bs: seq<Block>)
    requires EveryBlock(bs, NotMermaid)
    ensures BlocksIn(BlocksOut(BlocksIn(bs))) == BlocksIn(bs)
  {
    var loaded := BlocksIn(bs);
    NothingLeft(bs);
    forall i | 0 <= i < |bs| ensures InBlock(OutBlock(loaded[i])) == loaded[i] {
      assert bs[i] in bs && loaded[i] in loaded;
      LoadedIsPlain(bs[i]);
      OutThenIn(loaded[i]);
    }
    assert BlocksIn(BlocksOut(loaded)) == loaded;
  }

  /** Saving a loaded page gives back the page as it was exactly when every mermaid fence in it was plain. */
  lemma SaveUndoesLoad(bs: seq<Block>)
    requires EveryBlock(bs, NotMermaid)
    ensures BlocksOut(BlocksIn(bs)) == bs <==> EveryBlock(bs, PlainFence)
  {
    forall b | b in bs ensures OutBlock(InBlock(b)) == b <==> Every(b, PlainFence) { InThenOut(b); }
    assert BlocksOut(BlocksIn(bs)) == bs <==> forall i :: 0 <= i < |bs| ==> OutBlock(InBlock(bs[i])) == bs[i];
  }

  /** Loading a saved page gives back a fence-free page exactly when every mermaid block in it was plain. */
  lemma LoadUndoesSave(bs: seq<Block>)
    requires EveryBlock(bs, NotFence)
    ensures BlocksIn(BlocksOut(bs)) == bs <==> EveryBlock(bs, PlainMermaid)
  {
    forall b | b in bs ensures InBlock(OutBlock(b)) == b <==> Every(b, PlainMermaid) { OutThenIn(b); }
    assert BlocksIn(BlocksOut(bs)) == bs <==> forall i :: 0 <= i < |bs| ==> InBlock(OutBlock(bs[i])) == bs[i];
  }

  /** A fence whose text is no inline item, and a mermaid block with an id: neither comes back as it was. */
  lemma NotPlainComesBackChanged()
    ensures var styled := Block(None, "codeBlock", Some(map["language" := "mermaid"]), Plain("A"), Absent);
            BlocksOut(BlocksIn([styled])) != [styled] && !PlainFence(styled)
    ensures var named := Block(Some("b1"), "mermaid", Some(map["source" := "A"]), NoContent, Absent);
            BlocksIn(BlocksOut([named])) != [named] && !PlainMermaid(named)
  {
    var styled := Block(None, "codeBlock", Some(map["language" := "mermaid"]), Plain("A"), Absent);
    assert BlocksOut(BlocksIn([styled]))[0].content.Items?;
    var named := Block(Some("b1"), "mermaid", Some(map["source" := "A"]), NoContent, Absent);
    assert BlocksIn(BlocksOut([named]))[0].id.None?;
  }

  // ---------- Which diagrams survive ----------

  predicate IsDiagram(b: Block) {
    IsFence(b) || IsMermaid(b)
  }

  function SourceOf(b: Block): (r: string)
    requires IsDiagram(b)
  {
    if IsFence(b) then ExtractCodeText(b)
    else if Prop(b, "source").Some? then Prop(b, "source").value
    else ""
  }

  /** The sources of all diagrams of a block's tree, at any depth, in document order. */
  function AllSources(b: Block): seq<string> {
    (if IsDiagram(b) then [SourceOf(b)] else []) + if b.children.Listed? then AllSourcesOf(b.children.blocks) else []
  }

  function AllSourcesOf(bs: seq<Block>): seq<string> {
    if bs == [] then [] else AllSources(bs[0]) + AllSourcesOf(bs[1..])
  }

  ghost predicate NoDiagram(b: Block) {
    !IsDiagram(b)
  }

  ghost predicate NoDiagramBelow(b: Block) {
    b.children.Listed? ==> EveryBlock(b.children.blocks, NoDiagram)
  }

  ghost predicate BareFence(b: Block) {
    IsFence(b) ==> NoDiagramBelow(b)
  }

  ghost predicate BareMermaid(b: Block) {
    IsMermaid(b) ==> NoDiagramBelow(b)
  }

  lemma {:induction false} NoSourcesIff(b: Block)
    ensures AllSources(b) == [] <==> Every(b, NoDiagram)
    decreases b, 0
  {
    if b.children.Listed? {
      NoSourcesAtAllIff(b.children.blocks);
    }
  }

  lemma {:induction false} NoSourcesAtAllIff(bs: seq<Block>)
    ensures AllSourcesOf(bs) == [] <==> EveryBlock(bs, NoDiagram)
    decreases bs
  {
    if bs != [] {
      NoSourcesIff(bs[0]);
      NoSourcesAtAllIff(bs[1..]);
      assert forall b :: b in bs <==> b == bs[0] || b in bs[1..];
    }
  }

  lemma SourceOfRewritten(b: Block)
    requires IsDiagram(b)
    ensures IsFence(b) ==> AllSources(InBlock(b)) == [SourceOf(b)]
    ensures IsMermaid(b) ==> AllSources(OutBlock(b)) == [SourceOf(b)]
  {
    FenceTurnsMermaid(SourceOf(b));
  }

  /** Lists that are no longer piece by piece are equal when joined if and only if they are equal piece by piece. */
  lemma JoinedEqualIff(a: seq<string>, b: seq<string>, x: seq<string>, y: seq<string>)
    requires |a| <= |x| && |b| <= |y|
    ensures a + b == x + y <==> a == x && b == y
  {
    if a + b == x + y {
      assert |a| == |x|;
      assert a == (a + b)[..|a|] && b == (a + b)[|a|..];
      assert x == (x + y)[..|x|] && y == (x + y)[|x|..];
    }
  }

  lemma {:induction false} LoadKeepsSourcesIff(b: Block)
    ensures |AllSources(InBlock(b))| <= |AllSources(b)|
    ensures AllSources(InBlock(b)) == AllSources(b) <==> Every(b, BareFence)
    decreases b, 0
  {
    if IsFence(b) {
      SourceOfRewritten(b);
      NoSourcesIff(b);
      if b.children.Listed? {
        NoSourcesAtAllIff(b.children.blocks);
        BareThroughout(b.children.blocks);
      }
    } else if HasChildren(b) {
      var own := if IsDiagram(b) then [SourceOf(b)] else [];
      LoadKeepsAllSourcesIff(b.children.blocks);
      JoinedEqualIff(own, AllSourcesOf(BlocksIn(b.children.blocks)), own, AllSourcesOf(b.children.blocks));
    }
  }

  /** Where there is no diagram there is none with another below it. */
  lemma {:induction false} BareThroughout(bs: seq<Block>)
    ensures EveryBlock(bs, NoDiagram) ==> EveryBlock(bs, BareFence) && EveryBlock(bs, BareMermaid)
    decreases bs
  {
    if EveryBlock(bs, NoDiagram) {
      forall b | b in bs ensures Every(b, BareFence) && Every(b, BareMermaid) {
        assert Every(b, NoDiagram);
        if b.children.Listed? {
          BareThroughout(b.children.blocks);
        }
      }
    }
  }

  /**
    Loading keeps the source of every diagram, in order, if and only if no mermaid fence has a
    diagram below it: the block put in a fence's place has no children.
  */
  lemma {:induction false} LoadKeepsAllSourcesIff(bs: seq<Block>)
    ensures |AllSourcesOf(BlocksIn(bs))| <= |AllSourcesOf(bs)|
    ensures AllSourcesOf(BlocksIn(bs)) == AllSourcesOf(bs) <==> EveryBlock(bs, BareFence)
    decreases bs
  {
    if bs != [] {
      LoadKeepsSourcesIff(bs[0]);
      LoadKeepsAllSourcesIff(bs[1..]);
      assert BlocksIn(bs)[1..] == BlocksIn(bs[1..]);
      JoinedEqualIff(AllSources(InBlock(bs[0])), AllSourcesOf(BlocksIn(bs[1..])),
                     AllSources(bs[0]), AllSourcesOf(bs[1..]));
      assert forall b :: b in bs <==> b == bs[0] || b in bs[1..];
    }
  }

  lemma {:induction false} SaveKeepsSourcesIff(b: Block)
    ensures |AllSources(OutBlock(b))| <= |AllSources(b)|
    ensures AllSources(OutBlock(b)) == AllSources(b) <==> Every(b, BareMermaid)
    decreases b, 0
  {
    if IsMermaid(b) {
      SourceOfRewritten(b);
      NoSourcesIff(b);
      if b.children.Listed? {
        NoSourcesAtAllIff(b.children.blocks);
        BareThroughout(b.children.blocks);
      }
    } else if HasChildren(b) {
      var own := if IsDiagram(b) then [SourceOf(b)] else [];
      SaveKeepsAllSourcesIff(b.children.blocks);
      JoinedEqualIff(own, AllSourcesOf(BlocksOut(b.children.blocks)), own, AllSourcesOf(b.children.blocks));
    }
  }

  /** Saving keeps the source of every diagram, in order, if and only if no mermaid block has a diagram below it. */
  lemma {:induction false} SaveKeepsAllSourcesIff(bs: seq<Block>)
    ensures |AllSourcesOf(BlocksOut(bs))| <= |AllSourcesOf(bs)|
    ensures AllSourcesOf(BlocksOut(bs)) == AllSourcesOf(bs) <==> EveryBlock(bs, BareMermaid)
    decreases bs
  {
    if bs != [] {
      SaveKeepsSourcesIff(bs[0]);
      SaveKeepsAllSourcesIff(bs[1..]);
      assert BlocksOut(bs)[1..] == BlocksOut(bs[1..]);
      JoinedEqualIff(AllSources(OutBlock(bs[0])), AllSourcesOf(BlocksOut(bs[1..])),
                     AllSources(bs[0]), AllSourcesOf(bs[1..]));
      assert forall b :: b in bs <==> b == bs[0] || b in bs[1..];
    }
  }

  /** Opening and saving a page without mermaid blocks keeps every source if and only if no fence is below another. */
  lemma CycleKeepsSourcesIff(bs: seq<Block>)
    requires EveryBlock(bs, NotMermaid)
    ensures AllSourcesOf(BlocksOut(BlocksIn(bs))) == AllSourcesOf(bs) <==> EveryBlock(bs, BareFence)
  {
    var loaded := BlocksIn(bs);
    forall b | b in loaded ensures Every(b, BareMermaid) {
      var i :| 0 <= i < |bs| && loaded[i] == b;
      assert bs[i] in bs;
      LoadedIsPlain(bs[i]);
      PlainIsBare(b);
    }
    SaveKeepsAllSourcesIff(loaded);
    LoadKeepsAllSourcesIff(bs);
  }

  lemma {:induction false} PlainIsBare(b: Block)
    requires Every(b, PlainMermaid)
    ensures Every(b, BareMermaid)
  {
    if b.children.Listed? {
      forall c | c in b.children.blocks ensures Every(c, BareMermaid) { PlainIsBare(c); }
    }
  }

  /** A fence under a fence is lost on loading, and a mermaid block under a mermaid block on saving. */
  lemma NestedDiagramIsLost()
    ensures var inner := FenceBlock("B");
            var outer := FenceBlock("A").(children := Listed([inner]));
            AllSourcesOf([outer]) == ["A", "B"] && AllSourcesOf(BlocksIn([outer])) == ["A"]
    ensures var inner := MermaidBlock("B");
            var outer := MermaidBlock("A").(children := Listed([inner]));
            AllSourcesOf([outer]) == ["A", "B"] && AllSourcesOf(BlocksOut([outer])) == ["A"]
  {
    OneBlock(FenceBlock("B"));
    OneBlock(MermaidBlock("B"));
    var fence := FenceBlock("A").(children := Listed([FenceBlock("B")]));
    var drawn := MermaidBlock("A").(children := Listed([MermaidBlock("B")]));
    OneBlock(fence);
    OneBlock(drawn);
    FenceTurnsMermaid("A");
    FenceTurnsMermaid("B");
    assert BlocksIn([fence]) == [InBlock(fence)] && BlocksOut([drawn]) == [OutBlock(drawn)];
    OneBlock(InBlock(fence));
    OneBlock(OutBlock(drawn));
    SourceOfRewritten(fence);
    SourceOfRewritten(drawn);
  }

  lemma OneBlock(b: Block)
    ensures AllSourcesOf([b]) == AllSources(b)
  {
    assert [b][1..] == [];
  }

  /** The sources of the diagrams that lie below no other diagram, in document order. */
  function OutermostSources(b: Block): seq<string> {
    if IsDiagram(b) then [SourceOf(b)]
    else if b.children.Listed? then OutermostSourcesOf(b.children.blocks)
    else []
  }

  function OutermostSourcesOf(bs: seq<Block>): seq<string> {
    if bs == [] then [] else OutermostSources(bs[0]) + OutermostSourcesOf(bs[1..])
  }

  lemma {:induction false} OutermostSurvives(b: Block)
    ensures OutermostSources(InBlock(b)) == OutermostSources(b)
    ensures OutermostSources(OutBlock(b)) == OutermostSources(b)
    decreases b, 0
  {
    if IsDiagram(b) {
      FenceTurnsMermaid(SourceOf(b));
    } else if HasChildren(b) {
      AllOutermostSurvive(b.children.blocks);
    }
  }

  /** The diagrams that lie below no other diagram always survive both rewrites, in order. */
  lemma {:induction false} AllOutermostSurvive(bs: seq<Block>)
    ensures OutermostSourcesOf(BlocksIn(bs)) == OutermostSourcesOf(bs)
    ensures OutermostSourcesOf(BlocksOut(bs)) == OutermostSourcesOf(bs)
    decreases bs
  {
    if bs != [] {
      OutermostSurvives(bs[0]);
      AllOutermostSurvive(bs[1..]);
      assert BlocksIn(bs)[1..] == BlocksIn(bs[1..]);
      assert BlocksOut(bs)[1..] == BlocksOut(bs[1..]);
    }
  }
}
