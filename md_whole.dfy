/** `Markdown` on whole documents: a document that is one fenced code block
    renders as the code shell around the block's body, whatever the later
    scanners of the catalog would have made of its text. */
module MdWhole {
  import opened Common
  import opened MdScan
  import opened MdSpec
  import opened MdProps
  import opened MdRuns

  /** A step on an unclaimed index the scanner answers with nothing only
      advances the scanner. */
  lemma StepQuiet(data: string, cl: Claims, tag: TagValue, index: nat)
    requires index < |data| && Shaped(cl, |data|) && TagOk(tag, index) && !cl.skip[index]
    requires TagNext(tag, index, data[index]).1 == []
    ensures Step(data, cl, tag, index) == (cl, TagNext(tag, index, data[index]).0)
  {
  }

  /** The run over the first `k` characters of `data`, indexed without slicing. */
  function RunUpTo(tag: TagValue, data: string, k: nat): (r: (TagValue, seq<Action>))
    requires TagOk(tag, 0) && k <= |data|
    ensures TagOk(r.0, k)
  {
    if k == 0 then (tag, [])
    else
      var prev := RunUpTo(tag, data, k - 1);
      var next := TagNext(prev.0, k - 1, data[k - 1]);
      (next.0, prev.1 + next.1)
  }

  /** The code scanner's run over `data[..j + 1]`, one character at a time. */
  lemma CodeRunAt(c: CodeValue, data: string, j: nat)
    requires CodeOk(c, 0) && j < |data|
    ensures var prev := CodeRun(c, data[..j]);
            var next := CodeNext(prev.0, j, data[j]);
            && CodeRun(c, data[..j + 1]).0 == next.0
            && CodeRun(c, data[..j + 1]).1 == prev.1 + next.1
  {
    TakeSnoc(data, j);
    CodeRunSnoc(c, data[..j], data[j]);
  }

  /** For the code scanner, the engine-indexed run is the code run over the prefix. */
  lemma {:induction false} RunUpToIsCodeRun(c: CodeValue, data: string, k: nat)
    requires CodeOk(c, 0) && k <= |data|
    ensures RunUpTo(CodeTag(c), data, k).0 == CodeTag(CodeRun(c, data[..k]).0)
    ensures RunUpTo(CodeTag(c), data, k).1 == CodeRun(c, data[..k]).1
  {
    if k > 0 {
      var j := k - 1;
      RunUpToIsCodeRun(c, data, j);
      CodeRunAt(c, data, j);
    }
  }

  /** A run that answers nothing on the first `j + 1` characters answers
      nothing on the first `j`, nor on the next one. */
  lemma QuietUpTo(tag: TagValue, data: string, j: nat)
    requires TagOk(tag, 0) && j < |data|
    requires RunUpTo(tag, data, j + 1).1 == []
    ensures RunUpTo(tag, data, j).1 == []
    ensures TagNext(RunUpTo(tag, data, j).0, j, data[j]).1 == []
  {
  }

  /** A scan over unclaimed indices during which the scanner answers nothing
      leaves the tables as they are and leaves the scanner where the plain
      run leaves it. */
  lemma {:induction false} ScanQuiet(data: string, cl: Claims, tag: TagValue, k: nat)
    requires k <= |data| && Shaped(cl, |data|) && TagOk(tag, 0)
    requires forall j | 0 <= j < k :: !cl.skip[j]
    requires RunUpTo(tag, data, k).1 == []
    ensures Scan(data, cl, tag, k) == (cl, RunUpTo(tag, data, k).0)
  {
    if k > 0 {
      var j := k - 1;
      var prev := RunUpTo(tag, data, j);
      QuietUpTo(tag, data, j);
      ScanQuiet(data, cl, tag, j);
      StepQuiet(data, cl, prev.0, j);
    }
  }

  /** A scan over a document whose every index is claimed changes nothing. */
  lemma {:induction false} ScanAllClaimed(data: string, cl: Claims, tag: TagValue, k: nat)
    requires k <= |data| && Shaped(cl, |data|) && TagOk(tag, 0)
    requires forall j | 0 <= j < |data| :: cl.skip[j]
    ensures Scan(data, cl, tag, k).0 == cl
  {
    if k > 0 {
      var j := k - 1;
      ScanAllClaimed(data, cl, tag, j);
      var prev := Scan(data, cl, tag, j);
      assert prev.0.skip[j];
      assert Step(data, prev.0, prev.1, j).0 == cl;
    }
  }

  /** Once the first scanner has claimed every index, the others change nothing. */
  lemma {:induction false} ApplyTagsAfterFirst(data: string, cl: Claims, tags: seq<TagValue>, m: nat)
    requires Shaped(cl, |data|) && TagsOk(tags) && 1 <= m <= |tags|
    requires forall j | 0 <= j < |data| :: ApplyTags(data, cl, tags[..1]).skip[j]
    ensures ApplyTags(data, cl, tags[..m]) == ApplyTags(data, cl, tags[..1])
  {
    if m > 1 {
      var p := m - 1;
      ApplyTagsAfterFirst(data, cl, tags, p);
      assert tags[..m][..p] == tags[..p];
      ScanAllClaimed(data, ApplyTags(data, cl, tags[..p]), tags[p], |data|);
    }
  }

  /** The paragraph pass leaves a document that is block content throughout alone. */
  lemma {:induction false} ParagraphsAllBlock(data: string, actions: seq<seq<Action>>, paragraphs: seq<bool>, from: nat)
    requires |actions| == |paragraphs| == |data| && from <= |data|
    requires forall j | from <= j < |data| :: paragraphs[j]
    ensures Paragraphs(data, actions, paragraphs, from) == (actions, paragraphs)
    decreases |data| - from
  {
    if from < |data| {
      ParagraphsAllBlock(data, actions, paragraphs, from + 1);
    }
  }

  /** With every character claimed and only index 0 holding actions, the body
      is the insertions queued at index 0. */
  lemma {:induction false} RenderedOnlyFirst(data: string, skip: seq<bool>, actions: seq<seq<Action>>, i: nat)
    requires |skip| == |actions| == |data| && 1 <= i <= |data|
    requires forall j | 0 <= j < |data| :: skip[j]
    requires forall j | 1 <= j < |data| :: actions[j] == []
    ensures RenderedBody(data, skip, actions, i) == Insertions(SortDesc(actions[0]))
  {
    if i > 1 {
      RenderedOnlyFirst(data, skip, actions, i - 1);
      assert SortDesc(actions[i - 1]) == [];
    }
  }

  /** The code shell around `b`. */
  function CodeBlock(b: string): string
  {
    CodeShellOpen + b + CodeShellClose
  }

  lemma RecordSingle(data: string, f: Fold, a: Action)
    requires FoldOk(f, |data|) && ActionOk(a, |data|)
    ensures RecordAll(data, f, [a]) == Record(data, f, a)
  {
    assert [a][..0] == [];
  }

  /** Recording one transformation over the whole document into fresh tables. */
  lemma RecordWholeFold(data: string, a: Action)
    requires |data| >= 1 && ActionOk(a, |data|) && a.transformation.Some? && a.isNewBlock
    requires a.range == Some(Span(0, |data|))
    ensures var r := Record(data, Fold(Unclaimed(|data|), MaxInt, 0, false), a);
            && r.from == 0 && r.to == |data| && r.newBlock
            && (forall j | 0 <= j < |data| :: r.cl.skip[j])
            && r.cl.actions[0] == [Transformed(data, a)]
            && (forall j | 1 <= j < |data| :: r.cl.actions[j] == [])
  {
    var u := Unclaimed(|data|);
    assert u.actions[0] + [Transformed(data, a)] == [Transformed(data, a)];
    var r := Record(data, Fold(u, MaxInt, 0, false), a);
    assert r.cl.actions == u.actions[0 := u.actions[0] + [Transformed(data, a)]];
  }

  /** Closing a block fold that spans the whole document marks every index
      as block content and keeps the rest of the tables. */
  lemma CloseWholeFold(f: Fold, n: nat)
    requires FoldOk(f, n) && n >= 1 && f.from == 0 && f.to == n && f.newBlock
    ensures var cl := CloseFold(f, n);
            && cl.skip == f.cl.skip && cl.actions == f.cl.actions
            && forall j | 0 <= j < n :: cl.paragraphs[j]
  {
  }

  /** What recording one block transformation over the whole document does
      to fresh tables: every index claimed and block content, and the
      transformed text queued at index 0 alone. */
  lemma RecordWholeSpan(data: string, a: Action)
    requires |data| >= 1 && ActionOk(a, |data|) && a.transformation.Some? && a.isNewBlock
    requires a.range == Some(Span(0, |data|))
    ensures var cl := CloseFold(RecordAll(data, Fold(Unclaimed(|data|), MaxInt, 0, false), [a]), |data|);
            && (forall j | 0 <= j < |data| :: cl.skip[j] && cl.paragraphs[j])
            && cl.actions[0] == [Transformed(data, a)]
            && (forall j | 1 <= j < |data| :: cl.actions[j] == [])
  {
    var f := Fold(Unclaimed(|data|), MaxInt, 0, false);
    RecordSingle(data, f, a);
    RecordWholeFold(data, a);
    CloseWholeFold(Record(data, f, a), |data|);
  }

  /** The first scanner of `tags` alone. */
  lemma ApplyFirst(data: string, cl: Claims, tags: seq<TagValue>)
    requires Shaped(cl, |data|) && TagsOk(tags) && 1 <= |tags|
    ensures ApplyTags(data, cl, tags[..1]) == Scan(data, cl, tags[0], |data|).0
  {
    assert tags[..1][..0] == [];
  }

  /** The default template's output for a fenced block is the code shell
      around its body. */
  lemma TransformedFencedBlock(data: string, b: string, a: Action)
    requires |data| >= 1 && a == Action(0, "", Some(CodeDefault), Some(Span(0, |data|)), true)
    requires CodeBody(data) == b
    ensures Transformed(data, a) == Action(0, CodeBlock(b), None, None, false)
  {
    assert data[0..|data|] == data;
  }

  /** The code scanner answers nothing before the last backtick of a fenced block. */
  lemma FencedCodeQuiet(data: string, h: string, b: string, k: nat)
    requires '\n' !in h && NoFence(b)
    requires data == Fence + h + "\n" + b + "\n" + Fence && k + 1 == |data|
    ensures CodeRun(CodeInit, data[..k]).1 == []
  {
    var t := b + "\n``";
    NoFenceBeforeClosing(b);
    CodeBodyRun(CodeInit, h, t, |t|);
    assert t[..|t|] == t;
    assert data[..k] == Fence + h + "\n" + t;
  }

  lemma QuietUpToFromCode(c: CodeValue, data: string, k: nat)
    requires CodeOk(c, 0) && k <= |data| && CodeRun(c, data[..k]).1 == []
    ensures RunUpTo(CodeTag(c), data, k).1 == []
  {
    RunUpToIsCodeRun(c, data, k);
  }

  lemma FencedQuietUpTo(data: string, h: string, b: string, k: nat)
    requires '\n' !in h && NoFence(b)
    requires data == Fence + h + "\n" + b + "\n" + Fence && k + 1 == |data|
    ensures RunUpTo(CodeTag(CodeInit), data, k).1 == []
  {
    FencedCodeQuiet(data, h, b, k);
    QuietUpToFromCode(CodeInit, data, k);
  }

  lemma FencedAnswerUpTo(data: string, h: string, b: string)
    requires '\n' !in h && NoFence(b)
    requires data == Fence + h + "\n" + b + "\n" + Fence
    ensures RunUpTo(CodeTag(CodeInit), data, |data|).1
            == [Action(0, "", Some(CodeDefault), Some(Span(0, |data|)), true)]
  {
    assert SelectTransformation(CodeInit.transformations, h) == Some(CodeDefault);
    CodeRunClaimsWhole(CodeInit, data, h, b);
    assert data[..|data|] == data;
    RunUpToIsCodeRun(CodeInit, data, |data|);
  }

  /** A run that answers nothing before the last character of `data` gives
      its whole answer on that character. */
  lemma LastAnswer(tag: TagValue, data: string, k: nat, acts: seq<Action>)
    requires TagOk(tag, 0) && k + 1 == |data|
    requires RunUpTo(tag, data, k).1 == [] && RunUpTo(tag, data, k + 1).1 == acts
    ensures TagNext(RunUpTo(tag, data, k).0, k, data[k]).1 == acts
  {
    var prev := RunUpTo(tag, data, k);
    var next := TagNext(prev.0, k, data[k]);
    assert RunUpTo(tag, data, k + 1) == (next.0, prev.1 + next.1);
    assert prev.1 + next.1 == next.1;
  }

  /** The code scanner, fed a fenced block, answers nothing until the last
      backtick and then one block action over the whole text. */
  lemma FencedCodeRun(data: string, h: string, b: string, k: nat)
    requires '\n' !in h && NoFence(b)
    requires data == Fence + h + "\n" + b + "\n" + Fence && k + 1 == |data|
    ensures var prev := RunUpTo(CodeTag(CodeInit), data, k);
            && prev.1 == []
            && TagNext(prev.0, k, data[k]).1
               == [Action(0, "", Some(CodeDefault), Some(Span(0, |data|)), true)]
  {
    FencedQuietUpTo(data, h, b, k);
    FencedAnswerUpTo(data, h, b);
    LastAnswer(CodeTag(CodeInit), data, k, [Action(0, "", Some(CodeDefault), Some(Span(0, |data|)), true)]);
  }

  /** A scan whose scanner answers nothing before the last index comes down
      to the step on that index, from the tables as they were. */
  lemma ScanLastStep(data: string, cl: Claims, tag: TagValue, k: nat)
    requires k < |data| && Shaped(cl, |data|) && TagOk(tag, 0)
    requires forall j | 0 <= j <= k :: !cl.skip[j]
    requires RunUpTo(tag, data, k).1 == []
    ensures Scan(data, cl, tag, k + 1).0 == Step(data, cl, RunUpTo(tag, data, k).0, k).0
  {
    ScanQuiet(data, cl, tag, k);
  }

  /** A step on an unclaimed index records the scanner's answer. */
  lemma StepAnswer(data: string, cl: Claims, tag: TagValue, index: nat, acts: seq<Action>)
    requires index < |data| && Shaped(cl, |data|) && TagOk(tag, index) && !cl.skip[index]
    requires TagNext(tag, index, data[index]).1 == acts
    ensures ActionsOk(acts, |data|)
    ensures Step(data, cl, tag, index).0 == CloseFold(RecordAll(data, Fold(cl, MaxInt, 0, false), acts), |data|)
  {
    ActionsOkLater(acts, index + 1, |data|);
  }

  lemma FencedBody(data: string, h: string, b: string)
    requires '\n' !in h
    requires data == Fence + h + "\n" + b + "\n" + Fence
    ensures CodeBody(data) == b
  {
    CodeBodyBetweenBreaks(Fence + h, b, Fence);
  }

  /** A step on the last index of a document nothing has claimed, answered
      by one block transformation over the whole document: every index
      claimed and block content, and the transformed text queued at index 0
      alone. */
  lemma StepRecordsWhole(data: string, tag: TagValue, k: nat, a: Action)
    requires k + 1 == |data| && TagOk(tag, k)
    requires ActionOk(a, |data|) && a.transformation.Some? && a.isNewBlock && a.range == Some(Span(0, |data|))
    requires TagNext(tag, k, data[k]).1 == [a]
    ensures var cl := Step(data, Unclaimed(|data|), tag, k).0;
            && (forall j | 0 <= j < |data| :: cl.skip[j] && cl.paragraphs[j])
            && cl.actions[0] == [Transformed(data, a)]
            && (forall j | 1 <= j < |data| :: cl.actions[j] == [])
  {
    StepAnswer(data, Unclaimed(|data|), tag, k, [a]);
    RecordWholeSpan(data, a);
  }

  /** A scan whose scanner answers nothing before the last index and one
      block transformation over the whole document on it. */
  lemma ScanClaimsWhole(data: string, tag: TagValue, k: nat, a: Action)
    requires k + 1 == |data| && TagOk(tag, 0)
    requires ActionOk(a, |data|) && a.transformation.Some? && a.isNewBlock && a.range == Some(Span(0, |data|))
    requires RunUpTo(tag, data, k).1 == [] && TagNext(RunUpTo(tag, data, k).0, k, data[k]).1 == [a]
    ensures var cl := Scan(data, Unclaimed(|data|), tag, |data|).0;
            && (forall j | 0 <= j < |data| :: cl.skip[j] && cl.paragraphs[j])
            && cl.actions[0] == [Transformed(data, a)]
            && (forall j | 1 <= j < |data| :: cl.actions[j] == [])
  {
    ScanLastStep(data, Unclaimed(|data|), tag, k);
    StepRecordsWhole(data, RunUpTo(tag, data, k).0, k, a);
  }

  /** The same, when the action is the default code template's. */
  lemma ScanCodeBlock(data: string, b: string, k: nat)
    requires k + 1 == |data| && CodeBody(data) == b
    requires var a := Action(0, "", Some(CodeDefault), Some(Span(0, |data|)), true);
             var run := RunUpTo(CodeTag(CodeInit), data, k);
             run.1 == [] && TagNext(run.0, k, data[k]).1 == [a]
    ensures var cl := Scan(data, Unclaimed(|data|), CodeTag(CodeInit), |data|).0;
            && (forall j | 0 <= j < |data| :: cl.skip[j] && cl.paragraphs[j])
            && cl.actions[0] == [Action(0, CodeBlock(b), None, None, false)]
            && (forall j | 1 <= j < |data| :: cl.actions[j] == [])
  {
    var a := Action(0, "", Some(CodeDefault), Some(Span(0, |data|)), true);
    TransformedFencedBlock(data, b, a);
    ScanClaimsWhole(data, CodeTag(CodeInit), k, a);
  }

  /** The code scanner runs first. */
  lemma CatalogLeadsWithCode()
    ensures Catalog()[0] == CodeTag(CodeInit)
  {
  }

  /** The catalog pass over such a document, for any list of scanners led
      by the code scanner: the first claims the whole document as block
      content with the code shell queued at index 0, and the others see
      nothing. */
  lemma TaggedCodeBlock(data: string, b: string, k: nat, tags: seq<TagValue>)
    requires k + 1 == |data| && CodeBody(data) == b
    requires TagsOk(tags) && 1 <= |tags| && tags[0] == CodeTag(CodeInit)
    requires var a := Action(0, "", Some(CodeDefault), Some(Span(0, |data|)), true);
             var run := RunUpTo(CodeTag(CodeInit), data, k);
             run.1 == [] && TagNext(run.0, k, data[k]).1 == [a]
    ensures var cl := ApplyTags(data, Unclaimed(|data|), tags);
            && (forall j | 0 <= j < |data| :: cl.skip[j] && cl.paragraphs[j])
            && cl.actions[0] == [Action(0, CodeBlock(b), None, None, false)]
            && (forall j | 1 <= j < |data| :: cl.actions[j] == [])
  {
    var u := Unclaimed(|data|);
    ScanCodeBlock(data, b, k);
    ApplyFirst(data, u, tags);
    ApplyTagsAfterFirst(data, u, tags, |tags|);
    assert tags[..|tags|] == tags;
  }

  /** A single queued action prints its insertion. */
  lemma SingleInsertion(x: Action)
    ensures Insertions(SortDesc([x])) == x.insertion
  {
    var s := [x];
    assert s[..0] == [] && s[0] == x;
    assert SortDesc(s) == InsertDesc([], x);
    assert InsertDesc([], x) == [] + [x] == s;
    assert Insertions(s) == Insertions([]) + x.insertion;
  }

  /** Tables claimed throughout, with only the code shell queued at index 0,
      render as that shell. */
  lemma RenderedCodeTables(data: string, b: string, t: Claims)
    requires Shaped(t, |data|) && 1 <= |data|
    requires forall j | 0 <= j < |data| :: t.skip[j]
    requires t.actions[0] == [Action(0, CodeBlock(b), None, None, false)]
    requires forall j | 1 <= j < |data| :: t.actions[j] == []
    ensures RenderedBody(data, t.skip, t.actions, |data|) == CodeBlock(b)
  {
    RenderedOnlyFirst(data, t.skip, t.actions, |data|);
    SingleInsertion(Action(0, CodeBlock(b), None, None, false));
  }

  /** A document on which the code scanner answers nothing before the last
      index and then claims the whole document with the default template
      renders as the code shell around the document's code body: whatever
      the later scanners would make of the text, they see none of it. */
  lemma CodeBlockRenders(data: string, b: string, k: nat)
    requires k + 1 == |data| && CodeBody(data) == b
    requires var a := Action(0, "", Some(CodeDefault), Some(Span(0, |data|)), true);
             var run := RunUpTo(CodeTag(CodeInit), data, k);
             run.1 == [] && TagNext(run.0, k, data[k]).1 == [a]
    ensures Rendered(data) == "<div>\n" + CodeBlock(b) + "\n</div>"
  {
    var tagged := ApplyTags(data, Unclaimed(|data|), Catalog());
    CatalogLeadsWithCode();
    TaggedCodeBlock(data, b, k, Catalog());
    ParagraphsAllBlock(data, tagged.actions, tagged.paragraphs, 0);
    RenderedCodeTables(data, b, Tables(data));
  }

  /** What the code scanner and the default template make of a fenced block. */
  lemma FencedFacts(data: string, h: string, b: string, k: nat)
    requires '\n' !in h && NoFence(b)
    requires data == Fence + h + "\n" + b + "\n" + Fence && k + 1 == |data|
    ensures CodeBody(data) == b
    ensures var a := Action(0, "", Some(CodeDefault), Some(Span(0, |data|)), true);
            var run := RunUpTo(CodeTag(CodeInit), data, k);
            run.1 == [] && TagNext(run.0, k, data[k]).1 == [a]
  {
    FencedCodeRun(data, h, b, k);
    FencedBody(data, h, b);
  }

  /** A document that is one fenced code block, with a hint that has no line
      break and a body that holds no fence, renders as the code shell around
      exactly the body: nothing inside it is formatted and no paragraph wraps it. */
  lemma FencedBlockRendersAsCode(data: string, h: string, b: string)
    requires '\n' !in h && NoFence(b)
    requires data == Fence + h + "\n" + b + "\n" + Fence
    ensures Rendered(data) == "<div>\n" + CodeBlock(b) + "\n</div>"
  {
    var k := |data| - 1;
    FencedFacts(data, h, b, k);
    CodeBlockRenders(data, b, k);
  }
}
