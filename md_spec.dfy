/** What `Markdown` (md.go) computes, as functions over values.

    The engine keeps three tables indexed like the document: `skip` (the
    character is claimed by some construct and is not printed), `actions` (the
    insertions queued in front of the character) and `paragraphs` (the index is
    block content and no paragraph may wrap it). The scanners of the catalog
    fill them in order (`ApplyTags`), the paragraph pass adds `<p>` wrappers
    (`Paragraphs`), and the render pass prints them (`RenderedBody`, `Rendered`).
    Module MdEngine runs the same passes over arrays. */
module MdSpec {
  import opened Common
  import opened MdScan

  /** The three tables of `Markdown`. */
  datatype Claims = Claims(skip: seq<bool>, actions: seq<seq<Action>>, paragraphs: seq<bool>)

  predicate Shaped(cl: Claims, n: int)
  {
    |cl.skip| == n && |cl.actions| == n && |cl.paragraphs| == n
  }

  /** The tables as `Markdown` allocates them: nothing claimed, queued or marked. */
  function Unclaimed(n: nat): (cl: Claims)
    ensures Shaped(cl, n)
  {
    Claims(seq(n, _ => false), seq(n, _ => []), seq(n, _ => false))
  }

  /** `b` with every index of `[from, to)` set. */
  function MarkRange(b: seq<bool>, from: int, to: int): (r: seq<bool>)
    requires 0 <= from <= to <= |b|
    ensures |r| == |b|
    ensures forall i | 0 <= i < |b| :: r[i] == (b[i] || from <= i < to)
  {
    seq(|b|, i requires 0 <= i < |b| => b[i] || from <= i < to)
  }

  // ---------------------------------------------------------------------------
  // markdownApplyTags
  // ---------------------------------------------------------------------------

  /** The bookkeeping of the actions of one `Next` call: the tables, the
      smallest range start and the largest range end seen so far (starting
      from `math.MaxInt` and 0), and whether a block action was seen. */
  datatype Fold = Fold(cl: Claims, from: int, to: int, newBlock: bool)

  predicate FoldOk(f: Fold, n: int)
  {
    Shaped(f.cl, n) && 0 <= f.from && 0 <= f.to <= n
  }

  /** The transformed text a transformation action stores in place of itself. */
  function Transformed(data: string, a: Action): (r: Action)
    requires ActionOk(a, |data|) && a.transformation.Some?
  {
    var s, e := a.range.value.start, a.range.value.end;
    Action(s, Execute(a.transformation.value, data[s..e]), None, None, false)
  }

  /** One action of a `Next` call: its range is claimed and widens `[from, to)`;
      a plain action is queued at its own index, a transformation is replaced
      by the template's output queued at the start of its range. */
  function Record(data: string, f: Fold, a: Action): (r: Fold)
    requires FoldOk(f, |data|) && ActionOk(a, |data|)
    ensures FoldOk(r, |data|)
  {
    var s, e := a.range.value.start, a.range.value.end;
    var queued := f.cl.actions;
    var stored :=
      if a.transformation.None? then queued[a.index := queued[a.index] + [a]]
      else queued[s := queued[a.index] + [Transformed(data, a)]];
    Fold(f.cl.(skip := MarkRange(f.cl.skip, s, e), actions := stored),
         Min(f.from, s), Max(f.to, e), f.newBlock || a.isNewBlock)
  }

  /** The actions of one `Next` call, recorded left to right. */
  function RecordAll(data: string, f: Fold, acts: seq<Action>): (r: Fold)
    requires FoldOk(f, |data|) && ActionsOk(acts, |data|)
    ensures FoldOk(r, |data|)
  {
    if acts == [] then f
    else Record(data, RecordAll(data, f, acts[..|acts| - 1]), acts[|acts| - 1])
  }

  /** After a `Next` call whose actions include a block action, the whole span
      `[from, to)` they cover becomes block content. */
  function CloseFold(f: Fold, n: int): (cl: Claims)
    requires FoldOk(f, n)
    ensures Shaped(cl, n)
  {
    if f.newBlock && f.from < f.to then f.cl.(paragraphs := MarkRange(f.cl.paragraphs, f.from, f.to))
    else f.cl
  }

  /** One iteration of the inner loop of `markdownApplyTags`: a claimed index
      is passed over, any other is fed to the scanner. */
  function Step(data: string, cl: Claims, tag: TagValue, index: nat): (r: (Claims, TagValue))
    requires index < |data| && Shaped(cl, |data|) && TagOk(tag, index)
    ensures Shaped(r.0, |data|) && TagOk(r.1, index + 1)
  {
    if cl.skip[index] then
      TagOkLater(tag, index);
      (cl, tag)
    else
      var next := TagNext(tag, index, data[index]);
      ActionsOkLater(next.1, index + 1, |data|);
      (CloseFold(RecordAll(data, Fold(cl, MaxInt, 0, false), next.1), |data|), next.0)
  }

  /** One scanner run over the first `k` indices of the document. */
  function Scan(data: string, cl: Claims, tag: TagValue, k: nat): (r: (Claims, TagValue))
    requires k <= |data| && Shaped(cl, |data|) && TagOk(tag, 0)
    ensures Shaped(r.0, |data|) && TagOk(r.1, k)
  {
    if k == 0 then (cl, tag)
    else
      var prev := Scan(data, cl, tag, k - 1);
      Step(data, prev.0, prev.1, k - 1)
  }

  predicate TagsOk(tags: seq<TagValue>)
  {
    forall i | 0 <= i < |tags| :: TagOk(tags[i], 0)
  }

  /** `markdownApplyTags`: every scanner of `tags`, in order, over the whole document. */
  function ApplyTags(data: string, cl: Claims, tags: seq<TagValue>): (r: Claims)
    requires Shaped(cl, |data|) && TagsOk(tags)
    ensures Shaped(r, |data|)
  {
    if tags == [] then cl
    else Scan(data, ApplyTags(data, cl, tags[..|tags| - 1]), tags[|tags| - 1], |data|).0
  }

  // ---------------------------------------------------------------------------
  // markdownApplyParagraphs
  // ---------------------------------------------------------------------------

  /** The inner loop of the paragraph pass stops at `to` when `to` is block
      content or the two characters ending at `to` are a blank line. */
  predicate RunBreak(data: string, paragraphs: seq<bool>, to: int)
    requires 1 <= to < |data| == |paragraphs|
  {
    paragraphs[to] || data[to - 1..to + 1] == "\n\n"
  }

  /** Where the inner loop started at `to` stops: the first break at or after
      `to`, or the end of the document. */
  function RunEnd(data: string, paragraphs: seq<bool>, to: nat): (end: nat)
    requires 1 <= to <= |data| == |paragraphs|
    ensures to <= end <= |data|
    ensures end < |data| ==> RunBreak(data, paragraphs, end)
    ensures forall t | to <= t < end :: !RunBreak(data, paragraphs, t)
    decreases |data| - to
  {
    if to == |data| || RunBreak(data, paragraphs, to) then to
    else RunEnd(data, paragraphs, to + 1)
  }

  function ParagraphOpenAt(i: int): Action { Action(i, ParagraphOpen, None, None, false) }

  function ParagraphCloseAt(i: int): Action { Action(i, ParagraphClose, None, None, false) }

  /** `markdownApplyParagraphs` from position `from` on. A run starting at a
      non-block `from` extends to `end`, the first break after it; the
      paragraph spans `[from, to)` with `to == end - 1`; a run whose text is
      all white space gets no wrapper, any other gets `<p…>` in front of the
      actions queued at `from` and `</p>` after those queued at `to`. The pass
      continues at `end`. */
  function Paragraphs(data: string, actions: seq<seq<Action>>, paragraphs: seq<bool>, from: nat)
    : (r: (seq<seq<Action>>, seq<bool>))
    requires |actions| == |paragraphs| == |data| && from <= |data|
    ensures |r.0| == |r.1| == |data|
    decreases |data| - from
  {
    if from == |data| then (actions, paragraphs)
    else if paragraphs[from] then Paragraphs(data, actions, paragraphs, from + 1)
    else
      var end := RunEnd(data, paragraphs, from + 1);
      var to := end - 1;
      var marked := MarkRange(paragraphs, from, to);
      if AllSpace(data[from..to]) then Paragraphs(data, actions, marked, end)
      else
        var withOpen := actions[from := [ParagraphOpenAt(from)] + actions[from]];
        Paragraphs(data, withOpen[to := withOpen[to] + [ParagraphCloseAt(to)]], marked, end)
  }

  // ---------------------------------------------------------------------------
  // Rendering
  // ---------------------------------------------------------------------------

  /** Inserting `x` into a list sorted by descending index, after every element
      whose index is not smaller (so equal indices keep their order). */
  function InsertDesc(sorted: seq<Action>, x: Action): (r: seq<Action>)
    ensures multiset(r) == multiset(sorted) + multiset{x}
  {
    if sorted == [] || sorted[|sorted| - 1].index >= x.index then sorted + [x]
    else
      assert sorted == sorted[..|sorted| - 1] + [sorted[|sorted| - 1]];
      InsertDesc(sorted[..|sorted| - 1], x) + [sorted[|sorted| - 1]]
  }

  /** `slices.SortStableFunc` by descending `Index`, as a stable insertion sort. */
  function SortDesc(acts: seq<Action>): (r: seq<Action>)
    ensures multiset(r) == multiset(acts)
  {
    if acts == [] then []
    else
      assert acts == acts[..|acts| - 1] + [acts[|acts| - 1]];
      InsertDesc(SortDesc(acts[..|acts| - 1]), acts[|acts| - 1])
  }

  /** The concatenated insertions of `acts`, in order. */
  function Insertions(acts: seq<Action>): string
  {
    if acts == [] then [] else Insertions(acts[..|acts| - 1]) + acts[|acts| - 1].insertion
  }

  /** The text the render loop has produced after the first `i` indices: for
      each index its sorted insertions, then the character unless it is claimed. */
  function RenderedBody(data: string, skip: seq<bool>, actions: seq<seq<Action>>, i: nat): string
    requires |skip| == |actions| == |data| && i <= |data|
  {
    if i == 0 then []
    else RenderedBody(data, skip, actions, i - 1) + Insertions(SortDesc(actions[i - 1]))
         + (if skip[i - 1] then [] else [data[i - 1]])
  }

  /** The tables `Markdown` renders: the catalog run over the document, then
      the paragraph pass. */
  function Tables(data: string): (r: Claims)
    ensures Shaped(r, |data|)
  {
    var tagged := ApplyTags(data, Unclaimed(|data|), Catalog());
    var wrapped := Paragraphs(data, tagged.actions, tagged.paragraphs, 0);
    Claims(tagged.skip, wrapped.0, wrapped.1)
  }

  /** What `Markdown` returns for `data`. */
  function Rendered(data: string): string
  {
    var t := Tables(data);
    "<div>\n" + RenderedBody(data, t.skip, t.actions, |data|) + "\n</div>"
  }
}
