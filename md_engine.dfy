/** `Markdown` and its passes over arrays, as md.go runs them, each proved to
    compute what module MdSpec describes. */
module MdEngine {
  import opened Common
  import opened MdScan
  import opened MdSpec
  import opened MdTags

  /** Sets `b[from..to]`. */
  method Mark(b: array<bool>, from: int, to: int)
    requires 0 <= from <= to <= b.Length
    modifies b
    ensures b[..] == MarkRange(old(b[..]), from, to)
  {
    for i := from to to
      invariant forall j | 0 <= j < b.Length :: b[j] == (old(b[j]) || from <= j < i)
    {
      b[i] := true;
    }
  }

  /** The loop over the actions of one `Next` call in `markdownApplyTags`,
      followed by the block marking of the span they cover. */
  method ApplyActions(data: string, acts: seq<Action>, skip: array<bool>,
                      actions: array<seq<Action>>, paragraphs: array<bool>)
    requires skip.Length == actions.Length == paragraphs.Length == |data| && skip != paragraphs
    requires ActionsOk(acts, |data|)
    modifies skip, actions, paragraphs
    ensures Claims(skip[..], actions[..], paragraphs[..])
            == CloseFold(RecordAll(data, Fold(old(Claims(skip[..], actions[..], paragraphs[..])), MaxInt, 0, false), acts), |data|)
  {
    ghost var cl0 := Claims(skip[..], actions[..], paragraphs[..]);
    var from, to, isNewlineBased := MaxInt, 0, false;
    for j := 0 to |acts|
      invariant Fold(Claims(skip[..], actions[..], paragraphs[..]), from, to, isNewlineBased)
                == RecordAll(data, Fold(cl0, MaxInt, 0, false), acts[..j])
    {
      assert acts[..j + 1][..j] == acts[..j];
      var action := acts[j];
      assert ActionOk(action, |data|) by { assert action in acts; }
      var s, e := action.range.value.start, action.range.value.end;
      Mark(skip, s, e);
      from := Min(from, s);
      to := Max(to, e);
      if action.isNewBlock {
        isNewlineBased := true;
      }
      if action.transformation.None? {
        actions[action.index] := actions[action.index] + [action];
      } else {
        var transformed := Execute(action.transformation.value, data[s..e]);
        actions[s] := actions[action.index] + [Action(s, transformed, None, None, false)];
      }
    }
    assert acts[..|acts|] == acts;
    if isNewlineBased && from < to {
      Mark(paragraphs, from, to);
    }
  }

  /** One iteration of the inner loop of `markdownApplyTags`. */
  method StepAt(data: string, tag: Tag, index: nat, skip: array<bool>,
                actions: array<seq<Action>>, paragraphs: array<bool>)
    requires skip.Length == actions.Length == paragraphs.Length == |data| && skip != paragraphs
    requires {skip, paragraphs} !! tag.Repr() && actions !in tag.Repr()
    requires index < |data| && TagOk(tag.Value(), index)
    modifies skip, actions, paragraphs, tag.Repr()
    ensures (Claims(skip[..], actions[..], paragraphs[..]), tag.Value())
            == Step(data, old(Claims(skip[..], actions[..], paragraphs[..])), old(tag.Value()), index)
  {
    if skip[index] {
      return;
    }
    var acts := Next(tag, index, data[index]);
    ActionsOkLater(acts, index + 1, |data|);
    ApplyActions(data, acts, skip, actions, paragraphs);
  }

  /** The inner loop of `markdownApplyTags` for one scanner. */
  method ScanTag(data: string, tag: Tag, skip: array<bool>,
                 actions: array<seq<Action>>, paragraphs: array<bool>)
    requires skip.Length == actions.Length == paragraphs.Length == |data| && skip != paragraphs
    requires {skip, paragraphs} !! tag.Repr() && actions !in tag.Repr()
    requires TagOk(tag.Value(), 0)
    modifies skip, actions, paragraphs, tag.Repr()
    ensures Claims(skip[..], actions[..], paragraphs[..])
            == Scan(data, old(Claims(skip[..], actions[..], paragraphs[..])), old(tag.Value()), |data|).0
  {
    ghost var cl0 := Claims(skip[..], actions[..], paragraphs[..]);
    ghost var t0 := tag.Value();
    for index := 0 to |data|
      invariant (Claims(skip[..], actions[..], paragraphs[..]), tag.Value()) == Scan(data, cl0, t0, index)
    {
      StepAt(data, tag, index, skip, actions, paragraphs);
    }
  }

  /** The outer loop of `markdownApplyTags`: every scanner of `tags`, in
      order, each a fresh object in the state its entry gives it. */
  method ApplyTagList(data: string, tags: seq<TagValue>, skip: array<bool>,
                      actions: array<seq<Action>>, paragraphs: array<bool>)
    requires skip.Length == actions.Length == paragraphs.Length == |data| && skip != paragraphs
    requires TagsOk(tags)
    modifies skip, actions, paragraphs
    ensures Claims(skip[..], actions[..], paragraphs[..])
            == MdSpec.ApplyTags(data, old(Claims(skip[..], actions[..], paragraphs[..])), tags)
  {
    ghost var cl0 := Claims(skip[..], actions[..], paragraphs[..]);
    for m := 0 to |tags|
      invariant Claims(skip[..], actions[..], paragraphs[..]) == MdSpec.ApplyTags(data, cl0, tags[..m])
    {
      assert tags[..m + 1][..m] == tags[..m];
      var tag := NewTag(tags[m]);
      ScanTag(data, tag, skip, actions, paragraphs);
    }
    assert tags[..|tags|] == tags;
  }

  /** `markdownApplyTags`: the catalog's scanners. */
  method ApplyTags(data: string, skip: array<bool>, actions: array<seq<Action>>, paragraphs: array<bool>)
    requires skip.Length == actions.Length == paragraphs.Length == |data| && skip != paragraphs
    modifies skip, actions, paragraphs
    ensures Claims(skip[..], actions[..], paragraphs[..])
            == MdSpec.ApplyTags(data, old(Claims(skip[..], actions[..], paragraphs[..])), Catalog())
  {
    ApplyTagList(data, Catalog(), skip, actions, paragraphs);
  }

  /** The inner loop of `markdownApplyParagraphs`: extends the run that starts
      at `from` up to its first break, marking all but its last index. */
  method ExtendRun(paragraphs: array<bool>, data: string, from: nat) returns (to: nat)
    requires paragraphs.Length == |data| && from < |data|
    modifies paragraphs
    ensures to == RunEnd(data, old(paragraphs[..]), from + 1)
    ensures paragraphs[..] == MarkRange(old(paragraphs[..]), from, to - 1)
  {
    ghost var p0 := paragraphs[..];
    to := from + 1;
    while to < |data|
      invariant from + 1 <= to <= |data|
      invariant paragraphs[..] == MarkRange(p0, from, to - 1)
      invariant RunEnd(data, p0, from + 1) == RunEnd(data, p0, to)
      decreases |data| - to
    {
      if paragraphs[to] || data[to - 1..to + 1] == "\n\n" {
        break;
      }
      paragraphs[to - 1] := true;
      to := to + 1;
    }
  }

  /** One run of `markdownApplyParagraphs` from a non-block index `from`:
      marks it, wraps it unless it is all white space, and returns where
      the pass continues. */
  method WrapRun(actions: array<seq<Action>>, paragraphs: array<bool>, data: string, from: nat)
    returns (end: nat)
    requires actions.Length == paragraphs.Length == |data| && from < |data| && !paragraphs[from]
    modifies actions, paragraphs
    ensures from < end <= |data|
    ensures Paragraphs(data, old(actions[..]), old(paragraphs[..]), from)
            == Paragraphs(data, actions[..], paragraphs[..], end)
  {
    ghost var a0, p0 := actions[..], paragraphs[..];
    end := ExtendRun(paragraphs, data, from);
    var to := end - 1;
    if AllSpace(data[from..to]) {
      return;
    }
    actions[from] := [ParagraphOpenAt(from)] + actions[from];
    actions[to] := actions[to] + [ParagraphCloseAt(to)];
    assert actions[..] == a0[from := [ParagraphOpenAt(from)] + a0[from]][to := a0[to] + [ParagraphCloseAt(to)]];
  }

  /** `markdownApplyParagraphs`. */
  method ApplyParagraphs(actions: array<seq<Action>>, paragraphs: array<bool>, data: string)
    requires actions.Length == paragraphs.Length == |data|
    modifies actions, paragraphs
    ensures (actions[..], paragraphs[..]) == Paragraphs(data, old(actions[..]), old(paragraphs[..]), 0)
  {
    ghost var final := Paragraphs(data, actions[..], paragraphs[..], 0);
    var from := 0;
    while from < |data|
      invariant 0 <= from <= |data|
      invariant Paragraphs(data, actions[..], paragraphs[..], from) == final
      decreases |data| - from
    {
      if paragraphs[from] {
        from := from + 1;
      } else {
        from := WrapRun(actions, paragraphs, data, from);
      }
    }
  }

  /** The innermost loop of the render pass: the insertions of `acts`, in order. */
  method AppendInsertions(prefix: string, acts: seq<Action>) returns (result: string)
    ensures result == prefix + Insertions(acts)
  {
    result := prefix;
    for j := 0 to |acts|
      invariant result == prefix + Insertions(acts[..j])
    {
      assert acts[..j + 1][..j] == acts[..j];
      result := result + acts[j].insertion;
    }
    assert acts[..|acts|] == acts;
  }

  /** The render loop of `Markdown`: each index's insertions, sorted in place
      stably by descending index, then the character unless it is claimed. */
  method Render(data: string, skip: array<bool>, actions: array<seq<Action>>) returns (result: string)
    requires skip.Length == actions.Length == |data|
    modifies actions
    ensures result == RenderedBody(data, skip[..], old(actions[..]), |data|)
  {
    ghost var a0 := actions[..];
    ghost var s0 := skip[..];
    result := [];
    for i := 0 to |data|
      invariant result == RenderedBody(data, s0, a0, i)
      invariant forall j | i <= j < |data| :: actions[j] == a0[j]
    {
      var sorted := SortDesc(actions[i]);
      actions[i] := sorted;
      var next := AppendInsertions(result, sorted);
      if !skip[i] {
        next := next + [data[i]];
      }
      assert skip[i] == s0[i];
      result := next;
    }
  }

  /** `Markdown`: the three tables, the scanners, the paragraph pass, the
      render loop, and the `<div>` wrapper. */
  method Markdown(data: string) returns (html: string)
    ensures html == Rendered(data)
  {
    var actions := new seq<Action>[|data|](_ => []);
    var skip := new bool[|data|](_ => false);
    var paragraphs := new bool[|data|](_ => false);
    assert Claims(skip[..], actions[..], paragraphs[..]) == Unclaimed(|data|);

    ApplyTags(data, skip, actions, paragraphs);
    ApplyParagraphs(actions, paragraphs, data);
    var result := Render(data, skip, actions);
    html := "<div>\n" + result + "\n</div>";
  }
}
