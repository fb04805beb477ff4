/** Properties of the Markdown engine: the order of insertions at an index,
    the growth of claims, what each scanner emits, the paragraph pass, and
    whole documents. */
module MdProps {
  import opened Common
  import opened MdScan
  import opened MdSpec

  // ---------------------------------------------------------------------------
  // The render pass keeps discovery order
  // ---------------------------------------------------------------------------

  predicate SortedDesc(s: seq<Action>)
  {
    forall i, j | 0 <= i < j < |s| :: s[i].index >= s[j].index
  }

  lemma {:induction false} InsertDescSorted(sorted: seq<Action>, x: Action)
    requires SortedDesc(sorted)
    ensures SortedDesc(InsertDesc(sorted, x))
  {
    if sorted == [] || sorted[|sorted| - 1].index >= x.index {
    } else {
      var init, last := sorted[..|sorted| - 1], sorted[|sorted| - 1];
      InsertDescSorted(init, x);
      var front := InsertDesc(init, x);
      forall e | e in front
        ensures e.index >= last.index
      {
        assert e in multiset(front);
        assert e in multiset(init) || e == x;
      }
      assert InsertDesc(sorted, x) == front + [last];
    }
  }

  /** The stable sort of the render pass orders by descending index and
      loses no action. */
  lemma {:induction false} SortDescSorted(acts: seq<Action>)
    ensures SortedDesc(SortDesc(acts)) && multiset(SortDesc(acts)) == multiset(acts)
  {
    if acts != [] {
      SortDescSorted(acts[..|acts| - 1]);
      InsertDescSorted(SortDesc(acts[..|acts| - 1]), acts[|acts| - 1]);
    }
  }

  /** Appending an action whose index is not larger than the last one's. */
  lemma InsertDescAppends(sorted: seq<Action>, x: Action)
    requires sorted == [] || sorted[|sorted| - 1].index >= x.index
    ensures InsertDesc(sorted, x) == sorted + [x]
  {
  }

  /** When every action queued at an index carries that index, the stable
      sort changes nothing. */
  lemma {:induction false} SortDescKeepsEqualIndices(acts: seq<Action>, i: int)
    requires forall j | 0 <= j < |acts| :: acts[j].index == i
    ensures SortDesc(acts) == acts
  {
    if acts != [] {
      var init, last := acts[..|acts| - 1], acts[|acts| - 1];
      assert forall j | 0 <= j < |init| :: init[j] == acts[j];
      SortDescKeepsEqualIndices(init, i);
      InsertDescAppends(init, last);
      calc {
        SortDesc(acts);
        InsertDesc(SortDesc(init), last);
        InsertDesc(init, last);
        init + [last];
        { SplitLast(acts); }
        acts;
      }
    }
  }

  /** Every action queued at index `i` has `Index == i`. */
  predicate Anchored(actions: seq<seq<Action>>)
  {
    forall i, j | 0 <= i < |actions| && 0 <= j < |actions[i]| :: actions[i][j].index == i
  }

  lemma RecordAnchored(data: string, f: Fold, a: Action)
    requires FoldOk(f, |data|) && ActionOk(a, |data|) && Anchored(f.cl.actions)
    ensures Anchored(Record(data, f, a).cl.actions)
  {
  }

  lemma {:induction false} RecordAllAnchored(data: string, f: Fold, acts: seq<Action>)
    requires FoldOk(f, |data|) && ActionsOk(acts, |data|) && Anchored(f.cl.actions)
    ensures Anchored(RecordAll(data, f, acts).cl.actions)
  {
    if acts != [] {
      RecordAllAnchored(data, f, acts[..|acts| - 1]);
      RecordAnchored(data, RecordAll(data, f, acts[..|acts| - 1]), acts[|acts| - 1]);
    }
  }

  lemma {:induction false} ScanAnchored(data: string, cl: Claims, tag: TagValue, k: nat)
    requires k <= |data| && Shaped(cl, |data|) && TagOk(tag, 0) && Anchored(cl.actions)
    ensures Anchored(Scan(data, cl, tag, k).0.actions)
  {
    if k > 0 {
      ScanAnchored(data, cl, tag, k - 1);
      var prev := Scan(data, cl, tag, k - 1);
      if !prev.0.skip[k - 1] {
        var next := TagNext(prev.1, k - 1, data[k - 1]);
        ActionsOkLater(next.1, k, |data|);
        RecordAllAnchored(data, Fold(prev.0, MaxInt, 0, false), next.1);
      }
    }
  }

  lemma {:induction false} ApplyTagsAnchored(data: string, cl: Claims, tags: seq<TagValue>)
    requires Shaped(cl, |data|) && TagsOk(tags) && Anchored(cl.actions)
    ensures Anchored(ApplyTags(data, cl, tags).actions)
  {
    if tags != [] {
      ApplyTagsAnchored(data, cl, tags[..|tags| - 1]);
      ScanAnchored(data, ApplyTags(data, cl, tags[..|tags| - 1]), tags[|tags| - 1], |data|);
    }
  }

  lemma {:induction false} ParagraphsAnchored(data: string, actions: seq<seq<Action>>, paragraphs: seq<bool>, from: nat)
    requires |actions| == |paragraphs| == |data| && from <= |data| && Anchored(actions)
    ensures Anchored(Paragraphs(data, actions, paragraphs, from).0)
    decreases |data| - from
  {
    if from < |data| {
      if paragraphs[from] {
        ParagraphsAnchored(data, actions, paragraphs, from + 1);
      } else {
        var end := RunEnd(data, paragraphs, from + 1);
        var to := end - 1;
        var marked := MarkRange(paragraphs, from, to);
        if AllSpace(data[from..to]) {
          ParagraphsAnchored(data, actions, marked, end);
        } else {
          var withOpen := actions[from := [ParagraphOpenAt(from)] + actions[from]];
          ParagraphsAnchored(data, withOpen[to := withOpen[to] + [ParagraphCloseAt(to)]], marked, end);
        }
      }
    }
  }

  /** Every action of the tables `Markdown` renders is queued at its own index. */
  lemma TablesAnchored(data: string)
    ensures Anchored(Tables(data).actions)
  {
    var tagged := ApplyTags(data, Unclaimed(|data|), Catalog());
    ApplyTagsAnchored(data, Unclaimed(|data|), Catalog());
    ParagraphsAnchored(data, tagged.actions, tagged.paragraphs, 0);
  }

  /** The render loop without the sort: each index's insertions in the order
      they were queued. */
  function StoredBody(data: string, skip: seq<bool>, actions: seq<seq<Action>>, i: nat): string
    requires |skip| == |actions| == |data| && i <= |data|
  {
    if i == 0 then []
    else StoredBody(data, skip, actions, i - 1) + Insertions(actions[i - 1])
         + (if skip[i - 1] then [] else [data[i - 1]])
  }

  lemma StoredBodyStep(data: string, skip: seq<bool>, actions: seq<seq<Action>>, j: nat)
    requires |skip| == |actions| == |data| && j < |data|
    requires RenderedBody(data, skip, actions, j) == StoredBody(data, skip, actions, j)
    requires SortDesc(actions[j]) == actions[j]
    ensures RenderedBody(data, skip, actions, j + 1) == StoredBody(data, skip, actions, j + 1)
  {
  }

  /** Where the sort changes no index's list, rendering prints the stored order. */
  lemma {:induction false} RenderedBodyIsStored(data: string, skip: seq<bool>, actions: seq<seq<Action>>, i: nat)
    requires |skip| == |actions| == |data| && i <= |data|
    requires forall k | 0 <= k < i :: SortDesc(actions[k]) == actions[k]
    ensures RenderedBody(data, skip, actions, i) == StoredBody(data, skip, actions, i)
  {
    if i > 0 {
      var j := i - 1;
      RenderedBodyIsStored(data, skip, actions, j);
      StoredBodyStep(data, skip, actions, j);
    }
  }

  /** Anchored tables render in the order their actions were stored. */
  lemma AnchoredRendersStored(data: string, skip: seq<bool>, actions: seq<seq<Action>>)
    requires |skip| == |actions| == |data| && Anchored(actions)
    ensures RenderedBody(data, skip, actions, |data|) == StoredBody(data, skip, actions, |data|)
  {
    forall k | 0 <= k < |actions|
      ensures SortDesc(actions[k]) == actions[k]
    {
      SortDescKeepsEqualIndices(actions[k], k);
    }
    RenderedBodyIsStored(data, skip, actions, |data|);
  }

  /** `Markdown` prints, index by index, the insertions in the order they were
      queued and then the character unless it is claimed, inside `<div>\n…\n</div>`. */
  lemma RenderedInQueuedOrder(data: string)
    ensures var t := Tables(data);
            Rendered(data) == "<div>\n" + StoredBody(data, t.skip, t.actions, |data|) + "\n</div>"
  {
    TablesAnchored(data);
    var t := Tables(data);
    AnchoredRendersStored(data, t.skip, t.actions);
  }

  lemma RenderedEmpty()
    ensures Rendered("") == "<div>\n\n</div>"
  {
  }

  // ---------------------------------------------------------------------------
  // Claims only grow, and a scanner sees only unclaimed indices
  // ---------------------------------------------------------------------------

  predicate IsPrefix(a: seq<Action>, b: seq<Action>)
  {
    |a| <= |b| && b[..|a|] == a
  }

  /** `after` extends `before`: claims and block marks are only ever set, and
      actions are only ever appended behind those already queued. */
  predicate Grows(before: Claims, after: Claims, n: int)
  {
    && Shaped(before, n) && Shaped(after, n)
    && (forall i | 0 <= i < n :: before.skip[i] ==> after.skip[i])
    && (forall i | 0 <= i < n :: before.paragraphs[i] ==> after.paragraphs[i])
    && (forall i | 0 <= i < n :: IsPrefix(before.actions[i], after.actions[i]))
  }

  lemma GrowsTransitive(a: Claims, b: Claims, c: Claims, n: int)
    requires Grows(a, b, n) && Grows(b, c, n)
    ensures Grows(a, c, n)
  {
    forall i | 0 <= i < n
      ensures IsPrefix(a.actions[i], c.actions[i])
    {
      assert c.actions[i][..|b.actions[i]|] == b.actions[i];
      assert c.actions[i][..|a.actions[i]|] == c.actions[i][..|b.actions[i]|][..|a.actions[i]|];
    }
  }

  /** An index is covered by the range of one of `acts`. */
  predicate Covered(acts: seq<Action>, i: int)
  {
    exists a | a in acts :: a.range.Some? && a.range.value.start <= i < a.range.value.end
  }

  lemma RecordGrows(data: string, f: Fold, a: Action)
    requires FoldOk(f, |data|) && ActionOk(a, |data|)
    ensures Grows(f.cl, Record(data, f, a).cl, |data|)
    ensures Record(data, f, a).cl.paragraphs == f.cl.paragraphs
  {
    var r := Record(data, f, a);
    forall i | 0 <= i < |data|
      ensures IsPrefix(f.cl.actions[i], r.cl.actions[i])
    {
      if i == a.index {
        assert r.cl.actions[i][..|f.cl.actions[i]|] == f.cl.actions[i];
      }
    }
  }

  lemma {:induction false} RecordAllGrows(data: string, f: Fold, acts: seq<Action>)
    requires FoldOk(f, |data|) && ActionsOk(acts, |data|)
    ensures Grows(f.cl, RecordAll(data, f, acts).cl, |data|)
    ensures RecordAll(data, f, acts).cl.paragraphs == f.cl.paragraphs
  {
    if acts != [] {
      RecordAllGrows(data, f, acts[..|acts| - 1]);
      var mid := RecordAll(data, f, acts[..|acts| - 1]);
      RecordGrows(data, mid, acts[|acts| - 1]);
      GrowsTransitive(f.cl, mid.cl, RecordAll(data, f, acts).cl, |data|);
    }
  }

  /** Recording the actions of one `Next` call claims exactly the indices
      their ranges cover. */
  lemma {:induction false} RecordAllClaimsExactly(data: string, f: Fold, acts: seq<Action>)
    requires FoldOk(f, |data|) && ActionsOk(acts, |data|)
    ensures forall i | 0 <= i < |data| ::
              RecordAll(data, f, acts).cl.skip[i] <==> f.cl.skip[i] || Covered(acts, i)
  {
    if acts != [] {
      var init, last := acts[..|acts| - 1], acts[|acts| - 1];
      RecordAllClaimsExactly(data, f, init);
      var mid := RecordAll(data, f, init);
      var r := Record(data, mid, last);
      assert acts == init + [last];
      forall i | 0 <= i < |data|
        ensures r.cl.skip[i] <==> f.cl.skip[i] || Covered(acts, i)
      {
        assert r.cl.skip[i] == (mid.cl.skip[i] || last.range.value.start <= i < last.range.value.end);
        if Covered(acts, i) {
          var a :| a in acts && a.range.Some? && a.range.value.start <= i < a.range.value.end;
          if a != last {
            assert a in init;
          }
        }
        if Covered(init, i) {
          var a :| a in init && a.range.Some? && a.range.value.start <= i < a.range.value.end;
          assert a in acts;
        }
      }
    }
  }

  /** `[from, to)` grows to cover every range, and the block flag records
      whether any action is block content. */
  lemma {:induction false} RecordAllSpan(data: string, f: Fold, acts: seq<Action>)
    requires FoldOk(f, |data|) && ActionsOk(acts, |data|)
    ensures var r := RecordAll(data, f, acts);
            && r.from <= f.from && r.to >= f.to
            && (forall a | a in acts :: r.from <= a.range.value.start && a.range.value.end <= r.to)
            && (r.newBlock <==> f.newBlock || exists a | a in acts :: a.isNewBlock)
  {
    if acts != [] {
      var init, last := acts[..|acts| - 1], acts[|acts| - 1];
      RecordAllSpan(data, f, init);
      assert acts == init + [last];
      forall a | a in acts
        ensures a in init || a == last
      {
      }
    }
  }

  /** One step of a scanner: claims only grow, and nothing after the index
      is claimed. */
  lemma StepClaims(data: string, cl: Claims, tag: TagValue, index: nat)
    requires index < |data| && Shaped(cl, |data|) && TagOk(tag, index)
    ensures var r := Step(data, cl, tag, index).0;
            && Grows(cl, r, |data|)
            && forall j | index < j < |data| :: r.skip[j] == cl.skip[j]
  {
    if !cl.skip[index] {
      var next := TagNext(tag, index, data[index]);
      ActionsOkLater(next.1, index + 1, |data|);
      var f0 := Fold(cl, MaxInt, 0, false);
      RecordAllGrows(data, f0, next.1);
      RecordAllClaimsExactly(data, f0, next.1);
      forall j | index < j < |data|
        ensures !Covered(next.1, j)
      {
        forall a | a in next.1
          ensures !(a.range.Some? && a.range.value.start <= j < a.range.value.end)
        {
          assert ActionOk(a, index + 1);
        }
      }
    }
  }

  /** A scanner run: claims, block marks and queued actions only grow. */
  lemma {:induction false} ScanGrows(data: string, cl: Claims, tag: TagValue, k: nat)
    requires k <= |data| && Shaped(cl, |data|) && TagOk(tag, 0)
    ensures Grows(cl, Scan(data, cl, tag, k).0, |data|)
  {
    if k > 0 {
      var j := k - 1;
      ScanGrows(data, cl, tag, j);
      var prev := Scan(data, cl, tag, j);
      StepClaims(data, prev.0, prev.1, j);
      GrowsTransitive(cl, prev.0, Scan(data, cl, tag, k).0, |data|);
    }
  }

  /** A scanner run over the first `k` indices claims nothing at or after `k`. */
  lemma {:induction false} ScanKeepsLaterClaims(data: string, cl: Claims, tag: TagValue, k: nat)
    requires k <= |data| && Shaped(cl, |data|) && TagOk(tag, 0)
    ensures forall j | k <= j < |data| :: Scan(data, cl, tag, k).0.skip[j] == cl.skip[j]
  {
    if k > 0 {
      var j := k - 1;
      ScanKeepsLaterClaims(data, cl, tag, j);
      var prev := Scan(data, cl, tag, j);
      StepClaims(data, prev.0, prev.1, j);
    }
  }

  /** The whole catalog pass only adds claims, block marks and actions. */
  lemma {:induction false} ApplyTagsGrows(data: string, cl: Claims, tags: seq<TagValue>)
    requires Shaped(cl, |data|) && TagsOk(tags)
    ensures Grows(cl, ApplyTags(data, cl, tags), |data|)
  {
    if tags != [] {
      ApplyTagsGrows(data, cl, tags[..|tags| - 1]);
      var mid := ApplyTags(data, cl, tags[..|tags| - 1]);
      ScanGrows(data, mid, tags[|tags| - 1], |data|);
      GrowsTransitive(cl, mid, ApplyTags(data, cl, tags), |data|);
    }
  }

  /** Claims and block marks of a `Next` call do not depend on the text. */
  lemma {:induction false} RecordAllMarksIgnoreText(d1: string, d2: string, f1: Fold, f2: Fold, acts: seq<Action>)
    requires |d1| == |d2| && FoldOk(f1, |d1|) && FoldOk(f2, |d2|) && ActionsOk(acts, |d1|)
    requires f1.cl.skip == f2.cl.skip && f1.cl.paragraphs == f2.cl.paragraphs
    requires f1.from == f2.from && f1.to == f2.to && f1.newBlock == f2.newBlock
    ensures var r1, r2 := RecordAll(d1, f1, acts), RecordAll(d2, f2, acts);
            && r1.cl.skip == r2.cl.skip && r1.cl.paragraphs == r2.cl.paragraphs
            && r1.from == r2.from && r1.to == r2.to && r1.newBlock == r2.newBlock
  {
    if acts != [] {
      RecordAllMarksIgnoreText(d1, d2, f1, f2, acts[..|acts| - 1]);
    }
  }

  /** A scanner never sees a claimed index: two documents that agree on the
      indices unclaimed when the scanner starts drive it through the same
      states and the same claims. */
  lemma {:induction false} ScanSeesOnlyUnclaimed(d1: string, d2: string, cl1: Claims, cl2: Claims, tag: TagValue, k: nat)
    requires |d1| == |d2| && k <= |d1| && Shaped(cl1, |d1|) && Shaped(cl2, |d2|) && TagOk(tag, 0)
    requires cl1.skip == cl2.skip && cl1.paragraphs == cl2.paragraphs
    requires forall i | 0 <= i < |d1| && !cl1.skip[i] :: d1[i] == d2[i]
    ensures var r1, r2 := Scan(d1, cl1, tag, k), Scan(d2, cl2, tag, k);
            r1.1 == r2.1 && r1.0.skip == r2.0.skip && r1.0.paragraphs == r2.0.paragraphs
  {
    if k > 0 {
      var j := k - 1;
      ScanSeesOnlyUnclaimed(d1, d2, cl1, cl2, tag, j);
      var p1, p2 := Scan(d1, cl1, tag, j), Scan(d2, cl2, tag, j);
      ScanKeepsLaterClaims(d1, cl1, tag, j);
      if !p1.0.skip[j] {
        assert d1[j] == d2[j];
        var next := TagNext(p1.1, j, d1[j]);
        ActionsOkLater(next.1, k, |d1|);
        RecordAllMarksIgnoreText(d1, d2, Fold(p1.0, MaxInt, 0, false), Fold(p2.0, MaxInt, 0, false), next.1);
      }
    }
  }

  // ---------------------------------------------------------------------------
  // What one step of each scanner emits
  // ---------------------------------------------------------------------------

  /** A generic tag emits exactly when an open construct closes: the index is
      not escaped, the closing-sized tail of the window is a closing trigger,
      and with several trigger variants the window is the variant the
      construct was opened with. It then emits the opening insertion over the
      opening trigger and the closing insertion at `index` over the closing
      trigger, which ends at `index`; the text between them is not claimed. */
  lemma GenericEmitsOnClose(g: GenericValue, index: nat, rn: char)
    requires GenericOk(g, index)
    ensures var r := GenericNext(g, index, rn);
            var b := GenericPrepare(g, index, rn);
            var sw := SmallerWindow(b.window, b.windowSize, |b.triggersClosing[0]|);
            && (r.1 != [] <==>
                  && !g.skip && (g.disableSkip || rn != '\\') && g.isOpen
                  && sw in b.triggersClosing && (|g.triggers| == 1 || g.openedWith == b.window))
            && (r.1 != [] ==>
                  && !r.0.isOpen
                  && r.1 == [Action(g.openedIndex, g.insertion[0], None,
                                    Some(Span(g.openedIndex, g.openedIndex + |g.openedWith|)), g.onNewline),
                             Action(index, g.insertion[1], None,
                                    Some(Span(index + 1 - |sw|, index + 1)), g.onNewline)])
  {
  }

  /** Backslash escaping in a generic tag: the backslash and the character
      after it neither open nor close a construct and emit nothing. */
  lemma GenericEscape(g: GenericValue, index: nat, rn: char)
    requires GenericOk(g, index)
    ensures var r := GenericNext(g, index, rn);
            && (!g.skip && !g.disableSkip && rn == '\\' ==> r.1 == [] && r.0.skip && r.0.isOpen == g.isOpen)
            && (g.skip ==> r.1 == [] && !r.0.skip && r.0.isOpen == g.isOpen)
  {
  }

  /** A line-anchored tag opens only when no white space other than a line
      break was seen since the last line break or the start of the document
      (the flag is cleared at index 0). */
  lemma LineAnchoredOpen(g: GenericValue, index: nat, rn: char)
    requires GenericOk(g, index) && g.onNewline
    ensures var r := GenericNext(g, index, rn);
            !g.isOpen && r.0.isOpen ==> index == 0 || !g.oldline
  {
  }

  /** A heading or blockquote (one trigger, closed by a line break) that is
      open closes at the next line break it sees, claims that line break, and
      re-adds it through its closing insertion. */
  lemma LineAnchoredClosesAtBreak(g: GenericValue, index: nat)
    requires GenericOk(g, index) && g.isOpen && !g.skip && |g.triggers| == 1
    requires g.triggersClosing == ["\n"] && |g.window| == g.windowSize >= 1
    ensures var r := GenericNext(g, index, '\n');
            && !r.0.isOpen
            && |r.1| == 2
            && r.1[1] == Action(index, g.insertion[1], None, Some(Span(index, index + 1)), g.onNewline)
  {
    var b := GenericPrepare(g, index, '\n');
    assert b.window[|b.window| - 1] == '\n';
    assert SmallerWindow(b.window, b.windowSize, 1) == "\n";
  }

  /** A fenced-code scanner emits exactly when, inside a code body, the window
      becomes a fence: one block action from the opening fence through the
      closing one, with the template the hint selects. */
  lemma CodeEmitsOnClosingFence(c: CodeValue, index: nat, rn: char)
    requires CodeOk(c, index)
    ensures var r := CodeNext(c, index, rn);
            && (r.1 != [] <==> c.state == Body && Slide(c.window, rn, 3) == Fence)
            && (r.1 != [] ==>
                  && r.0.state == New
                  && r.1 == [Action(c.start, "", SelectTransformation(c.transformations, c.hint),
                                    Some(Span(c.start, index + 1)), true)])
  {
  }

  /** The default code transform keeps exactly the text between the first and
      the last line break. */
  lemma CodeBodyBetweenBreaks(p: string, b: string, q: string)
    requires '\n' !in p && '\n' !in q
    ensures CodeBody(p + "\n" + b + "\n" + q) == b
  {
    var s := p + "\n" + b + "\n" + q;
    var from, to := FirstIndexOf(s, '\n'), LastIndexOf(s, '\n');
    assert s[|p|] == '\n';
    assert s[|p| + 1 + |b|] == '\n';
    forall j | 0 <= j < |p| ensures s[j] != '\n' {
      assert s[j] == p[j];
    }
    forall j | |p| + 1 + |b| < j < |s| ensures s[j] != '\n' {
      assert s[j] == q[j - |p| - 2 - |b|];
    }
    assert from == |p|;
    assert to == |p| + 1 + |b|;
    assert s[from + 1..to] == b;
  }

  /** With at most one line break in the claimed text the default code
      transform yields an empty body. */
  lemma CodeBodyEmpty(s: string)
    requires forall i, j | 0 <= i < j < |s| :: !(s[i] == '\n' && s[j] == '\n')
    ensures CodeBody(s) == ""
  {
  }

  /** The default link `Parser` turns `[hint](url)` into an anchor whose
      target is `url` and whose text is `hint`, splitting at the first `](`. */
  lemma LinkParserAnchor(h: string, u: string)
    requires forall j | 0 <= j <= |h| :: !OccursAt(h, "](", j)
    ensures LinkParser("[" + h + "](" + u + ")") == Anchor(u, h)
  {
    var data := "[" + h + "](" + u + ")";
    var inner := data[1..|data| - 1];
    assert inner == h + "](" + u;
    assert OccursAt(inner, "](", |h|);
    var cut := Cut(inner, "](");
    forall j | 0 <= j < |h|
      ensures !OccursAt(inner, "](", j)
    {
      if j + 2 <= |h| {
        assert inner[j..j + 2] == h[j..j + 2];
        assert !OccursAt(h, "](", j);
      } else {
        assert inner[j..j + 2][1] == ']';
      }
    }
    assert cut.2;
    assert cut.0 == h && cut.1 == u;
  }

  /** A link scanner emits exactly at the `)` that ends an open link, one
      action from the `[` through the `)` carrying the link template. */
  lemma LinkEmitsOnClose(l: LinkValue, index: nat, rn: char)
    requires LinkOk(l, index)
    ensures var r := LinkNext(l, index, rn);
            && (r.1 != [] <==> l.openLink && rn == ')')
            && (r.1 != [] ==>
                  !r.0.openLink
                  && r.1 == [Action(l.openIndex, "", Some(LinkAnchor), Some(Span(l.openIndex, index + 1)), false)])
  {
  }

  /** A `]` not followed by `(` abandons the hint; the scanner does not look back. */
  lemma LinkAbandons(l: LinkValue, index: nat, rn: char)
    requires LinkOk(l, index) && l.openHint && !l.openLink && !l.skip
    requires l.window[1] == ']' && rn != '(' && rn != '\\'
    ensures var r := LinkNext(l, index, rn);
            !r.0.openHint && !r.0.openLink && r.1 == []
  {
  }

  /** Backslash escaping in the link scanner outside a link target: the
      character after a backslash neither opens nor advances a link. */
  lemma LinkEscape(l: LinkValue, index: nat, rn: char)
    requires LinkOk(l, index) && l.skip && !l.openLink
    ensures var r := LinkNext(l, index, rn);
            r.1 == [] && !r.0.skip && r.0.openHint == l.openHint && !r.0.openLink
  {
  }

  // ---------------------------------------------------------------------------
  // Block content
  // ---------------------------------------------------------------------------

  /** When a step feeds an unclaimed index and the scanner answers with a
      block action, every index from the first range start through the last
      range end of its answer becomes block content; without a block action
      no index becomes block content. */
  lemma StepMarksBlocks(data: string, cl: Claims, tag: TagValue, index: nat)
    requires index < |data| && Shaped(cl, |data|) && TagOk(tag, index) && !cl.skip[index]
    ensures var acts := TagNext(tag, index, data[index]).1;
            var r := Step(data, cl, tag, index).0;
            && ((exists a | a in acts :: a.isNewBlock) ==>
                  forall a, b, j | a in acts && b in acts && a.range.value.start <= j < b.range.value.end ::
                    r.paragraphs[j])
            && ((forall a | a in acts :: !a.isNewBlock) ==> r.paragraphs == cl.paragraphs)
  {
    var acts := TagNext(tag, index, data[index]).1;
    ActionsOkLater(acts, index + 1, |data|);
    var f := Fold(cl, MaxInt, 0, false);
    RecordAllSpan(data, f, acts);
    RecordAllGrows(data, f, acts);
  }

  // ---------------------------------------------------------------------------
  // markdownApplyParagraphs
  // ---------------------------------------------------------------------------

  /** A queue the paragraph pass may leave as it is, or give a `<p…>` in front
      or a `</p>` at the back. */
  predicate WrappedOrKept(before: seq<Action>, after: seq<Action>, i: int)
  {
    after == before || after == [ParagraphOpenAt(i)] + before || after == before + [ParagraphCloseAt(i)]
  }

  /** The paragraph pass from `from` on leaves every index before `from`
      alone; it only adds paragraph wrappers, one per index at most, and only
      at indices that were not block content; block marks are never removed. */
  lemma {:induction false} ParagraphsOnlyWrap(data: string, actions: seq<seq<Action>>, paragraphs: seq<bool>, from: nat)
    requires |actions| == |paragraphs| == |data| && from <= |data|
    ensures var r := Paragraphs(data, actions, paragraphs, from);
            forall i | 0 <= i < |data| ::
              && (i < from ==> r.0[i] == actions[i] && r.1[i] == paragraphs[i])
              && WrappedOrKept(actions[i], r.0[i], i)
              && (r.0[i] != actions[i] ==> !paragraphs[i])
              && (paragraphs[i] ==> r.1[i])
    decreases |data| - from
  {
    if from == |data| {
    } else if paragraphs[from] {
      ParagraphsOnlyWrap(data, actions, paragraphs, from + 1);
    } else {
      var end := RunEnd(data, paragraphs, from + 1);
      var to := end - 1;
      var marked := MarkRange(paragraphs, from, to);
      if AllSpace(data[from..to]) {
        ParagraphsOnlyWrap(data, actions, marked, end);
      } else {
        var withOpen := actions[from := [ParagraphOpenAt(from)] + actions[from]];
        var wrapped := withOpen[to := withOpen[to] + [ParagraphCloseAt(to)]];
        assert !paragraphs[to] by {
          assert !RunBreak(data, paragraphs, to);
        }
        ParagraphsOnlyWrap(data, wrapped, marked, end);
      }
    }
  }

  /** A document made only of white space gets no paragraph wrapper. */
  lemma {:induction false} ParagraphsSkipWhiteSpace(data: string, actions: seq<seq<Action>>, paragraphs: seq<bool>, from: nat)
    requires |actions| == |paragraphs| == |data| && from <= |data| && AllSpace(data)
    ensures Paragraphs(data, actions, paragraphs, from).0 == actions
    decreases |data| - from
  {
    if from == |data| {
    } else if paragraphs[from] {
      ParagraphsSkipWhiteSpace(data, actions, paragraphs, from + 1);
    } else {
      var end := RunEnd(data, paragraphs, from + 1);
      var to := end - 1;
      assert AllSpace(data[from..to]) by {
        assert forall j | 0 <= j < to - from :: data[from..to][j] == data[from + j];
      }
      ParagraphsSkipWhiteSpace(data, actions, MarkRange(paragraphs, from, to), end);
    }
  }

  /** Where a run of the paragraph pass puts its wrapper. The run starting at
      a non-block `from` spans `[from, to)`, where `to` is one before the
      index where the inner loop stops. Its indices become block content and
      nothing strictly inside it gains an action. A run whose text is all
      white space gets no wrapper; any other gets `<p…>` in front of the
      actions queued at `from` and `</p>` after those queued at `to`. */
  lemma ParagraphPlacement(data: string, actions: seq<seq<Action>>, paragraphs: seq<bool>, from: nat)
    requires |actions| == |paragraphs| == |data| && from < |data| && !paragraphs[from]
    ensures var to := RunEnd(data, paragraphs, from + 1) - 1;
            var r := Paragraphs(data, actions, paragraphs, from);
            && from <= to < |data|
            && (forall i | from < i < to :: r.0[i] == actions[i])
            && (forall i | from <= i < to :: r.1[i])
            && (AllSpace(data[from..to]) ==> r.0[from] == actions[from] && r.0[to] == actions[to])
            && (!AllSpace(data[from..to]) ==>
                  && from < to
                  && r.0[from] == [ParagraphOpenAt(from)] + actions[from]
                  && r.0[to] == actions[to] + [ParagraphCloseAt(to)])
  {
    var end := RunEnd(data, paragraphs, from + 1);
    var to := end - 1;
    var marked := MarkRange(paragraphs, from, to);
    if AllSpace(data[from..to]) {
      assert Paragraphs(data, actions, paragraphs, from) == Paragraphs(data, actions, marked, end);
      ParagraphsOnlyWrap(data, actions, marked, end);
    } else {
      assert from < to;
      var withOpen := actions[from := [ParagraphOpenAt(from)] + actions[from]];
      var wrapped := withOpen[to := withOpen[to] + [ParagraphCloseAt(to)]];
      assert wrapped[from] == [ParagraphOpenAt(from)] + actions[from];
      assert wrapped[to] == actions[to] + [ParagraphCloseAt(to)];
      assert forall i | from < i < to :: wrapped[i] == actions[i];
      assert Paragraphs(data, actions, paragraphs, from) == Paragraphs(data, wrapped, marked, end);
      ParagraphsOnlyWrap(data, wrapped, marked, end);
    }
  }

  /** Text without a line break becomes one paragraph whose `</p>` is queued in
      front of its last character, so that character is printed after the
      paragraph closes. */
  lemma ParagraphLeavesLastCharOut()
    ensures var r := Paragraphs("ab", [[], []], [false, false], 0);
            && r.0 == [[ParagraphOpenAt(0)], [ParagraphCloseAt(1)]]
            && RenderedBody("ab", [false, false], r.0, 2) == ParagraphOpen + "a" + ParagraphClose + "b"
  {
    assert RunEnd("ab", [false, false], 1) == 2 by {
      assert "ab"[0..2] == "ab";
    }
    assert !AllSpace("ab"[0..1]) by {
      assert "ab"[0..1][0] == 'a';
      assert !IsSpace('a');
    }
    var empty: seq<seq<Action>> := [[], []];
    assert [ParagraphOpenAt(0)] + empty[0] == [ParagraphOpenAt(0)];
    var withOpen := empty[0 := [ParagraphOpenAt(0)] + empty[0]];
    assert withOpen[1] + [ParagraphCloseAt(1)] == [ParagraphCloseAt(1)];
    assert withOpen == [[ParagraphOpenAt(0)], []];
    var wrapped := withOpen[1 := withOpen[1] + [ParagraphCloseAt(1)]];
    assert wrapped == [[ParagraphOpenAt(0)], [ParagraphCloseAt(1)]];
    assert Paragraphs("ab", empty, [false, false], 0) == Paragraphs("ab", wrapped, MarkRange([false, false], 0, 1), 2);
    assert SortDesc([ParagraphOpenAt(0)]) == [ParagraphOpenAt(0)];
    assert SortDesc([ParagraphCloseAt(1)]) == [ParagraphCloseAt(1)];
    assert Insertions([ParagraphOpenAt(0)]) == ParagraphOpen;
    assert Insertions([ParagraphCloseAt(1)]) == ParagraphClose;
    assert RenderedBody("ab", [false, false], wrapped, 1) == ParagraphOpen + "a";
  }
}
