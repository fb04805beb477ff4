/** Whole runs of one scanner over a text: what a scanner answers when it is
    fed every character of a text from index 0, and how such a run is what
    `markdownApplyTags` does on a document no earlier scanner claimed. */
module MdRuns {
  import opened Common
  import opened MdScan
  import opened MdSpec
  import opened MdProps

  /** A scanner fed the characters of `s` from index 0, none passed over: its
      final state and every action it answered, in order. */
  function TagRun(t: TagValue, s: string): (r: (TagValue, seq<Action>))
    requires TagOk(t, 0)
    ensures TagOk(r.0, |s|) && ActionsOk(r.1, |s|)
    ensures r.0.GenericTag? == t.GenericTag? && r.0.CodeTag? == t.CodeTag?
  {
    if s == [] then (t, [])
    else
      var prev := TagRun(t, s[..|s| - 1]);
      var next := TagNext(prev.0, |s| - 1, s[|s| - 1]);
      ActionsOkLater(prev.1, |s| - 1, |s|);
      (next.0, prev.1 + next.1)
  }

  /** Feeding one more character. */
  lemma TagRunSnoc(t: TagValue, s: string, c: char)
    requires TagOk(t, 0)
    ensures var prev := TagRun(t, s);
            var next := TagNext(prev.0, |s|, c);
            TagRun(t, s + [c]) == (next.0, prev.1 + next.1)
  {
    assert (s + [c])[..|s|] == s;
  }

  lemma CoveredConcat(x: seq<Action>, y: seq<Action>, i: int)
    ensures Covered(x + y, i) <==> Covered(x, i) || Covered(y, i)
  {
    if Covered(x + y, i) {
      var a :| a in x + y && a.range.Some? && a.range.value.start <= i < a.range.value.end;
      assert a in x || a in y;
    }
    if Covered(x, i) {
      var a :| a in x && a.range.Some? && a.range.value.start <= i < a.range.value.end;
      assert a in x + y;
    }
    if Covered(y, i) {
      var a :| a in y && a.range.Some? && a.range.value.start <= i < a.range.value.end;
      assert a in x + y;
    }
  }

  /** A step on an unclaimed index feeds the scanner and claims exactly what
      its answer covers. */
  lemma StepOnUnclaimed(data: string, cl: Claims, tag: TagValue, index: nat)
    requires index < |data| && Shaped(cl, |data|) && TagOk(tag, index) && !cl.skip[index]
    ensures var r := Step(data, cl, tag, index);
            var next := TagNext(tag, index, data[index]);
            && r.1 == next.0
            && forall i | 0 <= i < |data| :: r.0.skip[i] <==> cl.skip[i] || Covered(next.1, i)
  {
    var next := TagNext(tag, index, data[index]);
    ActionsOkLater(next.1, index + 1, |data|);
    RecordAllClaimsExactly(data, Fold(cl, MaxInt, 0, false), next.1);
  }

  /** The scan of the first `k` indices of a document nothing has claimed is
      the plain run over `data[..k]`: same state, and exactly the indices its
      actions cover are claimed. */
  predicate ScanMatchesRun(data: string, cl: Claims, tag: TagValue, k: nat)
    requires k <= |data| && Shaped(cl, |data|) && TagOk(tag, 0)
  {
    var r := Scan(data, cl, tag, k);
    var run := TagRun(tag, data[..k]);
    && r.1 == run.0
    && forall i | 0 <= i < |data| :: r.0.skip[i] <==> Covered(run.1, i)
  }

  /** The scan's step at an index it has not claimed. */
  lemma ScanUnclaimedStep(data: string, cl: Claims, tag: TagValue, j: nat)
    requires j < |data| && Shaped(cl, |data|) && TagOk(tag, 0)
    requires !Scan(data, cl, tag, j).0.skip[j]
    ensures var prev := Scan(data, cl, tag, j);
            var next := TagNext(prev.1, j, data[j]);
            && Scan(data, cl, tag, j + 1).1 == next.0
            && forall i | 0 <= i < |data| :: Scan(data, cl, tag, j + 1).0.skip[i] <==> prev.0.skip[i] || Covered(next.1, i)
  {
    var prev := Scan(data, cl, tag, j);
    StepOnUnclaimed(data, prev.0, prev.1, j);
  }

  /** The run over one more character of the document. */
  lemma TagRunPrefixStep(tag: TagValue, data: string, j: nat)
    requires j < |data| && TagOk(tag, 0)
    ensures var run := TagRun(tag, data[..j]);
            var next := TagNext(run.0, j, data[j]);
            && TagRun(tag, data[..j + 1]).0 == next.0
            && TagRun(tag, data[..j + 1]).1 == run.1 + next.1
  {
    assert data[..j + 1] == data[..j] + [data[j]];
    TagRunSnoc(tag, data[..j], data[j]);
  }

  lemma ScanMatchesRunStep(data: string, cl: Claims, tag: TagValue, j: nat)
    requires j < |data| && Shaped(cl, |data|) && TagOk(tag, 0)
    requires forall i | 0 <= i < |data| :: !cl.skip[i]
    requires ScanMatchesRun(data, cl, tag, j)
    ensures ScanMatchesRun(data, cl, tag, j + 1)
  {
    ScanKeepsLaterClaims(data, cl, tag, j);
    ScanUnclaimedStep(data, cl, tag, j);
    TagRunPrefixStep(tag, data, j);
    var run := TagRun(tag, data[..j]);
    var next := TagNext(run.0, j, data[j]);
    forall i | 0 <= i < |data|
      ensures Covered(run.1 + next.1, i) <==> Covered(run.1, i) || Covered(next.1, i)
    {
      CoveredConcat(run.1, next.1, i);
    }
  }

  /** On a document nothing has claimed yet, the engine's scan of the first
      `k` indices feeds the scanner every one of them: its state is that of
      the plain run over `data[..k]`, and the claimed indices are exactly
      those the run's actions cover. */
  lemma {:induction false} ScanIsRun(data: string, cl: Claims, tag: TagValue, k: nat)
    requires k <= |data| && Shaped(cl, |data|) && TagOk(tag, 0)
    requires forall j | 0 <= j < |data| :: !cl.skip[j]
    ensures var r := Scan(data, cl, tag, k);
            var run := TagRun(tag, data[..k]);
            && r.1 == run.0
            && forall i | 0 <= i < |data| :: r.0.skip[i] <==> Covered(run.1, i)
  {
    if k > 0 {
      var j := k - 1;
      ScanIsRun(data, cl, tag, j);
      ScanMatchesRunStep(data, cl, tag, j);
    }
  }

  // ---------------------------------------------------------------------------
  // The line-start rule
  // ---------------------------------------------------------------------------

  /** White space other than a line break occurs after the last line break of
      `s` (or anywhere in `s` when it has none). */
  predicate SpaceSinceLineStart(s: string)
  {
    exists j | LastIndexOf(s, '\n') < j < |s| :: IsSpace(s[j])
  }

  /** One generic step updates the flag from its value before the step,
      which index 0 resets. */
  lemma NextKeepsOldlineRule(g: GenericValue, index: nat, rn: char)
    requires GenericOk(g, index)
    ensures GenericNext(g, index, rn).0.oldline == NextOldline(index != 0 && g.oldline, rn)
  {
    PrepareOk(g, index, rn);
    var b := GenericPrepare(g, index, rn);
    assert GenericSwitch(b, index, rn).0.oldline == b.oldline;
  }

  /** A generic step leaves the configuration of the tag as it is. */
  lemma NextKeepsSetup(g: GenericValue, index: nat, rn: char)
    requires GenericOk(g, index)
    ensures var r := GenericNext(g, index, rn).0;
            && r.triggers == g.triggers && r.onNewline == g.onNewline
            && r.disableSkip == g.disableSkip && r.insertion == g.insertion
  {
    PrepareOk(g, index, rn);
    var b := GenericPrepare(g, index, rn);
    var r := GenericSwitch(b, index, rn).0;
    assert r.triggers == g.triggers && r.onNewline == g.onNewline;
  }

  /** A generic run leaves the configuration of the tag as it is. */
  lemma {:induction false} RunKeepsSetup(g: GenericValue, s: string)
    requires GenericOk(g, 0)
    ensures var r := TagRun(GenericTag(g), s).0.g;
            && r.triggers == g.triggers && r.onNewline == g.onNewline
            && r.disableSkip == g.disableSkip && r.insertion == g.insertion
  {
    if s != [] {
      var init := s[..|s| - 1];
      assert s == init + [s[|s| - 1]];
      RunKeepsSetup(g, init);
      TagRunSnoc(GenericTag(g), init, s[|s| - 1]);
      NextKeepsSetup(TagRun(GenericTag(g), init).0.g, |init|, s[|s| - 1]);
    }
  }

  /** The line-start rule over one more character. */
  lemma SpaceSinceSnoc(init: string, c: char)
    ensures SpaceSinceLineStart(init + [c]) == NextOldline(SpaceSinceLineStart(init), c)
  {
    var s := init + [c];
    assert s[..|s| - 1] == init;
    if c == '\n' {
      assert LastIndexOf(s, '\n') == |s| - 1;
    } else {
      assert LastIndexOf(s, '\n') == LastIndexOf(init, '\n');
      if IsSpace(c) {
        assert IsSpace(s[|s| - 1]);
      } else {
        if SpaceSinceLineStart(s) {
          var j :| LastIndexOf(s, '\n') < j < |s| && IsSpace(s[j]);
          assert init[j] == s[j];
        }
        if SpaceSinceLineStart(init) {
          var j :| LastIndexOf(init, '\n') < j < |init| && IsSpace(init[j]);
          assert s[j] == init[j];
        }
      }
    }
  }

  /** After a generic run over a non-empty text, the flag the line-start rule
      reads says whether white space other than a line break was seen since
      the last line break. */
  lemma {:induction false} OldlineTracksLine(g: GenericValue, s: string)
    requires GenericOk(g, 0) && |s| >= 1
    ensures TagRun(GenericTag(g), s).0.g.oldline == SpaceSinceLineStart(s)
  {
    var init, c := s[..|s| - 1], s[|s| - 1];
    SplitLast(s);
    TagRunSnoc(GenericTag(g), init, c);
    var prev := TagRun(GenericTag(g), init).0.g;
    NextKeepsOldlineRule(prev, |init|, c);
    if |init| >= 1 {
      OldlineTracksLine(g, init);
    }
    SpaceSinceSnoc(init, c);
  }

  /** A line-anchored tag opens a construct on the character after `s` only
      if no white space other than a line break was seen since the last line
      break of `s` (or since the start of the document). */
  lemma LineAnchoredOpensAtLineStart(g: GenericValue, s: string, c: char)
    requires GenericOk(g, 0) && g.onNewline
    ensures var before := TagRun(GenericTag(g), s).0.g;
            var after := TagRun(GenericTag(g), s + [c]).0.g;
            !before.isOpen && after.isOpen ==> !SpaceSinceLineStart(s)
  {
    var prev := TagRun(GenericTag(g), s).0;
    TagRunSnoc(GenericTag(g), s, c);
    assert TagRun(GenericTag(g), s + [c]).0.g == GenericNext(prev.g, |s|, c).0;
    RunKeepsSetup(g, s);
    LineAnchoredOpen(prev.g, |s|, c);
    if |s| >= 1 {
      OldlineTracksLine(g, s);
    }
  }

  // ---------------------------------------------------------------------------
  // Trigger variants
  // ---------------------------------------------------------------------------

  /** The italic entry of the catalog. */
  const ItalicTag: GenericValue := GenericInit(["*", "_"], [], false, Italic, [])

  lemma ItalicEntry()
    ensures Catalog()[10] == GenericTag(ItalicTag)
  {
  }

  /** The italic tag once `*` opened a construct at index 0, with `w` as its window. */
  function ItalicOpen(w: string): GenericValue
  {
    ItalicTag.(triggersClosing := ["*", "_"], windowSize := 1, window := w,
               isOpen := true, openedWith := "*", openedIndex := 0)
  }

  lemma ItalicStep0()
    ensures GenericNext(ItalicTag, 0, '*') == (ItalicOpen("*"), [])
  {
    var b := GenericPrepare(ItalicTag, 0, '*');
    assert b.triggersClosing == ["*", "_"];
    assert b.windowSize == 1;
    assert b.window == "*";
    assert b == ItalicTag.(triggersClosing := ["*", "_"], windowSize := 1, window := "*");
    assert "*" in b.triggers;
    var r := GenericSwitch(b, 0, '*');
    assert r.0 == ItalicOpen("*");
  }

  lemma ItalicStep1()
    ensures GenericNext(ItalicOpen("*"), 1, 'a') == (ItalicOpen("a"), [])
  {
  }

  /** `*a*` is italic: after `*a` (steps 0 and 1) the closing `*` claims
      both delimiters and queues `<i>` and `</i>`. */
  lemma ItalicPairs()
    ensures GenericNext(ItalicOpen("a"), 2, '*')
            == (ItalicOpen("*").(isOpen := false),
                [Action(0, "<i>", None, Some(Span(0, 1)), false), Action(2, "</i>", None, Some(Span(2, 3)), false)])
  {
  }

  /** `*a_` is not italic: after `*a` (steps 0 and 1) the other variant does
      not close the construct, which stays open and emits nothing. */
  lemma ItalicVariantsDoNotPair()
    ensures GenericNext(ItalicOpen("a"), 2, '_') == (ItalicOpen("_"), [])
  {
  }

  // ---------------------------------------------------------------------------
  // Links
  // ---------------------------------------------------------------------------

  /** The link scanner holds a hint opened at index 0, with no link target
      open, no escape pending and no `]` last seen. */
  predicate InHint(l: LinkValue)
  {
    l.openHint && !l.openLink && !l.skip && l.openIndex == 0 && |l.window| == 2 && l.window[1] != ']'
  }

  /** Inside a hint opened at index 0, a character other than `]` and the
      backslash keeps the hint open and emits nothing. */
  lemma HintStep(t: TagValue, index: nat, c: char)
    requires TagOk(t, index) && t.LinkTag? && InHint(t.l) && c != ']' && c != '\\'
    ensures var r := TagNext(t, index, c); r.0.LinkTag? && InHint(r.0.l) && r.1 == []
  {
  }

  /** An opening `[` opens a hint at index 0. */
  lemma LinkOpenRun()
    ensures var r := TagRun(LinkTag(LinkInit), "["); r.1 == [] && r.0.LinkTag? && InHint(r.0.l)
  {
    assert "[" == [] + ['['];
    TagRunSnoc(LinkTag(LinkInit), [], '[');
  }

  /** Inside `[hint` (no `]` and no backslash in the hint) the link scanner
      holds a hint opened at index 0 and has emitted nothing. */
  lemma {:induction false} LinkHintRun(h: string, i: nat)
    requires ']' !in h && '\\' !in h && i <= |h|
    ensures var r := TagRun(LinkTag(LinkInit), "[" + h[..i]);
            r.1 == [] && r.0.LinkTag? && InHint(r.0.l)
  {
    if i == 0 {
      assert "[" + h[..0] == "[";
      LinkOpenRun();
    } else {
      var p := i - 1;
      var s := "[" + h[..p];
      LinkHintRun(h, p);
      assert h[p] in h;
      PrefixSnoc("[", h, p);
      TagRunSnoc(LinkTag(LinkInit), s, h[p]);
      var prev := TagRun(LinkTag(LinkInit), s);
      HintStep(prev.0, |s|, h[p]);
      var next := TagNext(prev.0, |s|, h[p]);
      assert TagRun(LinkTag(LinkInit), s + [h[p]]) == (next.0, [] + []);
    }
  }

  /** Inside `[hint](url` (no `)` in the url so far) the link scanner holds an
      open link started at index 0 and has emitted nothing. */
  lemma {:induction false} LinkTargetRun(h: string, u: string, j: nat)
    requires ']' !in h && '\\' !in h && ')' !in u && j <= |u|
    ensures var r := TagRun(LinkTag(LinkInit), "[" + h + "](" + u[..j]);
            r.1 == [] && r.0.l.openLink && r.0.l.openIndex == 0
  {
    if j == 0 {
      LinkHintRun(h, |h|);
      assert h[..|h|] == h;
      TagRunSnoc(LinkTag(LinkInit), "[" + h, ']');
      TagRunSnoc(LinkTag(LinkInit), "[" + h + "]", '(');
      assert "[" + h + "](" + u[..0] == ("[" + h + "]") + ['('];
      assert "[" + h + "]" == ("[" + h) + [']'];
    } else {
      var p := j - 1;
      LinkTargetRun(h, u, p);
      assert u[p] in u;
      PrefixSnoc("[" + h + "](", u, p);
      TagRunSnoc(LinkTag(LinkInit), "[" + h + "](" + u[..p], u[p]);
    }
  }

  /** The link scanner run over `[hint](url)` emits one action: the link
      template over the whole text, from the `[` through the `)`. */
  lemma LinkRunClaimsWhole(data: string, h: string, u: string)
    requires ']' !in h && '\\' !in h && ')' !in u
    requires data == "[" + h + "](" + u + ")"
    ensures TagRun(LinkTag(LinkInit), data).1 == [Action(0, "", Some(LinkAnchor), Some(Span(0, |data|)), false)]
  {
    var pre := "[" + h + "](" + u;
    LinkTargetRun(h, u, |u|);
    assert u[..|u|] == u;
    var l := TagRun(LinkTag(LinkInit), pre).0.l;
    LinkEmitsOnClose(l, |pre|, ')');
    assert data == pre + [')'];
    TagRunSnoc(LinkTag(LinkInit), pre, ')');
  }

  // ---------------------------------------------------------------------------
  // Fenced code
  // ---------------------------------------------------------------------------

  /** A code scanner in its zero state, whatever templates it registers. */
  predicate CodeFresh(c: CodeValue)
  {
    c.state == Unset && c.window == []
  }

  /** The code scanner fed the characters of `s` from index 0. */
  function CodeRun(c: CodeValue, s: string): (r: (CodeValue, seq<Action>))
    requires CodeOk(c, 0)
    ensures CodeOk(r.0, |s|)
  {
    if s == [] then (c, [])
    else
      var prev := CodeRun(c, s[..|s| - 1]);
      var next := CodeNext(prev.0, |s| - 1, s[|s| - 1]);
      (next.0, prev.1 + next.1)
  }

  /** The code scanner's run is its catalog entry's run. */
  lemma {:induction false} CodeRunIsTagRun(c: CodeValue, s: string)
    requires CodeOk(c, 0)
    ensures TagRun(CodeTag(c), s) == (CodeTag(CodeRun(c, s).0), CodeRun(c, s).1)
  {
    if s != [] {
      CodeRunIsTagRun(c, s[..|s| - 1]);
    }
  }

  lemma CodeRunSnoc(c: CodeValue, s: string, x: char)
    requires CodeOk(c, 0)
    ensures var prev := CodeRun(c, s);
            var next := CodeNext(prev.0, |s|, x);
            CodeRun(c, s + [x]) == (next.0, prev.1 + next.1)
  {
    assert (s + [x])[..|s|] == s;
  }

  /** No fence occurs in `t`. */
  predicate NoFence(t: string)
  {
    forall k | 0 <= k <= |t| :: !OccursAt(t, Fence, k)
  }

  /** Sliding a three-character window over one more character. */
  lemma SlideSuffix(s: string, x: char)
    ensures Slide(s[Max(0, |s| - 3)..], x, 3) == (s + [x])[Max(0, |s| + 1 - 3)..]
  {
  }

  /** The code scanner's window holds the last three characters it saw. */
  lemma {:induction false} CodeRunWindow(c0: CodeValue, s: string)
    requires CodeFresh(c0)
    ensures CodeRun(c0, s).0.window == s[Max(0, |s| - 3)..]
  {
    if s != [] {
      var init, x := s[..|s| - 1], s[|s| - 1];
      SplitLast(s);
      CodeRunWindow(c0, init);
      CodeRunSnoc(c0, init, x);
      SlideSuffix(init, x);
    }
  }

  /** The opening fence starts a block at index 0 and the scanner reads its hint. */
  lemma CodeOpeningFence(c0: CodeValue, s: string)
    requires CodeFresh(c0) && s == Fence
    ensures var r := CodeRun(c0, s);
            r.1 == [] && r.0.state == Hint && r.0.hint == [] && r.0.start == 0
  {
    assert s[..2] == s[..1] + [s[1]] && s[..1] == s[..0] + [s[0]] && s == s[..2] + [s[2]];
    CodeRunSnoc(c0, s[..0], s[0]);
    CodeRunSnoc(c0, s[..1], s[1]);
    CodeRunSnoc(c0, s[..2], s[2]);
    CodeRunWindow(c0, s[..1]);
    CodeRunWindow(c0, s[..2]);
    CodeRunWindow(c0, s);
  }

  /** Extending a prefix of `h` by its next character. */
  lemma PrefixSnoc(p: string, h: string, j: nat)
    requires j < |h|
    ensures p + h[..j + 1] == (p + h[..j]) + [h[j]]
  {
    TakeSnoc(h, j);
  }

  /** After the opening fence and `h[..i]` (no line break in the hint) the
      code scanner reads the hint of a block started at index 0. */
  lemma {:induction false} CodeHintRun(c0: CodeValue, h: string, i: nat)
    requires CodeFresh(c0) && '\n' !in h && i <= |h|
    ensures var r := CodeRun(c0, Fence + h[..i]);
            r.1 == [] && r.0.state == Hint && r.0.hint == h[..i] && r.0.start == 0
  {
    if i == 0 {
      assert Fence + h[..0] == Fence;
      CodeOpeningFence(c0, Fence);
    } else {
      var j := i - 1;
      CodeHintRun(c0, h, j);
      var s, x := Fence + h[..j], h[j];
      var c := CodeRun(c0, s).0;
      assert x in h;
      var n := CodeNext(c, |s|, x);
      assert n.1 == [] && n.0.state == Hint && n.0.start == 0 && n.0.hint == c.hint + [x];
      TakeSnoc(h, j);
      PrefixSnoc(Fence, h, j);
      CodeRunSnoc(c0, s, x);
    }
  }

  /** The line break that ends the hint starts the body. */
  lemma CodeBodyEnter(c0: CodeValue, h: string)
    requires CodeFresh(c0) && '\n' !in h
    ensures var r := CodeRun(c0, Fence + h + "\n");
            r.1 == [] && r.0.state == Body && r.0.hint == h && r.0.start == 0
  {
    CodeHintRun(c0, h, |h|);
    assert h[..|h|] == h;
    var c := CodeRun(c0, Fence + h).0;
    var n := CodeNext(c, |Fence + h|, '\n');
    assert n.1 == [] && n.0.state == Body && n.0.start == 0 && n.0.hint == h;
    CodeRunSnoc(c0, Fence + h, '\n');
  }

  /** In the body, a character whose window is not a fence only moves the window. */
  lemma CodeBodyKeeps(c: CodeValue, index: nat, x: char)
    requires CodeOk(c, index) && c.state == Body && Slide(c.window, x, 3) != Fence
    ensures CodeNext(c, index, x) == (c.(window := Slide(c.window, x, 3)), [])
  {
  }

  /** A body character whose window is not a fence keeps the body open. */
  lemma CodeBodyStep(c0: CodeValue, s: string, x: char, h: string)
    requires CodeFresh(c0)
    requires var r := CodeRun(c0, s);
             r.1 == [] && r.0.state == Body && r.0.hint == h && r.0.start == 0
             && Slide(r.0.window, x, 3) != Fence
    ensures var r := CodeRun(c0, s + [x]);
            r.1 == [] && r.0.state == Body && r.0.hint == h && r.0.start == 0
  {
    var prev := CodeRun(c0, s);
    CodeBodyKeeps(prev.0, |s|, x);
    CodeRunSnoc(c0, s, x);
  }

  /** Inside the body (the text `t` after the line break that ends the hint),
      as long as no fence was seen, the scanner stays in the body of the block
      started at index 0 and emits nothing. */
  lemma {:induction false} CodeBodyRun(c0: CodeValue, h: string, t: string, j: nat)
    requires CodeFresh(c0) && '\n' !in h && NoFence(t) && j <= |t|
    ensures var r := CodeRun(c0, Fence + h + "\n" + t[..j]);
            r.1 == [] && r.0.state == Body && r.0.hint == h && r.0.start == 0
  {
    var opening := Fence + h + "\n";
    if j == 0 {
      assert opening + t[..0] == opening;
      CodeBodyEnter(c0, h);
    } else {
      var p := j - 1;
      CodeBodyRun(c0, h, t, p);
      var s, x := opening + t[..p], t[p];
      PrefixSnoc(opening, t, p);
      var w := (s + [x])[Max(0, |s| + 1 - 3)..];
      if j >= 3 {
        assert w == t[j - 3..j];
        assert !OccursAt(t, Fence, j - 3);
      } else {
        assert w[2 - j] == '\n';
      }
      CodeRunWindow(c0, s);
      SlideSuffix(s, x);
      CodeBodyStep(c0, s, x, h);
    }
  }

  /** A body without a fence, followed by a line break and two backticks,
      still has no fence. */
  lemma NoFenceBeforeClosing(b: string)
    requires NoFence(b)
    ensures NoFence(b + "\n``")
  {
    var t := b + "\n``";
    forall k | 0 <= k <= |t|
      ensures !OccursAt(t, Fence, k)
    {
      if k + 3 <= |b| {
        assert t[k..k + 3] == b[k..k + 3];
        assert !OccursAt(b, Fence, k);
      } else if k + 3 <= |t| {
        assert t[k..k + 3][|b| - k] == '\n';
        assert Fence[|b| - k] == '`';
      }
    }
  }

  /** A code run keeps the registered templates. */
  lemma {:induction false} CodeRunKeepsTemplates(c0: CodeValue, s: string)
    requires CodeOk(c0, 0)
    ensures CodeRun(c0, s).0.transformations == c0.transformations
  {
    if s != [] {
      CodeRunKeepsTemplates(c0, s[..|s| - 1]);
    }
  }

  /** After two backticks, one more makes the window a fence. */
  lemma FenceWindow(c0: CodeValue, pre: string)
    requires CodeFresh(c0) && |pre| >= 2 && pre[|pre| - 2..] == "``"
    ensures Slide(CodeRun(c0, pre).0.window, '`', 3) == Fence
  {
    CodeRunWindow(c0, pre);
    SlideSuffix(pre, '`');
    var n := |pre|;
    assert Max(0, n + 1 - 3) == n - 2;
    assert (pre + ['`'])[n - 2..] == pre[n - 2..] + ['`'];
    assert "``" + ['`'] == Fence;
  }

  /** The backtick that completes a fence in the body closes the block. */
  lemma CodeClosingStep(c0: CodeValue, pre: string, h: string)
    requires CodeFresh(c0)
    requires var r := CodeRun(c0, pre);
             && r.1 == [] && r.0.state == Body && r.0.hint == h && r.0.start == 0
             && Slide(r.0.window, '`', 3) == Fence
    ensures CodeRun(c0, pre + ['`']).1
            == [Action(0, "", SelectTransformation(c0.transformations, h), Some(Span(0, |pre| + 1)), true)]
  {
    var prev := CodeRun(c0, pre);
    CodeRunKeepsTemplates(c0, pre);
    var next := CodeNext(prev.0, |pre|, '`');
    assert next.1 == [Action(0, "", SelectTransformation(c0.transformations, h), Some(Span(0, |pre| + 1)), true)];
    CodeRunSnoc(c0, pre, '`');
    assert CodeRun(c0, pre + ['`']).1 == [] + next.1;
  }

  /** The code scanner run over a fenced block (a hint without line breaks,
      a body without a fence) emits one block action over the whole text,
      from the opening fence through the closing one, with the template the
      hint selects. */
  lemma CodeRunClaimsWhole(c0: CodeValue, data: string, h: string, b: string)
    requires CodeFresh(c0) && '\n' !in h && NoFence(b)
    requires data == Fence + h + "\n" + b + "\n" + Fence
    ensures CodeRun(c0, data).1
            == [Action(0, "", SelectTransformation(c0.transformations, h), Some(Span(0, |data|)), true)]
  {
    var t := b + "\n``";
    NoFenceBeforeClosing(b);
    CodeBodyRun(c0, h, t, |t|);
    assert t[..|t|] == t;
    var pre := Fence + h + "\n" + t;
    assert data == pre + ['`'];
    FenceWindow(c0, pre);
    CodeClosingStep(c0, pre, h);
  }
}
