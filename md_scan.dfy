/** The recognisers of the Markdown engine (md.go) as pure step functions.

    Each scanner of md.go is a small state machine fed one character at a time;
    its state is given here as a datatype value and its `Next` as a function from
    the old state, the index and the character to the new state and the actions
    it emits. The classes in module MdTags run these same steps in place.

    Positions: the document is a `string` with one element per index, so an
    index of this model is the byte offset md.go uses whenever every character
    is a single byte. */
module MdScan {
  import opened Common

  // ---------------------------------------------------------------------------
  // Actions and the two template evaluations the engine depends on
  // ---------------------------------------------------------------------------

  /** The two templates of md.go that the engine evaluates: the default
      fenced-code transform and the link `Parser`. */
  datatype Template = CodeDefault | LinkAnchor

  /** A half-open index range `[start, end)`. */
  datatype Span = Span(start: int, end: int)

  /** `MarkdownTagAction`: text inserted before `index`, an optional template to
      run over the range, the range whose characters are claimed, and whether
      the construct is block content. */
  datatype Action = Action(index: int, insertion: string, transformation: Option<Template>,
                           range: Option<Span>, isNewBlock: bool)

  const CodeShellOpen: string :=
    "<div class=\"bg-muted relative rounded mt-5 first:mt-0\"><pre class=\"font-mono text-sm p-[0.5rem]\"><code>"
  const CodeShellClose: string := "</code></pre></div>"
  const AnchorOpen: string := "<a class=\"font-medium text-primary underline underline-offset-4\" href=\""

  /** The `transform` function of the default code template: the text strictly
      between the first and the last line break, or nothing when they coincide. */
  function CodeBody(data: string): (r: string)
    ensures |r| <= |data|
  {
    var from, to := FirstIndexOf(data, '\n'), LastIndexOf(data, '\n');
    if from == to then "" else data[from + 1..to]
  }

  /** The anchor element the link template prints. */
  function Anchor(href: string, text: string): string
  {
    AnchorOpen + href + "\">" + text + "</a>"
  }

  /** The default link `Parser`: drop the first and the last character (`[` and
      `)`), split at the first `](`, and print the anchor. */
  function LinkParser(data: string): string
    requires |data| >= 2
  {
    var cut := Cut(data[1..|data| - 1], "](");
    Anchor(cut.1, cut.0)
  }

  /** Evaluating a template over the captured text (`ExecuteSchema`). */
  function Execute(t: Template, children: string): string
    requires t == LinkAnchor ==> |children| >= 2
  {
    match t
    case CodeDefault => CodeShellOpen + CodeBody(children) + CodeShellClose
    case LinkAnchor => LinkParser(children)
  }

  /** What the orchestrator may rely on in an action a scanner emits when the
      document has `n` characters: its anchor and range lie in the document, and
      a transformation is anchored at the start of its range. */
  predicate ActionOk(a: Action, n: int)
  {
    && 0 <= a.index < n
    && a.range.Some?
    && 0 <= a.range.value.start <= a.range.value.end <= n
    && (a.transformation.Some? ==> a.index == a.range.value.start)
    && (a.transformation == Some(LinkAnchor) ==> a.range.value.end - a.range.value.start >= 2)
  }

  predicate ActionsOk(acts: seq<Action>, n: int)
  {
    forall a | a in acts :: ActionOk(a, n)
  }

  // ---------------------------------------------------------------------------
  // MarkdownGenericTag
  // ---------------------------------------------------------------------------

  /** The fields of `MarkdownGenericTag` (the unused `Transformation` is left out). */
  datatype GenericValue = GenericValue(
    triggers: seq<string>,
    triggersClosing: seq<string>,
    onNewline: bool,
    disableSkip: bool,
    insertion: seq<string>,
    window: string,
    windowSize: int,
    isOpen: bool,
    openedWith: string,
    openedIndex: int,
    skip: bool,
    oldline: bool)

  /** A trigger may hold a line break only as its last character. */
  predicate NewlineOnlyLast(t: string)
  {
    forall j | 0 <= j < |t| - 1 :: t[j] != '\n'
  }

  /** The state of a generic tag after the first `k` indices of a document were
      processed (seen or skipped): the configuration is usable, the part of the
      window older than those `k` indices is the pre-seeded line break, and an
      open construct started inside them. */
  predicate GenericOk(g: GenericValue, k: nat)
  {
    && |g.triggers| >= 1
    && |g.insertion| >= 2
    && (forall t | t in g.triggers :: NewlineOnlyLast(t))
    && (forall t | t in g.triggersClosing :: NewlineOnlyLast(t))
    && (g.windowSize != 0 ==> |g.triggersClosing| >= 1 && g.windowSize >= |g.triggersClosing[0]|)
    && (forall j | 0 <= j < |g.window| - k :: g.window[j] == '\n')
    && (g.isOpen ==> 0 <= g.openedIndex && g.openedIndex + |g.openedWith| <= k)
  }

  /** A suffix of the window that is a trigger fits in the indices seen so far. */
  lemma SuffixFits(w: string, s: string, k: nat)
    requires 1 <= k && |s| <= |w| && s == w[|w| - |s|..]
    requires NewlineOnlyLast(s)
    requires forall j | 0 <= j < |w| - k :: w[j] == '\n'
    ensures |s| <= k
  {
    if |s| >= 2 {
      assert w[|w| - |s|] == s[0] && s[0] != '\n';
    }
  }

  /** The window after appending `rn`, trimmed to `size` characters. */
  function Slide(window: string, rn: char, size: int): string
  {
    var w1 := window + [rn];
    if |w1| > size then w1[1..] else w1
  }

  /** Sliding keeps the pre-seeded part of the window older than the indices seen. */
  lemma SlideKeepsSeed(window: string, rn: char, size: int, k: nat)
    requires forall j | 0 <= j < |window| - k :: window[j] == '\n'
    ensures forall j | 0 <= j < |Slide(window, rn, size)| - (k + 1) :: Slide(window, rn, size)[j] == '\n'
  {
    var w := Slide(window, rn, size);
    forall j | 0 <= j < |w| - (k + 1) ensures w[j] == '\n' {
      assert w[j] == (window + [rn])[|window| + 1 - |w| + j];
    }
  }

  /** The closing-trigger-sized tail of the window (`smallerWindow`). */
  function SmallerWindow(w: string, size: int, closingLen: int): (sw: string)
    requires closingLen <= size
    ensures |sw| <= |w| && sw == w[|w| - |sw|..]
  {
    w[Min(size - closingLen, |w|)..]
  }

  /** The line-start flag after this character: a line break clears it, other
      white space sets it (the deferred assignments of md.go). */
  function NextOldline(before: bool, rn: char): bool
  {
    if rn == '\n' then false else if IsSpace(rn) then true else before
  }

  /** What `MarkdownGenericTag.Next` needs of its configuration: a first
      trigger, and a window size that fits the first closing trigger once set. */
  predicate Configured(g: GenericValue)
  {
    && |g.triggers| >= 1
    && (g.windowSize != 0 ==> |g.triggersClosing| >= 1 && g.windowSize >= |g.triggersClosing[0]|)
  }

  /** The part of `MarkdownGenericTag.Next` before its `switch`: the defaults
      filled in, the line-start flag reset at index 0 and the window slid. */
  function GenericPrepare(g: GenericValue, index: nat, rn: char): (b: GenericValue)
    requires Configured(g)
    ensures |b.triggersClosing| >= 1 && |b.triggersClosing[0]| <= b.windowSize
  {
    var closing := if |g.triggersClosing| == 0 then g.triggers else g.triggersClosing;
    var size := if g.windowSize == 0 then Max(|g.triggers[0]|, |closing[0]|) else g.windowSize;
    g.(triggersClosing := closing, windowSize := size, window := Slide(g.window, rn, size),
       oldline := if index == 0 then false else g.oldline)
  }

  /** A prepared state at `index`: valid one index later, with the construct
      it holds open started before `index`. */
  predicate Prepared(b: GenericValue, index: nat)
  {
    && GenericOk(b, index + 1)
    && |b.triggersClosing| >= 1 && |b.triggersClosing[0]| <= b.windowSize
    && (b.isOpen ==> b.openedIndex + |b.openedWith| <= index)
  }

  /** The two actions a closing trigger emits: the opening insertion over the
      opening trigger and the closing insertion over the closing trigger `sw`,
      which ends at `index`. */
  function GenericCloseActions(b: GenericValue, index: nat, sw: string): (acts: seq<Action>)
    requires Prepared(b, index) && b.isOpen && |sw| <= index + 1
    ensures ActionsOk(acts, index + 1)
  {
    [Action(b.openedIndex, b.insertion[0], None,
            Some(Span(b.openedIndex, b.openedIndex + |b.openedWith|)), b.onNewline),
     Action(index, b.insertion[1], None, Some(Span(index + 1 - |sw|, index + 1)), b.onNewline)]
  }

  /** The `switch` of `MarkdownGenericTag.Next` on a prepared state. */
  function GenericSwitch(b: GenericValue, index: nat, rn: char): (r: (GenericValue, seq<Action>))
    requires Prepared(b, index)
    ensures GenericOk(r.0, index + 1)
    ensures ActionsOk(r.1, index + 1)
  {
    var w := b.window;
    var sw := SmallerWindow(w, b.windowSize, |b.triggersClosing[0]|);
    if b.skip then
      (b.(skip := false), [])
    else if !b.disableSkip && rn == '\\' then
      (b.(skip := true), [])
    else if !b.isOpen && w in b.triggers && (!b.onNewline || !b.oldline) then
      SuffixFits(w, w, index + 1);
      (b.(isOpen := true, openedWith := w, openedIndex := index + 1 - |w|), [])
    else if b.isOpen && sw in b.triggersClosing && (|b.triggers| == 1 || b.openedWith == w) then
      SuffixFits(w, sw, index + 1);
      (b.(isOpen := false), GenericCloseActions(b, index, sw))
    else
      (b, [])
  }

  lemma PrepareOk(g: GenericValue, index: nat, rn: char)
    requires GenericOk(g, index)
    ensures Prepared(GenericPrepare(g, index, rn), index)
  {
    var b := GenericPrepare(g, index, rn);
    SlideKeepsSeed(g.window, rn, b.windowSize, index);
  }

  /** `MarkdownGenericTag.Next`: prepare, switch, then the deferred update of
      the line-start flag. */
  function GenericNext(g: GenericValue, index: nat, rn: char): (r: (GenericValue, seq<Action>))
    requires GenericOk(g, index)
    ensures GenericOk(r.0, index + 1)
    ensures ActionsOk(r.1, index + 1)
  {
    PrepareOk(g, index, rn);
    var s := GenericSwitch(GenericPrepare(g, index, rn), index, rn);
    (s.0.(oldline := NextOldline(s.0.oldline, rn)), s.1)
  }

  // ---------------------------------------------------------------------------
  // MarkdownTagCode
  // ---------------------------------------------------------------------------

  /** The `state` strings "", "new", "hint" and "body". */
  datatype CodeState = Unset | New | Hint | Body

  /** The fields of `MarkdownTagCode`. */
  datatype CodeValue = CodeValue(
    transformations: map<string, Template>,
    state: CodeState,
    window: string,
    hint: string,
    start: int)

  const Fence: string := "```"

  predicate CodeOk(c: CodeValue, k: nat)
  {
    && |c.window| <= 3
    && |c.window| <= k
    && ((c.state == Hint || c.state == Body) ==> 0 <= c.start && c.start + 3 <= k)
  }

  /** The template a closing fence selects: the one registered under the hint,
      otherwise the one under "default" (none if that is missing too). */
  function SelectTransformation(transformations: map<string, Template>, hint: string): (t: Option<Template>)
    ensures hint in transformations ==> t == Some(transformations[hint])
    ensures hint !in transformations && "default" in transformations ==> t == Some(transformations["default"])
    ensures hint !in transformations && "default" !in transformations ==> t == None
  {
    if hint in transformations then Some(transformations[hint])
    else if "default" in transformations then Some(transformations["default"])
    else None
  }

  /** `MarkdownTagCode.Next`. */
  function CodeNext(c: CodeValue, index: nat, rn: char): (r: (CodeValue, seq<Action>))
    requires CodeOk(c, index)
    ensures CodeOk(r.0, index + 1)
    ensures ActionsOk(r.1, index + 1)
  {
    var w := Slide(c.window, rn, 3);
    var c1 := c.(window := w);
    match c.state
    case Unset | New =>
      if w == Fence then (c1.(state := Hint, hint := [], start := index - 2), [])
      else (c1.(state := New, hint := []), [])
    case Hint =>
      if rn == '\n' then (c1.(state := Body), []) else (c1.(hint := c.hint + [rn]), [])
    case Body =>
      if w != Fence then (c1, [])
      else
        (c1.(state := New),
         [Action(c.start, "", SelectTransformation(c.transformations, c.hint),
                 Some(Span(c.start, index + 1)), true)])
  }

  // ---------------------------------------------------------------------------
  // MarkdownTagLink
  // ---------------------------------------------------------------------------

  /** The fields of `MarkdownTagLink` that its `Next` uses; `window` is the
      two-rune array. */
  datatype LinkValue = LinkValue(skip: bool, openHint: bool, openLink: bool, openIndex: int, window: string)

  predicate LinkOk(l: LinkValue, k: nat)
  {
    && |l.window| == 2
    && (l.openHint ==> 0 <= l.openIndex < k && (l.window[1] == ']' ==> l.openIndex + 2 <= k))
    && (l.openLink ==> 0 <= l.openIndex && l.openIndex + 3 <= k)
  }

  /** `MarkdownTagLink.Next`. */
  function LinkNext(l: LinkValue, index: nat, rn: char): (r: (LinkValue, seq<Action>))
    requires LinkOk(l, index)
    ensures LinkOk(r.0, index + 1)
    ensures ActionsOk(r.1, index + 1)
  {
    var w := [l.window[1], rn];
    var l1 := l.(window := w);
    if l.openLink && rn == ')' then
      (l1.(openLink := false),
       [Action(l.openIndex, "", Some(LinkAnchor), Some(Span(l.openIndex, index + 1)), false)])
    else if l.openLink then (l1, [])
    else if l.skip then (l1.(skip := false), [])
    else if rn == '\\' then (l1.(skip := true), [])
    else if l.openHint && w[0] == ']' && w[1] == '(' then (l1.(openHint := false, openLink := true), [])
    else if l.openHint && w[0] == ']' then (l1.(openHint := false), [])
    else if l.openHint then (l1, [])
    else if rn == '[' then (l1.(openHint := true, openIndex := index), [])
    else (l1, [])
  }

  // ---------------------------------------------------------------------------
  // The MarkdownTag interface and the catalog
  // ---------------------------------------------------------------------------

  datatype TagValue = GenericTag(g: GenericValue) | CodeTag(c: CodeValue) | LinkTag(l: LinkValue)

  predicate TagOk(t: TagValue, k: nat)
  {
    match t
    case GenericTag(g) => GenericOk(g, k)
    case CodeTag(c) => CodeOk(c, k)
    case LinkTag(l) => LinkOk(l, k)
  }

  function TagNext(t: TagValue, index: nat, rn: char): (r: (TagValue, seq<Action>))
    requires TagOk(t, index)
    ensures TagOk(r.0, index + 1)
    ensures ActionsOk(r.1, index + 1)
    ensures r.0.GenericTag? == t.GenericTag? && r.0.CodeTag? == t.CodeTag?
  {
    match t
    case GenericTag(g) => var (g', acts) := GenericNext(g, index, rn); (GenericTag(g'), acts)
    case CodeTag(c) => var (c', acts) := CodeNext(c, index, rn); (CodeTag(c'), acts)
    case LinkTag(l) => var (l', acts) := LinkNext(l, index, rn); (LinkTag(l'), acts)
  }

  /** A scanner state that is valid after `k` indices is still valid after one
      more index that it did not see. */
  lemma TagOkLater(t: TagValue, k: nat)
    requires TagOk(t, k)
    ensures TagOk(t, k + 1)
  {
  }

  lemma ActionsOkLater(acts: seq<Action>, m: int, n: int)
    requires ActionsOk(acts, m) && m <= n
    ensures ActionsOk(acts, n)
  {
  }

  /** A generic tag as written in the catalog: everything else at its zero value. */
  function GenericInit(triggers: seq<string>, triggersClosing: seq<string>, onNewline: bool,
                       insertion: seq<string>, window: string): GenericValue
  {
    GenericValue(triggers, triggersClosing, onNewline, false, insertion, window, 0, false, "", 0, false, false)
  }

  const CodeInline: seq<string> :=
    ["<code class=\"bg-muted relative rounded px-[0.3rem] py-[0.2rem] font-mono text-sm font-semibold\">", "</code>"]
  // The h4 and h3 entries close with </h2>, as md.go writes them.
  const Heading4: seq<string> :=
    ["<h4 class=\"scroll-m-20 text-xl font-semibold tracking-tight mt-5 first:mt-0\">", "</h2>\n"]
  const Heading3: seq<string> :=
    ["<h3 class=\"scroll-m-20 text-2xl font-semibold tracking-tight mt-5 first:mt-0\">", "</h2>\n"]
  const Heading2: seq<string> :=
    ["<h2 class=\"scroll-m-20 border-b pb-2 text-3xl font-semibold tracking-tight mt-6 first:mt-0\">", "</h2>\n"]
  const Heading1: seq<string> :=
    ["<h1 class=\"scroll-m-20 text-center text-4xl font-extrabold tracking-tight text-balance mt-6 first:mt-0\">", "</h1>\n"]
  const Blockquote: seq<string> := ["<blockquote class=\"mt-5 border-l-2 pl-2 italic\">", "</blockquote>\n"]
  const BoldItalic: seq<string> := ["<b><i>", "</i></b>"]
  const Bold: seq<string> := ["<b>", "</b>"]
  const Italic: seq<string> := ["<i>", "</i>"]

  /** `MarkdownTagParagraph`. */
  const ParagraphOpen: string := "<p class=\"leading-5 [&:not(:first-child)]:mt-5\">"
  const ParagraphClose: string := "</p>"

  const CodeInit: CodeValue := CodeValue(map["default" := CodeDefault], Unset, [], [], 0)
  const LinkInit: LinkValue := LinkValue(false, false, false, 0, ['\0', '\0'])

  /** A scanner configured by the catalog starts in a valid state. */
  lemma GenericInitOk(triggers: seq<string>, triggersClosing: seq<string>, onNewline: bool,
                      insertion: seq<string>, window: string)
    requires |triggers| >= 1 && |insertion| >= 2
    requires forall t | t in triggers :: NewlineOnlyLast(t)
    requires forall t | t in triggersClosing :: NewlineOnlyLast(t)
    requires forall j | 0 <= j < |window| :: window[j] == '\n'
    ensures GenericOk(GenericInit(triggers, triggersClosing, onNewline, insertion, window), 0)
  {
  }

  /** The heading and blockquote scanners of the catalog, which open on a
      trigger at a line start and close at the end of the line. */
  function LineTags(): (tags: seq<TagValue>)
    ensures |tags| == 5
    ensures forall i | 0 <= i < |tags| :: TagOk(tags[i], 0)
  {
    GenericInitOk(["#### "], ["\n"], true, Heading4, ['\n']);
    GenericInitOk(["### "], ["\n"], true, Heading3, ['\n']);
    GenericInitOk(["## "], ["\n"], true, Heading2, ['\n']);
    GenericInitOk(["# "], ["\n"], true, Heading1, ['\n']);
    GenericInitOk(["> "], ["\n"], true, Blockquote, ['\n']);
    [ GenericTag(GenericInit(["#### "], ["\n"], true, Heading4, ['\n'])),
      GenericTag(GenericInit(["### "], ["\n"], true, Heading3, ['\n'])),
      GenericTag(GenericInit(["## "], ["\n"], true, Heading2, ['\n'])),
      GenericTag(GenericInit(["# "], ["\n"], true, Heading1, ['\n'])),
      GenericTag(GenericInit(["> "], ["\n"], true, Blockquote, ['\n'])) ]
  }

  /** The scanners of the catalog before the link scanner: code blocks,
      inline code, then the line scanners. */
  function BlockTags(): (tags: seq<TagValue>)
    ensures |tags| == 7
    ensures forall i | 0 <= i < |tags| :: TagOk(tags[i], 0)
  {
    GenericInitOk(["`"], [], false, CodeInline, []);
    var code := [CodeTag(CodeInit), GenericTag(GenericInit(["`"], [], false, CodeInline, []))];
    var lines := LineTags();
    assert forall i | 2 <= i < 7 :: (code + lines)[i] == lines[i - 2];
    code + lines
  }

  /** The scanners of the catalog from the link scanner on: links and the
      three emphasis styles, longest trigger first. */
  function InlineTags(): (tags: seq<TagValue>)
    ensures |tags| == 4
    ensures forall i | 0 <= i < |tags| :: TagOk(tags[i], 0)
  {
    GenericInitOk(["***", "___"], [], false, BoldItalic, []);
    GenericInitOk(["**", "__"], [], false, Bold, []);
    GenericInitOk(["*", "_"], [], false, Italic, []);
    [ LinkTag(LinkInit),
      GenericTag(GenericInit(["***", "___"], [], false, BoldItalic, [])),
      GenericTag(GenericInit(["**", "__"], [], false, Bold, [])),
      GenericTag(GenericInit(["*", "_"], [], false, Italic, [])) ]
  }

  /** `MarkdownTags`, in catalog order, each scanner in the state the literal gives it. */
  function Catalog(): (tags: seq<TagValue>)
    ensures |tags| == 11
    ensures forall i | 0 <= i < |tags| :: TagOk(tags[i], 0)
  {
    var block, inline := BlockTags(), InlineTags();
    assert forall i | 7 <= i < 11 :: (block + inline)[i] == inline[i - 7];
    block + inline
  }

}
