/** The scanners of md.go as objects whose `Next` updates their fields in place,
    each proved to take the step the matching function of module MdScan
    describes. */
module MdTags {
  import opened Common
  import opened MdScan

  /** `MarkdownGenericTag`: a delimiter pair found through a trailing window. */
  class MarkdownGenericTag {
    var triggers: seq<string>
    var triggersClosing: seq<string>
    var onNewline: bool
    var disableSkip: bool
    var insertion: seq<string>
    var window: string
    var windowSize: int
    var isOpen: bool
    var openedWith: string
    var openedIndex: int
    var skip: bool
    var oldline: bool

    function Value(): GenericValue
      reads this
    {
      GenericValue(triggers, triggersClosing, onNewline, disableSkip, insertion, window,
                   windowSize, isOpen, openedWith, openedIndex, skip, oldline)
    }

    constructor (v: GenericValue)
      ensures Value() == v
    {
      triggers, triggersClosing, onNewline, disableSkip := v.triggers, v.triggersClosing, v.onNewline, v.disableSkip;
      insertion, window, windowSize := v.insertion, v.window, v.windowSize;
      isOpen, openedWith, openedIndex := v.isOpen, v.openedWith, v.openedIndex;
      skip, oldline := v.skip, v.oldline;
    }

    /** The statements of `Next` before its `switch`. */
    method Prepare(index: nat, rn: char)
      requires Configured(Value())
      modifies this
      ensures Value() == GenericPrepare(old(Value()), index, rn)
    {
      if |triggersClosing| == 0 {
        triggersClosing := triggers;
      }
      if windowSize == 0 {
        windowSize := Max(|triggers[0]|, |triggersClosing[0]|);
      }
      if index == 0 {
        oldline := false;
      }
      window := window + [rn];
      if |window| > windowSize {
        window := window[1..];
      }
    }

    /** Feeds the character at `index`; the line-start flag is updated last,
        where md.go defers it. */
    method Next(index: nat, rn: char) returns (acts: seq<Action>)
      requires GenericOk(Value(), index)
      modifies this
      ensures (Value(), acts) == GenericNext(old(Value()), index, rn)
    {
      PrepareOk(Value(), index, rn);
      Prepare(index, rn);
      acts := Switch(index, rn);
      if rn == '\n' {
        oldline := false;
      } else if IsSpace(rn) {
        oldline := true;
      }
    }

    method Switch(index: nat, rn: char) returns (acts: seq<Action>)
      requires Prepared(Value(), index)
      modifies this
      ensures (Value(), acts) == GenericSwitch(old(Value()), index, rn)
    {
      var w := window;
      var smallerWindow := w[Min(windowSize - |triggersClosing[0]|, |window|)..];
      acts := [];
      if skip {
        skip := false;
      } else if !disableSkip && rn == '\\' {
        skip := true;
      } else if !isOpen && w in triggers && (!onNewline || !oldline) {
        isOpen := true;
        openedWith := w;
        openedIndex := index + 1 - |w|;
      } else if isOpen && smallerWindow in triggersClosing && (|triggers| == 1 || openedWith == w) {
        isOpen := false;
        acts := [Action(openedIndex, insertion[0], None,
                        Some(Span(openedIndex, openedIndex + |openedWith|)), onNewline),
                 Action(index, insertion[1], None,
                        Some(Span(index + 1 - |smallerWindow|, index + 1)), onNewline)];
      }
    }
  }

  /** `MarkdownTagCode`: fenced code between two ``` fences. */
  class MarkdownTagCode {
    var transformations: map<string, Template>
    var state: CodeState
    var window: string
    var hint: string
    var start: int

    function Value(): CodeValue
      reads this
    {
      CodeValue(transformations, state, window, hint, start)
    }

    constructor (v: CodeValue)
      ensures Value() == v
    {
      transformations, state, window, hint, start := v.transformations, v.state, v.window, v.hint, v.start;
    }

    method Next(index: nat, rn: char) returns (acts: seq<Action>)
      requires CodeOk(Value(), index)
      modifies this
      ensures (Value(), acts) == CodeNext(old(Value()), index, rn)
    {
      ghost var v := Value();
      window := window + [rn];
      if |window| > 3 {
        window := window[1..];
      }
      var w := window;
      assert w == Slide(v.window, rn, 3);
      acts := [];
      match state
      case Unset | New =>
        state := New;
        hint := [];
        if w == Fence {
          state := Hint;
          start := index - 2;
        }
      case Hint =>
        if rn == '\n' {
          state := Body;
        } else {
          hint := hint + [rn];
        }
      case Body =>
        if w == Fence {
          state := New;
          var transformation := if "default" in transformations then Some(transformations["default"]) else None;
          if hint in transformations {
            transformation := Some(transformations[hint]);
          }
          acts := [Action(start, "", transformation, Some(Span(start, index + 1)), true)];
        }
    }
  }

  /** `MarkdownTagLink`: `[hint](url)`, rendered by the default `Parser`. */
  class MarkdownTagLink {
    var skip: bool
    var openHint: bool
    var openLink: bool
    var openIndex: int
    /** The two most recent runes. */
    const window: array<char>

    function Value(): LinkValue
      reads this, window
    {
      LinkValue(skip, openHint, openLink, openIndex, window[..])
    }

    constructor (v: LinkValue)
      requires |v.window| == 2
      ensures Value() == v && fresh(window)
    {
      skip, openHint, openLink, openIndex := v.skip, v.openHint, v.openLink, v.openIndex;
      window := new char[2](i requires 0 <= i < 2 => v.window[i]);
      new;
      assert window[..] == v.window;
    }

    method Next(index: nat, rn: char) returns (acts: seq<Action>)
      requires LinkOk(Value(), index)
      modifies this, window
      ensures (Value(), acts) == LinkNext(old(Value()), index, rn)
    {
      ghost var v := Value();
      window[0], window[1] := window[1], rn;
      assert window[..] == [v.window[1], rn];
      acts := [];
      if openLink && rn == ')' {
        openLink := false;
        acts := [Action(openIndex, "", Some(LinkAnchor), Some(Span(openIndex, index + 1)), false)];
      } else if openLink {
      } else if skip {
        skip := false;
      } else if rn == '\\' {
        skip := true;
      } else if openHint && window[0] == ']' && window[1] == '(' {
        openHint := false;
        openLink := true;
      } else if openHint && window[0] == ']' {
        openHint := false;
      } else if openHint {
      } else if rn == '[' {
        openHint := true;
        openIndex := index;
      }
    }
  }

  /** A scanner of the catalog (the `MarkdownTag` interface). */
  datatype Tag = Generic(g: MarkdownGenericTag) | Code(c: MarkdownTagCode) | Link(l: MarkdownTagLink)
  {
    /** The objects the scanner's state lives in. */
    function Repr(): set<object>
    {
      match this
      case Generic(g) => {g}
      case Code(c) => {c}
      case Link(l) => {l, l.window}
    }

    function Value(): TagValue
      reads Repr()
    {
      match this
      case Generic(g) => GenericTag(g.Value())
      case Code(c) => CodeTag(c.Value())
      case Link(l) => LinkTag(l.Value())
    }
  }

  /** A scanner object in state `v`. */
  method NewTag(v: TagValue) returns (t: Tag)
    requires TagOk(v, 0)
    ensures fresh(t.Repr()) && t.Value() == v
  {
    match v
    case GenericTag(g) => var o := new MarkdownGenericTag(g); t := Generic(o);
    case CodeTag(c) => var o := new MarkdownTagCode(c); t := Code(o);
    case LinkTag(l) => var o := new MarkdownTagLink(l); t := Link(o);
  }

  /** `MarkdownTag.Next`, dispatched to the scanner's own method. */
  method Next(t: Tag, index: nat, rn: char) returns (acts: seq<Action>)
    requires TagOk(t.Value(), index)
    modifies t.Repr()
    ensures (t.Value(), acts) == TagNext(old(t.Value()), index, rn)
  {
    match t
    case Generic(g) => acts := g.Next(index, rn);
    case Code(c) => acts := c.Next(index, rn);
    case Link(l) => acts := l.Next(index, rn);
  }
}
