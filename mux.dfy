/** The server of mux.go (`serverDev`) as far as it is bookkeeping: the
    defaults `init` fills in, the registration of handlers through the
    middleware chain, the build errors it collects, the host name it reports,
    the `/robots.txt` page it adds, the proxy's path rewrite and the order of
    the `Stats` listing; and the generic helpers `alt` and `unwrap` (the
    latter is `Handlers.Def`). */
module Mux {
  import opened Common
  import opened Handlers

  // ---------------------------------------------------------------------------
  // alt
  // ---------------------------------------------------------------------------

  /** `alt(value, otherwise)`, where `zero` is the zero value of the type:
      `otherwise` when `value` is the zero value, `value` otherwise. */
  function Alt<T(==)>(value: T, otherwise: T, zero: T): (r: T)
    ensures value == zero ==> r == otherwise
    ensures value != zero ==> r == value
    ensures otherwise != zero ==> r != zero
  {
    if value == zero then otherwise else value
  }

  // ---------------------------------------------------------------------------
  // Proxy path rewrite
  // ---------------------------------------------------------------------------

  /** The path a proxied request is forwarded with: `source` removed once
      from the front, and "/" for what would be empty. */
  function RewritePath(path: string, source: string): (r: string)
    ensures r != []
    ensures HasPrefix(path, source) && |source| < |path| ==> source + r == path
    ensures HasPrefix(path, source) && |source| == |path| ==> r == "/"
    ensures !HasPrefix(path, source) && path != [] ==> r == path
    ensures path == [] ==> r == "/"
  {
    var trimmed := TrimPrefix(path, source);
    if trimmed == "" then "/" else trimmed
  }

  /** The prefix goes only once: a doubled prefix leaves one copy. */
  lemma RewriteOnce(source: string, rest: string)
    requires source != [] && rest != []
    ensures RewritePath(source + source + rest, source) == source + rest
  {
    var path := source + source + rest;
    assert HasPrefix(path, source) by {
      assert path[..|source|] == source;
    }
    assert path[|source|..] == source + rest;
  }

  // ---------------------------------------------------------------------------
  // The Stats order
  // ---------------------------------------------------------------------------

  /** `strings.Compare`: lexicographic order, as -1, 0 or 1. Go compares the
      UTF-8 bytes; the model compares code points, and UTF-8 encoding keeps
      code-point order, so both orders agree. */
  function LexCompare(a: string, b: string): (r: int)
    ensures -1 <= r <= 1
  {
    if a == [] && b == [] then 0
    else if a == [] then -1
    else if b == [] then 1
    else if a[0] < b[0] then -1
    else if a[0] > b[0] then 1
    else LexCompare(a[1..], b[1..])
  }

  lemma {:induction false} LexCompareZero(a: string, b: string)
    ensures LexCompare(a, b) == 0 <==> a == b
  {
    if a != [] && b != [] && a[0] == b[0] {
      LexCompareZero(a[1..], b[1..]);
      if a[1..] == b[1..] {
        assert a == [a[0]] + a[1..] && b == [b[0]] + b[1..];
      }
    }
  }

  lemma {:induction false} LexCompareFlip(a: string, b: string)
    ensures LexCompare(b, a) == -LexCompare(a, b)
  {
    if a != [] && b != [] && a[0] == b[0] {
      LexCompareFlip(a[1..], b[1..]);
    }
  }

  lemma {:induction false} LexCompareTrans(a: string, b: string, c: string)
    requires LexCompare(a, b) <= 0 && LexCompare(b, c) <= 0
    ensures LexCompare(a, c) <= 0
  {
    if a != [] && b != [] && c != [] && a[0] == b[0] == c[0] {
      LexCompareTrans(a[1..], b[1..], c[1..]);
    }
  }

  /** `utf8.RuneLen`: the number of bytes UTF-8 encodes `c` in. */
  function RuneLen(c: char): (n: nat)
    ensures 1 <= n <= 4
    ensures n == 1 <==> c as int < 0x80
  {
    if c as int < 0x80 then 1
    else if c as int < 0x800 then 2
    else if c as int < 0x1_0000 then 3
    else 4
  }

  /** `len` of a Go string: its length in UTF-8 bytes. */
  function ByteLen(s: string): (n: nat)
    ensures |s| <= n <= 4 * |s|
  {
    if s == [] then 0 else RuneLen(s[0]) + ByteLen(s[1..])
  }

  /** The byte length of a Go string is its character count exactly when the
      string is ASCII. */
  lemma {:induction false} ByteLenAscii(s: string)
    ensures ByteLen(s) == |s| <==> forall i | 0 <= i < |s| :: s[i] as int < 0x80
  {
    if s != [] {
      ByteLenAscii(s[1..]);
      assert forall i | 1 <= i < |s| :: s[i] == s[1..][i - 1];
    }
  }

  /** The comparator of `Stats`: lines of fewer UTF-8 bytes first, lines of
      equal byte length in lexicographic order. */
  function CompareStats(a: string, b: string): (r: int)
    ensures -1 <= r <= 1
    ensures ByteLen(a) < ByteLen(b) ==> r == -1
    ensures ByteLen(a) > ByteLen(b) ==> r == 1
  {
    if ByteLen(a) == ByteLen(b) then LexCompare(a, b)
    else if ByteLen(a) < ByteLen(b) then -1 else 1
  }

  /** Byte length, not character count, decides: "é" and "ab" are both two
      bytes long, so they are compared as text and "ab" comes first. */
  lemma CompareStatsCountsBytes()
    ensures ByteLen("\U{e9}") == ByteLen("ab") == 2
    ensures CompareStats("ab", "\U{e9}") == -1
  {
    assert "\U{e9}"[1..] == [];
    assert "ab"[1..][1..] == [];
  }

  /** The comparator is a total order in which only equal lines tie. */
  lemma CompareStatsOrder(a: string, b: string, c: string)
    ensures CompareStats(a, b) == 0 <==> a == b
    ensures CompareStats(b, a) == -CompareStats(a, b)
    ensures CompareStats(a, b) <= 0 && CompareStats(b, c) <= 0 ==> CompareStats(a, c) <= 0
  {
    LexCompareZero(a, b);
    LexCompareFlip(a, b);
    if CompareStats(a, b) <= 0 && CompareStats(b, c) <= 0 && ByteLen(a) == ByteLen(b) == ByteLen(c) {
      LexCompareTrans(a, b, c);
    }
  }

  predicate StatsSorted(s: seq<string>)
  {
    forall i, j | 0 <= i < j < |s| :: CompareStats(s[i], s[j]) <= 0
  }

  /** A line not greater than every line of a sorted listing may go in front. */
  lemma SortedCons(h: string, t: seq<string>)
    requires StatsSorted(t)
    requires forall y | y in t :: CompareStats(h, y) <= 0
    ensures StatsSorted([h] + t)
  {
    forall i, j | 0 <= i < j < |[h] + t|
      ensures CompareStats(([h] + t)[i], ([h] + t)[j]) <= 0
    {
      assert ([h] + t)[j] == t[j - 1];
      if i > 0 {
        assert ([h] + t)[i] == t[i - 1];
      }
    }
  }

  /** Putting the head of a sorted listing back in front of the rest with `x`
      inserted keeps the listing sorted and adds exactly `x`. */
  lemma InsertStatStep(sorted: seq<string>, x: string, rest: seq<string>)
    requires StatsSorted(sorted) && sorted != [] && CompareStats(sorted[0], x) <= 0
    requires StatsSorted(rest)
    requires multiset(rest) == multiset(sorted[1..]) + multiset{x}
    requires forall y | y in rest :: y == x || y in sorted[1..]
    ensures StatsSorted([sorted[0]] + rest)
    ensures multiset([sorted[0]] + rest) == multiset(sorted) + multiset{x}
    ensures forall y | y in [sorted[0]] + rest :: y == x || y in sorted
  {
    assert sorted == [sorted[0]] + sorted[1..];
    assert multiset([sorted[0]] + rest) == multiset{sorted[0]} + multiset(rest);
    assert multiset(sorted) == multiset{sorted[0]} + multiset(sorted[1..]);
    forall y | y in rest
      ensures CompareStats(sorted[0], y) <= 0
    {
      if y != x {
        var j :| 0 <= j < |sorted[1..]| && sorted[1..][j] == y;
        assert sorted[j + 1] == y;
      }
    }
    SortedCons(sorted[0], rest);
  }

  /** A line smaller than the head of a sorted listing is smaller than all of it. */
  lemma BelowHead(sorted: seq<string>, x: string)
    requires StatsSorted(sorted) && sorted != [] && CompareStats(sorted[0], x) > 0
    ensures forall y | y in sorted :: CompareStats(x, y) <= 0
  {
    CompareStatsOrder(sorted[0], x, x);
    forall y | y in sorted
      ensures CompareStats(x, y) <= 0
    {
      var j :| 0 <= j < |sorted| && sorted[j] == y;
      CompareStatsOrder(x, sorted[0], sorted[j]);
    }
  }

  /** Inserting `x` into a sorted listing after every line not greater than it. */
  function InsertStat(sorted: seq<string>, x: string): (r: seq<string>)
    requires StatsSorted(sorted)
    ensures StatsSorted(r)
    ensures multiset(r) == multiset(sorted) + multiset{x}
    ensures forall y | y in r :: y == x || y in sorted
  {
    if sorted == [] then [x]
    else if CompareStats(sorted[0], x) <= 0 then
      var rest := InsertStat(sorted[1..], x);
      InsertStatStep(sorted, x, rest);
      [sorted[0]] + rest
    else
      BelowHead(sorted, x);
      SortedCons(x, sorted);
      [x] + sorted
  }

  /** `slices.SortStableFunc` with the `Stats` comparator, as an insertion sort. */
  function SortStats(lines: seq<string>): (r: seq<string>)
    ensures StatsSorted(r)
    ensures multiset(r) == multiset(lines)
  {
    if lines == [] then []
    else
      assert lines == lines[..|lines| - 1] + [lines[|lines| - 1]];
      InsertStat(SortStats(lines[..|lines| - 1]), lines[|lines| - 1])
  }

  /** The line `Stats` prints for one registered pattern. */
  function StatsLine(hostname: string, pattern: string, kind: string): string
  {
    hostname + pattern + " -> " + kind
  }

  /** The patterns among `keys` whose `Stats` line is `l`: two patterns give
      the same line when a handler type holds " -> ". */
  function PatternsGiving(hostname: string, kinds: map<string, string>, keys: set<string>, l: string): set<string>
  {
    set p | p in keys && p in kinds && StatsLine(hostname, p, kinds[p]) == l
  }

  /** Lines counted by `PatternsGiving` are the lines of the patterns, in
      both directions. */
  lemma CountedLines(hostname: string, kinds: map<string, string>, lines: seq<string>)
    requires forall l :: multiset(lines)[l] == |PatternsGiving(hostname, kinds, kinds.Keys, l)|
    ensures forall p | p in kinds :: StatsLine(hostname, p, kinds[p]) in lines
    ensures forall l | l in lines :: exists p | p in kinds :: l == StatsLine(hostname, p, kinds[p])
  {
    forall p | p in kinds
      ensures StatsLine(hostname, p, kinds[p]) in lines
    {
      assert p in PatternsGiving(hostname, kinds, kinds.Keys, StatsLine(hostname, p, kinds[p]));
    }
    forall l | l in lines
      ensures exists p | p in kinds :: l == StatsLine(hostname, p, kinds[p])
    {
      assert multiset(lines)[l] > 0;
      var p :| p in PatternsGiving(hostname, kinds, kinds.Keys, l);
    }
  }

  /** Adding one pattern adds one to the count of its own line only. */
  lemma PatternsGivingAdd(hostname: string, kinds: map<string, string>, keys: set<string>, p: string, l: string)
    requires p in kinds && p !in keys
    ensures |PatternsGiving(hostname, kinds, keys + {p}, l)| ==
            |PatternsGiving(hostname, kinds, keys, l)| + (if StatsLine(hostname, p, kinds[p]) == l then 1 else 0)
  {
    if StatsLine(hostname, p, kinds[p]) == l {
      assert PatternsGiving(hostname, kinds, keys + {p}, l) == PatternsGiving(hostname, kinds, keys, l) + {p};
    } else {
      assert PatternsGiving(hostname, kinds, keys + {p}, l) == PatternsGiving(hostname, kinds, keys, l);
    }
  }

  // ---------------------------------------------------------------------------
  // Middleware composition
  // ---------------------------------------------------------------------------

  /** What the loop of `Handler` makes of `fn`: each middleware, in
      registration order, wrapped around the result so far. */
  function Compose(middleware: seq<string>, fn: HandlerFunc): HandlerFunc
  {
    if middleware == [] then fn
    else Wrap(middleware[|middleware| - 1], Compose(middleware[..|middleware| - 1], fn))
  }

  /** The middlewares wrapped around a handler, outermost first. */
  function Layers(h: HandlerFunc): seq<string>
  {
    match h
    case Func(_) => []
    case Wrap(m, inner) => [m] + Layers(inner)
  }

  function Reverse(s: seq<string>): (r: seq<string>)
    ensures |r| == |s|
    ensures forall i | 0 <= i < |s| :: r[i] == s[|s| - 1 - i]
  {
    if s == [] then [] else [s[|s| - 1]] + Reverse(s[..|s| - 1])
  }

  /** The last registered middleware is the outermost, the first the
      innermost, and `fn`'s own layers stay inside them all. */
  lemma {:induction false} ComposeLayers(middleware: seq<string>, fn: HandlerFunc)
    ensures Layers(Compose(middleware, fn)) == Reverse(middleware) + Layers(fn)
  {
    if middleware != [] {
      ComposeLayers(middleware[..|middleware| - 1], fn);
    }
  }

  // ---------------------------------------------------------------------------
  // serverDev
  // ---------------------------------------------------------------------------

  const DefaultAddr: string := ":3000"
  /** Ten seconds, in nanoseconds. */
  const DefaultTimeout: int := 10 * Second
  const InterpretPanicsAsError: string := "interpretPanicsAsError"
  const SaneHeaders: string := "SaneHeaders"
  const RobotsPattern: string := "/robots.txt"
  const RobotsSchema: string := "User-agent: *\nAllow: /\nDisallow: /mono/cdn/*"

  /** `serverDev`, with the fields the modelled methods touch. A nil TLS
      configuration is `None`, a set one is its `ServerName`; the build error
      is the list of errors joined into it, empty for nil. */
  class ServerDev {
    var addr: string
    var ctxTimeout: int
    var tls: Option<string>
    var middleware: seq<string>
    var buildError: seq<string>
    var handlersMap: map<string, string>
    var handlers: map<string, HandlerFunc>

    /** The zero value of the struct. */
    constructor ()
      ensures addr == "" && ctxTimeout == 0 && tls == None && middleware == [] && buildError == []
      ensures handlersMap == map[] && handlers == map[]
    {
      addr := "";
      ctxTimeout := 0;
      tls := None;
      middleware := [];
      buildError := [];
      handlersMap := map[];
      handlers := map[];
    }

    /** `init`: the address, the timeout and the middleware list get their
        defaults only where unset; both handler maps start empty. */
    method Init()
      modifies this
      ensures addr == Alt(old(addr), DefaultAddr, "") && addr != ""
      ensures ctxTimeout == Alt(old(ctxTimeout), DefaultTimeout, 0) && ctxTimeout != 0
      ensures middleware == (if old(middleware) == [] then [InterpretPanicsAsError] else old(middleware))
      ensures handlersMap == map[] && handlers == map[]
      ensures tls == old(tls) && buildError == old(buildError)
    {
      if addr == "" {
        addr := DefaultAddr;
      }
      if ctxTimeout == 0 {
        ctxTimeout := DefaultTimeout;
      }
      if |middleware| == 0 {
        middleware := [InterpretPanicsAsError];
      }
      handlersMap := map[];
      handlers := map[];
    }

    /** `Middleware`: registers one more middleware, after the others. */
    method Middleware(fn: string)
      modifies this
      ensures middleware == old(middleware) + [fn]
      ensures addr == old(addr) && ctxTimeout == old(ctxTimeout) && tls == old(tls)
      ensures buildError == old(buildError) && handlersMap == old(handlersMap) && handlers == old(handlers)
    {
      middleware := middleware + [fn];
    }

    /** `Addr`. */
    method Addr(a: string)
      modifies this
      ensures addr == a
      ensures ctxTimeout == old(ctxTimeout) && tls == old(tls) && middleware == old(middleware)
      ensures buildError == old(buildError) && handlersMap == old(handlersMap) && handlers == old(handlers)
    {
      addr := a;
    }

    /** `Handler`: registers `fn` under `pattern`, wrapped in every
        registered middleware, and lists the pattern as "dynamic". */
    method Handler(pattern: string, fn: HandlerFunc)
      modifies this
      ensures handlers == old(handlers)[pattern := Compose(middleware, fn)]
      ensures handlersMap == old(handlersMap)[pattern := "dynamic"]
      ensures addr == old(addr) && ctxTimeout == old(ctxTimeout) && tls == old(tls)
      ensures middleware == old(middleware) && buildError == old(buildError)
    {
      var wrapped := fn;
      for i := 0 to |middleware|
        invariant wrapped == Compose(middleware[..i], fn)
      {
        assert middleware[..i + 1][..i] == middleware[..i];
        wrapped := Wrap(middleware[i], wrapped);
      }
      assert middleware[..|middleware|] == middleware;
      handlers := handlers[pattern := wrapped];
      handlersMap := handlersMap[pattern := "dynamic"];
    }

    /** `WithBuildError`: a nil error changes nothing, any other is joined in. */
    method WithBuildError(err: Option<string>)
      modifies this
      ensures err.None? ==> buildError == old(buildError)
      ensures err.Some? ==> buildError == old(buildError) + [err.value]
      ensures addr == old(addr) && ctxTimeout == old(ctxTimeout) && tls == old(tls)
      ensures middleware == old(middleware) && handlersMap == old(handlersMap) && handlers == old(handlers)
    {
      if err.Some? {
        buildError := buildError + [err.value];
      }
    }

    /** `hostname`: the local address without TLS, the TLS server name with it. */
    function Hostname(): (r: string)
      reads this
      ensures tls.None? ==> HasPrefix(r, "http://localhost") && r[|"http://localhost"|..] == addr
      ensures tls.Some? ==> HasPrefix(r, "https://") && r[|"https://"|..] == tls.value
    {
      if tls.None? then "http://localhost" + addr else "https://" + tls.value
    }

    /** `robotsTxt`: when no `/robots.txt` is registered, registers the
        plain-text page `RobotsSchema` there (through `Page`, which lists
        it with `description`); otherwise changes nothing. */
    method RobotsTxt(description: string)
      modifies this
      ensures RobotsPattern in old(handlersMap) ==>
                handlersMap == old(handlersMap) && handlers == old(handlers)
      ensures RobotsPattern !in old(handlersMap) ==>
                && handlersMap == old(handlersMap)[RobotsPattern := description]
                && handlers == old(handlers)[RobotsPattern := Compose(middleware, Func(RobotsSchema))]
      ensures RobotsPattern in handlersMap
      ensures addr == old(addr) && ctxTimeout == old(ctxTimeout) && tls == old(tls)
      ensures middleware == old(middleware) && buildError == old(buildError)
    {
      if RobotsPattern in handlersMap {
        return;
      }
      Handler(RobotsPattern, Func(RobotsSchema));
      handlersMap := handlersMap[RobotsPattern := description];
    }

    /** `Stats`: one line per registered pattern, sorted by the `Stats`
        comparator; the model returns the lines the source prints. */
    method Stats() returns (lines: seq<string>)
      ensures StatsSorted(lines)
      ensures |lines| == |handlersMap|
      ensures forall p | p in handlersMap :: StatsLine(Hostname(), p, handlersMap[p]) in lines
      ensures forall l | l in lines :: exists p | p in handlersMap :: l == StatsLine(Hostname(), p, handlersMap[p])
      ensures forall l :: multiset(lines)[l] == |PatternsGiving(Hostname(), handlersMap, handlersMap.Keys, l)|
    {
      var host := Hostname();
      var todo := handlersMap.Keys;
      var unsorted: seq<string> := [];
      while todo != {}
        invariant todo <= handlersMap.Keys
        invariant |unsorted| + |todo| == |handlersMap|
        invariant forall l :: multiset(unsorted)[l] == |PatternsGiving(host, handlersMap, handlersMap.Keys - todo, l)|
        decreases |todo|
      {
        var p :| p in todo;
        var line := StatsLine(host, p, handlersMap[p]);
        assert handlersMap.Keys - (todo - {p}) == (handlersMap.Keys - todo) + {p};
        forall l
          ensures multiset(unsorted + [line])[l] == |PatternsGiving(host, handlersMap, (handlersMap.Keys - todo) + {p}, l)|
        {
          PatternsGivingAdd(host, handlersMap, handlersMap.Keys - todo, p, l);
        }
        unsorted := unsorted + [line];
        todo := todo - {p};
      }
      assert handlersMap.Keys - todo == handlersMap.Keys;
      lines := SortStats(unsorted);
      CountedLines(host, handlersMap, lines);
      assert |lines| == |multiset(lines)| == |multiset(unsorted)| == |unsorted|;
    }
  }

  /** `New`: a server with its defaults and `SaneHeaders` registered after
      the default middleware. */
  method New() returns (server: ServerDev)
    ensures fresh(server)
    ensures server.addr == DefaultAddr && server.ctxTimeout == DefaultTimeout && server.tls == None
    ensures server.middleware == [InterpretPanicsAsError, SaneHeaders]
    ensures server.buildError == [] && server.handlersMap == map[] && server.handlers == map[]
  {
    server := new ServerDev();
    server.Init();
    server.Middleware(SaneHeaders);
  }

  /** On a new server, a handler runs inside `interpretPanicsAsError`,
      which runs inside `SaneHeaders`. */
  lemma NewServerLayers(fn: HandlerFunc)
    ensures Layers(Compose([InterpretPanicsAsError, SaneHeaders], fn)) == [SaneHeaders, InterpretPanicsAsError] + Layers(fn)
  {
    ComposeLayers([InterpretPanicsAsError, SaneHeaders], fn);
  }
}
