/** Route patterns and their precedence (runtime/router.go): matching against a split
path, and compareRoutes as a total preorder that, among the routes matching one path,
prefers literal, parameter, exact end and path tail at the first difference. */
module Routes {
  import opened Options

  datatype Kind = Literal | Param | Wildcard

  datatype Segment = Segment(kind: Kind, value: string)

  datatype Pattern = Pattern(raw: string, segments: seq<Segment>, literals: nat, hasParam: bool, hasWildcard: bool, pathTail: bool)

  datatype Capture = Capture(key: string, value: string)

  // ----- paths -----

  /** strings.Split(s, "/"). */
  function Split(s: string): (parts: seq<string>)
    ensures |parts| > 0
  {
    if s == "" then [""]
    else
      var rest := Split(s[1..]);
      if s[0] == '/' then [""] + rest else [[s[0]] + rest[0]] + rest[1..]
  }

  /** strings.Join(parts, "/"). */
  function JoinPath(parts: seq<string>): string {
    if parts == [] then "" else if |parts| == 1 then parts[0] else parts[0] + "/" + JoinPath(parts[1..])
  }

  /** splitRoutePath. */
  function SplitPath(path: string): seq<string> {
    if path == "" || path == "/" then [] else Split(if path[0] == '/' then path[1..] else path)
  }

  predicate Rooted(path: string) {
    path != "" && path[0] == '/'
  }

  lemma {:induction false} JoinSplit(s: string)
    ensures JoinPath(Split(s)) == s
  {
    if s != "" {
      JoinSplit(s[1..]);
      var rest := Split(s[1..]);
      if s[0] == '/' {
        assert ([""] + rest)[1..] == rest;
        assert s == "" + "/" + s[1..];
      } else {
        assert ([[s[0]] + rest[0]] + rest[1..])[1..] == rest[1..];
        assert JoinPath([[s[0]] + rest[0]] + rest[1..]) == [s[0]] + JoinPath(rest);
        assert s == [s[0]] + s[1..];
      }
    }
  }

  /** A rooted path is known by its segments. */
  lemma SplitPathInjective(a: string, b: string)
    requires Rooted(a) && Rooted(b) && SplitPath(a) == SplitPath(b)
    ensures a == b
  {
    assert a == "/" + a[1..] && b == "/" + b[1..];
    if a != "/" && b != "/" {
      JoinSplit(a[1..]);
      JoinSplit(b[1..]);
    }
  }

  // ----- patterns -----

  /** How a segment is written in a path. */
  function Spelled(segment: Segment): string {
    match segment.kind
    case Literal => segment.value
    case Param => ":" + segment.value
    case Wildcard => "*" + segment.value
  }

  function SpelledAll(segments: seq<Segment>): (texts: seq<string>)
    ensures |texts| == |segments|
    ensures forall i :: 0 <= i < |segments| ==> texts[i] == Spelled(segments[i])
  {
    seq(|segments|, i requires 0 <= i < |segments| => Spelled(segments[i]))
  }

  /** A rooted path is what its parsed segments spell, and a literal is never written like a
      parameter or a wildcard. */
  lemma PatternSpells(path: string, pathTail: bool)
    requires Rooted(path)
    ensures var segments := ParsePattern(path, pathTail).segments;
            && path == "/" + JoinPath(SpelledAll(segments))
            && forall i :: 0 <= i < |segments| && segments[i].kind == Literal ==> !(":" <= segments[i].value) && !("*" <= segments[i].value)
  {
    var segments, texts := ParsePattern(path, pathTail).segments, SplitPath(path);
    forall i | 0 <= i < |texts|
      ensures Spelled(segments[i]) == texts[i]
    {
      assert texts[i] != "" ==> texts[i] == [texts[i][0]] + texts[i][1..];
    }
    assert SpelledAll(segments) == texts;
    assert path == "/" + path[1..];
    if path != "/" {
      JoinSplit(path[1..]);
    }
  }

  function ParseSegment(text: string): Segment {
    if text != "" && text[0] == ':' then Segment(Param, text[1..])
    else if text != "" && text[0] == '*' then Segment(Wildcard, text[1..])
    else Segment(Literal, text)
  }

  function ParseAll(texts: seq<string>): (segments: seq<Segment>)
    ensures |segments| == |texts|
    ensures forall i :: 0 <= i < |texts| ==> segments[i] == ParseSegment(texts[i])
  {
    seq(|texts|, i requires 0 <= i < |texts| => ParseSegment(texts[i]))
  }

  function Literals(segments: seq<Segment>): nat {
    if segments == [] then 0 else (if segments[0].kind == Literal then 1 else 0) + Literals(segments[1..])
  }

  predicate Has(segments: seq<Segment>, kind: Kind) {
    exists i :: 0 <= i < |segments| && segments[i].kind == kind
  }

  function ParsePattern(path: string, pathTail: bool): Pattern {
    var segments := ParseAll(SplitPath(path));
    Pattern(path, segments, Literals(segments), Has(segments, Param), Has(segments, Wildcard), pathTail)
  }

  lemma {:induction false} LiteralsConcat(a: seq<Segment>, b: seq<Segment>)
    ensures Literals(a + b) == Literals(a) + Literals(b)
  {
    if a == [] {
      assert a + b == b;
    } else {
      assert (a + b)[1..] == a[1..] + b;
      LiteralsConcat(a[1..], b);
    }
  }

  lemma HasGrown(segments: seq<Segment>, segment: Segment, kind: Kind)
    ensures Has(segments + [segment], kind) <==> Has(segments, kind) || segment.kind == kind
  {
    var grown := segments + [segment];
    assert grown[|segments|] == segment;
    assert forall i :: 0 <= i < |segments| ==> grown[i] == segments[i];
  }

  /** parseRoutePattern, as the loop that grows the segments and their tallies. */
  method BuildPattern(path: string, pathTail: bool) returns (pattern: Pattern)
    ensures pattern == ParsePattern(path, pathTail)
  {
    var texts := SplitPath(path);
    var segments: seq<Segment> := [];
    var literals := 0;
    var hasParam, hasWildcard := false, false;
    for i := 0 to |texts|
      invariant segments == ParseAll(texts[..i])
      invariant literals == Literals(segments)
      invariant hasParam == Has(segments, Param) && hasWildcard == Has(segments, Wildcard)
    {
      var segment := ParseSegment(texts[i]);
      ghost var before := segments;
      LiteralsConcat(segments, [segment]);
      segments := segments + [segment];
      match segment.kind {
        case Param => hasParam := true;
        case Wildcard => hasWildcard := true;
        case Literal => literals := literals + 1;
      }
      HasGrown(before, segment, Param);
      HasGrown(before, segment, Wildcard);
    }
    assert texts[..|texts|] == texts;
    return Pattern(path, segments, literals, hasParam, hasWildcard, pathTail);
  }

  /** Only the last segment may be a wildcard. */
  predicate Terminal(segments: seq<Segment>) {
    forall i :: 0 <= i < |segments| - 1 ==> segments[i].kind != Wildcard
  }

  /** What endpoint validation asks of a registered path. */
  predicate Wf(pattern: Pattern) {
    && pattern == ParsePattern(pattern.raw, pattern.pathTail)
    && Rooted(pattern.raw) && Terminal(pattern.segments)
    && (pattern.pathTail ==> pattern.hasWildcard)
  }

  // ----- matching -----

  function MatchFrom(segments: seq<Segment>, request: seq<string>): Option<seq<Capture>> {
    if segments == [] then if request == [] then Some([]) else None
    else
      match segments[0].kind
      case Literal =>
        if request == [] || request[0] != segments[0].value then None else MatchFrom(segments[1..], request[1..])
      case Param =>
        if request == [] || request[0] == "" then None
        else
          var rest := MatchFrom(segments[1..], request[1..]);
          if rest.None? then None else Some([Capture(segments[0].value, request[0])] + rest.value)
      case Wildcard => Some([Capture(segments[0].value, JoinPath(request))])
  }

  function MatchPattern(pattern: Pattern, request: seq<string>): Option<seq<Capture>> {
    if pattern.pathTail && "" in request then None else MatchFrom(pattern.segments, request)
  }

  /** matchSegments: two indexes walk the pattern and the request. */
  method MatchSegments(pattern: Pattern, request: seq<string>) returns (captures: Option<seq<Capture>>)
    ensures captures == MatchPattern(pattern, request)
  {
    if pattern.pathTail && "" in request {
      return None;
    }
    var params: seq<Capture> := [];
    var i, j := 0, 0;
    ghost var whole := MatchFrom(pattern.segments, request);
    assert pattern.segments[0..] == pattern.segments && request[0..] == request;
    assert whole.Some? ==> [] + whole.value == whole.value;
    while i < |pattern.segments|
      invariant 0 <= i <= |pattern.segments| && 0 <= j <= |request|
      invariant var rest := MatchFrom(pattern.segments[i..], request[j..]);
                whole == if rest.None? then None else Some(params + rest.value)
    {
      var segment := pattern.segments[i];
      MatchStep(pattern.segments, i, request, j);
      match segment.kind {
        case Literal =>
          if j >= |request| || request[j] != segment.value {
            return None;
          }
        case Param =>
          if j >= |request| || request[j] == "" {
            return None;
          }
          ghost var rest := MatchFrom(pattern.segments[i + 1..], request[j + 1..]);
          assert rest.Some? ==> params + ([Capture(segment.value, request[j])] + rest.value) == params + [Capture(segment.value, request[j])] + rest.value;
          params := params + [Capture(segment.value, request[j])];
        case Wildcard =>
          return Some(params + [Capture(segment.value, JoinPath(request[j..]))]);
      }
      i, j := i + 1, j + 1;
    }
    assert pattern.segments[i..] == [];
    assert params + [] == params;
    return if j == |request| then Some(params) else None;
  }

  lemma MatchStep(segments: seq<Segment>, i: nat, request: seq<string>, j: nat)
    requires i < |segments| && j <= |request|
    ensures segments[i..][0] == segments[i] && segments[i..][1..] == segments[i + 1..]
    ensures j < |request| ==> request[j..][0] == request[j] && request[j..][1..] == request[j + 1..]
  {
  }

  /** What a request must be to fit a pattern: every segment before a wildcard has its
      literal or some text, and nothing is left over unless a wildcard takes it. */
  predicate Fits(segments: seq<Segment>, request: seq<string>) {
    && Fixed(segments) <= |request|
    && (forall i :: 0 <= i < Fixed(segments) ==> Takes(segments[i], request[i]))
    && (Fixed(segments) < |segments| || |request| == |segments|)
  }

  predicate Takes(segment: Segment, text: string) {
    if segment.kind == Literal then text == segment.value else text != ""
  }

  /** The number of segments before the first wildcard. */
  function Fixed(segments: seq<Segment>): (n: nat)
    ensures n <= |segments|
    ensures forall i :: 0 <= i < n ==> segments[i].kind != Wildcard
    ensures n < |segments| ==> segments[n].kind == Wildcard
  {
    if segments == [] || segments[0].kind == Wildcard then 0 else 1 + Fixed(segments[1..])
  }

  lemma {:induction false} MatchesIffFits(segments: seq<Segment>, request: seq<string>)
    ensures MatchFrom(segments, request).Some? <==> Fits(segments, request)
  {
    if segments != [] && segments[0].kind != Wildcard {
      var tail := segments[1..];
      if request != [] {
        MatchesIffFits(tail, request[1..]);
        FitsStep(segments, request);
      }
    }
  }

  function Params(segments: seq<Segment>): nat {
    if segments == [] then 0 else Params(segments[..|segments| - 1]) + if segments[|segments| - 1].kind == Param then 1 else 0
  }

  /** What a match captures: every parameter its segment of the request, in order, and a
      wildcard everything from its place on. */
  predicate Captured(segments: seq<Segment>, request: seq<string>, captures: seq<Capture>)
    requires Fits(segments, request)
  {
    var n := Fixed(segments);
    && |captures| == Params(segments[..n]) + (if n < |segments| then 1 else 0)
    && (forall i :: 0 <= i < n && segments[i].kind == Param ==> CapturedAt(segments, request, captures, i))
    && (n < |segments| ==> captures[|captures| - 1] == Capture(segments[n].value, JoinPath(request[n..])))
  }

  predicate CapturedAt(segments: seq<Segment>, request: seq<string>, captures: seq<Capture>, i: nat)
    requires i < |segments| && i < |request|
  {
    Params(segments[..i]) < |captures| && captures[Params(segments[..i])] == Capture(segments[i].value, request[i])
  }

  lemma {:induction false} ParamsFirst(segments: seq<Segment>)
    requires segments != []
    ensures Params(segments) == (if segments[0].kind == Param then 1 else 0) + Params(segments[1..])
  {
    if |segments| > 1 {
      ParamsFirst(segments[..|segments| - 1]);
      assert segments[..|segments| - 1][1..] == segments[1..][..|segments| - 2];
    } else {
      assert segments[..0] == [] && segments[1..] == [];
    }
  }

  /** A match captures what its pattern names. */
  lemma {:induction false} MatchCaptures(segments: seq<Segment>, request: seq<string>)
    requires MatchFrom(segments, request).Some?
    ensures Fits(segments, request) && Captured(segments, request, MatchFrom(segments, request).value)
  {
    MatchesIffFits(segments, request);
    if segments == [] {
      assert segments[..0] == [];
    } else if segments[0].kind == Wildcard {
      assert segments[..0] == [] && request[0..] == request;
    } else {
      MatchCaptures(segments[1..], request[1..]);
      CapturedStep(segments, request, MatchFrom(segments[1..], request[1..]).value, MatchFrom(segments, request).value);
    }
  }

  lemma CapturedStep(segments: seq<Segment>, request: seq<string>, rest: seq<Capture>, captures: seq<Capture>)
    requires segments != [] && segments[0].kind != Wildcard && request != [] && Fits(segments, request) && Fits(segments[1..], request[1..])
    requires Captured(segments[1..], request[1..], rest)
    requires captures == (if segments[0].kind == Param then [Capture(segments[0].value, request[0])] else []) + rest
    ensures Captured(segments, request, captures)
  {
    var tail, n, one := segments[1..], Fixed(segments), if segments[0].kind == Param then 1 else 0;
    assert Fixed(tail) == n - 1 && request[1..][n - 1..] == request[n..];
    PrefixParams(segments, n);
    forall i | 0 <= i < n && segments[i].kind == Param
      ensures CapturedAt(segments, request, captures, i)
    {
      PrefixParams(segments, i);
      if i > 0 {
        assert CapturedAt(tail, request[1..], rest, i - 1);
      }
    }
  }

  lemma PrefixParams(segments: seq<Segment>, i: nat)
    requires segments != [] && i <= |segments|
    ensures Params(segments[..i]) == if i == 0 then 0 else (if segments[0].kind == Param then 1 else 0) + Params(segments[1..][..i - 1])
  {
    if i > 0 {
      ParamsFirst(segments[..i]);
      assert segments[..i][1..] == segments[1..][..i - 1];
    }
  }

  lemma FitsStep(segments: seq<Segment>, request: seq<string>)
    requires segments != [] && segments[0].kind != Wildcard && request != []
    ensures Fits(segments, request) <==> Takes(segments[0], request[0]) && Fits(segments[1..], request[1..])
  {
    var tail, rest := segments[1..], request[1..];
    assert Fixed(segments) == 1 + Fixed(tail);
    if Fits(segments, request) {
      forall i | 0 <= i < Fixed(tail)
        ensures Takes(tail[i], rest[i])
      {
        assert Takes(segments[i + 1], request[i + 1]);
      }
    }
    if Takes(segments[0], request[0]) && Fits(tail, rest) {
      forall i | 0 <= i < Fixed(segments)
        ensures Takes(segments[i], request[i])
      {
        assert i > 0 ==> Takes(tail[i - 1], rest[i - 1]);
      }
    }
  }

  // ----- compareRoutes -----

  function Order(kind: Kind): int {
    match kind case Literal => 0 case Param => 1 case Wildcard => 2
  }

  /** The first difference of kinds over the common length. */
  function KindDifference(a: seq<Segment>, b: seq<Segment>): int {
    if a == [] || b == [] then 0
    else if Order(a[0].kind) < Order(b[0].kind) then -1
    else if Order(a[0].kind) > Order(b[0].kind) then 1
    else KindDifference(a[1..], b[1..])
  }

  function Tally(a: Pattern, b: Pattern): int {
    if a.literals > b.literals then -1
    else if a.literals < b.literals then 1
    else if a.hasWildcard != b.hasWildcard then if a.hasWildcard then 1 else -1
    else if |a.segments| > |b.segments| then -1
    else if |a.segments| < |b.segments| then 1
    else 0
  }

  function Compare(a: Pattern, b: Pattern): int {
    if KindDifference(a.segments, b.segments) != 0 then KindDifference(a.segments, b.segments) else Tally(a, b)
  }

  /** compareRoutes, with its index loop. */
  method ComparePatterns(a: Pattern, b: Pattern) returns (order: int)
    ensures order == Compare(a, b)
  {
    var index := 0;
    assert a.segments[0..] == a.segments && b.segments[0..] == b.segments;
    while index < |a.segments| && index < |b.segments|
      invariant 0 <= index <= |a.segments| && index <= |b.segments|
      invariant KindDifference(a.segments, b.segments) == KindDifference(a.segments[index..], b.segments[index..])
    {
      var left, right := Order(a.segments[index].kind), Order(b.segments[index].kind);
      if left < right {
        return -1;
      }
      if left > right {
        return 1;
      }
      assert a.segments[index..][1..] == a.segments[index + 1..] && b.segments[index..][1..] == b.segments[index + 1..];
      index := index + 1;
    }
    if a.literals > b.literals {
      return -1;
    }
    if a.literals < b.literals {
      return 1;
    }
    if a.hasWildcard != b.hasWildcard {
      return if a.hasWildcard then 1 else -1;
    }
    if |a.segments| > |b.segments| {
      return -1;
    }
    return if |a.segments| < |b.segments| then 1 else 0;
  }

  /** Parameters, then a wildcard. */
  predicate Tail(segments: seq<Segment>) {
    segments != [] && (if |segments| == 1 then segments[0].kind == Wildcard else segments[0].kind == Param && Tail(segments[1..]))
  }

  /** compareRoutes by recursion: a pattern that ends comes after its continuations,
      except for parameters up to a wildcard. */
  function Ranked(a: seq<Segment>, b: seq<Segment>): int {
    if a == [] && b == [] then 0
    else if a == [] then if Tail(b) then -1 else 1
    else if b == [] then if Tail(a) then 1 else -1
    else if a[0].kind != b[0].kind then if Order(a[0].kind) < Order(b[0].kind) then -1 else 1
    else Ranked(a[1..], b[1..])
  }

  lemma {:induction false} RankedFlip(a: seq<Segment>, b: seq<Segment>)
    ensures Ranked(a, b) == -Ranked(b, a)
  {
    if a != [] && b != [] {
      RankedFlip(a[1..], b[1..]);
    }
  }

  lemma TerminalTail(segments: seq<Segment>)
    requires segments != [] && Terminal(segments)
    ensures Terminal(segments[1..]) && (segments[0].kind == Wildcard ==> segments[1..] == [])
  {
    assert forall i :: 0 <= i < |segments[1..]| ==> segments[1..][i] == segments[i + 1];
  }

  lemma {:induction false} TailFirst(a: seq<Segment>, b: seq<Segment>)
    requires Terminal(a) && Terminal(b) && Tail(b) && !Tail(a)
    ensures Ranked(a, b) < 0
  {
    if a != [] {
      TerminalTail(a);
      TerminalTail(b);
      if a[0].kind == b[0].kind && a[0].kind != Wildcard {
        TailFirst(a[1..], b[1..]);
      }
    }
  }

  /** compareRoutes is transitive. */
  lemma {:induction false} RankedTransitive(a: seq<Segment>, b: seq<Segment>, c: seq<Segment>)
    requires Terminal(a) && Terminal(b) && Terminal(c)
    requires Ranked(a, b) <= 0 && Ranked(b, c) <= 0
    ensures Ranked(a, c) <= 0
    ensures Ranked(a, b) < 0 || Ranked(b, c) < 0 ==> Ranked(a, c) < 0
  {
    RankedFlip(a, b);
    RankedFlip(b, c);
    RankedFlip(a, c);
    if a != [] && b != [] && c != [] {
      TerminalTail(a);
      TerminalTail(b);
      TerminalTail(c);
      if a[0].kind == b[0].kind == c[0].kind {
        RankedTransitive(a[1..], b[1..], c[1..]);
      }
    } else {
      if Tail(c) && !Tail(a) {
        TailFirst(a, c);
      }
      if Tail(a) && !Tail(b) {
        TailFirst(b, a);
      }
      if Tail(b) && !Tail(c) {
        TailFirst(c, b);
      }
    }
  }

  lemma {:induction false} TailIff(b: seq<Segment>)
    requires b != [] && Terminal(b)
    ensures Tail(b) <==> Literals(b) == 0 && Has(b, Wildcard)
  {
    TerminalTail(b);
    if |b| > 1 {
      TailIff(b[1..]);
      HasStep(b, Wildcard);
    } else {
      assert b == [b[0]];
      assert b[1..] == [];
    }
  }

  lemma HasStep(b: seq<Segment>, kind: Kind)
    requires b != []
    ensures Has(b, kind) <==> b[0].kind == kind || Has(b[1..], kind)
  {
    if Has(b, kind) && b[0].kind != kind {
      var i :| 0 <= i < |b| && b[i].kind == kind;
      assert b[1..][i - 1].kind == kind;
    }
    if Has(b[1..], kind) {
      var i :| 0 <= i < |b[1..]| && b[1..][i].kind == kind;
      assert b[i + 1].kind == kind;
    }
  }

  function TallyOf(a: seq<Segment>, b: seq<Segment>): int {
    if Literals(a) > Literals(b) then -1
    else if Literals(a) < Literals(b) then 1
    else if Has(a, Wildcard) != Has(b, Wildcard) then if Has(a, Wildcard) then 1 else -1
    else if |a| > |b| then -1
    else if |a| < |b| then 1
    else 0
  }

  lemma {:induction false} TallyRanked(a: seq<Segment>, b: seq<Segment>)
    requires Terminal(a) && Terminal(b)
    ensures Ranked(a, b) == if KindDifference(a, b) != 0 then KindDifference(a, b) else TallyOf(a, b)
  {
    if a == [] && b == [] {
    } else if a == [] {
      TailIff(b);
      assert !Has(a, Wildcard);
    } else if b == [] {
      TailIff(a);
      assert !Has(b, Wildcard);
    } else if a[0].kind == b[0].kind {
      TerminalTail(a);
      TerminalTail(b);
      HasStep(a, Wildcard);
      HasStep(b, Wildcard);
      TallyRanked(a[1..], b[1..]);
    }
  }

  /** compareRoutes orders well-formed routes as the recursion does. */
  lemma CompareIsRanked(a: Pattern, b: Pattern)
    requires Wf(a) && Wf(b)
    ensures Compare(a, b) == Ranked(a.segments, b.segments)
  {
    TallyRanked(a.segments, b.segments);
  }

  /** compareRoutes is a total preorder on well-formed routes. */
  lemma CompareIsTotalPreorder(a: Pattern, b: Pattern, c: Pattern)
    requires Wf(a) && Wf(b) && Wf(c)
    ensures Compare(a, a) == 0 && Compare(a, b) == -Compare(b, a)
    ensures Compare(a, b) <= 0 && Compare(b, c) <= 0 ==> Compare(a, c) <= 0
    ensures Compare(a, b) <= 0 && Compare(b, c) <= 0 && (Compare(a, b) < 0 || Compare(b, c) < 0) ==> Compare(a, c) < 0
  {
    CompareIsRanked(a, a);
    CompareIsRanked(a, b);
    CompareIsRanked(b, a);
    CompareIsRanked(b, c);
    CompareIsRanked(a, c);
    RankedFlip(a.segments, a.segments);
    RankedFlip(a.segments, b.segments);
    if Compare(a, b) <= 0 && Compare(b, c) <= 0 {
      RankedTransitive(a.segments, b.segments, c.segments);
    }
  }

  // ----- precedence -----

  /** The declared precedence at a position: literal, parameter, exact end, path tail. */
  function RankAt(segments: seq<Segment>, i: nat): int
    requires i <= |segments|
  {
    if i == |segments| then 2
    else match segments[i].kind case Literal => 0 case Param => 1 case Wildcard => 3
  }

  /** The first position where two patterns differ ranks `a` first. */
  predicate PrefersAt(a: seq<Segment>, b: seq<Segment>, i: nat) {
    && i <= |a| && i <= |b|
    && (forall k :: 0 <= k < i ==> RankAt(a, k) == RankAt(b, k))
    && RankAt(a, i) < RankAt(b, i)
  }

  predicate Prefers(a: seq<Segment>, b: seq<Segment>) {
    exists i :: 0 <= i <= |a| && PrefersAt(a, b, i)
  }

  predicate SameKinds(a: seq<Segment>, b: seq<Segment>) {
    |a| == |b| && forall i :: 0 <= i < |a| ==> a[i].kind == b[i].kind
  }

  lemma PrefersStep(a: seq<Segment>, b: seq<Segment>)
    requires a != [] && b != [] && a[0].kind == b[0].kind
    ensures Prefers(a, b) <==> Prefers(a[1..], b[1..])
    ensures SameKinds(a, b) <==> SameKinds(a[1..], b[1..])
  {
    var x, y := a[1..], b[1..];
    assert forall k :: 0 <= k <= |x| ==> RankAt(x, k) == RankAt(a, k + 1);
    assert forall k :: 0 <= k <= |y| ==> RankAt(y, k) == RankAt(b, k + 1);
    if Prefers(a, b) {
      var i :| 0 <= i <= |a| && PrefersAt(a, b, i);
      assert i > 0;
      forall k | 0 <= k < i - 1
        ensures RankAt(x, k) == RankAt(y, k)
      {
        assert RankAt(a, k + 1) == RankAt(b, k + 1);
      }
      assert PrefersAt(x, y, i - 1);
    }
    if Prefers(x, y) {
      var i :| 0 <= i <= |x| && PrefersAt(x, y, i);
      forall k | 0 <= k < i + 1
        ensures RankAt(a, k) == RankAt(b, k)
      {
        assert k > 0 ==> RankAt(x, k - 1) == RankAt(y, k - 1);
      }
      assert PrefersAt(a, b, i + 1);
    }
    if SameKinds(x, y) {
      assert forall i :: 0 < i < |a| ==> a[i] == x[i - 1] && b[i] == y[i - 1];
    }
  }

  /** Among the routes that fit one request, compareRoutes is the declared precedence. */
  lemma {:induction false} RankedIsPrecedence(a: seq<Segment>, b: seq<Segment>, request: seq<string>)
    requires Terminal(a) && Terminal(b) && Fits(a, request) && Fits(b, request)
    ensures Ranked(a, b) < 0 <==> Prefers(a, b)
    ensures Ranked(a, b) == 0 <==> SameKinds(a, b)
  {
    if a == [] || b == [] {
      EndFits(a, b, request);
    } else {
      TerminalTail(a);
      TerminalTail(b);
      if a[0].kind != b[0].kind {
        assert RankAt(a, 0) < RankAt(b, 0) ==> PrefersAt(a, b, 0);
      } else {
        PrefersStep(a, b);
        if a[0].kind == Wildcard {
          assert a[1..] == [] && b[1..] == [];
          EndFits(a[1..], b[1..], []);
        } else {
          FitsStep(a, request);
          FitsStep(b, request);
          RankedIsPrecedence(a[1..], b[1..], request[1..]);
        }
      }
    }
  }

  lemma EndFits(a: seq<Segment>, b: seq<Segment>, request: seq<string>)
    requires Terminal(a) && Terminal(b) && Fits(a, request) && Fits(b, request) && (a == [] || b == [])
    ensures Ranked(a, b) < 0 <==> Prefers(a, b)
    ensures Ranked(a, b) == 0 <==> SameKinds(a, b)
  {
    assert request == [];
    if a == [] && b != [] {
      TerminalTail(b);
      assert b[0].kind == Wildcard && PrefersAt(a, b, 0);
    }
    if b == [] && a != [] {
      TerminalTail(a);
      assert a[0].kind == Wildcard && RankAt(a, 0) == 3;
    }
  }
}
