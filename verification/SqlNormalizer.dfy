/** normalizeDBQuery (runtime/dbtrace_sql.go): the normal form of a query does not
depend on what its strings and comments hold. */
module SqlNormalizer {
  import opened Options
  import opened SqlTokens

  // ----- a token is fixed by its text and the byte after it -----

  /** Two continuations start with the same byte, or both with a digit. */
  predicate Heads(v: string, w: string) {
    v != [] && w != [] && Near(v[0], w[0])
  }

  predicate Near(a: char, b: char) {
    a == b || (IsDigit(a) && IsDigit(b))
  }

  lemma {:induction false} LineStable(u: string, v: string, w: string)
    requires Heads(v, w) && LineLength(u + v) <= |u|
    ensures LineLength(u + w) == LineLength(u + v)
  {
    if u != [] && u[0] != '\n' {
      assert (u + v)[1..] == u[1..] + v && (u + w)[1..] == u[1..] + w;
      LineStable(u[1..], v, w);
    }
  }

  lemma {:induction false} BlockStable(u: string, v: string, w: string, depth: nat)
    requires Heads(v, w) && BlockLength(u + v, depth) <= |u|
    ensures BlockLength(u + w, depth) == BlockLength(u + v, depth)
    decreases |u|
  {
    if u != [] && depth > 0 {
      var s, t := u + v, u + w;
      assert s[0] == t[0] && Near(s[1], t[1]);
      if Starts(s, '/', '*') || Starts(s, '*', '/') {
        assert |u| >= 2;
        assert s[2..] == u[2..] + v && t[2..] == u[2..] + w;
        BlockStable(u[2..], v, w, if s[0] == '/' then depth + 1 else depth - 1);
      } else {
        assert s[1..] == u[1..] + v && t[1..] == u[1..] + w;
        BlockStable(u[1..], v, w, depth);
      }
    }
  }

  lemma {:induction false} QuotedStable(u: string, v: string, w: string, quote: char, escapes: bool)
    requires Heads(v, w) && !IsDigit(quote) && QuotedLength(u + v, quote, escapes) <= |u|
    ensures QuotedLength(u + w, quote, escapes) == QuotedLength(u + v, quote, escapes)
    decreases |u|
  {
    if u != [] {
      var s, t := u + v, u + w;
      assert s[0] == t[0] && Near(s[1], t[1]);
      if (escapes && s[0] == '\\') || (s[0] == quote && s[1] == quote) {
        assert |u| >= 2;
        assert s[2..] == u[2..] + v && t[2..] == u[2..] + w;
        QuotedStable(u[2..], v, w, quote, escapes);
      } else if s[0] != quote {
        assert s[1..] == u[1..] + v && t[1..] == u[1..] + w;
        QuotedStable(u[1..], v, w, quote, escapes);
      }
    }
  }

  lemma {:induction false} IdentStable(u: string, v: string, w: string)
    requires Heads(v, w) && IdentRun(u + v) <= |u|
    ensures IdentRun(u + w) == IdentRun(u + v)
  {
    if u != [] && IsIdent(u[0]) {
      assert (u + v)[1..] == u[1..] + v && (u + w)[1..] == u[1..] + w;
      IdentStable(u[1..], v, w);
    }
  }

  lemma {:induction false} NumberStable(before: char, u: string, v: string, w: string)
    requires Heads(v, w) && NumberRun(before, u + v) <= |u|
    ensures NumberRun(before, u + w) == NumberRun(before, u + v)
    decreases |u|
  {
    if u != [] && NumberRun(before, u + v) > 0 {
      assert (u + v)[1..] == u[1..] + v && (u + w)[1..] == u[1..] + w;
      NumberStable(u[0], u[1..], v, w);
    }
  }

  lemma {:induction false} DollarStable(u: string, v: string, w: string, tag: string)
    requires tag != [] && v != [] && DollarLength(u + v, tag) <= |u|
    ensures DollarLength(u + w, tag) == DollarLength(u + v, tag)
  {
    DollarCovers(u + v, tag);
    assert u != [] && |tag| <= |u|;
    assert tag <= u + v <==> tag <= u;
    assert tag <= u + w <==> tag <= u;
    if !(tag <= u) {
      assert (u + v)[1..] == u[1..] + v && (u + w)[1..] == u[1..] + w;
      DollarStable(u[1..], v, w, tag);
    }
  }

  /** A delimiter found before the end takes at least its own length. */
  lemma {:induction false} DollarCovers(s: string, tag: string)
    requires tag != []
    ensures DollarLength(s, tag) < |s| ==> |tag| <= DollarLength(s, tag) && s[DollarLength(s, tag) - 1] == tag[|tag| - 1]
  {
    if s != [] && !(tag <= s) {
      DollarCovers(s[1..], tag);
    }
  }

  lemma {:induction false} IdentStops(s: string)
    ensures IdentRun(s) < |s| ==> !IsIdent(s[IdentRun(s)])
  {
    if s != [] && IsIdent(s[0]) {
      IdentStops(s[1..]);
    }
  }

  lemma TagStable(u: string, v: string, w: string)
    requires Heads(v, w) && u != [] && 1 + IdentRun((u + v)[1..]) <= |u|
    ensures IdentRun((u + w)[1..]) == IdentRun((u + v)[1..])
    ensures DollarTag(u + w) == DollarTag(u + v)
  {
    var s, t := u + v, u + w;
    assert s[1..] == u[1..] + v && t[1..] == u[1..] + w;
    IdentStable(u[1..], v, w);
    var n := IdentRun(s[1..]);
    IdentStops(s[1..]);
    assert 1 + n < |s| && 1 + n < |t| && !IsIdent(s[1 + n]) && s[1 + n] == t[1 + n];
    assert n > 0 ==> s[1] == t[1];
    assert n + 2 <= |u| + 1;
    forall i | 0 <= i < n + 2
      ensures s[i] == t[i]
    {
      assert i < |u| ==> s[i] == u[i] == t[i];
      assert i >= |u| ==> i == |u| == 1 + n;
    }
    assert s[..n + 2] == t[..n + 2];
  }

  lemma DollarTokenStable(before: string, u: string, v: string, w: string)
    requires Heads(v, w) && u != [] && u[0] == '$' && Length(before, u + v) <= |u|
    ensures KindAt(before, u + w) == KindAt(before, u + v) && Length(before, u + w) == Length(before, u + v)
  {
    var s, t := u + v, u + w;
    assert 1 + IdentRun(s[1..]) <= |u| by {
      if DollarTag(s).Some? {
        assert |DollarTag(s).value| == IdentRun(s[1..]) + 2;
      }
    }
    TagStable(u, v, w);
    if DollarTag(s).Some? {
      var tag := DollarTag(s).value;
      assert s[|tag|..] == u[|tag|..] + v && t[|tag|..] == u[|tag|..] + w;
      DollarStable(u[|tag|..], v, w, tag);
    }
  }

  /** A token that ends within `u` is the same whatever follows `u`, but for its first
      byte. */
  lemma TokenStable(before: string, u: string, v: string, w: string)
    requires Heads(v, w) && u != [] && Length(before, u + v) <= |u|
    ensures KindAt(before, u + w) == KindAt(before, u + v) && Length(before, u + w) == Length(before, u + v)
  {
    var s, t := u + v, u + w;
    assert s[0] == t[0] == u[0] && Near(s[1], t[1]);
    if u[0] == '$' {
      DollarTokenStable(before, u, v, w);
    } else {
      assert KindAt(before, t) == KindAt(before, s);
      assert s[1..] == u[1..] + v && t[1..] == u[1..] + w;
      match KindAt(before, s) {
        case LineComment => LineStable(u, v, w);
        case BlockComment =>
          assert s[2..] == u[2..] + v && t[2..] == u[2..] + w;
          BlockStable(u[2..], v, w, 1);
        case Quoted => QuotedStable(u[1..], v, w, '\'', AfterEscape(before));
        case Identifier => QuotedStable(u[1..], v, w, '"', false);
        case Number => NumberStable(u[0], u[1..], v, w);
        case Plain =>
      }
    }
  }

  // ----- the text before -----

  /** The scanner starts a token after `n` bytes. */
  predicate Boundary(before: string, rest: string, n: nat)
    decreases n
  {
    n == 0 || (rest != [] && Length(before, rest) <= n && Boundary(before + Token(before, rest), rest[Length(before, rest)..], n - Length(before, rest)))
  }

  function Token(before: string, rest: string): string
    requires rest != []
  {
    rest[..Length(before, rest)]
  }

  /** What the scanner writes up to a boundary. */
  function Prefix(before: string, rest: string, n: nat): string
    requires Boundary(before, rest, n)
    decreases n
  {
    if n == 0 then ""
    else Written(KindAt(before, rest), Token(before, rest)) + Prefix(before + Token(before, rest), rest[Length(before, rest)..], n - Length(before, rest))
  }

  lemma {:induction false} PrefixStable(before: string, u: string, v: string, w: string)
    requires Heads(v, w) && Boundary(before, u + v, |u|)
    ensures Boundary(before, u + w, |u|) && Prefix(before, u + w, |u|) == Prefix(before, u + v, |u|)
    decreases |u|
  {
    hide Length, KindAt, Written;
    if u != [] {
      TokenStable(before, u, v, w);
      var n := Length(before, u + v);
      assert (u + v)[..n] == u[..n] == (u + w)[..n];
      assert (u + v)[n..] == u[n..] + v && (u + w)[n..] == u[n..] + w;
      PrefixStable(before + u[..n], u[n..], v, w);
    }
  }

  lemma {:induction false} PrefixScan(before: string, u: string, v: string)
    requires Boundary(before, u + v, |u|)
    ensures Scan(before, u + v) == Prefix(before, u + v, |u|) + Scan(before + u, v)
    decreases |u|
  {
    hide Length, KindAt, Written;
    if u == [] {
      assert u + v == v && before + u == before;
    } else {
      var n := Length(before, u + v);
      assert (u + v)[..n] == u[..n] && (u + v)[n..] == u[n..] + v;
      assert before + u[..n] + u[n..] == before + u;
      PrefixScan(before + u[..n], u[n..], v);
    }
  }

  // ----- the text after -----

  /** Two texts consumed that the scanner cannot tell apart before `rest`: a number, an
      escape string or its E starts after both or after neither. */
  predicate Alike(a: string, b: string, rest: string) {
    || rest == []
    || (&& (IsDigit(rest[0]) || IsExponent(rest[0]) ==> AfterIdent(a) == AfterIdent(b))
        && (rest[0] == '\'' ==> AfterEscape(a) == AfterEscape(b)))
  }

  /** After one more token nothing tells them apart. */
  lemma AlikeAppend(a: string, b: string, x: string, rest: string)
    requires x != [] && Alike(a, b, x)
    ensures Alike(a + x, b + x, rest)
  {
    var p, q := a + x, b + x;
    assert p[|p| - 1] == x[|x| - 1] == q[|q| - 1];
    if |x| == 1 {
      assert a != [] ==> p[|p| - 2] == a[|a| - 1];
      assert b != [] ==> q[|q| - 2] == b[|b| - 1];
    } else {
      assert p[|p| - 2] == x[|x| - 2] == q[|q| - 2];
    }
  }

  lemma AlikeToken(a: string, b: string, rest: string)
    requires Alike(a, b, rest) && rest != []
    ensures KindAt(a, rest) == KindAt(b, rest) && Length(a, rest) == Length(b, rest)
  {
  }

  lemma {:induction false} SuffixScan(a: string, b: string, rest: string)
    requires Alike(a, b, rest)
    ensures Scan(a, rest) == Scan(b, rest)
    decreases |rest|
  {
    if rest != [] {
      AlikeToken(a, b, rest);
      var n := Length(a, rest);
      AlikeAppend(a, b, rest[..n], rest[n..]);
      SuffixScan(a + rest[..n], b + rest[..n], rest[n..]);
    }
  }

  // ----- strings, numbers and comments -----

  /** A token that a closing byte ends: a string or a comment. */
  predicate Delimited(kind: Kind) {
    kind.LineComment? || kind.BlockComment? || kind.Quoted? || kind.Dollar?
  }

  /** A token the normal form must not show. */
  predicate Hidden(kind: Kind) {
    Delimited(kind) || kind.Number?
  }

  /** The byte a closed string or comment ends with. */
  function Closer(kind: Kind): char {
    match kind case LineComment => '\n' case BlockComment => '/' case Dollar => '$' case _ => '\''
  }

  lemma {:induction false} LineCloses(s: string)
    requires LineLength(s) < |s|
    ensures LineLength(s) > 0 && s[LineLength(s) - 1] == '\n'
  {
    if s[0] != '\n' {
      LineCloses(s[1..]);
    }
  }

  lemma {:induction false} BlockCloses(s: string, depth: nat)
    requires BlockLength(s, depth) < |s| && depth > 0
    ensures BlockLength(s, depth) > 0 && s[BlockLength(s, depth) - 1] == '/'
    decreases |s|
  {
    if Starts(s, '/', '*') {
      BlockCloses(s[2..], depth + 1);
    } else if Starts(s, '*', '/') {
      if depth > 1 {
        BlockCloses(s[2..], depth - 1);
      }
    } else {
      BlockCloses(s[1..], depth);
    }
  }

  lemma {:induction false} QuotedCloses(s: string, quote: char, escapes: bool)
    requires QuotedLength(s, quote, escapes) < |s|
    ensures QuotedLength(s, quote, escapes) > 0 && s[QuotedLength(s, quote, escapes) - 1] == quote
    decreases |s|
  {
    if (escapes && s[0] == '\\') || (s[0] == quote && |s| > 1 && s[1] == quote) {
      QuotedCloses(s[2..], quote, escapes);
    } else if s[0] != quote {
      QuotedCloses(s[1..], quote, escapes);
    }
  }

  /** A string or comment that does not run to the end of the text is closed. */
  lemma HiddenCloses(before: string, rest: string)
    requires rest != [] && Delimited(KindAt(before, rest)) && Length(before, rest) < |rest|
    ensures rest[Length(before, rest) - 1] == Closer(KindAt(before, rest))
  {
    match KindAt(before, rest) {
      case LineComment => LineCloses(rest);
      case BlockComment => BlockCloses(rest[2..], 1);
      case Quoted => QuotedCloses(rest[1..], '\'', AfterEscape(before));
      case Dollar =>
        var tag := DollarTag(rest).value;
        DollarCovers(rest[|tag|..], tag);
    }
  }

  lemma {:induction false} NumberStops(before: char, s: string)
    ensures NumberRun(before, s) < |s| ==> !IsIdent(s[NumberRun(before, s)])
    decreases |s|
  {
    if NumberRun(before, s) > 0 {
      NumberStops(s[0], s[1..]);
    }
  }

  /** Two texts the scanner takes whole, as strings, numbers or comments of one kind; a
      quote right after a number is read alike. */
  predicate Interchangeable(before: string, a: string, b: string, post: string) {
    && a != [] && b != []
    && Hidden(KindAt(before, a + post)) && KindAt(before, b + post) == KindAt(before, a + post)
    && Length(before, a + post) == |a| && Length(before, b + post) == |b|
    && (KindAt(before, a + post).Number? && post != [] && post[0] == '\'' ==> AfterEscape(before + a) == AfterEscape(before + b))
  }

  lemma InterchangeableEnds(before: string, a: string, b: string, post: string)
    requires Interchangeable(before, a, b, post) && post != []
    ensures Alike(before + a, before + b, post)
  {
    if KindAt(before, a + post).Number? {
      assert (a + post)[0] == a[0] && (a + post)[1..] == a[1..] + post;
      NumberStops(a[0], a[1..] + post);
      assert (a[1..] + post)[|a| - 1] == post[0];
    } else {
      HiddenCloses(before, a + post);
      HiddenCloses(before, b + post);
      assert (before + a)[|before + a| - 1] == a[|a| - 1] == (a + post)[|a| - 1];
      assert (before + b)[|before + b| - 1] == b[|b| - 1] == (b + post)[|b| - 1];
    }
  }

  lemma TokenThenRest(before: string, a: string, post: string)
    requires a != [] && Length(before, a + post) == |a|
    ensures Scan(before, a + post) == Written(KindAt(before, a + post), a) + Scan(before + a, post)
  {
    assert (a + post)[..|a|] == a && (a + post)[|a|..] == post;
  }

  lemma SameRest(pre: string, a: string, b: string, post: string)
    requires Interchangeable(pre, a, b, post)
    ensures Scan(pre, a + post) == Scan(pre, b + post)
  {
    TokenThenRest(pre, a, post);
    TokenThenRest(pre, b, post);
    if post != [] {
      InterchangeableEnds(pre, a, b, post);
      SuffixScan(pre + a, pre + b, post);
    }
  }

  /** The scanner writes the same whatever a string, a number or a comment holds. */
  lemma ScanHidesContents(pre: string, a: string, b: string, post: string)
    requires Boundary([], pre + (a + post), |pre|) && Interchangeable(pre, a, b, post)
    ensures Scan([], pre + (a + post)) == Scan([], pre + (b + post))
  {
    hide Scan, Boundary, Prefix, Interchangeable;
    InterchangeableHeads(pre, a, b, post);
    PrefixStable([], pre, a + post, b + post);
    PrefixScan([], pre, a + post);
    PrefixScan([], pre, b + post);
    assert [] + pre == pre;
    SameRest(pre, a, b, post);
  }

  // ----- the sqlc name -----

  /** The white space of Go's regular expressions. */
  predicate Blank(ch: char) {
    ch == ' ' || ch == '\t' || ch == '\n' || ch == '\r' || ch as int == 12
  }

  function DropBlanks(s: string): (t: string)
    ensures t == [] || !Blank(t[0])
  {
    if s != [] && Blank(s[0]) then DropBlanks(s[1..]) else s
  }

  function Lower(ch: char): char {
    if 'A' <= ch <= 'Z' then ch - 'A' + 'a' else ch
  }

  predicate NameColon(s: string) {
    |s| >= 5 && Lower(s[0]) == 'n' && Lower(s[1]) == 'a' && Lower(s[2]) == 'm' && Lower(s[3]) == 'e' && s[4] == ':'
  }

  predicate IsWord(ch: char) {
    ch == '_' || 'a' <= ch <= 'z' || 'A' <= ch <= 'Z' || IsDigit(ch)
  }

  function WordRun(s: string): (n: nat)
    ensures n <= |s|
  {
    if s == [] || !IsWord(s[0]) then 0 else 1 + WordRun(s[1..])
  }

  function Word(t: string): Option<string> {
    if t != [] && IsWord(t[0]) && !IsDigit(t[0]) then Some(t[..WordRun(t)]) else None
  }

  /** sqlcQueryNameRE at the start of a query. */
  function SqlcName(query: string): Option<string> {
    if !Starts(query, '-', '-') then None
    else
      var rest := DropBlanks(query[2..]);
      if NameColon(rest) then Word(DropBlanks(rest[5..])) else None
  }

  /** A byte that starts no sqlc name, nor anything before it but its dashes. */
  predicate Foreign(ch: char) {
    (!IsWord(ch) || IsDigit(ch)) && !Blank(ch) && ch != ':'
  }

  /** A byte that neither starts nor continues a name after a text. */
  predicate Ends(u: string, ch: char) {
    Foreign(ch) && (IsDigit(ch) ==> u == [] || !IsWord(u[|u| - 1]))
  }

  lemma {:induction false} DropBlanksConcat(x: string, v: string)
    requires v != [] && Foreign(v[0])
    ensures DropBlanks(x + v) == DropBlanks(x) + v
  {
    if x == [] {
      assert x + v == v;
    } else if Blank(x[0]) {
      assert (x + v)[1..] == x[1..] + v;
      DropBlanksConcat(x[1..], v);
    }
  }

  lemma {:induction false} WordRunConcat(y: string, v: string)
    requires y != [] && v != [] && Ends(y, v[0])
    ensures WordRun(y + v) == WordRun(y)
  {
    if |y| == 1 {
      assert (y + v)[1..] == v;
    } else if IsWord(y[0]) {
      assert (y + v)[1..] == y[1..] + v;
      WordRunConcat(y[1..], v);
    }
  }

  lemma WordConcat(y: string, v: string)
    requires v != [] && Ends(y, v[0])
    ensures Word(y + v) == Word(y)
  {
    if y == [] {
      assert y + v == v;
    } else {
      WordRunConcat(y, v);
      assert (y + v)[..WordRun(y)] == y[..WordRun(y)];
    }
  }

  lemma NameColonConcat(x: string, v: string)
    requires v != [] && Foreign(v[0])
    ensures NameColon(x + v) <==> NameColon(x)
  {
    var s := x + v;
    assert forall i :: 0 <= i < |x| ==> s[i] == x[i];
    assert s[|x|] == v[0];
  }

  lemma {:induction false} DropBlanksSuffix(s: string)
    ensures DropBlanks(s) == [] || (|DropBlanks(s)| <= |s| && DropBlanks(s) == s[|s| - |DropBlanks(s)|..])
  {
    if s != [] && Blank(s[0]) {
      DropBlanksSuffix(s[1..]);
    }
  }

  /** A name found in a text is found before a byte that ends it. */
  lemma NameConcat(u: string, v: string)
    requires |u| >= 2 && v != [] && Ends(u, v[0])
    ensures SqlcName(u + v) == SqlcName(u)
  {
    assert (u + v)[2..] == u[2..] + v;
    DropBlanksConcat(u[2..], v);
    var x := DropBlanks(u[2..]);
    NameColonConcat(x, v);
    if NameColon(x) {
      assert (x + v)[5..] == x[5..] + v;
      DropBlanksConcat(x[5..], v);
      DropBlanksSuffix(u[2..]);
      DropBlanksSuffix(x[5..]);
      WordConcat(DropBlanks(x[5..]), v);
    }
  }

  lemma NameStable(u: string, v: string, w: string)
    requires Heads(v, w) && Ends(u, v[0]) && u != [] && (Starts(u + v, '-', '-') ==> |u| >= 2)
    ensures SqlcName(u + v) == SqlcName(u + w)
  {
    if |u| >= 2 {
      NameConcat(u, v);
      NameConcat(u, w);
    } else {
      assert (u + v)[1] == v[0] && (u + w)[1] == w[0];
      assert !Starts(u + v, '-', '-') && !Starts(u + w, '-', '-');
    }
  }

  lemma InterchangeableHeads(before: string, a: string, b: string, post: string)
    requires Interchangeable(before, a, b, post)
    ensures Heads(a + post, b + post) && Ends(before, (a + post)[0])
    ensures Starts(a + post, '-', '-') == Starts(b + post, '-', '-') == KindAt(before, a + post).LineComment?
  {
  }

  lemma DashesTakeTwo(s: string, n: nat)
    requires Starts(s, '-', '-') && Length([], s) <= n
    ensures n >= 2
  {
    assert LineLength(s) == 1 + LineLength(s[1..]);
    assert LineLength(s[1..]) >= 1;
  }

  lemma BoundaryDashes(pre: string, v: string)
    requires pre != [] && Boundary([], pre + v, |pre|) && Starts(pre + v, '-', '-')
    ensures |pre| >= 2
  {
    DashesTakeTwo(pre + v, |pre|);
  }

  /** The sqlc name does not depend on a string, number or comment, unless that is the comment
      the query starts with. */
  lemma NameHidesContents(query: string, other: string, pre: string, a: string, b: string, post: string)
    requires query == pre + (a + post) && other == pre + (b + post)
    requires Boundary([], query, |pre|) && Interchangeable(pre, a, b, post)
    requires pre != [] || !KindAt(pre, a + post).LineComment?
    ensures SqlcName(query) == SqlcName(other)
  {
    InterchangeableHeads(pre, a, b, post);
    if pre == [] {
      assert query == a + post && other == b + post;
      NotDashed(query);
      NotDashed(other);
    } else {
      if Starts(query, '-', '-') {
        BoundaryDashes(pre, a + post);
      }
      NameStable(pre, a + post, b + post);
    }
  }

  lemma NotDashed(query: string)
    requires !Starts(query, '-', '-')
    ensures SqlcName(query).None?
  {
  }

  // ----- the normal form -----

  const MAX_QUERY_LENGTH := 2048

  /** ASCII white space, as strings.TrimSpace and strings.Fields take it. */
  predicate Space(ch: char) {
    Blank(ch) || ch as int == 11
  }

  function TrimStart(s: string): string {
    if s != [] && Space(s[0]) then TrimStart(s[1..]) else s
  }

  function TrimEnd(s: string): string {
    if s != [] && Space(s[|s| - 1]) then TrimEnd(s[..|s| - 1]) else s
  }

  function Trim(s: string): string {
    TrimEnd(TrimStart(s))
  }

  /** The fields of a text, joined by single spaces: a field's byte is kept, and a run
      of spaces between two fields is one. */
  function Folded(s: string, started: bool): string
    decreases |s|
  {
    if s == [] then ""
    else if !Space(s[0]) then [s[0]] + Folded(s[1..], true)
    else
      var rest := TrimStart(s);
      TrimStartShorter(s);
      if rest == [] then "" else (if started then " " else "") + Folded(rest, false)
  }

  lemma {:induction false} TrimStartShorter(s: string)
    ensures |TrimStart(s)| <= |s| && (s != [] && Space(s[0]) ==> |TrimStart(s)| < |s|)
  {
    if s != [] && Space(s[0]) {
      TrimStartShorter(s[1..]);
    }
  }

  predicate RuneStart(ch: char) {
    !(128 <= ch as int < 192)
  }

  /** The last rune start at or before an index; None is an index below zero. */
  function RuneBefore(s: string, end: nat): (cut: Option<nat>)
    requires end < |s|
    ensures cut.Some? ==> cut.value <= end && RuneStart(s[cut.value]) && forall i :: cut.value < i <= end ==> !RuneStart(s[i])
    ensures cut.None? ==> forall i :: 0 <= i <= end ==> !RuneStart(s[i])
  {
    if RuneStart(s[end]) then Some(end) else if end == 0 then None else RuneBefore(s, end - 1)
  }

  /** The text written of a query, its spaces folded, named when empty and cut when
      long. */
  function Finish(written: string): Option<string> {
    var text := Folded(written, false);
    if text == "" then Some("unknown")
    else if |text| <= MAX_QUERY_LENGTH then Some(text)
    else
      match RuneBefore(text, MAX_QUERY_LENGTH)
      case None => None
      case Some(end) => Some(text[..end] + "...")
  }

  /** normalizeDBQuery; None where it would index below zero. */
  function Normalize(query: string): Option<string> {
    var text := Trim(query);
    var name := SqlcName(text);
    Finish((if name.Some? then "-- name: " + name.value + " " else "") + Scan([], text))
  }

  method FinishText(written: string) returns (normal: Option<string>)
    ensures normal == Finish(written)
  {
    var text := Folded(written, false);
    if text == "" {
      return Some("unknown");
    }
    if |text| <= MAX_QUERY_LENGTH {
      return Some(text);
    }
    var end := MAX_QUERY_LENGTH;
    while end >= 0 && !RuneStart(text[end])
      invariant -1 <= end <= MAX_QUERY_LENGTH
      invariant RuneBefore(text, MAX_QUERY_LENGTH) == if end >= 0 then RuneBefore(text, end) else None
    {
      end := end - 1;
    }
    return if end < 0 then None else Some(text[..end] + "...");
  }

  /** normalizeDBQuery, scanning and cutting with its loops. */
  method NormalizeQuery(query: string) returns (normal: Option<string>)
    ensures normal == Normalize(query)
  {
    var text := Trim(query);
    var name := SqlcName(text);
    var scanned := ScanQuery(text);
    normal := FinishText((if name.Some? then "-- name: " + name.value + " " else "") + scanned);
  }

  /** A normal form is never empty and never long. */
  lemma NormalFormBounds(query: string)
    ensures Normalize(query).Some? ==> 0 < |Normalize(query).value| <= MAX_QUERY_LENGTH + 3
  {
  }

  // ----- where the cut runs below the text -----

  /** A text after its leading white space and comments. */
  function Skipped(s: string): string
    decreases |s|
  {
    if s == [] then s
    else if Space(s[0]) then Skipped(s[1..])
    else if Starts(s, '-', '-') then LineAdvances(s); Skipped(s[LineLength(s)..])
    else if Starts(s, '/', '*') then Skipped(s[2 + BlockLength(s[2..], 1)..])
    else s
  }

  lemma LineAdvances(s: string)
    requires s != []
    ensures LineLength(s) > 0
  {
  }

  /** How many bytes that continue a rune a text starts with. */
  function Continuing(s: string): (n: nat)
    ensures n <= |s|
    ensures forall i :: 0 <= i < n ==> !RuneStart(s[i])
    ensures n < |s| ==> RuneStart(s[n])
  {
    if s == [] || RuneStart(s[0]) then 0 else 1 + Continuing(s[1..])
  }

  /** Where a rune starts, what the scanner writes starts with a rune. */
  lemma FirstWritten(before: string, rest: string)
    requires rest != [] && RuneStart(rest[0])
    ensures Scan(before, rest) != [] && RuneStart(Scan(before, rest)[0])
    ensures !Space(rest[0]) && !Starts(rest, '-', '-') && !Starts(rest, '/', '*') ==> !Space(Scan(before, rest)[0])
  {
    var n := Length(before, rest);
    var text := Written(KindAt(before, rest), rest[..n]);
    assert text != [] && (text[0] == rest[0] || text[0] == ' ' || text[0] == '?');
    assert Scan(before, rest)[0] == text[0];
  }

  /** Continuation bytes are written as they are. */
  lemma ContinuingStep(before: string, rest: string)
    requires rest != [] && !RuneStart(rest[0])
    ensures Scan(before, rest) == [rest[0]] + Scan(before + [rest[0]], rest[1..])
  {
    assert KindAt(before, rest) == Plain;
    assert rest[..1] == [rest[0]];
  }

  lemma {:induction false} ContinuingScan(before: string, rest: string, k: nat)
    requires k <= Continuing(rest)
    ensures Scan(before, rest) == rest[..k] + Scan(before + rest[..k], rest[k..])
    decreases k
  {
    hide Scan;
    if k == 0 {
      assert before + rest[..0] == before && rest[0..] == rest;
      assert rest[..0] + Scan(before, rest) == Scan(before, rest);
    } else {
      var first, tail := [rest[0]], rest[1..];
      ContinuingStep(before, rest);
      ContinuingScan(before + first, tail, k - 1);
      assert first + tail[..k - 1] == rest[..k] && tail[k - 1..] == rest[k..];
      assert before + first + tail[..k - 1] == before + rest[..k];
      Regroup(first, tail[..k - 1], Scan(before + rest[..k], rest[k..]));
    }
  }

  lemma {:induction false} ContinuingFold(c: string, w: string, started: bool)
    requires Continuing(c) == |c| > 0
    ensures Folded(c + w, started) == c + Folded(w, true)
    decreases |c|
  {
    assert !RuneStart(c[0]) && (c + w)[0] == c[0] && (c + w)[1..] == c[1..] + w;
    if |c| > 1 {
      ContinuingFold(c[1..], w, true);
    } else {
      assert c[1..] + w == w;
    }
  }

  /** Leading spaces of what is written fold away. */
  lemma FoldBlank(w: string)
    ensures Folded([' '] + w, false) == Folded(w, false)
  {
    var s := [' '] + w;
    assert s[0] == ' ' && s[1..] == w;
    assert TrimStart(s) == TrimStart(w);
  }

  lemma FoldSpace(c: char, w: string)
    requires Space(c)
    ensures Folded([c] + w, false) == Folded(w, false)
  {
    var s := [c] + w;
    assert s[0] == c && s[1..] == w;
    assert TrimStart(s) == TrimStart(w);
  }

  lemma SkipOne(before: string, s: string, n: nat)
    requires s != [] && n == Length(before, s) && (Space(s[0]) || Starts(s, '-', '-') || Starts(s, '/', '*'))
    ensures Folded(Scan(before, s), false) == Folded(Scan(before + s[..n], s[n..]), false)
    ensures Skipped(s) == Skipped(s[n..])
  {
    var rest := Scan(before + s[..n], s[n..]);
    if KindAt(before, s) == Plain {
      assert Space(s[0]) && s[..1] == [s[0]];
      FoldSpace(s[0], rest);
    } else {
      assert Written(KindAt(before, s), s[..n]) == " ";
      FoldBlank(rest);
    }
  }

  /** Leading white space and comments do not show at the start of a normal form. */
  lemma {:induction false} SkipFold(before: string, s: string) returns (consumed: string)
    ensures Folded(Scan(before, s), false) == Folded(Scan(consumed, Skipped(s)), false)
    decreases |s|
  {
    if s != [] && (Space(s[0]) || Starts(s, '-', '-') || Starts(s, '/', '*')) {
      var n := Length(before, s);
      SkipOne(before, s, n);
      consumed := SkipFold(before + s[..n], s[n..]);
    } else {
      consumed := before;
    }
  }

  lemma {:induction false} SkippedStart(s: string)
    ensures var r := Skipped(s); r == [] || (!Space(r[0]) && !Starts(r, '-', '-') && !Starts(r, '/', '*'))
    decreases |s|
  {
    if s != [] {
      if Space(s[0]) {
        SkippedStart(s[1..]);
      } else if Starts(s, '-', '-') {
        LineAdvances(s);
        SkippedStart(s[LineLength(s)..]);
      } else if Starts(s, '/', '*') {
        SkippedStart(s[2 + BlockLength(s[2..], 1)..]);
      }
    }
  }

  /** The continuation bytes a text starts with, after what is skipped, are those its
      folded form starts with. */
  lemma FoldedStart(before: string, r: string)
    requires r == [] || (!Space(r[0]) && !Starts(r, '-', '-') && !Starts(r, '/', '*'))
    ensures Continuing(Folded(Scan(before, r), false)) == Continuing(r)
  {
    hide Scan, Folded;
    var k := Continuing(r);
    if r == [] {
      ScanEnd(before, r);
      FoldEnd(Scan(before, r), false);
    } else if k == 0 {
      FirstWritten(before, r);
      FoldText(Scan(before, r));
    } else {
      FoldedAfter(before, r, k);
    }
  }

  lemma FoldEnd(w: string, started: bool)
    requires w == []
    ensures Folded(w, started) == []
  {
  }

  lemma FoldText(w: string)
    requires w != [] && !Space(w[0])
    ensures Folded(w, false) != [] && Folded(w, false)[0] == w[0]
  {
  }

  lemma FoldedAfter(before: string, r: string, k: nat)
    requires 0 < k == Continuing(r)
    ensures Continuing(Folded(Scan(before, r), false)) == k
  {
    hide Scan, Folded;
    ContinuingScan(before, r, k);
    var c, w := r[..k], Scan(before + r[..k], r[k..]);
    ContinuingPrefix(r, k);
    ContinuingFold(c, w, false);
    if k < |r| {
      FirstWritten(before + c, r[k..]);
      FoldedFirst(w);
    } else {
      ScanEnd(before + c, r[k..]);
      FoldEnd(w, true);
    }
    ContinuingIs(c, Folded(w, true));
  }

  lemma {:induction false} ContinuingPrefix(s: string, k: nat)
    requires k <= Continuing(s)
    ensures Continuing(s[..k]) == k
    decreases k
  {
    if k > 0 {
      ContinuingPrefix(s[1..], k - 1);
      assert s[..k][1..] == s[1..][..k - 1] && s[..k][0] == s[0];
    }
  }

  /** Folding after some text starts with a space, or with the first byte. */
  lemma FoldedFirst(w: string)
    requires w != [] && RuneStart(w[0])
    ensures Folded(w, true) == [] || RuneStart(Folded(w, true)[0])
  {
  }

  lemma {:induction false} ContinuingIs(c: string, g: string)
    requires Continuing(c) == |c| && (g == [] || RuneStart(g[0]))
    ensures Continuing(c + g) == |c|
    decreases |c|
  {
    if c == [] {
      assert c + g == g;
    } else {
      assert !RuneStart(c[0]) && (c + g)[0] == c[0] && (c + g)[1..] == c[1..] + g;
      assert Continuing(c[1..]) == |c[1..]|;
      ContinuingIs(c[1..], g);
    }
  }

  /** The cut of a written text leaves it exactly when it starts with too many
      continuation bytes. */
  lemma CutOverruns(written: string)
    ensures Finish(written).None? <==> Continuing(Folded(written, false)) > MAX_QUERY_LENGTH
  {
  }

  lemma NameStarts(name: string, written: string)
    ensures Continuing(Folded("-- name: " + name + " " + written, false)) == 0
  {
    var text := "-- name: " + name + " " + written;
    assert text[0] == '-' && Folded(text, false)[0] == '-';
  }

  /** normalizeDBQuery indexes below the first byte if and only if the trimmed query has no
      sqlc name and, after leading white space and comments, starts with more than
      MAX_QUERY_LENGTH bytes that continue a rune; no UTF-8 text does. */
  lemma OverrunsIff(query: string)
    ensures Normalize(query).None? <==> SqlcName(Trim(query)).None? && Continuing(Skipped(Trim(query))) > MAX_QUERY_LENGTH
  {
    var text := Trim(query);
    if SqlcName(text).Some? {
      var written := "-- name: " + SqlcName(text).value + " " + Scan([], text);
      NameStarts(SqlcName(text).value, Scan([], text));
      CutOverruns(written);
    } else {
      var consumed := SkipFold([], text);
      SkippedStart(text);
      FoldedStart(consumed, Skipped(text));
      assert "" + Scan([], text) == Scan([], text);
      CutOverruns(Scan([], text));
    }
  }

  /** The normal form of a query does not depend on what a string, a number or a comment
      of it holds, the leading comment's name aside. */
  lemma NormalFormHidesContents(query: string, other: string, pre: string, a: string, b: string, post: string)
    requires Trim(query) == pre + (a + post) && Trim(other) == pre + (b + post)
    requires Boundary([], Trim(query), |pre|) && Interchangeable(pre, a, b, post)
    requires pre != [] || !KindAt(pre, a + post).LineComment? || SqlcName(Trim(query)) == SqlcName(Trim(other))
    ensures Normalize(query) == Normalize(other)
  {
    ScanHidesContents(pre, a, b, post);
    if pre != [] || !KindAt(pre, a + post).LineComment? {
      NameHidesContents(Trim(query), Trim(other), pre, a, b, post);
    }
  }
}
