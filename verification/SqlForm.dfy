/** What normalizeDBQuery answers (runtime/dbtrace_sql.go), without its scanner: the sqlc
name and the fields of what a query's pieces show, cut where it is long, and nothing of
the values. */
module SqlForm {
  import opened Options
  import opened SqlTokens
  import opened SqlNormalizer
  import opened SqlPieces

  // ----- values and comments do not show -----

  /** Values or comments with the same delimiters. */
  predicate SameForm(a: Piece, b: Piece) {
    match a
    case StringPiece(_) => b.StringPiece?
    case DollarPiece(tag, _) => b.DollarPiece? && b.tag == tag
    case LinePiece(_) => b.LinePiece?
    case BlockPiece(_) => b.BlockPiece?
    case NumberPiece(_) => b.NumberPiece?
    case OpenString(_) => b.OpenString?
    case OpenDollar(tag, _) => b.OpenDollar? && b.tag == tag
    case OpenLine(_) => b.OpenLine?
    case OpenBlock(_) => b.OpenBlock?
    case _ => false
  }

  /** Replacing the contents of a string or comment by other contents closed by the same
      delimiters, or a number by another, leaves the normal form as it is; only the leading
      comment may hold the sqlc name, and a quote right after both numbers must be read
      alike. */
  lemma ContentsDoNotShow(query: string, other: string, pre: string, a: Piece, b: Piece, post: string)
    requires Trim(query) == pre + (Spelled(a) + post) && Trim(other) == pre + (Spelled(b) + post)
    requires Boundary([], Trim(query), |pre|) && SameForm(a, b) && Closed(pre, a, post) && Closed(pre, b, post)
    requires pre != [] || !(a.LinePiece? || a.OpenLine?) || SqlcName(Trim(query)) == SqlcName(Trim(other))
    requires a.NumberPiece? && post != [] && post[0] == '\'' ==> LoneE(pre + Spelled(a)) == LoneE(pre + Spelled(b))
    ensures Normalize(query) == Normalize(other)
  {
    hide Normalize, Closed, KindAt, Length, Boundary, SqlcName, Trim, Spelled, LoneE, AfterEscape;
    LoneEscapes(pre + Spelled(a));
    LoneEscapes(pre + Spelled(b));
    PieceToken(pre, a, post);
    PieceToken(pre, b, post);
    NormalFormHidesContents(query, other, pre, Spelled(a), Spelled(b), post);
  }

  /** One number can stand for another before every text if and only if both or neither
      end in an E that is not part of a word. */
  lemma NumbersInterchangeIff(pre: string, a: string, b: string)
    requires NumberText(pre, a, []) && NumberText(pre, b, [])
    ensures (forall post :: NumberText(pre, a, post) && NumberText(pre, b, post) ==> Scan(pre, a + post) == Scan(pre, b + post)) <==>
            LoneE(pre + a) == LoneE(pre + b)
  {
    hide Scan, LoneE, NumberText;
    if LoneE(pre + a) == LoneE(pre + b) {
      forall post | NumberText(pre, a, post) && NumberText(pre, b, post)
        ensures Scan(pre, a + post) == Scan(pre, b + post)
      {
        NumbersInterchange(pre, a, b, post);
      }
    } else if LoneE(pre + a) {
      QuoteTells(pre, a, b);
    } else {
      QuoteTells(pre, b, a);
    }
  }

  lemma NumbersInterchange(pre: string, a: string, b: string, post: string)
    requires NumberText(pre, a, post) && NumberText(pre, b, post) && LoneE(pre + a) == LoneE(pre + b)
    ensures Scan(pre, a + post) == Scan(pre, b + post)
  {
    hide Scan, NumberText, LoneE, AfterEscape, KindAt, Length;
    LoneEscapes(pre + a);
    LoneEscapes(pre + b);
    NumberToken(pre, a, post);
    NumberToken(pre, b, post);
    SameRest(pre, a, b, post);
  }

  const QUOTE := "'\\'x'"

  /** Behind the E of an escape string a backslash takes the quote after it. */
  lemma QuoteTells(pre: string, a: string, b: string)
    requires NumberText(pre, a, []) && NumberText(pre, b, []) && LoneE(pre + a) && !LoneE(pre + b)
    ensures NumberText(pre, a, QUOTE) && NumberText(pre, b, QUOTE) && Scan(pre, a + QUOTE) != Scan(pre, b + QUOTE)
  {
    hide Scan, LoneE, NumberText;
    NumberShown(pre, a);
    NumberShown(pre, b);
    EscapedQuote(pre + a);
    PlainQuote(pre + b);
    assert |"?" + "?"| == 2 && |"?" + "?x?"| == 4;
  }

  lemma NumberShown(pre: string, text: string)
    requires NumberText(pre, text, [])
    ensures NumberText(pre, text, QUOTE) && Scan(pre, text + QUOTE) == "?" + Scan(pre + text, QUOTE)
  {
    hide Scan, KindAt, Length, AfterIdent, AllGoOn;
    assert QUOTE[0] == '\'' && !GoesOn(text[|text| - 1], QUOTE[0]);
    NumberToken(pre, text, QUOTE);
    TokenThenRest(pre, text, QUOTE);
  }

  lemma EscapedQuote(before: string)
    requires LoneE(before)
    ensures Scan(before, QUOTE) == "?"
  {
    hide LoneE, Scan;
    var body := "\\'x";
    assert body[2..] == "x" && "x"[1..] == "";
    var pieces := [StringPiece(body)];
    assert pieces[1..] == [];
    ScanShows(before, pieces);
    assert Spell(pieces) == QUOTE && Show(pieces) == "?";
  }

  lemma PlainQuote(before: string)
    requires !LoneE(before)
    ensures Scan(before, QUOTE) == "?x?"
  {
    hide LoneE, Scan;
    var body := "\\";
    assert body[1..] == "";
    var last := [OpenString("")];
    var rest := [BytePiece('x')] + last;
    var pieces := [StringPiece(body)] + rest;
    assert last[1..] == [] && rest[1..] == last && pieces[1..] == rest;
    assert Spell(last) == "'" && Spell(rest) == "x'" && Spell(pieces) == QUOTE;
    assert Show(last) == "?" && Show(rest) == "x?" && Show(pieces) == "?x?";
    assert Closed(before, pieces[0], Spell(rest)) && Spelled(pieces[0]) == "'\\'";
    var after := before + Spelled(pieces[0]);
    assert Closed(after, rest[0], Spell(last)) by {
      assert ['x'] + Spell(last) == "x'";
    }
    assert Lexed(after + Spelled(rest[0]), last);
    assert Lexed(after, rest);
    ScanShows(before, pieces);
  }

  // ----- white space -----

  predicate AllSpace(s: string) {
    forall i :: 0 <= i < |s| ==> Space(s[i])
  }

  lemma {:induction false} TrimStartIs(s: string) returns (lead: string)
    ensures s == lead + TrimStart(s) && AllSpace(lead) && (TrimStart(s) == [] || !Space(TrimStart(s)[0]))
  {
    if s != [] && Space(s[0]) {
      lead := TrimStartIs(s[1..]);
      lead := [s[0]] + lead;
    } else {
      lead := [];
    }
  }

  lemma {:induction false} TrimEndIs(s: string) returns (trail: string)
    ensures s == TrimEnd(s) + trail && AllSpace(trail) && (TrimEnd(s) == [] || !Space(TrimEnd(s)[|TrimEnd(s)| - 1]))
  {
    if s != [] && Space(s[|s| - 1]) {
      trail := TrimEndIs(s[..|s| - 1]);
      assert s == s[..|s| - 1] + [s[|s| - 1]];
      trail := trail + [s[|s| - 1]];
    } else {
      trail := [];
    }
  }

  /** Only white space is trimmed, and all of it. */
  lemma TrimIs(s: string) returns (lead: string, trail: string)
    ensures s == lead + Trim(s) + trail && AllSpace(lead) && AllSpace(trail)
    ensures Trim(s) == [] || (!Space(Trim(s)[0]) && !Space(Trim(s)[|Trim(s)| - 1]))
  {
    hide TrimStart, TrimEnd, Space;
    lead := TrimStartIs(s);
    trail := TrimEndIs(TrimStart(s));
    assert lead + (Trim(s) + trail) == lead + Trim(s) + trail;
    assert Trim(s) != [] ==> Trim(s)[0] == TrimStart(s)[0];
  }

  function FieldRun(s: string): (n: nat)
    ensures n <= |s|
  {
    if s == [] || Space(s[0]) then 0 else 1 + FieldRun(s[1..])
  }

  /** strings.Fields: the runs of bytes between white space. */
  function Fields(s: string): seq<string>
    decreases |s|
  {
    if s == [] then []
    else if Space(s[0]) then Fields(s[1..])
    else [s[..FieldRun(s)]] + Fields(s[FieldRun(s)..])
  }

  function Joined(fields: seq<string>): string {
    if fields == [] then "" else fields[0] + (if |fields| == 1 then "" else " ") + Joined(fields[1..])
  }

  lemma {:induction false} FieldsTrimmed(s: string)
    ensures Fields(TrimStart(s)) == Fields(s)
  {
    if s != [] && Space(s[0]) {
      FieldsTrimmed(s[1..]);
    }
  }

  lemma FoldedStep(s: string, started: bool)
    requires s != [] && !Space(s[0])
    ensures Folded(s, started) == [s[0]] + Folded(s[1..], true)
  {
  }

  lemma {:induction false} FoldedRun(s: string, started: bool)
    requires s != [] && !Space(s[0])
    ensures Folded(s, started) == s[..FieldRun(s)] + Folded(s[FieldRun(s)..], true)
    decreases |s|
  {
    hide Folded;
    var n := FieldRun(s);
    FoldedStep(s, started);
    if |s| > 1 && !Space(s[1]) {
      FoldedRun(s[1..], true);
      assert s[..n] == [s[0]] + s[1..][..n - 1] && s[1..][n - 1..] == s[n..];
      Regroup([s[0]], s[1..][..n - 1], Folded(s[n..], true));
    } else {
      assert n == 1 && s[..1] == [s[0]];
    }
  }

  /** The folded text is the fields of the text, joined by single spaces. */
  lemma {:induction false} FoldedIsFields(s: string)
    ensures Folded(s, false) == Joined(Fields(s))
    ensures s == [] || Space(s[0]) ==> Folded(s, true) == (if Fields(s) == [] then "" else " ") + Joined(Fields(s))
    decreases |s|
  {
    if s == [] {
    } else if Space(s[0]) {
      FoldedSpace(s);
      TrimStartShorter(s);
      FieldsTrimmed(s);
      FoldedIsFields(TrimStart(s));
    } else {
      var n := FieldRun(s);
      FoldedRun(s, false);
      FieldEnds(s);
      FoldedIsFields(s[n..]);
      JoinedStep(s[..n], Fields(s[n..]));
    }
  }

  lemma FoldedSpace(s: string)
    requires s != [] && Space(s[0])
    ensures Folded(s, false) == Folded(TrimStart(s), false)
    ensures Folded(s, true) == (if TrimStart(s) == [] then "" else " ") + Folded(TrimStart(s), false)
    ensures TrimStart(s) == [] <==> Fields(s) == []
  {
    var lead := TrimStartIs(s);
    FieldsTrimmed(s);
  }

  lemma {:induction false} FieldEnds(s: string)
    requires s != [] && !Space(s[0])
    ensures FieldRun(s) > 0 && (FieldRun(s) == |s| || Space(s[FieldRun(s)]))
  {
    if |s| > 1 && !Space(s[1]) {
      FieldEnds(s[1..]);
    }
  }

  lemma JoinedStep(field: string, fields: seq<string>)
    ensures Joined([field] + fields) == field + ((if fields == [] then "" else " ") + Joined(fields))
  {
    assert ([field] + fields)[1..] == fields;
  }

  // ----- the sqlc name -----

  predicate AllBlank(s: string) {
    forall i :: 0 <= i < |s| ==> Blank(s[i])
  }

  predicate IsName(name: string) {
    name != [] && !IsDigit(name[0]) && forall i :: 0 <= i < |name| ==> IsWord(name[i])
  }

  /** A query that starts with a sqlc comment: dashes, the key in either case, the name. */
  predicate NameAt(query: string, a: string, key: string, b: string, name: string, rest: string) {
    && query == "--" + (a + (key + (b + (name + rest)))) && AllBlank(a) && AllBlank(b)
    && |key| == 5 && (forall i :: 0 <= i < 5 ==> Lower(key[i]) == "name:"[i])
    && IsName(name) && (rest == [] || !IsWord(rest[0]))
  }

  lemma {:induction false} BlanksDropped(a: string, x: string)
    requires AllBlank(a) && (x == [] || !Blank(x[0]))
    ensures DropBlanks(a + x) == x
  {
    if a == [] {
      assert a + x == x;
    } else {
      assert (a + x)[1..] == a[1..] + x && (a + x)[0] == a[0];
      BlanksDropped(a[1..], x);
    }
  }

  lemma {:induction false} BlanksSplit(s: string) returns (a: string)
    ensures s == a + DropBlanks(s) && AllBlank(a)
  {
    if s != [] && Blank(s[0]) {
      a := BlanksSplit(s[1..]);
      a := [s[0]] + a;
    } else {
      a := [];
    }
  }

  lemma {:induction false} WordRunIs(s: string)
    ensures forall i :: 0 <= i < WordRun(s) ==> IsWord(s[i])
    ensures WordRun(s) == |s| || !IsWord(s[WordRun(s)])
  {
    if s != [] && IsWord(s[0]) {
      WordRunIs(s[1..]);
    }
  }

  lemma {:induction false} WordTakes(name: string, rest: string)
    requires (forall i :: 0 <= i < |name| ==> IsWord(name[i])) && (rest == [] || !IsWord(rest[0]))
    ensures WordRun(name + rest) == |name|
  {
    if name == [] {
      assert name + rest == rest;
    } else {
      assert (name + rest)[1..] == name[1..] + rest && (name + rest)[0] == name[0];
      WordTakes(name[1..], rest);
    }
  }

  lemma NameFound(query: string, a: string, key: string, b: string, name: string, rest: string)
    requires NameAt(query, a, key, b, name, rest)
    ensures SqlcName(query) == Some(name)
  {
    var tail := name + rest;
    var keyed := key + (b + tail);
    assert query[2..] == a + keyed;
    BlanksDropped(a, keyed);
    assert keyed[0] == key[0] && keyed[5..] == b + tail;
    assert NameColon(keyed) by {
      assert keyed[1] == key[1] && keyed[2] == key[2] && keyed[3] == key[3] && keyed[4] == key[4];
    }
    assert tail[0] == name[0];
    BlanksDropped(b, tail);
    WordTakes(name, rest);
    assert tail[..|name|] == name;
  }

  /** The sqlc name of a query is exactly the one its leading comment gives. */
  lemma SqlcNameIff(query: string, name: string)
    ensures SqlcName(query) == Some(name) <==> exists a, key, b, rest :: NameAt(query, a, key, b, name, rest)
  {
    if SqlcName(query) == Some(name) {
      var x := DropBlanks(query[2..]);
      var a := BlanksSplit(query[2..]);
      var y := DropBlanks(x[5..]);
      var b := BlanksSplit(x[5..]);
      WordRunIs(y);
      assert y == name + y[|name|..];
      assert x == x[..5] + x[5..] && query == "--" + query[2..];
      assert NameAt(query, a, x[..5], b, name, y[|name|..]);
    }
    forall a, key, b, rest | NameAt(query, a, key, b, name, rest)
      ensures SqlcName(query) == Some(name)
    {
      NameFound(query, a, key, b, name, rest);
    }
  }

  // ----- the normal form -----

  /** What a text is cut to: itself while short; a longer one at the last rune that starts
      within the limit. */
  predicate CutTo(shown: string, normal: string) {
    if |shown| <= MAX_QUERY_LENGTH then normal == shown
    else
      && 3 <= |normal| <= MAX_QUERY_LENGTH + 3 && normal == shown[..|normal| - 3] + "..." && RuneStart(shown[|normal| - 3])
      && forall i :: |normal| - 3 < i <= MAX_QUERY_LENGTH ==> !RuneStart(shown[i])
  }

  /** The sqlc name's comment that leads a normal form. */
  function Led(name: Option<string>): string {
    if name.Some? then "-- name: " + name.value + " " else ""
  }

  /** The normal form of a query, whatever its pieces: the name, and the fields of what the
      pieces show. */
  lemma NormalFormShows(query: string, pieces: seq<Piece>)
    requires Trim(query) == Spell(pieces) && Lexed([], pieces)
    ensures var shown := Joined(Fields(Led(SqlcName(Trim(query))) + Show(pieces)));
            match Normalize(query)
            case None => |shown| > MAX_QUERY_LENGTH && forall i :: 0 <= i <= MAX_QUERY_LENGTH ==> !RuneStart(shown[i])
            case Some(normal) => if shown == "" then normal == "unknown" else CutTo(shown, normal)
  {
    hide Scan, Fields, Joined, Folded, Lexed, Spell, Show, SqlcName, Trim;
    ScanShows([], pieces);
    FoldedIsFields(Led(SqlcName(Trim(query))) + Show(pieces));
  }

  /** A query that overruns: a comment, and then continuation bytes only. */
  lemma CommentedBytesOverrun(bytes: string)
    requires |bytes| > MAX_QUERY_LENGTH && Continuing(bytes) == |bytes|
    ensures Normalize("/**/" + bytes).None?
  {
    hide Normalize, Continuing, Scan, Folded;
    var query := "/**/" + bytes;
    CommentedBytes(bytes, query);
    OverrunsIff(query);
  }

  lemma CommentedBytes(bytes: string, query: string)
    requires bytes != [] && Continuing(bytes) == |bytes| && query == "/**/" + bytes
    ensures Trim(query) == query && SqlcName(query).None? && Skipped(query) == bytes
  {
    hide Continuing;
    assert !RuneStart(bytes[0]) && !RuneStart(bytes[|bytes| - 1]);
    assert query[|query| - 1] == bytes[|bytes| - 1];
    BlockTakes([], bytes, 0);
    assert [] + ("*/" + bytes) == query[2..];
    assert query[4..] == bytes;
  }
}
