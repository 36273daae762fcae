/** What the normal form of a query shows (runtime/dbtrace_sql.go): every text is a
sequence of strings, numbers, comments, quoted names, parameters and plain bytes, by their
own grammar, and the scanner shows each of them as it should. */
module SqlPieces {
  import opened Options
  import opened SqlTokens
  import opened SqlNormalizer

  // ----- the grammar -----

  /** A piece of a text: contents between delimiters, a number, a parameter, or one other
      byte. An open piece is one that the end of the text cuts off. */
  datatype Piece =
    | StringPiece(body: string)
    | DollarPiece(tag: string, body: string)
    | LinePiece(body: string)
    | BlockPiece(body: string)
    | NamePiece(body: string)
    | NumberPiece(text: string)
    | ParameterPiece(name: string)
    | BytePiece(byte: char)
    | OpenString(body: string)
    | OpenDollar(tag: string, body: string)
    | OpenLine(body: string)
    | OpenBlock(body: string)
    | OpenName(body: string)

  function Spelled(piece: Piece): string {
    match piece
    case StringPiece(body) => "'" + body + "'"
    case DollarPiece(tag, body) => tag + body + tag
    case LinePiece(body) => "--" + body + "\n"
    case BlockPiece(body) => "/*" + body + "*/"
    case NamePiece(body) => "\"" + body + "\""
    case NumberPiece(text) => text
    case ParameterPiece(name) => "$" + name
    case BytePiece(byte) => [byte]
    case OpenString(body) => "'" + body
    case OpenDollar(tag, body) => tag + body
    case OpenLine(body) => "--" + body
    case OpenBlock(body) => "/*" + body
    case OpenName(body) => "\"" + body
  }

  /** What a normal form shows of a piece: one mark of a value, a space of a comment, and
      everything else as it is. */
  function Shown(piece: Piece): string {
    if piece.StringPiece? || piece.OpenString? || piece.DollarPiece? || piece.OpenDollar? || piece.NumberPiece? then "?"
    else if piece.LinePiece? || piece.OpenLine? || piece.BlockPiece? || piece.OpenBlock? then " "
    else Spelled(piece)
  }

  /** Every quote is doubled; where escapes count, every backslash takes a byte, unless the
      text ends open. */
  predicate QuoteBody(body: string, quote: char, escapes: bool, open: bool)
    decreases |body|
  {
    || body == []
    || (if escapes && body[0] == '\\' then if |body| == 1 then open else QuoteBody(body[2..], quote, escapes, open)
        else if body[0] == quote then Starts(body, quote, quote) && QuoteBody(body[2..], quote, escapes, open)
        else QuoteBody(body[1..], quote, escapes, open))
  }

  /** A byte of a name: a letter, a digit, an underscore, or a byte outside ASCII. */
  predicate NameByte(ch: char) {
    'a' <= ch <= 'z' || 'A' <= ch <= 'Z' || '0' <= ch <= '9' || ch == '_' || ch as int > 127
  }

  /** A digit here belongs to a name. */
  predicate AfterName(before: string) {
    before != [] && NameByte(before[|before| - 1])
  }

  /** A text that ends in the E of an escape string: a word of its own. */
  predicate LoneE(before: string) {
    || before == "e" || before == "E"
    || (|before| > 1 && before[|before| - 1] in ['e', 'E'] && !NameByte(before[|before| - 2]))
  }

  lemma LoneEscapes(before: string)
    ensures LoneE(before) <==> AfterEscape(before)
  {
  }

  /** Nested comments, `depth` of them still open, all close. */
  predicate BlockBody(body: string, depth: nat)
    decreases |body|
  {
    if body == [] then depth == 0
    else if Starts(body, '/', '*') then BlockBody(body[2..], depth + 1)
    else if Starts(body, '*', '/') then depth > 0 && BlockBody(body[2..], depth - 1)
    else body != "/" && BlockBody(body[1..], depth)
  }

  /** The outermost comment does not close. */
  predicate BlockOpen(body: string, depth: nat)
    decreases |body|
  {
    || body == []
    || (if Starts(body, '/', '*') then BlockOpen(body[2..], depth + 1)
        else if Starts(body, '*', '/') then depth > 0 && BlockOpen(body[2..], depth - 1)
        else BlockOpen(body[1..], depth))
  }

  predicate AllIdent(name: string) {
    forall i :: 0 <= i < |name| ==> NameByte(name[i])
  }

  predicate IsTag(tag: string) {
    && |tag| >= 2 && tag[0] == '$' && tag[|tag| - 1] == '$'
    && AllIdent(tag[1..|tag| - 1])
    && !('0' <= tag[1] <= '9')
  }

  /** The delimiter does not occur before the end. */
  predicate DollarBody(tag: string, body: string) {
    forall i :: 0 <= i < |body| ==> !(tag <= (body + tag)[i..])
  }

  predicate DollarOpen(tag: string, body: string) {
    forall i :: 0 <= i < |body| ==> !(tag <= body[i..])
  }

  /** A byte continues a number: a letter, a digit, a point, or the sign of an exponent. */
  predicate GoesOn(before: char, ch: char) {
    NameByte(ch) || ch == '.' || ((ch == '+' || ch == '-') && before in ['e', 'E'])
  }

  predicate AllGoOn(before: char, text: string)
    decreases |text|
  {
    text == [] || (GoesOn(before, text[0]) && AllGoOn(text[0], text[1..]))
  }

  predicate NumberText(before: string, text: string, post: string) {
    && text != [] && '0' <= text[0] <= '9' && !AfterName(before) && AllGoOn(text[0], text[1..])
    && (post == [] || !GoesOn(text[|text| - 1], post[0]))
  }

  /** The contents do not close the piece early, nor does what follows continue it. */
  predicate Closed(before: string, piece: Piece, post: string) {
    match piece
    case StringPiece(body) => QuoteBody(body, '\'', LoneE(before), false) && (post == [] || post[0] != '\'')
    case DollarPiece(tag, body) => IsTag(tag) && DollarBody(tag, body)
    case LinePiece(body) => '\n' !in body
    case BlockPiece(body) => BlockBody(body, 0)
    case NamePiece(body) => QuoteBody(body, '"', false, false) && (post == [] || post[0] != '"')
    case NumberPiece(text) => NumberText(before, text, post)
    case ParameterPiece(name) =>
      AllIdent(name) && (post == [] || (!NameByte(post[0]) && (post[0] == '$' ==> name != [] && '0' <= name[0] <= '9')))
    case BytePiece(byte) =>
      && byte != '\'' && byte != '"' && byte != '$' && ('0' <= byte <= '9' ==> AfterName(before))
      && !Starts([byte] + post, '-', '-') && !Starts([byte] + post, '/', '*')
    case OpenString(body) => post == [] && QuoteBody(body, '\'', LoneE(before), true)
    case OpenDollar(tag, body) => post == [] && IsTag(tag) && DollarOpen(tag, body)
    case OpenLine(body) => post == [] && '\n' !in body
    case OpenBlock(body) => post == [] && BlockOpen(body, 0)
    case OpenName(body) => post == [] && QuoteBody(body, '"', false, true)
  }

  function KindOf(piece: Piece): Kind {
    match piece
    case StringPiece(_) => Quoted
    case OpenString(_) => Quoted
    case DollarPiece(_, _) => Dollar
    case OpenDollar(_, _) => Dollar
    case LinePiece(_) => LineComment
    case OpenLine(_) => LineComment
    case BlockPiece(_) => BlockComment
    case OpenBlock(_) => BlockComment
    case NamePiece(_) => Identifier
    case OpenName(_) => Identifier
    case NumberPiece(_) => Number
    case ParameterPiece(_) => Parameter
    case BytePiece(_) => Plain
  }

  // ----- a piece is one token -----

  lemma {:induction false} QuotedTakes(body: string, post: string, quote: char, escapes: bool)
    requires quote != '\\' && QuoteBody(body, quote, escapes, false) && (post == [] || post[0] != quote)
    ensures QuotedLength(body + ([quote] + post), quote, escapes) == |body| + 1
    decreases |body|
  {
    var s := body + ([quote] + post);
    if body == [] {
      assert s == [quote] + post;
      assert s[0] == quote && (|s| > 1 ==> s[1] == post[0]);
    } else if body[0] == quote || (escapes && body[0] == '\\') {
      assert s[0] == body[0] && s[1] == body[1];
      assert s[2..] == body[2..] + ([quote] + post);
      QuotedTakes(body[2..], post, quote, escapes);
    } else {
      assert s[1..] == body[1..] + ([quote] + post);
      QuotedTakes(body[1..], post, quote, escapes);
    }
  }

  lemma {:induction false} QuotedRuns(body: string, quote: char, escapes: bool)
    requires QuoteBody(body, quote, escapes, true)
    ensures QuotedLength(body, quote, escapes) == |body|
    decreases |body|
  {
    if |body| > 1 && (body[0] == quote || (escapes && body[0] == '\\')) {
      QuotedRuns(body[2..], quote, escapes);
    } else if body != [] && body[0] != quote && !(escapes && body[0] == '\\') {
      QuotedRuns(body[1..], quote, escapes);
    }
  }

  lemma {:induction false} LineTakes(body: string, post: string)
    requires '\n' !in body
    ensures LineLength(body + ("\n" + post)) == |body| + 1
  {
    var s := body + ("\n" + post);
    if body == [] {
      assert s == "\n" + post;
    } else {
      assert s[1..] == body[1..] + ("\n" + post);
      LineTakes(body[1..], post);
    }
  }

  lemma {:induction false} LineRuns(body: string)
    requires '\n' !in body
    ensures LineLength(body) == |body|
  {
    if body != [] {
      LineRuns(body[1..]);
    }
  }

  lemma {:induction false} BlockTakes(body: string, post: string, depth: nat)
    requires BlockBody(body, depth)
    ensures BlockLength(body + ("*/" + post), depth + 1) == |body| + 2
    decreases |body|
  {
    var s := body + ("*/" + post);
    if body == [] {
      assert s == "*/" + post;
      assert s[2..] == post;
    } else if Starts(body, '/', '*') {
      assert s[2..] == body[2..] + ("*/" + post);
      BlockTakes(body[2..], post, depth + 1);
    } else if Starts(body, '*', '/') {
      assert s[2..] == body[2..] + ("*/" + post);
      BlockTakes(body[2..], post, depth - 1);
    } else {
      BlockOne(body, post, depth);
      BlockTakes(body[1..], post, depth);
    }
  }

  /** A byte of the contents that neither opens nor closes a comment. */
  lemma BlockOne(body: string, post: string, depth: nat)
    requires body != [] && body != "/" && !Starts(body, '/', '*') && !Starts(body, '*', '/')
    ensures BlockLength(body + ("*/" + post), depth + 1) == 1 + BlockLength(body[1..] + ("*/" + post), depth + 1)
  {
    var s := body + ("*/" + post);
    assert s[1..] == body[1..] + ("*/" + post);
    assert s[0] == body[0];
    assert |body| > 1 ==> s[1] == body[1];
    assert |body| == 1 ==> s[1] == '*';
    assert |body| == 1 && body[0] == '/' ==> body == "/";
    assert !Starts(s, '/', '*') && !Starts(s, '*', '/');
  }

  lemma {:induction false} BlockRuns(body: string, depth: nat)
    requires BlockOpen(body, depth)
    ensures BlockLength(body, depth + 1) == |body|
    decreases |body|
  {
    if body == [] {
    } else if Starts(body, '/', '*') {
      BlockRuns(body[2..], depth + 1);
    } else if Starts(body, '*', '/') {
      BlockRuns(body[2..], depth - 1);
    } else {
      BlockRuns(body[1..], depth);
    }
  }

  lemma {:induction false} IdentTakes(name: string, rest: string)
    requires AllIdent(name) && (rest == [] || !IsIdent(rest[0]))
    ensures IdentRun(name + rest) == |name|
  {
    if name == [] {
      assert name + rest == rest;
    } else {
      assert (name + rest)[1..] == name[1..] + rest;
      IdentTakes(name[1..], rest);
    }
  }

  lemma TagTakes(tag: string, rest: string)
    requires IsTag(tag)
    ensures DollarTag(tag + rest) == Some(tag)
  {
    var name := tag[1..|tag| - 1];
    assert (tag + rest)[1..] == name + ("$" + rest);
    IdentTakes(name, "$" + rest);
    assert (tag + rest)[..|name| + 2] == tag;
  }

  lemma {:induction false} DollarTakes(tag: string, body: string, post: string)
    requires tag != [] && DollarBody(tag, body)
    ensures DollarLength(body + (tag + post), tag) == |body| + |tag|
  {
    var s := body + (tag + post);
    if body == [] {
      assert s == tag + post;
    } else {
      assert s[1..] == body[1..] + (tag + post);
      NotYet(tag, body, post);
      DollarBodyTail(tag, body);
      DollarTakes(tag, body[1..], post);
    }
  }

  lemma NotYet(tag: string, body: string, post: string)
    requires tag != [] && DollarBody(tag, body) && body != []
    ensures !(tag <= body + (tag + post))
  {
    assert (body + tag)[0..] == body + tag;
    assert (body + tag)[..|tag|] == (body + (tag + post))[..|tag|];
  }

  lemma DollarBodyTail(tag: string, body: string)
    requires DollarBody(tag, body) && body != []
    ensures DollarBody(tag, body[1..])
  {
    forall i | 0 <= i < |body[1..]|
      ensures !(tag <= (body[1..] + tag)[i..])
    {
      assert (body[1..] + tag)[i..] == (body + tag)[i + 1..];
    }
  }

  lemma {:induction false} DollarRuns(tag: string, body: string)
    requires tag != [] && DollarOpen(tag, body)
    ensures DollarLength(body, tag) == |body|
  {
    if body != [] {
      assert body[0..] == body;
      forall i | 0 <= i < |body[1..]|
        ensures !(tag <= body[1..][i..])
      {
        assert body[1..][i..] == body[i + 1..];
      }
      DollarRuns(tag, body[1..]);
    }
  }

  lemma {:induction false} NumberTakes(before: char, text: string, post: string)
    requires AllGoOn(before, text)
    requires post == [] || !GoesOn(if text == [] then before else text[|text| - 1], post[0])
    ensures NumberRun(before, text + post) == |text|
    decreases |text|
  {
    if text == [] {
      assert text + post == post;
    } else {
      assert (text + post)[0] == text[0] && (text + post)[1..] == text[1..] + post;
      NumberTakes(text[0], text[1..], post);
    }
  }

  /** The scanner takes a piece whole. */
  lemma PieceToken(before: string, piece: Piece, post: string)
    requires Closed(before, piece, post)
    ensures var a := Spelled(piece);
            a != [] && KindAt(before, a + post) == KindOf(piece) && Length(before, a + post) == |a|
  {
    hide KindAt, Length, QuoteBody, BlockBody, BlockOpen, IsTag, DollarBody, DollarOpen, NumberText;
    match piece
    case StringPiece(body) => StringToken(before, body, post);
    case DollarPiece(tag, body) => DollarPieceToken(before, tag, body, post);
    case LinePiece(body) => LineToken(before, body, post);
    case BlockPiece(body) => BlockToken(before, body, post);
    case NamePiece(body) => NameToken(before, body, post);
    case NumberPiece(text) => NumberToken(before, text, post);
    case ParameterPiece(name) => ParameterToken(before, name, post);
    case BytePiece(byte) => ByteToken(before, byte, post);
    case OpenString(body) => OpenToken(before, piece, post);
    case OpenDollar(tag, body) => OpenDollarToken(before, tag, body, post);
    case OpenLine(body) => OpenToken(before, piece, post);
    case OpenBlock(body) => OpenToken(before, piece, post);
    case OpenName(body) => OpenToken(before, piece, post);
  }

  lemma StringToken(before: string, body: string, post: string)
    requires QuoteBody(body, '\'', LoneE(before), false) && (post == [] || post[0] != '\'')
    ensures var a := "'" + body + "'";
            a + post != [] && KindAt(before, a + post) == Quoted && Length(before, a + post) == |a|
  {
    hide QuoteBody, QuotedLength, LoneE, AfterEscape;
    LoneEscapes(before);
    var rest := "'" + body + "'" + post;
    assert rest[1..] == body + (['\''] + post);
    QuotedTakes(body, post, '\'', AfterEscape(before));
  }

  lemma NameToken(before: string, body: string, post: string)
    requires QuoteBody(body, '"', false, false) && (post == [] || post[0] != '"')
    ensures var a := "\"" + body + "\"";
            a + post != [] && KindAt(before, a + post) == Identifier && Length(before, a + post) == |a|
  {
    hide QuoteBody, QuotedLength;
    var rest := "\"" + body + "\"" + post;
    assert rest[1..] == body + (['"'] + post);
    QuotedTakes(body, post, '"', false);
  }

  lemma LineToken(before: string, body: string, post: string)
    requires '\n' !in body
    ensures var a := "--" + body + "\n";
            a + post != [] && KindAt(before, a + post) == LineComment && Length(before, a + post) == |a|
  {
    hide LineLength;
    var rest := "--" + body + "\n" + post;
    assert rest == ("--" + body) + ("\n" + post);
    LineTakes("--" + body, post);
  }

  lemma BlockToken(before: string, body: string, post: string)
    requires BlockBody(body, 0)
    ensures var a := "/*" + body + "*/";
            a + post != [] && KindAt(before, a + post) == BlockComment && Length(before, a + post) == |a|
  {
    hide BlockBody, BlockLength;
    var rest := "/*" + body + "*/" + post;
    assert rest[2..] == body + ("*/" + post);
    BlockTakes(body, post, 0);
  }

  lemma DollarPieceToken(before: string, tag: string, body: string, post: string)
    requires IsTag(tag) && DollarBody(tag, body)
    ensures var a := tag + body + tag;
            a + post != [] && KindAt(before, a + post) == Dollar && Length(before, a + post) == |a|
  {
    var rest := tag + body + tag + post;
    assert rest == tag + (body + (tag + post));
    TagTakes(tag, body + (tag + post));
    assert rest[|tag|..] == body + (tag + post);
    DollarTakes(tag, body, post);
  }

  lemma NumberToken(before: string, text: string, post: string)
    requires NumberText(before, text, post)
    ensures text + post != [] && KindAt(before, text + post) == Number && Length(before, text + post) == |text|
  {
    var rest := text + post;
    assert rest[0] == text[0] && rest[1..] == text[1..] + post;
    NumberTakes(text[0], text[1..], post);
  }

  lemma ParameterToken(before: string, name: string, post: string)
    requires Closed(before, ParameterPiece(name), post)
    ensures var a := "$" + name;
            a + post != [] && KindAt(before, a + post) == Parameter && Length(before, a + post) == |a|
  {
    var rest := "$" + name + post;
    assert rest[1..] == name + post;
    IdentTakes(name, post);
    assert post != [] ==> rest[1 + |name|] == post[0];
    assert name != [] ==> rest[1] == name[0];
    assert DollarTag(rest).None?;
  }

  lemma ByteToken(before: string, byte: char, post: string)
    requires Closed(before, BytePiece(byte), post)
    ensures [byte] + post != [] && KindAt(before, [byte] + post) == Plain && Length(before, [byte] + post) == 1
  {
  }

  lemma OpenToken(before: string, piece: Piece, post: string)
    requires Closed(before, piece, post)
    requires piece.OpenString? || piece.OpenLine? || piece.OpenBlock? || piece.OpenName?
    ensures var a := Spelled(piece);
            a != [] && a + post == a && KindAt(before, a + post) == KindOf(piece) && Length(before, a + post) == |a|
  {
    hide LoneE, AfterEscape;
    LoneEscapes(before);
    var a := Spelled(piece);
    assert a + post == a;
    match piece {
      case OpenString(body) =>
        assert a[1..] == body;
        QuotedRuns(body, '\'', AfterEscape(before));
      case OpenLine(body) => LineRuns("--" + body);
      case OpenBlock(body) =>
        assert a[2..] == body;
        BlockRuns(body, 0);
      case OpenName(body) =>
        assert a[1..] == body;
        QuotedRuns(body, '"', false);
    }
  }

  lemma OpenDollarToken(before: string, tag: string, body: string, post: string)
    requires IsTag(tag) && DollarOpen(tag, body) && post == []
    ensures var a := tag + body;
            a != [] && KindAt(before, a + post) == Dollar && Length(before, a + post) == |a|
  {
    var a := tag + body;
    assert a + post == a;
    TagTakes(tag, body);
    assert a[|tag|..] == body;
    DollarRuns(tag, body);
  }

  // ----- every token is a piece -----

  lemma PairBody(s: string, m: nat, quote: char, escapes: bool)
    requires m + 2 <= |s| && ((escapes && s[0] == '\\') || (s[0] == quote && s[1] == quote)) && QuoteBody(s[2..][..m], quote, escapes, false)
    ensures QuoteBody(s[..m + 2], quote, escapes, false)
  {
    assert s[..m + 2][2..] == s[2..][..m];
  }

  lemma ByteBody(s: string, m: nat, quote: char, escapes: bool)
    requires m + 1 <= |s| && s[0] != quote && !(escapes && s[0] == '\\') && QuoteBody(s[1..][..m], quote, escapes, false)
    ensures QuoteBody(s[..m + 1], quote, escapes, false)
  {
    assert s[..m + 1][1..] == s[1..][..m];
  }

  lemma {:induction false} QuotedPiece(s: string, quote: char, escapes: bool) returns (closed: bool)
    requires quote != '\\'
    ensures var n := QuotedLength(s, quote, escapes);
            if closed then n > 0 && s[n - 1] == quote && QuoteBody(s[..n - 1], quote, escapes, false) && (n == |s| || s[n] != quote)
            else n == |s| && QuoteBody(s, quote, escapes, true)
    decreases |s|
  {
    var n := QuotedLength(s, quote, escapes);
    if |s| > 1 && ((escapes && s[0] == '\\') || (s[0] == quote && s[1] == quote)) {
      closed := QuotedPiece(s[2..], quote, escapes);
      if closed {
        PairBody(s, n - 3, quote, escapes);
      }
    } else if s != [] && s[0] != quote && !(escapes && s[0] == '\\') {
      closed := QuotedPiece(s[1..], quote, escapes);
      if closed {
        ByteBody(s, n - 2, quote, escapes);
      }
    } else {
      closed := s != [] && s[0] == quote;
    }
  }

  lemma {:induction false} LinePieceOf(s: string) returns (closed: bool)
    ensures var n := LineLength(s);
            if closed then n > 0 && s[n - 1] == '\n' && '\n' !in s[..n - 1] else n == |s| && '\n' !in s
  {
    if s == [] || s[0] == '\n' {
      closed := s != [];
    } else {
      closed := LinePieceOf(s[1..]);
      assert closed ==> s[..LineLength(s) - 1] == [s[0]] + s[1..][..LineLength(s[1..]) - 1];
      assert s == [s[0]] + s[1..];
    }
  }

  lemma {:induction false} BlockPieceOf(s: string, depth: nat) returns (closed: bool)
    ensures var n := BlockLength(s, depth + 1);
            if closed then n >= 2 && s[n - 2] == '*' && s[n - 1] == '/' && BlockBody(s[..n - 2], depth) else n == |s| && BlockOpen(s, depth)
    decreases |s|
  {
    var n := BlockLength(s, depth + 1);
    if s == [] {
      closed := false;
    } else if Starts(s, '*', '/') && depth == 0 {
      closed := true;
      assert BlockLength(s[2..], 0) == 0;
      assert s[..n - 2] == [];
    } else if Starts(s, '/', '*') || Starts(s, '*', '/') {
      closed := BlockPieceOf(s[2..], if s[0] == '/' then depth + 1 else depth - 1);
      if closed {
        assert s[..n - 2][2..] == s[2..][..n - 4];
      }
    } else {
      closed := BlockPieceOf(s[1..], depth);
      if closed {
        BlockByte(s, n, depth);
      }
    }
  }

  lemma BlockByte(s: string, n: nat, depth: nat)
    requires 3 <= n <= |s| && s[n - 2] == '*' && !Starts(s, '/', '*') && !Starts(s, '*', '/') && BlockBody(s[1..][..n - 3], depth)
    ensures BlockBody(s[..n - 2], depth)
  {
    var body := s[..n - 2];
    assert body[1..] == s[1..][..n - 3];
    assert body[0] == s[0] && (|body| > 1 ==> body[1] == s[1]);
    assert !Starts(body, '/', '*') && !Starts(body, '*', '/');
  }

  lemma NothingBefore(tag: string, body: string)
    requires body == []
    ensures DollarBody(tag, body) && DollarOpen(tag, body)
  {
  }

  lemma {:induction false} DollarPieceOf(s: string, tag: string) returns (closed: bool)
    requires tag != []
    ensures var n := DollarLength(s, tag);
            if closed then n >= |tag| && s[n - |tag|..n] == tag && DollarBody(tag, s[..n - |tag|]) else n == |s| && DollarOpen(tag, s)
  {
    hide DollarBody, DollarOpen;
    if tag <= s {
      closed := true;
      NothingBefore(tag, s[..0]);
    } else if s == [] {
      closed := false;
      NothingBefore(tag, s);
    } else {
      closed := DollarPieceOf(s[1..], tag);
      if closed {
        DollarByte(s, tag, DollarLength(s[1..], tag));
      } else {
        DollarOpenByte(s, tag);
      }
    }
  }

  lemma DollarOpenByte(s: string, tag: string)
    requires s != [] && !(tag <= s) && DollarOpen(tag, s[1..])
    ensures DollarOpen(tag, s)
  {
    forall i | 0 <= i < |s|
      ensures !(tag <= s[i..])
    {
      assert i == 0 ==> s[i..] == s;
      assert i > 0 ==> s[i..] == s[1..][i - 1..];
    }
  }

  lemma DollarByte(s: string, tag: string, k: nat)
    requires tag != [] && s != [] && !(tag <= s) && |tag| <= k <= |s| - 1
    requires s[1..][k - |tag|..k] == tag && DollarBody(tag, s[1..][..k - |tag|])
    ensures s[k + 1 - |tag|..k + 1] == tag && DollarBody(tag, s[..k + 1 - |tag|])
  {
    var n := k + 1 - |tag|;
    var body, tail := s[..n], s[1..][..n - 1];
    assert s[n..n + |tag|] == s[1..][n - 1..k];
    assert body == [s[0]] + tail;
    assert body + tag == s[..n + |tag|];
    forall i | 0 <= i < |body|
      ensures !(tag <= (body + tag)[i..])
    {
      if i == 0 {
        assert (body + tag)[0..] == s[..n + |tag|];
        assert tag <= s[..n + |tag|] ==> tag <= s;
      } else {
        assert (body + tag)[i..] == (tail + tag)[i - 1..];
      }
    }
  }

  lemma {:induction false} IdentPiece(s: string)
    ensures AllIdent(s[..IdentRun(s)])
  {
    if s != [] && IsIdent(s[0]) {
      IdentPiece(s[1..]);
      assert s[..IdentRun(s)] == [s[0]] + s[1..][..IdentRun(s[1..])];
    }
  }

  lemma {:induction false} NumberPieceOf(before: char, s: string)
    ensures var n := NumberRun(before, s);
            AllGoOn(before, s[..n]) && (n == |s| || !GoesOn(if n == 0 then before else s[n - 1], s[n]))
    decreases |s|
  {
    var n := NumberRun(before, s);
    if n > 0 {
      NumberPieceOf(s[0], s[1..]);
      assert s[..n][1..] == s[1..][..n - 1];
    }
  }

  /** Whatever token the scanner takes is a piece. */
  lemma TokenPiece(before: string, rest: string) returns (piece: Piece)
    requires rest != []
    ensures Spelled(piece) == rest[..Length(before, rest)] && Closed(before, piece, rest[Length(before, rest)..])
  {
    hide QuoteBody, BlockBody, BlockOpen, DollarBody, DollarOpen, NumberText, IsTag;
    match KindAt(before, rest) {
      case LineComment => piece := LineOf(before, rest);
      case BlockComment => piece := BlockOf(before, rest);
      case Quoted => piece := StringOf(before, rest);
      case Identifier => piece := NameOf(before, rest);
      case Dollar => piece := DollarOf(before, rest);
      case Parameter => piece := ParameterOf(before, rest);
      case Number => piece := NumberOf(before, rest);
      case Plain =>
        piece := BytePiece(rest[0]);
        assert [rest[0]] + rest[1..] == rest;
    }
  }

  lemma StringOf(before: string, rest: string) returns (piece: Piece)
    requires rest != [] && KindAt(before, rest).Quoted?
    ensures Spelled(piece) == rest[..Length(before, rest)] && Closed(before, piece, rest[Length(before, rest)..])
  {
    hide QuoteBody, QuotedLength, LoneE, AfterEscape;
    LoneEscapes(before);
    var s, n := rest[1..], Length(before, rest);
    var closed := QuotedPiece(s, '\'', AfterEscape(before));
    piece := if closed then StringPiece(s[..n - 2]) else OpenString(s);
    assert closed ==> rest[..n] == "'" + s[..n - 2] + "'";
    assert !closed ==> rest == "'" + s;
  }

  lemma NameOf(before: string, rest: string) returns (piece: Piece)
    requires rest != [] && KindAt(before, rest).Identifier?
    ensures Spelled(piece) == rest[..Length(before, rest)] && Closed(before, piece, rest[Length(before, rest)..])
  {
    hide QuoteBody, QuotedLength;
    var s, n := rest[1..], Length(before, rest);
    var closed := QuotedPiece(s, '"', false);
    piece := if closed then NamePiece(s[..n - 2]) else OpenName(s);
    assert closed ==> rest[..n] == "\"" + s[..n - 2] + "\"";
    assert !closed ==> rest == "\"" + s;
  }

  lemma LineOf(before: string, rest: string) returns (piece: Piece)
    requires rest != [] && KindAt(before, rest).LineComment?
    ensures Spelled(piece) == rest[..Length(before, rest)] && Closed(before, piece, rest[Length(before, rest)..])
  {
    var n := Length(before, rest);
    var closed := LinePieceOf(rest);
    assert LineLength(rest) >= 2;
    if closed {
      assert rest[n - 1] == '\n' && rest[0] == rest[1] == '-';
      piece := LinePiece(rest[2..n - 1]);
      assert rest[..n - 1] == "--" + rest[2..n - 1];
      assert rest[..n] == rest[..n - 1] + "\n";
    } else {
      piece := OpenLine(rest[2..]);
      assert rest == "--" + rest[2..];
    }
  }

  lemma BlockOf(before: string, rest: string) returns (piece: Piece)
    requires rest != [] && KindAt(before, rest).BlockComment?
    ensures Spelled(piece) == rest[..Length(before, rest)] && Closed(before, piece, rest[Length(before, rest)..])
  {
    hide BlockLength, BlockBody, BlockOpen;
    var s, n := rest[2..], Length(before, rest);
    var closed := BlockPieceOf(s, 0);
    piece := if closed then BlockPiece(s[..n - 4]) else OpenBlock(s);
    assert closed ==> rest[..n] == "/*" + s[..n - 4] + "*/";
    assert !closed ==> rest == "/*" + s;
  }

  lemma DollarOf(before: string, rest: string) returns (piece: Piece)
    requires rest != [] && KindAt(before, rest).Dollar?
    ensures Spelled(piece) == rest[..Length(before, rest)] && Closed(before, piece, rest[Length(before, rest)..])
  {
    hide DollarBody, DollarOpen, DollarLength, IsTag, DollarTag;
    var tag := DollarTag(rest).value;
    TagOf(rest);
    var s := rest[|tag|..];
    var closed := DollarPieceOf(s, tag);
    var k := DollarLength(s, tag);
    piece := if closed then DollarPiece(tag, s[..k - |tag|]) else OpenDollar(tag, s);
    DollarSpelled(rest, tag, k, closed);
  }

  lemma DollarSpelled(rest: string, tag: string, k: nat, closed: bool)
    requires tag <= rest && |tag| + k <= |rest|
    requires if closed then k >= |tag| && rest[|tag|..][k - |tag|..k] == tag else |tag| + k == |rest|
    ensures var s := rest[|tag|..];
            rest[..|tag| + k] == if closed then tag + s[..k - |tag|] + tag else tag + s
  {
    var s := rest[|tag|..];
    assert closed ==> s[..k] == s[..k - |tag|] + s[k - |tag|..k];
    assert rest[..|tag| + k] == tag + s[..k];
  }

  lemma TagOf(rest: string)
    requires rest != [] && rest[0] == '$' && DollarTag(rest).Some?
    ensures IsTag(DollarTag(rest).value)
  {
    var tag := DollarTag(rest).value;
    IdentPiece(rest[1..]);
    assert tag[1..|tag| - 1] == rest[1..][..|tag| - 2];
    assert tag[1] == rest[1];
  }

  lemma ParameterOf(before: string, rest: string) returns (piece: Piece)
    requires rest != [] && KindAt(before, rest).Parameter?
    ensures Spelled(piece) == rest[..Length(before, rest)] && Closed(before, piece, rest[Length(before, rest)..])
  {
    var s, n := rest[1..], Length(before, rest);
    piece := ParameterPiece(s[..n - 1]);
    IdentPiece(s);
    IdentStops(s);
    assert rest[..n] == "$" + s[..n - 1];
    assert n < |rest| ==> rest[n] == s[n - 1] == rest[n..][0];
    assert n > 1 ==> s[..n - 1][0] == rest[1];
  }

  lemma NumberOf(before: string, rest: string) returns (piece: Piece)
    requires rest != [] && KindAt(before, rest).Number?
    ensures Spelled(piece) == rest[..Length(before, rest)] && Closed(before, piece, rest[Length(before, rest)..])
  {
    var s, n := rest[1..], Length(before, rest);
    var text := rest[..n];
    piece := NumberPiece(text);
    NumberPieceOf(rest[0], s);
    assert text[1..] == s[..n - 1] && text[0] == rest[0];
    assert n < |rest| ==> rest[n..][0] == s[n - 1];
    assert text[|text| - 1] == if n == 1 then rest[0] else s[n - 2];
  }

  // ----- what a text shows -----

  function Spell(pieces: seq<Piece>): string {
    if pieces == [] then "" else Spelled(pieces[0]) + Spell(pieces[1..])
  }

  function Show(pieces: seq<Piece>): string {
    if pieces == [] then "" else Shown(pieces[0]) + Show(pieces[1..])
  }

  /** Each piece is closed where it stands. */
  predicate Lexed(before: string, pieces: seq<Piece>)
    decreases |pieces|
  {
    pieces == [] || (Closed(before, pieces[0], Spell(pieces[1..])) && Lexed(before + Spelled(pieces[0]), pieces[1..]))
  }

  /** Every text is a sequence of pieces. */
  lemma {:induction false} EveryTextIsPieces(before: string, rest: string) returns (pieces: seq<Piece>)
    ensures Spell(pieces) == rest && Lexed(before, pieces)
    decreases |rest|
  {
    hide Length, Closed, Spelled;
    if rest == [] {
      pieces := [];
    } else {
      var n := Length(before, rest);
      var piece := TokenPiece(before, rest);
      var tail := EveryTextIsPieces(before + rest[..n], rest[n..]);
      pieces := [piece] + tail;
      assert pieces[1..] == tail && rest == rest[..n] + rest[n..];
    }
  }

  /** What is written of a token is what is shown of its piece. */
  lemma WrittenIsShown(piece: Piece)
    ensures Written(KindOf(piece), Spelled(piece)) == Shown(piece)
  {
  }

  /** The scanner writes exactly what is shown of the pieces. */
  lemma {:induction false} ScanShows(before: string, pieces: seq<Piece>)
    requires Lexed(before, pieces)
    ensures Scan(before, Spell(pieces)) == Show(pieces)
    decreases |pieces|
  {
    hide Closed, Spelled, Shown, KindAt, Length, Written, KindOf;
    if pieces != [] {
      var piece, post := pieces[0], Spell(pieces[1..]);
      PieceToken(before, piece, post);
      TokenThenRest(before, Spelled(piece), post);
      WrittenIsShown(piece);
      ScanShows(before + Spelled(piece), pieces[1..]);
    }
  }
}
