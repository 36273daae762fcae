/** The tokens of the SQL text normalizer (runtime/dbtrace_sql.go): what each token
takes of the text, as a recursion and as the scanner's loops. A char is a byte. */
module SqlTokens {
  import opened Options

  predicate IsDigit(ch: char) {
    '0' <= ch <= '9'
  }

  predicate IsIdent(ch: char) {
    ch == '_' || ch as int >= 128 || 'a' <= ch <= 'z' || 'A' <= ch <= 'Z' || IsDigit(ch)
  }

  predicate IsExponent(ch: char) {
    ch == 'e' || ch == 'E'
  }

  datatype Kind = LineComment | BlockComment | Quoted | Identifier | Dollar | Parameter | Number | Plain

  // ----- lengths -----

  function LineLength(s: string): (n: nat)
    ensures n <= |s|
  {
    if s == [] then 0 else if s[0] == '\n' then 1 else 1 + LineLength(s[1..])
  }

  predicate Starts(s: string, a: char, b: char) {
    |s| >= 2 && s[0] == a && s[1] == b
  }

  /** The rest of a block comment, nested `depth` deep. */
  function BlockLength(s: string, depth: nat): (n: nat)
    ensures n <= |s|
    decreases |s|
  {
    if s == [] || depth == 0 then 0
    else if Starts(s, '/', '*') then 2 + BlockLength(s[2..], depth + 1)
    else if Starts(s, '*', '/') then 2 + BlockLength(s[2..], depth - 1)
    else 1 + BlockLength(s[1..], depth)
  }

  /** The rest of a quoted token: a doubled quote, and a backslash pair where escapes
      count, do not end it. */
  function QuotedLength(s: string, quote: char, escapes: bool): (n: nat)
    ensures n <= |s|
    decreases |s|
  {
    if s == [] then 0
    else if escapes && s[0] == '\\' then if |s| == 1 then 1 else 2 + QuotedLength(s[2..], quote, escapes)
    else if s[0] == quote then if |s| > 1 && s[1] == quote then 2 + QuotedLength(s[2..], quote, escapes) else 1
    else 1 + QuotedLength(s[1..], quote, escapes)
  }

  function IdentRun(s: string): (n: nat)
    ensures n <= |s|
  {
    if s == [] || !IsIdent(s[0]) then 0 else 1 + IdentRun(s[1..])
  }

  /** The delimiter of a dollar string, when the text starts one. */
  function DollarTag(rest: string): (tag: Option<string>)
    requires rest != []
    ensures tag.Some? ==> 2 <= |tag.value| <= |rest| && rest[..|tag.value|] == tag.value && tag.value[|tag.value| - 1] == '$'
  {
    var n := IdentRun(rest[1..]);
    if 1 + n < |rest| && rest[1 + n] == '$' && (n == 0 || !IsDigit(rest[1])) then Some(rest[..n + 2]) else None
  }

  /** Up to and with the next delimiter, or everything. */
  function DollarLength(s: string, tag: string): (n: nat)
    requires tag != []
    ensures n <= |s|
  {
    if tag <= s then |tag| else if s == [] then 0 else 1 + DollarLength(s[1..], tag)
  }

  function NumberRun(before: char, s: string): (n: nat)
    ensures n <= |s|
    decreases |s|
  {
    if s == [] then 0
    else if IsIdent(s[0]) || s[0] == '.' || ((s[0] == '+' || s[0] == '-') && IsExponent(before)) then 1 + NumberRun(s[0], s[1..])
    else 0
  }

  // ----- tokens -----

  /** The text consumed so far ends in an identifier byte. */
  predicate AfterIdent(before: string) {
    before != [] && IsIdent(before[|before| - 1])
  }

  /** The text consumed so far ends in the E of an escape string. */
  predicate AfterEscape(before: string) {
    && before != [] && IsExponent(before[|before| - 1])
    && (|before| == 1 || !IsIdent(before[|before| - 2]))
  }

  function KindAt(before: string, rest: string): Kind
    requires rest != []
  {
    if Starts(rest, '-', '-') then LineComment
    else if Starts(rest, '/', '*') then BlockComment
    else if rest[0] == '\'' then Quoted
    else if rest[0] == '"' then Identifier
    else if rest[0] == '$' then if DollarTag(rest).Some? then Dollar else Parameter
    else if IsDigit(rest[0]) && !AfterIdent(before) then Number
    else Plain
  }

  /** The length of the token the text starts with: at least one byte, never past it. */
  function Length(before: string, rest: string): (n: nat)
    requires rest != []
    ensures 1 <= n <= |rest|
  {
    match KindAt(before, rest)
    case LineComment => LineLength(rest)
    case BlockComment => 2 + BlockLength(rest[2..], 1)
    case Quoted => 1 + QuotedLength(rest[1..], '\'', AfterEscape(before))
    case Identifier => 1 + QuotedLength(rest[1..], '"', false)
    case Dollar => var tag := DollarTag(rest).value; |tag| + DollarLength(rest[|tag|..], tag)
    case Parameter => 1 + IdentRun(rest[1..])
    case Number => 1 + NumberRun(rest[0], rest[1..])
    case Plain => 1
  }

  function Written(kind: Kind, text: string): string {
    match kind
    case LineComment => " "
    case BlockComment => " "
    case Quoted => "?"
    case Dollar => "?"
    case Number => "?"
    case Identifier => text
    case Parameter => text
    case Plain => text
  }

  /** What the scanner writes of the text left, given the text consumed. */
  function Scan(before: string, rest: string): string
    decreases |rest|
  {
    if rest == [] then ""
    else
      var n := Length(before, rest);
      Written(KindAt(before, rest), rest[..n]) + Scan(before + rest[..n], rest[n..])
  }

  // ----- the scanner's loops -----

  lemma Slices(query: string, i: nat, n: nat)
    requires i + n <= |query|
    ensures query[i..][n..] == query[i + n..] && query[i..][..n] == query[i..i + n]
  {
  }

  method LineEnd(query: string, start: nat) returns (end: nat)
    requires start <= |query|
    ensures end == start + LineLength(query[start..])
  {
    end := start;
    while end < |query|
      invariant start <= end <= |query|
      invariant end + LineLength(query[end..]) == start + LineLength(query[start..])
    {
      assert query[end..][1..] == query[end + 1..];
      end := end + 1;
      if query[end - 1] == '\n' {
        return;
      }
    }
  }

  lemma BlockStep(query: string, end: nat, depth: nat)
    requires end < |query| && depth > 0
    ensures var rest := query[end..];
            BlockLength(rest, depth) ==
            if Starts(rest, '/', '*') then 2 + BlockLength(query[end + 2..], depth + 1)
            else if Starts(rest, '*', '/') then 2 + BlockLength(query[end + 2..], depth - 1)
            else 1 + BlockLength(query[end + 1..], depth)
  {
    Slices(query, end, 1);
    if end + 2 <= |query| {
      Slices(query, end, 2);
    }
  }

  method BlockEnd(query: string, start: nat) returns (end: nat)
    requires start + 2 <= |query|
    ensures end == start + 2 + BlockLength(query[start + 2..], 1)
  {
    end := start + 2;
    var depth := 1;
    while end < |query| && depth > 0
      invariant start + 2 <= end <= |query| && depth >= 0
      invariant end + BlockLength(query[end..], depth) == start + 2 + BlockLength(query[start + 2..], 1)
    {
      var rest := query[end..];
      BlockStep(query, end, depth);
      if Starts(rest, '/', '*') {
        depth, end := depth + 1, end + 2;
      } else if Starts(rest, '*', '/') {
        depth, end := depth - 1, end + 2;
      } else {
        end := end + 1;
      }
    }
  }

  /** sqlQuotedEnd. */
  method QuotedEnd(query: string, start: nat, quote: char, escapes: bool) returns (end: nat)
    requires start < |query|
    ensures end == start + 1 + QuotedLength(query[start + 1..], quote, escapes)
  {
    end := start + 1;
    while end < |query|
      invariant start + 1 <= end <= |query|
      invariant end + QuotedLength(query[end..], quote, escapes) == start + 1 + QuotedLength(query[start + 1..], quote, escapes)
    {
      assert query[end..][1..] == query[end + 1..];
      assert end + 2 <= |query| ==> query[end..][2..] == query[end + 2..];
      if escapes && query[end] == '\\' {
        end := if end + 2 <= |query| then end + 2 else |query|;
      } else if query[end] == quote {
        if end + 1 < |query| && query[end + 1] == quote {
          end := end + 2;
        } else {
          return end + 1;
        }
      } else {
        end := end + 1;
      }
    }
  }

  method IdentEnd(query: string, start: nat) returns (end: nat)
    requires start <= |query|
    ensures end == start + IdentRun(query[start..])
  {
    end := start;
    while end < |query| && IsIdent(query[end])
      invariant start <= end <= |query|
      invariant end + IdentRun(query[end..]) == start + IdentRun(query[start..])
    {
      assert query[end..][1..] == query[end + 1..];
      end := end + 1;
    }
  }

  /** strings.Index of the closing delimiter. */
  method DollarEnd(query: string, start: nat, tag: string) returns (end: nat)
    requires start <= |query| && tag != []
    ensures end == start + DollarLength(query[start..], tag)
  {
    end := start;
    while end < |query|
      invariant start <= end <= |query|
      invariant end + DollarLength(query[end..], tag) == start + DollarLength(query[start..], tag)
    {
      if tag <= query[end..] {
        return end + |tag|;
      }
      assert query[end..][1..] == query[end + 1..];
      end := end + 1;
    }
  }

  method NumberEnd(query: string, start: nat) returns (end: nat)
    requires start < |query|
    ensures end == start + 1 + NumberRun(query[start], query[start + 1..])
  {
    end := start + 1;
    while end < |query| && (IsIdent(query[end]) || query[end] == '.' || ((query[end] == '+' || query[end] == '-') && IsExponent(query[end - 1])))
      invariant start + 1 <= end <= |query|
      invariant end + NumberRun(query[end - 1], query[end..]) == start + 1 + NumberRun(query[start], query[start + 1..])
    {
      assert query[end..][1..] == query[end + 1..];
      end := end + 1;
    }
  }

  /** The switch's dollar case: a dollar string, or a parameter. */
  method DollarToken(query: string, i: nat) returns (kind: Kind, end: nat)
    requires i < |query| && query[i] == '$'
    ensures kind == KindAt(query[..i], query[i..]) && end == i + Length(query[..i], query[i..])
  {
    ghost var rest := query[i..];
    Slices(query, i, 1);
    end := IdentEnd(query, i + 1);
    if end < |query| && query[end] == '$' && (end == i + 1 || !IsDigit(query[i + 1])) {
      var tag := query[i..end + 1];
      Slices(query, i, |tag|);
      assert DollarTag(rest) == Some(tag);
      end := DollarEnd(query, end + 1, tag);
      return Dollar, end;
    }
    assert DollarTag(rest).None?;
    return Parameter, end;
  }

  /** One turn of the scanner's switch: the kind and the end of the token at i. */
  method NextToken(query: string, i: nat) returns (kind: Kind, end: nat)
    requires i < |query|
    ensures kind == KindAt(query[..i], query[i..]) && end == i + Length(query[..i], query[i..])
  {
    var rest := query[i..];
    assert rest[0] == query[i];
    Slices(query, i, 1);
    if Starts(rest, '-', '-') {
      end := LineEnd(query, i);
      return LineComment, end;
    }
    if Starts(rest, '/', '*') {
      Slices(query, i, 2);
      end := BlockEnd(query, i);
      return BlockComment, end;
    }
    if query[i] == '\'' {
      var escaped := i > 0 && IsExponent(query[i - 1]) && (i == 1 || !IsIdent(query[i - 2]));
      end := QuotedEnd(query, i, '\'', escaped);
      return Quoted, end;
    }
    if query[i] == '"' {
      end := QuotedEnd(query, i, '"', false);
      return Identifier, end;
    }
    if query[i] == '$' {
      kind, end := DollarToken(query, i);
      return;
    }
    if IsDigit(query[i]) && (i == 0 || !IsIdent(query[i - 1])) {
      end := NumberEnd(query, i);
      return Number, end;
    }
    return Plain, i + 1;
  }

  /** What the scanner writes from one token on. */
  lemma ScanStep(query: string, i: nat, end: nat)
    requires i < |query| && end == i + Length(query[..i], query[i..])
    ensures end <= |query|
    ensures Scan(query[..i], query[i..]) == Written(KindAt(query[..i], query[i..]), query[i..end]) + Scan(query[..end], query[end..])
  {
    hide KindAt, Written;
    Slices(query, i, end - i);
    assert query[..i] + query[i..end] == query[..end];
  }

  lemma ScanEnd(before: string, rest: string)
    requires rest == []
    ensures Scan(before, rest) == []
  {
  }

  lemma Regroup(a: string, b: string, c: string)
    ensures a + (b + c) == a + b + c
  {
  }

  /** normalizeDBQuery's loop. */
  method ScanQuery(query: string) returns (out: string)
    ensures out == Scan([], query)
  {
    hide Scan, KindAt, Length, Written;
    out := [];
    var i := 0;
    assert query[..0] == [] && query[0..] == query;
    while i < |query|
      invariant 0 <= i <= |query|
      invariant Scan([], query) == out + Scan(query[..i], query[i..])
      decreases |query| - i
    {
      var kind, end := NextToken(query, i);
      ScanStep(query, i, end);
      var text := Written(kind, query[i..end]);
      Regroup(out, text, Scan(query[..end], query[end..]));
      out := out + text;
      i := end;
    }
    ScanEnd(query[..i], query[i..]);
  }
}
