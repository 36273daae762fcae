/** Literal search (datasource/crud.go): the escaped pattern between two percent
signs matches a text under SQL LIKE exactly when the search text occurs in it. */
module Like {

  const ESCAPE: char := '\\'

  /** strings.ReplaceAll of one character by a string. */
  function ReplaceAll(s: string, c: char, into: string): string {
    if s == "" then "" else (if s[0] == c then into else [s[0]]) + ReplaceAll(s[1..], c, into)
  }

  /** escapeCRUDLike: the backslash first, so that no inserted escape is escaped again. */
  function EscapeLike(value: string): string {
    ReplaceAll(ReplaceAll(ReplaceAll(value, '\\', "\\\\"), '%', "\\%"), '_', "\\_")
  }

  predicate Special(c: char) {
    c == '\\' || c == '%' || c == '_'
  }

  function EscapeChar(c: char): string {
    if Special(c) then [ESCAPE, c] else [c]
  }

  function EscapeEach(s: string): string {
    if s == "" then "" else EscapeChar(s[0]) + EscapeEach(s[1..])
  }

  /** SQL LIKE with a backslash escape; an escape at the end of a pattern matches
      nothing. */
  predicate Matches(text: string, pattern: string)
    decreases |text| + |pattern|
  {
    if pattern == "" then text == ""
    else if pattern[0] == '%' then Matches(text, pattern[1..]) || (text != "" && Matches(text[1..], pattern))
    else if text == "" then false
    else if pattern[0] == ESCAPE then |pattern| > 1 && text[0] == pattern[1] && Matches(text[1..], pattern[2..])
    else (pattern[0] == '_' || text[0] == pattern[0]) && Matches(text[1..], pattern[1..])
  }

  function Lower(lower: char -> char, s: string): string {
    seq(|s|, i requires 0 <= i < |s| => lower(s[i]))
  }

  /** Lowering neither produces nor loses a pattern character. */
  ghost predicate Plain(lower: char -> char) {
    forall c :: (Special(lower(c)) ==> lower(c) == c) && (Special(c) ==> lower(c) == c)
  }

  predicate Contains(text: string, part: string) {
    part <= text || (text != "" && Contains(text[1..], part))
  }

  // ----- the three replacements escape each character once -----

  lemma {:induction false} ReplaceConcat(a: string, b: string, c: char, into: string)
    ensures ReplaceAll(a + b, c, into) == ReplaceAll(a, c, into) + ReplaceAll(b, c, into)
  {
    if a == "" {
      assert a + b == b;
    } else {
      assert (a + b)[1..] == a[1..] + b;
      ReplaceConcat(a[1..], b, c, into);
    }
  }

  lemma ReplaceOne(x: char, c: char, into: string)
    ensures ReplaceAll([x], c, into) == if x == c then into else [x]
  {
    assert [x][1..] == "";
  }

  lemma ReplaceTwo(x: char, y: char, c: char, into: string)
    ensures ReplaceAll([x, y], c, into) == (if x == c then into else [x]) + (if y == c then into else [y])
  {
    ReplaceConcat([x], [y], c, into);
    ReplaceOne(x, c, into);
    ReplaceOne(y, c, into);
    assert [x] + [y] == [x, y];
  }

  lemma EscapeOne(x: char)
    ensures EscapeLike([x]) == EscapeChar(x)
  {
    ReplaceOne(x, '\\', "\\\\");
    if x == '\\' {
      ReplaceTwo('\\', '\\', '%', "\\%");
      ReplaceTwo('\\', '\\', '_', "\\_");
    } else {
      ReplaceOne(x, '%', "\\%");
      if x == '%' {
        ReplaceTwo('\\', '%', '_', "\\_");
      } else {
        ReplaceOne(x, '_', "\\_");
      }
    }
  }

  lemma {:induction false} EscapeLikeEscapesEach(s: string)
    ensures EscapeLike(s) == EscapeEach(s)
  {
    if s != "" {
      var head, tail := [s[0]], s[1..];
      assert s == head + tail;
      ReplaceConcat(head, tail, '\\', "\\\\");
      var h1, t1 := ReplaceAll(head, '\\', "\\\\"), ReplaceAll(tail, '\\', "\\\\");
      ReplaceConcat(h1, t1, '%', "\\%");
      ReplaceConcat(ReplaceAll(h1, '%', "\\%"), ReplaceAll(t1, '%', "\\%"), '_', "\\_");
      EscapeOne(s[0]);
      EscapeLikeEscapesEach(tail);
    }
  }

  // ----- matching the escaped text -----

  lemma {:induction false} LowerEscape(lower: char -> char, s: string)
    requires Plain(lower)
    ensures Lower(lower, EscapeEach(s)) == EscapeEach(Lower(lower, s))
  {
    if s != "" {
      LowerEscape(lower, s[1..]);
      assert Lower(lower, s)[1..] == Lower(lower, s[1..]);
      LowerEscapeChar(lower, s[0]);
      LowerConcat(lower, EscapeChar(s[0]), EscapeEach(s[1..]));
    }
  }

  lemma LowerEscapeChar(lower: char -> char, c: char)
    requires Plain(lower)
    ensures Lower(lower, EscapeChar(c)) == EscapeChar(lower(c))
  {
    assert lower(ESCAPE) == ESCAPE;
  }

  lemma LowerConcat(lower: char -> char, a: string, b: string)
    ensures Lower(lower, a + b) == Lower(lower, a) + Lower(lower, b)
  {
  }

  lemma PercentMatchesAll(text: string)
    ensures Matches(text, "%")
    decreases text
  {
    assert "%"[1..] == "";
    if text != "" {
      PercentMatchesAll(text[1..]);
    }
  }

  /** An escaped text followed by a percent sign matches exactly its extensions. */
  lemma {:induction false} EscapedPrefix(text: string, s: string)
    ensures Matches(text, EscapeEach(s) + "%") <==> s <= text
    decreases |s|
  {
    var pattern := EscapeEach(s) + "%";
    if s == "" {
      assert pattern == "%";
      PercentMatchesAll(text);
    } else {
      var rest := EscapeEach(s[1..]) + "%";
      if text != "" {
        EscapedPrefix(text[1..], s[1..]);
        assert s <= text <==> text[0] == s[0] && s[1..] <= text[1..] by {
          assert s == [s[0]] + s[1..] && text == [text[0]] + text[1..];
        }
        if Special(s[0]) {
          assert pattern[2..] == rest && pattern[0] == ESCAPE && pattern[1] == s[0];
        } else {
          assert pattern[1..] == rest && pattern[0] == s[0];
        }
      } else {
        assert pattern[0] == (if Special(s[0]) then ESCAPE else s[0]);
      }
    }
  }

  lemma {:induction false} PatternIsContains(text: string, s: string)
    ensures Matches(text, "%" + EscapeEach(s) + "%") <==> Contains(text, s)
    decreases |text|
  {
    var pattern := "%" + EscapeEach(s) + "%";
    assert pattern[1..] == EscapeEach(s) + "%";
    EscapedPrefix(text, s);
    if text != "" {
      PatternIsContains(text[1..], s);
    }
  }

  /** What listCRUDPage searches: LOWER(column) LIKE LOWER(pattern) ESCAPE '\'. */
  predicate SearchMatches(lower: char -> char, text: string, search: string) {
    Matches(Lower(lower, text), Lower(lower, "%" + EscapeLike(search) + "%"))
  }

  /** Search is literal: it matches exactly the texts in which the search text
      occurs, after lowering both. */
  lemma SearchIsLiteral(lower: char -> char, text: string, search: string)
    requires Plain(lower)
    ensures SearchMatches(lower, text, search) <==> Contains(Lower(lower, text), Lower(lower, search))
  {
    EscapeLikeEscapesEach(search);
    LowerEscape(lower, search);
    var pattern := "%" + EscapeEach(search) + "%";
    assert lower('%') == '%';
    assert Lower(lower, pattern) == "%" + Lower(lower, EscapeEach(search)) + "%";
    PatternIsContains(Lower(lower, text), Lower(lower, search));
  }
}
