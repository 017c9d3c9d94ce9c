/** The JSON highlighter: it cuts a string into tokens and wraps them in coloured spans. */
module JsonHighlight {
  import opened Sequences
  import Decimal

  datatype Kind = Space | Key | Str | Number | Boolean | Null | Punct | Plain

  datatype Token = Token(kind: Kind, source: string)

  predicate IsSpace(c: char) {
    c == ' ' || c == '\n' || c == '\r' || c == '\t'
  }

  predicate InNumber(c: char) {
    Decimal.IsDigit(c) || c == '.' || c == '-' || c == 'e' || c == 'E' || c == '+'
  }

  predicate IsPunct(c: char) {
    c == '{' || c == '}' || c == '[' || c == ']' || c == ':' || c == ','
  }

  /** The word stands at `i`. */
  predicate At(raw: string, i: nat, word: string)
    requires i <= |raw|
  {
    i + |word| <= |raw| && raw[i..i + |word|] == word
  }

  // ----- Where tokens end -----

  /** The end of a string literal whose text starts at `i`: past its closing quote, or the end of the
      input when it is unterminated. A backslash takes the character after it, if there is one. */
  function StringEnd(raw: string, i: nat): (j: nat)
    requires i <= |raw|
    ensures i <= j <= |raw|
    decreases |raw| - i
  {
    if i == |raw| then i
    else if raw[i] == '"' then i + 1
    else if raw[i] == '\\' then (if i + 1 < |raw| then StringEnd(raw, i + 2) else i + 1)
    else StringEnd(raw, i + 1)
  }

  function NumberEnd(raw: string, i: nat): (j: nat)
    requires i <= |raw|
    ensures i <= j <= |raw|
    decreases |raw| - i
  {
    if i < |raw| && InNumber(raw[i]) then NumberEnd(raw, i + 1) else i
  }

  function SkipBlanks(raw: string, i: nat): (j: nat)
    requires i <= |raw|
    ensures i <= j <= |raw|
    decreases |raw| - i
  {
    if i < |raw| && (raw[i] == ' ' || raw[i] == '\t') then SkipBlanks(raw, i + 1) else i
  }

  /** A colon follows, after blanks. */
  predicate ColonAfter(raw: string, i: nat)
    requires i <= |raw|
  {
    var j := SkipBlanks(raw, i);
    j < |raw| && raw[j] == ':'
  }

  function KindAt(raw: string, i: nat): Kind
    requires i < |raw|
  {
    var c := raw[i];
    if IsSpace(c) then Space
    else if c == '"' then (if ColonAfter(raw, StringEnd(raw, i + 1)) then Key else Str)
    else if Decimal.IsDigit(c) || c == '-' then Number
    else if At(raw, i, "true") || At(raw, i, "false") then Boolean
    else if At(raw, i, "null") then Null
    else if IsPunct(c) then Punct
    else Plain
  }

  function EndAt(raw: string, i: nat): (j: nat)
    requires i < |raw|
    ensures i < j <= |raw|
  {
    match KindAt(raw, i)
    case Key => StringEnd(raw, i + 1)
    case Str => StringEnd(raw, i + 1)
    case Number => NumberEnd(raw, i)
    case Boolean => if At(raw, i, "true") then i + 4 else i + 5
    case Null => i + 4
    case _ => i + 1
  }

  function Tokens(raw: string, i: nat): seq<Token>
    requires i <= |raw|
    decreases |raw| - i
  {
    if i == |raw| then []
    else [Token(KindAt(raw, i), raw[i..EndAt(raw, i)])] + Tokens(raw, EndAt(raw, i))
  }

  function Sources(tokens: seq<Token>): string {
    if tokens == [] then "" else tokens[0].source + Sources(tokens[1..])
  }

  /** The tokens put together are the input, whatever it is. */
  lemma {:induction false} Lossless(raw: string, i: nat)
    requires i <= |raw|
    ensures Sources(Tokens(raw, i)) == raw[i..]
    decreases |raw| - i
  {
    if i < |raw| {
      var j := EndAt(raw, i);
      Lossless(raw, j);
      assert raw[i..] == raw[i..j] + raw[j..];
    }
  }

  // ----- String literals -----

  /** String text: characters other than quote and backslash, and backslashes with the character after. */
  predicate IsText(s: string) {
    s == "" ||
    (if s[0] == '\\' then |s| >= 2 && IsText(s[2..]) else s[0] != '"' && IsText(s[1..]))
  }

  /** A string token ends at the first quote that no backslash takes; without one it is unterminated and
      runs to the end of the input, possibly up to a trailing backslash. */
  lemma {:induction false} StringShape(raw: string, i: nat)
    requires i <= |raw|
    ensures
      var j := StringEnd(raw, i);
      || (i < j && raw[j - 1] == '"' && IsText(raw[i..j - 1]))
      || (j == |raw| && IsText(raw[i..]))
      || (j == |raw| && i < j && raw[j - 1] == '\\' && IsText(raw[i..j - 1]))
    decreases |raw| - i
  {
    if i == |raw| || raw[i] == '"' {
    } else if raw[i] == '\\' {
      if i + 1 < |raw| {
        StringShape(raw, i + 2);
        TextAfter(raw, i, 2, StringEnd(raw, i));
      }
    } else {
      StringShape(raw, i + 1);
      TextAfter(raw, i, 1, StringEnd(raw, i));
    }
  }

  lemma {:induction false} TextAfter(raw: string, i: nat, n: nat, j: nat)
    requires i + n <= j <= |raw| && 1 <= n <= 2
    requires raw[i] != '"' && (n == 2 <==> raw[i] == '\\')
    ensures i + n < j && IsText(raw[i + n..j - 1]) ==> IsText(raw[i..j - 1])
    ensures IsText(raw[i + n..j]) ==> IsText(raw[i..j])
    ensures raw[i + n..|raw|] == raw[i + n..] && raw[i..|raw|] == raw[i..]
  {
    if i + n < j {
      assert raw[i..j - 1][n..] == raw[i + n..j - 1];
    }
    assert raw[i..j][n..] == raw[i + n..j];
  }

  // ----- The highlighted text -----

  /** Text made safe for HTML: ampersand, angle brackets and no-break space become entities. */
  function EscapeChar(c: char): string {
    if c == '&' then "&amp;"
    else if c == '<' then "&lt;"
    else if c == '>' then "&gt;"
    else if c == '\U{00A0}' then "&nbsp;"
    else [c]
  }

  function Escape(s: string): string {
    if s == "" then "" else EscapeChar(s[0]) + Escape(s[1..])
  }

  /** The tag in front of a token; white space and stray characters get none. */
  function TagOf(kind: Kind): string {
    match kind
    case Key => "span class=\"json-key\""
    case Str => "span class=\"json-string\""
    case Number => "span class=\"json-number\""
    case Boolean => "span class=\"json-boolean\""
    case Null => "span class=\"json-null\""
    case Punct => "span class=\"json-punct\""
    case _ => ""
  }

  function Open(kind: Kind): string {
    if TagOf(kind) == "" then "" else "<" + TagOf(kind) + ">"
  }

  function Close(kind: Kind): string {
    if TagOf(kind) == "" then "" else "</span>"
  }

  function HtmlOf(t: Token): string {
    Open(t.kind) + Escape(t.source) + Close(t.kind)
  }

  function Html(tokens: seq<Token>): string {
    if tokens == [] then "" else HtmlOf(tokens[0]) + Html(tokens[1..])
  }

  method SpanOf(kind: Kind, source: string) returns (span: string)
    ensures span == HtmlOf(Token(kind, source))
  {
    if kind.Space? || kind.Plain? {
      span := Escape(source);
      assert "" + Escape(source) + "" == Escape(source);
    } else {
      span := "<" + TagOf(kind) + ">" + Escape(source) + "</span>";
    }
  }

  /** Reads a string literal, one character or escape at a time. */
  method ReadString(raw: string, start: nat) returns (i: nat, str: string)
    requires start < |raw| && raw[start] == '"'
    ensures i == StringEnd(raw, start + 1) && str == raw[start..i]
  {
    i := start + 1;
    while i < |raw| && raw[i] != '"'
      invariant start + 1 <= i <= |raw|
      invariant StringEnd(raw, i) == StringEnd(raw, start + 1) || i == |raw| == StringEnd(raw, start + 1)
      decreases |raw| - i
    {
      if raw[i] == '\\' {
        i := i + 1;
      }
      if i < |raw| {
        i := i + 1;
      }
    }
    if i < |raw| {
      i := i + 1;
    }
    str := raw[start..i];
  }

  method ReadNumber(raw: string, start: nat) returns (i: nat, num: string)
    requires start < |raw|
    ensures i == NumberEnd(raw, start) && num == raw[start..i]
  {
    i, num := start, "";
    while i < |raw| && InNumber(raw[i])
      invariant start <= i <= |raw| && num == raw[start..i]
      invariant NumberEnd(raw, i) == NumberEnd(raw, start)
    {
      num := num + [raw[i]];
      i := i + 1;
    }
  }

  method FollowedByColon(raw: string, i: nat) returns (yes: bool)
    requires i <= |raw|
    ensures yes == ColonAfter(raw, i)
  {
    var j := i;
    while j < |raw| && (raw[j] == ' ' || raw[j] == '\t')
      invariant i <= j <= |raw| && SkipBlanks(raw, j) == SkipBlanks(raw, i)
    {
      j := j + 1;
    }
    yes := j < |raw| && raw[j] == ':';
  }

  /** The highlighter. It terminates on every string, and what its output shows is the input. */
  method Highlight(raw: string) returns (result: string)
    ensures result == Html(Tokens(raw, 0))
    ensures Visible(result) == raw
    ensures Spelled(raw, 0, result)
  {
    result := "";
    var i := 0;
    while i < |raw|
      invariant 0 <= i <= |raw|
      invariant result + Html(Tokens(raw, i)) == Html(Tokens(raw, 0))
      decreases |raw| - i
    {
      var span, next := ReadToken(raw, i);
      Associative(result, span, Html(Tokens(raw, next)));
      result := result + span;
      i := next;
    }
    assert result + "" == result;
    ShowsInput(raw);
    HtmlSpelled(raw, 0);
  }

  method ReadToken(raw: string, i: nat) returns (span: string, next: nat)
    requires i < |raw|
    ensures next == EndAt(raw, i)
    ensures span == HtmlOf(Token(KindAt(raw, i), raw[i..next]))
    ensures TokenRule(raw, i, span, next)
  {
    hide TokenRule;
    TokenByRule(raw, i);
    var ch := raw[i];
    if IsSpace(ch) {
      next := i + 1;
      span := SpanOf(Space, raw[i..next]);
    } else if ch == '"' {
      var str;
      next, str := ReadString(raw, i);
      var key := FollowedByColon(raw, next);
      span := SpanOf(if key then Key else Str, str);
    } else if Decimal.IsDigit(ch) || ch == '-' {
      var num;
      next, num := ReadNumber(raw, i);
      span := SpanOf(Number, num);
    } else if At(raw, i, "true") {
      next := i + 4;
      span := SpanOf(Boolean, "true");
    } else if At(raw, i, "false") {
      next := i + 5;
      span := SpanOf(Boolean, "false");
    } else if At(raw, i, "null") {
      next := i + 4;
      span := SpanOf(Null, "null");
    } else if IsPunct(ch) {
      next := i + 1;
      span := SpanOf(Punct, raw[i..next]);
    } else {
      next := i + 1;
      span := SpanOf(Plain, raw[i..next]);
    }
  }

  // ----- What each token looks like -----

  /** The literal whose text starts at `i` ends at `j`. */
  predicate LiteralEnds(raw: string, i: nat, j: nat)
    requires i <= j <= |raw|
  {
    || (i < j && raw[j - 1] == '"' && IsText(raw[i..j - 1]))
    || (j == |raw| && IsText(raw[i..]))
    || (j == |raw| && i < j && raw[j - 1] == '\\' && IsText(raw[i..j - 1]))
  }

  /** A colon follows `i`, with only blanks and tabs between. */
  ghost predicate ColonFollows(raw: string, i: nat) {
    exists k :: i <= k < |raw| && raw[k] == ':' && forall j :: i <= j < k ==> raw[j] in " \t"
  }

  ghost predicate NumberEnds(raw: string, i: nat, j: nat)
    requires i < j <= |raw|
  {
    && (forall k :: i <= k < j ==> raw[k] in "0123456789.-eE+")
    && (j < |raw| ==> raw[j] !in "0123456789.-eE+")
  }

  predicate WordAt(raw: string, i: nat, word: string)
    requires i <= |raw|
  {
    word <= raw[i..]
  }

  /** The token at `i`, by its first character: what is written for it and where the next one starts. */
  ghost predicate TokenRule(raw: string, i: nat, span: string, next: nat)
    requires i < next <= |raw|
  {
    && CharacterRule(raw, i, span, next) && LiteralRule(raw, i, span, next)
    && NumberRule(raw, i, span, next) && WordRule(raw, i, span, next)
  }

  predicate CharacterRule(raw: string, i: nat, span: string, next: nat)
    requires i < next <= |raw|
  {
    var c := raw[i];
    && (c in " \n\r\t" ==> next == i + 1 && span == [c])
    && (c in "{}[]:," ==> next == i + 1 && span == "<span class=\"json-punct\">" + [c] + "</span>")
    && (Stray(raw, i) ==> next == i + 1 && span == Escape([c]))
  }

  ghost predicate LiteralRule(raw: string, i: nat, span: string, next: nat)
    requires i < next <= |raw|
  {
    raw[i] == '"' ==>
      && LiteralEnds(raw, i + 1, next)
      && (ColonFollows(raw, next) ==> span == "<span class=\"json-key\">" + Escape(raw[i..next]) + "</span>")
      && (!ColonFollows(raw, next) ==> span == "<span class=\"json-string\">" + Escape(raw[i..next]) + "</span>")
  }

  ghost predicate NumberRule(raw: string, i: nat, span: string, next: nat)
    requires i < next <= |raw|
  {
    raw[i] in "0123456789-" ==>
      NumberEnds(raw, i, next) && span == "<span class=\"json-number\">" + Escape(raw[i..next]) + "</span>"
  }

  predicate WordRule(raw: string, i: nat, span: string, next: nat)
    requires i < next <= |raw|
  {
    && (WordAt(raw, i, "true") ==> next == i + 4 && span == "<span class=\"json-boolean\">true</span>")
    && (WordAt(raw, i, "false") ==> next == i + 5 && span == "<span class=\"json-boolean\">false</span>")
    && (WordAt(raw, i, "null") ==> next == i + 4 && span == "<span class=\"json-null\">null</span>")
  }

  /** Nothing starts here: the character is written as it is, outside any span. */
  predicate Stray(raw: string, i: nat)
    requires i < |raw|
  {
    && raw[i] !in " \n\r\t\"0123456789-{}[]:,"
    && !WordAt(raw, i, "true") && !WordAt(raw, i, "false") && !WordAt(raw, i, "null")
  }

  lemma {:induction false} ColonAfterFollows(raw: string, i: nat)
    requires i <= |raw|
    ensures ColonAfter(raw, i) <==> ColonFollows(raw, i)
    decreases |raw| - i
  {
    if i < |raw| && (raw[i] == ' ' || raw[i] == '\t') {
      ColonAfterFollows(raw, i + 1);
      if ColonFollows(raw, i + 1) {
        var k :| i + 1 <= k < |raw| && raw[k] == ':' && forall j :: i + 1 <= j < k ==> raw[j] in " \t";
        assert forall j :: i <= j < k ==> raw[j] in " \t";
      }
    } else if i < |raw| {
      assert raw[i] !in " \t";
    }
  }

  lemma {:induction false} InNumberIs(c: char)
    ensures InNumber(c) <==> c in "0123456789.-eE+"
  {
    var digits := "0123456789.-eE+";
    if Decimal.IsDigit(c) {
      assert digits[c as int - '0' as int] == c;
    } else if InNumber(c) {
      assert digits[10] == '.' && digits[11] == '-' && digits[12] == 'e' && digits[13] == 'E' && digits[14] == '+';
    }
  }

  lemma {:induction false} NumberRead(raw: string, n: nat)
    requires n <= |raw|
    ensures n <= NumberEnd(raw, n)
    ensures forall k :: n <= k < NumberEnd(raw, n) ==> InNumber(raw[k])
    ensures NumberEnd(raw, n) < |raw| ==> !InNumber(raw[NumberEnd(raw, n)])
    decreases |raw| - n
  {
    if n < |raw| && InNumber(raw[n]) {
      NumberRead(raw, n + 1);
    }
  }

  lemma {:induction false} AtIs(raw: string, i: nat, word: string)
    requires i <= |raw|
    ensures At(raw, i, word) <==> WordAt(raw, i, word)
  {
    if i + |word| <= |raw| {
      assert raw[i..][..|word|] == raw[i..i + |word|];
    }
  }

  lemma {:induction false} ClassesAre(c: char)
    ensures IsSpace(c) <==> c in " \n\r\t"
    ensures Decimal.IsDigit(c) || c == '-' <==> c in "0123456789-"
    ensures IsPunct(c) <==> c in "{}[]:,"
  {
    var spaces, starts, puncts := " \n\r\t", "0123456789-", "{}[]:,";
    assert spaces[0] == ' ' && spaces[1] == '\n' && spaces[2] == '\r' && spaces[3] == '\t';
    assert puncts[0] == '{' && puncts[1] == '}' && puncts[2] == '[' && puncts[3] == ']' && puncts[4] == ':' && puncts[5] == ',';
    if Decimal.IsDigit(c) {
      assert starts[c as int - '0' as int] == c;
    } else if c == '-' {
      assert starts[10] == '-';
    }
  }

  lemma {:induction false} EscapePlain(s: string)
    requires forall k :: 0 <= k < |s| ==> EscapeChar(s[k]) == [s[k]]
    ensures Escape(s) == s
  {
    if s != "" {
      EscapePlain(s[1..]);
      assert s == [s[0]] + s[1..];
    }
  }

  function TokenAt(raw: string, i: nat): string
    requires i < |raw|
  {
    HtmlOf(Token(KindAt(raw, i), raw[i..EndAt(raw, i)]))
  }

  lemma {:induction false} SpanOfKey(source: string)
    ensures HtmlOf(Token(Key, source)) == "<span class=\"json-key\">" + Escape(source) + "</span>"
    ensures HtmlOf(Token(Str, source)) == "<span class=\"json-string\">" + Escape(source) + "</span>"
  {
    hide Escape;
    assert Open(Key) == "<span class=\"json-key\">";
    assert Open(Str) == "<span class=\"json-string\">";
  }

  lemma {:induction false} SpanOfNumber(source: string)
    ensures HtmlOf(Token(Number, source)) == "<span class=\"json-number\">" + Escape(source) + "</span>"
    ensures HtmlOf(Token(Punct, source)) == "<span class=\"json-punct\">" + Escape(source) + "</span>"
  {
    hide Escape;
    assert Open(Number) == "<span class=\"json-number\">";
    assert Open(Punct) == "<span class=\"json-punct\">";
  }

  lemma {:induction false} SpanOfWord(source: string)
    requires Escape(source) == source
    ensures HtmlOf(Token(Boolean, source)) == "<span class=\"json-boolean\">" + source + "</span>"
    ensures HtmlOf(Token(Null, source)) == "<span class=\"json-null\">" + source + "</span>"
  {
    hide Escape;
    assert Open(Boolean) == "<span class=\"json-boolean\">";
    assert Open(Null) == "<span class=\"json-null\">";
  }

  lemma {:induction false} SpanOfBare(source: string)
    ensures HtmlOf(Token(Space, source)) == Escape(source)
    ensures HtmlOf(Token(Plain, source)) == Escape(source)
  {
    hide Escape;
    assert "" + Escape(source) + "" == Escape(source);
  }

  lemma {:induction false} CharacterByRule(raw: string, i: nat)
    requires i < |raw|
    ensures CharacterRule(raw, i, TokenAt(raw, i), EndAt(raw, i))
  {
    hide HtmlOf, StringEnd, NumberEnd, ColonAfter, At, WordAt, Escape, IsSpace, IsPunct, Decimal.IsDigit;
    var c := raw[i];
    ClassesAre(c);
    AtIs(raw, i, "true");
    AtIs(raw, i, "false");
    AtIs(raw, i, "null");
    WordsStart(raw, i);
    assert raw[i..i + 1] == [c];
    EscapesAlone(c);
    SpanOfBare([c]);
    SpanOfNumber([c]);
  }

  lemma EscapesAlone(c: char)
    ensures Escape([c]) == EscapeChar(c)
    ensures c in " \n\r\t" || c in "{}[]:," ==> Escape([c]) == [c]
  {
    assert [c][1..] == "";
  }

  lemma {:induction false} WordsStart(raw: string, i: nat)
    requires i < |raw|
    ensures At(raw, i, "true") ==> raw[i] == 't'
    ensures At(raw, i, "false") ==> raw[i] == 'f'
    ensures At(raw, i, "null") ==> raw[i] == 'n'
  {
    assert At(raw, i, "true") ==> raw[i..i + 4][0] == 't';
    assert At(raw, i, "false") ==> raw[i..i + 5][0] == 'f';
    assert At(raw, i, "null") ==> raw[i..i + 4][0] == 'n';
  }

  lemma {:induction false} LiteralByRule(raw: string, i: nat)
    requires i < |raw|
    ensures LiteralRule(raw, i, TokenAt(raw, i), EndAt(raw, i))
  {
    hide HtmlOf, StringEnd, ColonAfter, ColonFollows, IsText, Escape;
    SpanOfKey(raw[i..EndAt(raw, i)]);
    if raw[i] == '"' {
      StringShape(raw, i + 1);
      ColonAfterFollows(raw, StringEnd(raw, i + 1));
    }
  }

  lemma {:induction false} NumberByRule(raw: string, i: nat)
    requires i < |raw|
    ensures NumberRule(raw, i, TokenAt(raw, i), EndAt(raw, i))
  {
    hide HtmlOf, NumberEnd, InNumber, Escape;
    SpanOfNumber(raw[i..EndAt(raw, i)]);
    ClassesAre(raw[i]);
    if Decimal.IsDigit(raw[i]) || raw[i] == '-' {
      var j := NumberEnd(raw, i);
      NumberRead(raw, i);
      forall k | i <= k < j ensures raw[k] in "0123456789.-eE+" {
        InNumberIs(raw[k]);
      }
      if j < |raw| {
        InNumberIs(raw[j]);
      }
    }
  }

  lemma {:induction false} WordsPlain()
    ensures Escape("true") == "true" && Escape("false") == "false" && Escape("null") == "null"
  {
    hide Escape;
    EscapePlain("true");
    EscapePlain("false");
    EscapePlain("null");
  }

  lemma {:induction false} WordByRule(raw: string, i: nat)
    requires i < |raw|
    ensures WordRule(raw, i, TokenAt(raw, i), EndAt(raw, i))
  {
    hide HtmlOf, StringEnd, NumberEnd, ColonAfter, WordAt, Escape;
    AtIs(raw, i, "true");
    AtIs(raw, i, "false");
    AtIs(raw, i, "null");
    WordsStart(raw, i);
    WordsPlain();
    SpanOfWord("true");
    SpanOfWord("false");
    SpanOfWord("null");
  }

  /** What the highlighter writes for a token is what its first character calls for. */
  lemma {:induction false} TokenByRule(raw: string, i: nat)
    requires i < |raw|
    ensures TokenRule(raw, i, TokenAt(raw, i), EndAt(raw, i))
  {
    CharacterByRule(raw, i);
    LiteralByRule(raw, i);
    NumberByRule(raw, i);
    WordByRule(raw, i);
  }

  /** The output is the spans of the tokens, one after the other. */
  ghost predicate Spelled(raw: string, i: nat, out: string)
    requires i <= |raw|
    decreases |raw| - i
  {
    if i == |raw| then out == ""
    else exists span: string, next: nat ::
      i < next <= |raw| && TokenRule(raw, i, span, next) && span <= out && Spelled(raw, next, out[|span|..])
  }

  lemma {:induction false} HtmlSpelled(raw: string, i: nat)
    requires i <= |raw|
    ensures Spelled(raw, i, Html(Tokens(raw, i)))
    decreases |raw| - i
  {
    hide TokenRule, HtmlOf, EndAt, KindAt;
    if i < |raw| {
      var next := EndAt(raw, i);
      var span := HtmlOf(Token(KindAt(raw, i), raw[i..next]));
      TokenByRule(raw, i);
      HtmlSpelled(raw, next);
      var out := Html(Tokens(raw, i));
      assert out == span + Html(Tokens(raw, next));
      assert out[|span|..] == Html(Tokens(raw, next));
    }
  }

  // ----- What a reader sees -----

  function SkipTag(h: string): (rest: string)
    ensures |rest| <= |h|
  {
    if h == "" then "" else if h[0] == '>' then h[1..] else SkipTag(h[1..])
  }

  /** The text an HTML fragment shows: tags are dropped and entities read back. */
  function Visible(h: string): string
    decreases |h|
  {
    if h == "" then ""
    else if h[0] == '<' then Visible(SkipTag(h[1..]))
    else if "&amp;" <= h then "&" + Visible(h[5..])
    else if "&lt;" <= h then "<" + Visible(h[4..])
    else if "&gt;" <= h then ">" + Visible(h[4..])
    else if "&nbsp;" <= h then "\U{00A0}" + Visible(h[6..])
    else [h[0]] + Visible(h[1..])
  }

  lemma {:induction false} VisibleChar(c: char, rest: string)
    ensures Visible(EscapeChar(c) + rest) == [c] + Visible(rest)
  {
    var e := EscapeChar(c);
    var h := e + rest;
    assert h[|e|..] == rest;
    assert h[0] == e[0] && (|e| > 1 ==> h[1] == e[1]);
    if |e| > 1 {
      assert e <= h;
      assert c == '<' ==> !("&amp;" <= h);
      assert c == '>' ==> !("&amp;" <= h) && !("&lt;" <= h);
      assert c == '\U{00A0}' ==> !("&amp;" <= h) && !("&lt;" <= h) && !("&gt;" <= h);
    }
  }

  lemma {:induction false} VisibleEscape(s: string, rest: string)
    ensures Visible(Escape(s) + rest) == s + Visible(rest)
  {
    if s == "" {
      assert Escape(s) + rest == rest;
    } else {
      var c, s' := s[0], s[1..];
      assert s == [c] + s';
      VisibleEscape(s', rest);
      VisibleEscapeStep(c, s', rest);
    }
  }

  lemma {:induction false} VisibleEscapeStep(c: char, s: string, rest: string)
    requires Visible(Escape(s) + rest) == s + Visible(rest)
    ensures Visible((EscapeChar(c) + Escape(s)) + rest) == ([c] + s) + Visible(rest)
  {
    Associative(EscapeChar(c), Escape(s), rest);
    VisibleChar(c, Escape(s) + rest);
    Associative([c], s, Visible(rest));
  }

  predicate NoClose(s: string) {
    forall i :: 0 <= i < |s| ==> s[i] != '>'
  }

  lemma {:induction false} SkipBody(body: string, rest: string)
    requires NoClose(body)
    ensures SkipTag(body + (">" + rest)) == rest
  {
    if body == "" {
      assert body + (">" + rest) == ">" + rest;
    } else {
      assert (body + (">" + rest))[1..] == body[1..] + (">" + rest);
      SkipBody(body[1..], rest);
    }
  }

  lemma {:induction false} VisibleTag(tag: string, body: string, rest: string)
    requires tag == "<" + body + ">" && NoClose(body)
    ensures Visible(tag + rest) == Visible(rest)
  {
    assert (tag + rest)[1..] == body + (">" + rest);
    SkipBody(body, rest);
  }

  lemma {:induction false} TagNoClose(kind: Kind)
    ensures NoClose(TagOf(kind))
  {
  }

  lemma {:induction false} VisibleOpen(kind: Kind, rest: string)
    ensures Visible(Open(kind) + rest) == Visible(rest)
  {
    if TagOf(kind) == "" {
      assert "" + rest == rest;
    } else {
      TagNoClose(kind);
      VisibleTag(Open(kind), TagOf(kind), rest);
    }
  }

  lemma {:induction false} VisibleClose(kind: Kind, rest: string)
    ensures Visible(Close(kind) + rest) == Visible(rest)
  {
    if TagOf(kind) == "" {
      assert "" + rest == rest;
    } else {
      assert Close(kind) == "<" + "/span" + ">";
      VisibleTag(Close(kind), "/span", rest);
    }
  }

  lemma {:induction false} VisibleToken(t: Token, rest: string)
    ensures Visible(HtmlOf(t) + rest) == t.source + Visible(rest)
  {
    Associative(Open(t.kind), Escape(t.source), Close(t.kind));
    Associative(Open(t.kind), Escape(t.source) + Close(t.kind), rest);
    Associative(Escape(t.source), Close(t.kind), rest);
    VisibleOpen(t.kind, Escape(t.source) + (Close(t.kind) + rest));
    VisibleEscape(t.source, Close(t.kind) + rest);
    VisibleClose(t.kind, rest);
  }

  lemma {:induction false} VisibleHtml(tokens: seq<Token>)
    ensures Visible(Html(tokens)) == Sources(tokens)
  {
    if tokens != [] {
      VisibleToken(tokens[0], Html(tokens[1..]));
      VisibleHtml(tokens[1..]);
    }
  }

  /** The highlighted text shows exactly the input, including unterminated strings, trailing escapes
      and markup characters. */
  lemma ShowsInput(raw: string)
    ensures Visible(Html(Tokens(raw, 0))) == raw
  {
    VisibleHtml(Tokens(raw, 0));
    Lossless(raw, 0);
    assert raw[0..] == raw;
  }
}
