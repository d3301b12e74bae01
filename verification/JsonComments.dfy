/** `strip_json_comments` of ramp-hv.py, specified by cutting the text into tokens. */
module JsonComments {

  // ---------- What the index loop computes, from any of its states ----------

  /** How many characters come before the next newline. */
  function LineLength(s: string): (n: nat)
    ensures n <= |s| && (n < |s| ==> s[n] == '\n')
  {
    if s == [] || s[0] == '\n' then 0 else 1 + LineLength(s[1..])
  }

  /** How many characters come before the end of the block comment, its closing included. */
  function BlockLength(s: string): (n: nat)
    ensures n <= |s|
  {
    if |s| < 2 then |s|
    else if s[0] == '*' && s[1] == '/' then 2
    else 1 + BlockLength(s[1..])
  }

  predicate Opens(s: string, second: char) {
    |s| >= 2 && s[0] == '/' && s[1] == second
  }

  /** The length of the comment `s` starts with, outside a string; 0 if it starts with none. */
  function CommentLength(s: string): (n: nat)
    ensures n <= |s|
    ensures n > 0 <==> (s != [] && s[0] == '#') || Opens(s, '/') || Opens(s, '*')
  {
    if s != [] && s[0] == '#' then 1 + LineLength(s[1..])
    else if Opens(s, '/') then 2 + LineLength(s[2..])
    else if Opens(s, '*') then 2 + BlockLength(s[2..])
    else 0
  }

  function Strip(s: string, inString: bool, escaped: bool): string
    decreases |s|
  {
    if s == [] then []
    else if inString then
      [s[0]] + Strip(s[1..], escaped || s[0] != '"', !escaped && s[0] == '\\')
    else if s[0] == '"' then [s[0]] + Strip(s[1..], true, escaped)
    else if CommentLength(s) > 0 then Strip(s[CommentLength(s)..], false, escaped)
    else [s[0]] + Strip(s[1..], false, escaped)
  }

  method ToNewline(text: string, start: nat) returns (i: nat)
    requires start <= |text|
    ensures i == start + LineLength(text[start..])
  {
    i := start;
    while i < |text| && text[i] != '\n'
      invariant start <= i <= |text| && i + LineLength(text[i..]) == start + LineLength(text[start..])
    {
      assert text[i..][1..] == text[i + 1..];
      i := i + 1;
    }
  }

  method PastBlock(text: string, start: nat) returns (i: nat)
    requires start <= |text|
    ensures start <= i
    ensures (if i <= |text| then i else |text|) == start + BlockLength(text[start..])
  {
    i := start;
    while i + 1 < |text| && !(text[i] == '*' && text[i + 1] == '/')
      invariant start <= i <= |text| && i + BlockLength(text[i..]) == start + BlockLength(text[start..])
    {
      assert text[i..][1..] == text[i + 1..];
      i := i + 1;
    }
    i := i + 2;
  }

  /** The three comment branches. A block comment left open takes the index past the text. */
  method SkipComment(text: string, start: nat) returns (i: nat)
    requires start < |text| && CommentLength(text[start..]) > 0
    ensures (if i <= |text| then i else |text|) == start + CommentLength(text[start..])
    ensures i > start
  {
    Tail(text, start);
    if text[start] == '#' {
      i := ToNewline(text, start + 1);
    } else if text[start + 1] == '/' {
      i := ToNewline(text, start + 2);
    } else {
      i := PastBlock(text, start + 2);
    }
  }

  predicate Keeps(s: string, inString: bool)
    requires s != []
  {
    inString || s[0] == '"' || CommentLength(s) == 0
  }

  lemma KeepFirst(s: string, inString: bool, escaped: bool)
    requires s != [] && Keeps(s, inString)
    ensures Strip(s, inString, escaped) ==
      [s[0]] + if inString then Strip(s[1..], escaped || s[0] != '"', !escaped && s[0] == '\\')
               else Strip(s[1..], s[0] == '"', escaped)
  {}

  lemma AddLast(rv: string, c: char, rest: string)
    ensures rv + ([c] + rest) == (rv + [c]) + rest
  {}

  lemma StripKept(text: string, i: nat, inString: bool, escaped: bool, rv: string)
    requires i < |text| && Keeps(text[i..], inString)
    ensures rv + Strip(text[i..], inString, escaped) == (rv + [text[i]]) +
      (if inString then Strip(text[i + 1..], escaped || text[i] != '"', !escaped && text[i] == '\\')
       else Strip(text[i + 1..], text[i] == '"', escaped))
  {
    Tail(text, i);
    KeepFirst(text[i..], inString, escaped);
    hide *;
    AddLast(rv, text[i], if inString then Strip(text[i + 1..], escaped || text[i] != '"', !escaped && text[i] == '\\')
                         else Strip(text[i + 1..], text[i] == '"', escaped));
  }

  lemma StripNothing(inString: bool, escaped: bool)
    ensures Strip([], inString, escaped) == []
  {}

  lemma StripSkipped(text: string, i: nat, escaped: bool)
    requires i < |text| && !Keeps(text[i..], false)
    ensures Strip(text[i..], false, escaped) == Strip(text[i + CommentLength(text[i..])..], false, escaped)
  {
    Tail(text, i);
  }

  method StripJsonComments(text: string) returns (rv: string)
    ensures rv == Strip(text, false, false)
  {
    hide CommentLength, Strip;
    StripNothing(false, false);
    rv := [];
    var i := 0;
    var inString, escaped := false, false;
    assert text[0..] == text;
    while i < |text|
      invariant i <= |text| ==> rv + Strip(text[i..], inString, escaped) == Strip(text, false, false)
      invariant i >= |text| ==> rv == Strip(text, false, false)
      decreases |text| - i
    {
      var c := text[i];
      Tail(text, i);
      assert text[|text|..] == [];
      if Keeps(text[i..], inString) {
        StripKept(text, i, inString, escaped, rv);
      } else {
        StripSkipped(text, i, escaped);
      }
      if inString {
        rv := rv + [c];
        if escaped {
          escaped := false;
        } else if c == '\\' {
          escaped := true;
        } else if c == '"' {
          inString := false;
        }
        i := i + 1;
      } else if c == '"' {
        inString := true;
        rv := rv + [c];
        i := i + 1;
      } else if c == '#' || (c == '/' && i + 1 < |text| && (text[i + 1] == '/' || text[i + 1] == '*')) {
        i := SkipComment(text, i);
      } else {
        rv := rv + [c];
        i := i + 1;
      }
      StripNothing(inString, escaped);
    }
  }

  lemma Tail(text: string, i: nat)
    requires i < |text|
    ensures text[i..][0] == text[i] && text[i..][1..] == text[i + 1..]
    ensures i + 1 < |text| ==> text[i..][1] == text[i + 1] && text[i..][2..] == text[i + 2..]
    ensures forall n :: 0 <= n <= |text| - i ==> text[i..][n..] == text[i + n..]
  {}

  // ---------- The specification: tokens ----------

  datatype Token = Plain(text: string) | Literal(text: string) | Comment(text: string)

  /** How much of a string literal follows its opening quote, closing quote included. */
  function LiteralRest(s: string, escaped: bool): (n: nat)
    ensures n <= |s|
  {
    if s == [] then 0
    else if !escaped && s[0] == '"' then 1
    else 1 + LiteralRest(s[1..], !escaped && s[0] == '\\')
  }

  function FirstToken(s: string): (t: Token)
    requires s != []
    ensures 0 < |t.text| <= |s| && t.text == s[..|t.text|]
  {
    if s[0] == '"' then Literal(s[..1 + LiteralRest(s[1..], false)])
    else if CommentLength(s) > 0 then Comment(s[..CommentLength(s)])
    else Plain(s[..1])
  }

  function Tokens(s: string): seq<Token>
    decreases |s|
  {
    if s == [] then []
    else
      var t := FirstToken(s);
      [t] + Tokens(s[|t.text|..])
  }

  function Text(tokens: seq<Token>): string {
    if tokens == [] then [] else tokens[0].text + Text(tokens[1..])
  }

  function WithoutComments(tokens: seq<Token>): seq<Token> {
    if tokens == [] then []
    else (if tokens[0].Comment? then [] else [tokens[0]]) + WithoutComments(tokens[1..])
  }

  lemma {:induction false} TokensCover(s: string)
    ensures Text(Tokens(s)) == s
    decreases |s|
  {
    if s != [] {
      var t := FirstToken(s);
      TokensCover(s[|t.text|..]);
      assert s == t.text + s[|t.text|..];
    }
  }

  lemma InsideLiteral(s: string, escaped: bool)
    requires s != []
    ensures Strip(s, true, escaped) == [s[0]] + Strip(s[1..], escaped || s[0] != '"', !escaped && s[0] == '\\')
    ensures LiteralRest(s, escaped) ==
      if !escaped && s[0] == '"' then 1 else 1 + LiteralRest(s[1..], !escaped && s[0] == '\\')
  {}

  lemma OneLonger(s: string, m: nat, rest: string)
    requires m < |s|
    ensures [s[0]] + (s[1..][..m] + rest) == s[..1 + m] + rest && s[1..][m..] == s[1 + m..]
  {
    assert [s[0]] + s[1..][..m] == s[..1 + m];
  }

  lemma {:induction false} StripLiteral(s: string, escaped: bool)
    ensures Strip(s, true, escaped)
         == s[..LiteralRest(s, escaped)] + Strip(s[LiteralRest(s, escaped)..], false, false)
    decreases |s|
  {
    if s != [] {
      InsideLiteral(s, escaped);
      if !escaped && s[0] == '"' {
        assert s[..1] == [s[0]];
      } else {
        var m := LiteralRest(s[1..], !escaped && s[0] == '\\');
        StripLiteral(s[1..], !escaped && s[0] == '\\');
        hide Strip, LiteralRest;
        OneLonger(s, m, Strip(s[1 + m..], false, false));
      }
    }
  }

  lemma StripQuoted(s: string)
    requires s != [] && s[0] == '"'
    ensures var n := 1 + LiteralRest(s[1..], false);
            Strip(s, false, false) == s[..n] + Strip(s[n..], false, false)
  {
    var m := LiteralRest(s[1..], false);
    assert Strip(s, false, false) == [s[0]] + Strip(s[1..], true, false) by {
      hide LiteralRest, CommentLength;
    }
    hide Strip, LiteralRest;
    StripLiteral(s[1..], false);
    OneLonger(s, m, Strip(s[1 + m..], false, false));
  }

  lemma StripFirst(s: string)
    requires s != []
    ensures var t := FirstToken(s);
            Strip(s, false, false) == (if t.Comment? then [] else t.text) + Strip(s[|t.text|..], false, false)
  {
    hide LiteralRest, CommentLength;
    if s[0] == '"' {
      StripQuoted(s);
      hide Strip;
    }
  }

  lemma WithoutCommentsCons(t: Token, tokens: seq<Token>)
    ensures WithoutComments([t] + tokens) == (if t.Comment? then [] else [t]) + WithoutComments(tokens)
    ensures Text([t] + tokens) == t.text + Text(tokens)
    ensures Text(WithoutComments([t] + tokens))
         == (if t.Comment? then [] else t.text) + Text(WithoutComments(tokens))
  {
    assert ([t] + tokens)[1..] == tokens;
    var kept := WithoutComments(tokens);
    assert ([t] + kept)[1..] == kept;
    assert [] + kept == kept;
  }

  /** The result is the text of all tokens but the comments. */
  lemma {:induction false} StripDropsComments(s: string)
    ensures Strip(s, false, false) == Text(WithoutComments(Tokens(s)))
    decreases |s|
  {
    if s != [] {
      var t := FirstToken(s);
      var rest := s[|t.text|..];
      StripFirst(s);
      StripDropsComments(rest);
      hide Strip, FirstToken;
      assert Tokens(s) == [t] + Tokens(rest);
      WithoutCommentsCons(t, Tokens(rest));
      hide Tokens;
    }
  }

  // ---------- Where tokens end ----------

  /** The character is preceded by a backslash that is not itself escaped. */
  predicate Escaped(s: string, k: nat)
    requires k <= |s|
  {
    k > 0 && s[k - 1] == '\\' && !Escaped(s, k - 1)
  }

  predicate Closes(s: string, k: nat)
    requires k < |s|
  {
    s[k] == '"' && !Escaped(s, k)
  }

  lemma {:induction false} LiteralRestIs(s: string, i: nat)
    requires i <= |s|
    ensures var end := i + LiteralRest(s[i..], Escaped(s, i));
            end <= |s| && (forall k: nat :: i <= k < end - 1 ==> !Closes(s, k)) &&
            (end < |s| ==> end > i) && (end > i ==> Closes(s, end - 1) || end == |s|)
    decreases |s| - i
  {
    if i < |s| {
      assert s[i..][1..] == s[i + 1..];
      LiteralRestIs(s, i + 1);
      assert LiteralRest(s[i..], Escaped(s, i)) ==
        if Closes(s, i) then 1 else 1 + LiteralRest(s[i + 1..], Escaped(s, i + 1));
    }
  }

  lemma {:induction false} LineLengthIs(s: string)
    ensures var n := LineLength(s);
            (forall k :: 0 <= k < n ==> s[k] != '\n') && (n == |s| || s[n] == '\n')
  {
    if s != [] && s[0] != '\n' {
      LineLengthIs(s[1..]);
    }
  }

  predicate EndsBlock(s: string, k: int) {
    0 <= k < |s| - 1 && s[k] == '*' && s[k + 1] == '/'
  }

  lemma {:induction false} BlockLengthIs(s: string)
    ensures var n := BlockLength(s);
            (forall k :: 0 <= k < n - 2 ==> !EndsBlock(s, k)) &&
            (EndsBlock(s, n - 2) || (n == |s| && forall k :: 0 <= k < |s| ==> !EndsBlock(s, k)))
  {
    if |s| >= 2 && !EndsBlock(s, 0) {
      BlockLengthIs(s[1..]);
      var n := BlockLength(s[1..]);
      forall k | 0 < k < |s| ensures EndsBlock(s, k) <==> EndsBlock(s[1..], k - 1) {}
    }
  }

  /** The first token of a text: a literal from a quote to the next one that is not escaped; a line comment from `#` or
      `//` to before the next newline; a block comment to the first end after its opening; each to the end of the text
      if there is no such thing; and any other character on its own. */
  lemma FirstTokenIs(s: string)
    requires s != []
    ensures var t, n := FirstToken(s), |FirstToken(s).text|;
      (t.Literal? <==> s[0] == '"') &&
      (t.Comment? <==> s[0] == '#' || (|s| >= 2 && s[0] == '/' && (s[1] == '/' || s[1] == '*'))) &&
      (t.Plain? ==> n == 1) &&
      (t.Literal? ==>
        (forall k: nat :: k < n - 2 ==> !Closes(s[1..], k)) && (n < |s| ==> n >= 2) &&
        (n == |s| || Closes(s[1..], n - 2))) &&
      (t.Comment? && (s[0] == '#' || s[1] == '/') ==>
        (forall k :: 1 <= k < n ==> s[k] != '\n') && (n == |s| || s[n] == '\n')) &&
      (t.Comment? && s[0] == '/' && s[1] == '*' ==>
        n >= 2 && (forall k :: 2 <= k < n - 2 ==> !EndsBlock(s, k)) && (n == |s| || (n >= 4 && EndsBlock(s, n - 2))))
  {
    hide LiteralRest, LineLength, BlockLength;
    LiteralRestIs(s[1..], 0);
    assert s[1..][0..] == s[1..];
    if s[0] == '#' {
      LineLengthIs(s[1..]);
    } else if Opens(s, '/') {
      LineLengthIs(s[2..]);
    } else if Opens(s, '*') {
      BlockLengthIs(s[2..]);
      forall k | 2 <= k < |s| ensures EndsBlock(s, k) <==> EndsBlock(s[2..], k - 2) {}
    }
  }

  // ---------- Cutting out comments never creates one ----------

  predicate StartsComment(s: string) {
    s != [] && (s[0] == '/' || s[0] == '*')
  }

  /** What follows a lone slash in the result cannot turn it into a comment opener. */
  lemma StripKeepsLoneSlash(s: string)
    requires !StartsComment(s)
    ensures !StartsComment(Strip(s, false, false))
  {
  }

  /** A literal reads the same whatever follows it, unless it is left open and text is added. */
  lemma {:induction false} LiteralStable(s: string, escaped: bool, tail: string)
    requires LiteralRest(s, escaped) < |s| || tail == []
    ensures LiteralRest(s[..LiteralRest(s, escaped)] + tail, escaped) == LiteralRest(s, escaped)
    decreases |s|
  {
    if s != [] {
      var n := LiteralRest(s, escaped);
      var t := s[..n] + tail;
      assert t[0] == s[0];
      if !(!escaped && s[0] == '"') {
        LiteralStable(s[1..], !escaped && s[0] == '\\', tail);
        assert t[1..] == s[1..][..n - 1] + tail;
      }
    }
  }

  lemma PlainStaysPlain(s: string)
    requires s != [] && FirstToken(s).Plain?
    ensures var r := Strip(s[1..], false, false); FirstToken([s[0]] + r) == FirstToken(s)
  {
    if s[0] == '/' {
      StripKeepsLoneSlash(s[1..]);
    }
  }

  lemma LiteralStaysLiteral(s: string)
    requires s != [] && FirstToken(s).Literal?
    ensures var t := FirstToken(s);
            var r := Strip(s[|t.text|..], false, false); FirstToken(t.text + r) == t
  {
    var t := FirstToken(s);
    var r := Strip(s[|t.text|..], false, false);
    LiteralStable(s[1..], false, r);
    assert (t.text + r)[1..] == s[1..][..|t.text| - 1] + r;
  }

  /** The tokens of the result are the tokens of the text, in order and verbatim, less the comments:
      taking comments out neither makes nor breaks a literal, and never makes a new comment. */
  lemma {:induction false} TokensOfResult(s: string)
    ensures Tokens(Strip(s, false, false)) == WithoutComments(Tokens(s))
    decreases |s|
  {
    if s != [] {
      var t := FirstToken(s);
      var rest := s[|t.text|..];
      var r := Strip(rest, false, false);
      StripFirst(s);
      TokensOfResult(rest);
      WithoutCommentsCons(t, Tokens(rest));
      if t.Plain? {
        PlainStaysPlain(s);
      } else if t.Literal? {
        LiteralStaysLiteral(s);
      }
      hide Strip, FirstToken;
      assert Tokens(s) == [t] + Tokens(rest);
      if t.Comment? {
        assert [] + r == r;
      } else {
        assert (t.text + r)[|t.text|..] == r;
      }
    }
  }

  // ---------- What follows ----------

  predicate HasComment(tokens: seq<Token>) {
    exists i :: 0 <= i < |tokens| && tokens[i].Comment?
  }

  lemma {:induction false} WithoutCommentsHasNone(tokens: seq<Token>)
    ensures !HasComment(WithoutComments(tokens))
    ensures !HasComment(tokens) ==> WithoutComments(tokens) == tokens
    ensures HasComment(tokens) ==> |WithoutComments(tokens)| < |tokens|
  {
    if tokens != [] {
      WithoutCommentsHasNone(tokens[1..]);
      assert tokens == [tokens[0]] + tokens[1..];
      assert HasComment(tokens) <==> tokens[0].Comment? || HasComment(tokens[1..]) by {
        if i :| 0 <= i < |tokens| && tokens[i].Comment? {
          assert i > 0 ==> tokens[1..][i - 1].Comment?;
        }
        if i :| 0 <= i < |tokens[1..]| && tokens[1..][i].Comment? {
          assert tokens[i + 1].Comment?;
        }
      }
    }
  }

  /** Nothing that would open a comment is left outside the literals. */
  lemma ResultHasNoComment(s: string)
    ensures !HasComment(Tokens(Strip(s, false, false)))
  {
    TokensOfResult(s);
    WithoutCommentsHasNone(Tokens(s));
  }

  lemma Idempotent(s: string)
    ensures var once := Strip(s, false, false); Strip(once, false, false) == once
  {
    var once := Strip(s, false, false);
    ResultHasNoComment(s);
    UnchangedIffNoComment(once);
  }

  /** Text is returned unchanged exactly when no comment opens outside its literals. */
  lemma UnchangedIffNoComment(s: string)
    ensures Strip(s, false, false) == s <==> !HasComment(Tokens(s))
  {
    hide Strip, Tokens;
    StripDropsComments(s);
    TokensCover(s);
    TokensOfResult(s);
    WithoutCommentsHasNone(Tokens(s));
  }

  function Literals(tokens: seq<Token>): seq<string> {
    if tokens == [] then []
    else (if tokens[0].Literal? then [tokens[0].text] else []) + Literals(tokens[1..])
  }

  lemma {:induction false} WithoutCommentsKeepsLiterals(tokens: seq<Token>)
    ensures Literals(WithoutComments(tokens)) == Literals(tokens)
  {
    if tokens != [] {
      WithoutCommentsKeepsLiterals(tokens[1..]);
      var kept := WithoutComments(tokens[1..]);
      assert ([tokens[0]] + kept)[1..] == kept && [] + kept == kept;
    }
  }

  /** Every string literal outside comments survives verbatim and in order. */
  lemma LiteralsSurvive(s: string)
    ensures Literals(Tokens(Strip(s, false, false))) == Literals(Tokens(s))
  {
    TokensOfResult(s);
    WithoutCommentsKeepsLiterals(Tokens(s));
  }

  predicate PlainText(tokens: seq<Token>, i: int, text: string) {
    0 <= i < |tokens| && tokens[i] == Plain(text)
  }

  /** Outside literals and comments there is no `#`, and no slash directly before a slash or star. */
  lemma {:induction false} NoOpenerInPlainText(s: string, i: nat)
    requires i < |Tokens(s)|
    ensures !PlainText(Tokens(s), i, "#")
    ensures PlainText(Tokens(s), i, "/") ==>
      !PlainText(Tokens(s), i + 1, "/") && !PlainText(Tokens(s), i + 1, "*")
    decreases i
  {
    var t := FirstToken(s);
    var rest := s[|t.text|..];
    assert Tokens(s) == [t] + Tokens(rest);
    if i > 0 {
      NoOpenerInPlainText(rest, i - 1);
      assert Tokens(rest)[i - 1] == Tokens(s)[i];
      assert i < |Tokens(rest)| ==> Tokens(rest)[i] == Tokens(s)[i + 1];
    } else if rest != [] {
      assert Tokens(s)[1] == FirstToken(rest);
    }
  }
}
