/** The grep command line `search` hands to /bin/sh, and a shell lexer to read it back with.

    The lexer follows sections 2.2.1 (Escape Character), 2.2.2 (Single-Quotes) and 2.3
    (Token Recognition) of POSIX.1-2017 XCU. Double quotes, `$`, backquotes and here-documents
    are outside it: text that reaches one of those unquoted is not lexed at all. */
module Shell {
  import opened Base

  // ---------------------------------------------------------------- the shell's side

  datatype Token = Word(text: Text) | IoNumber(digits: Text) | Operator(op: Text)

  /** The token being collected, if any. A quoted token is never an IO number. */
  datatype Pending = NoToken | Token(text: Text, quoted: bool)

  datatype Quoting = Unquoted | SingleQuoted

  predicate IsBlank(c: Octet) {
    c == ' ' || c == '\t'
  }

  predicate StartsOperator(c: Octet) {
    c == '|' || c == '&' || c == ';' || c == '<' || c == '>' || c == '(' || c == ')' || c == '\n'
  }

  /** Two operator characters that form one operator. */
  predicate Joins(a: Octet, b: Octet) {
    (a == b && (a == '&' || a == '|' || a == ';' || a == '>')) ||
    (a == '<' && (b == '&' || b == '>')) || (a == '>' && (b == '&' || b == '|'))
  }

  function Collected(cur: Pending): Text {
    if cur.NoToken? then [] else cur.text
  }

  predicate AllDigits(s: Text) {
    s != [] && forall i :: 0 <= i < |s| ==> IsDigit(s[i])
  }

  /** Delimit the pending token; `next` is the character that ends it. */
  function Delimit(cur: Pending, next: Octet): seq<Token> {
    if cur.NoToken? then []
    else if !cur.quoted && AllDigits(cur.text) && (next == '<' || next == '>') then [IoNumber(cur.text)]
    else [Word(cur.text)]
  }

  function Prepend(toks: seq<Token>, rest: Option<seq<Token>>): Option<seq<Token>> {
    if rest.None? then None else Some(toks + rest.value)
  }

  function Lex(s: Text, cur: Pending, mode: Quoting): Option<seq<Token>>
    decreases |s|
  {
    if s == [] then
      if mode == SingleQuoted then None else Some(Delimit(cur, '\n'))
    else if mode == SingleQuoted then
      if s[0] == '\'' then Lex(s[1..], cur, Unquoted)
      else Lex(s[1..], Token(Collected(cur) + [s[0]], true), SingleQuoted)
    else if s[0] == '\\' then
      if |s| == 1 then None
      else if s[1] == '\n' then Lex(s[2..], cur, Unquoted)
      else Lex(s[2..], Token(Collected(cur) + [s[1]], true), Unquoted)
    else if s[0] == '\'' then
      Lex(s[1..], Token(Collected(cur), true), SingleQuoted)
    else if s[0] == '"' || s[0] == '$' || s[0] == '`' then
      None
    else if IsBlank(s[0]) then
      Prepend(Delimit(cur, s[0]), Lex(s[1..], NoToken, Unquoted))
    else if StartsOperator(s[0]) then
      if |s| > 1 && s[0] == '<' == s[1] then None
      else
        var n := if |s| > 1 && Joins(s[0], s[1]) then 2 else 1;
        Prepend(Delimit(cur, s[0]) + [Operator(s[..n])], Lex(s[n..], NoToken, Unquoted))
    else if s[0] == '#' && cur.NoToken? then
      Lex(DropComment(s), cur, Unquoted)
    else
      Lex(s[1..], Token(Collected(cur) + [s[0]], cur.Token? && cur.quoted), Unquoted)
  }

  /** What follows the comment at the head of `s`, from its newline on. */
  function DropComment(s: Text): (rest: Text)
    requires s != [] && s[0] != '\n'
    ensures |rest| < |s|
  {
    if |s| == 1 || s[1] == '\n' then s[1..] else DropComment(s[1..])
  }

  /** The tokens of a command passed to `sh -c`. */
  function Tokens(command: Text): Option<seq<Token>> {
    Lex(command, NoToken, Unquoted)
  }

  // ---------------------------------------------------------------- the agent's side

  function EscapeQuote(c: Octet): Text {
    if c == '\'' then "'\\''" else [c]
  }

  function Escaped(s: Text): Text {
    if s == [] then [] else Escaped(s[..|s| - 1]) + EscapeQuote(s[|s| - 1])
  }

  function Quoted(s: Text): Text {
    "'" + Escaped(s) + "'"
  }

  method ShellQuote(s: Text) returns (out: Text)
    ensures out == Quoted(s)
    ensures forall rest: Text, cur: Pending ::
              Lex(out + rest, cur, Unquoted) == Lex(rest, Token(Collected(cur) + s, true), Unquoted)
  {
    out := "'";
    for i := 0 to |s|
      invariant out == "'" + Escaped(s[..i])
    {
      assert s[..i + 1][..i] == s[..i];
      if s[i] == '\'' {
        out := out + "'\\''";
      } else {
        out := out + [s[i]];
      }
    }
    assert s[..|s|] == s;
    out := out + "'";
    forall rest: Text, cur: Pending
      ensures Lex(out + rest, cur, Unquoted) == Lex(rest, Token(Collected(cur) + s, true), Unquoted)
    {
      LexQuoted(s, rest, cur);
    }
  }

  /** A grep path with nothing the shell treats specially (section 2.2 of POSIX.1-2017 XCU). */
  predicate IsPlainWord(s: Text) {
    s != [] && forall i :: 0 <= i < |s| ==> IsPlain(s[i])
  }

  predicate IsPlain(c: Octet) {
    && !StartsOperator(c) && !IsBlank(c)
    && c != '$' && c != '`' && c != '\\' && c != '"' && c != '\''
    && c != '*' && c != '?' && c != '[' && c != '#' && c != '~' && c != '=' && c != '%' && c != '\0'
  }

  /** The paths the agent is compiled with are of this kind. */
  lemma BuiltInGreps()
    ensures IsPlainWord("/usr/local/bin/grep") && IsPlainWord("/usr/freeware/bin/grep") && IsPlainWord("/usr/bin/grep")
  {
  }

  function GrepTokens(grepBin: Text, ignoreCase: bool, pattern: Text, path: Text): seq<Token> {
    [Word(grepBin), Word("-rHn")] + (if ignoreCase then [Word("-i")] else []) +
    [Word("-e"), Word(pattern), Word("--"), Word(path), IoNumber("2"), Operator(">"), Word("/dev/null")]
  }

  function Tail(path: Text): Text {
    " -- " + Quoted(path) + " 2>/dev/null"
  }

  function Options(grepBin: Text, ignoreCase: bool): Text {
    if ignoreCase then grepBin + " -rHn" + " -i" else grepBin + " -rHn"
  }

  function Head(grepBin: Text, ignoreCase: bool): Text {
    Options(grepBin, ignoreCase) + " -e "
  }

  /** The shell reads back exactly the intended words, for every pattern and path a C string can carry;
      a NUL in either one cuts the command inside a quote, which is not a command at all. */
  method AssembleCommand(grepBin: Text, ignoreCase: bool, pattern: Text, path: Text) returns (cmd: Text)
    ensures cmd == Head(grepBin, ignoreCase) + Quoted(pattern) + Tail(path)
    ensures IsPlainWord(grepBin) && '\0' !in pattern && '\0' !in path ==>
              Tokens(CString(cmd)) == Some(GrepTokens(grepBin, ignoreCase, pattern, path))
    ensures IsPlainWord(grepBin) && ('\0' in pattern || '\0' in path) ==> Tokens(CString(cmd)) == None
  {
    hide Lex, CString, IsPlainWord, Escaped, GrepTokens;
    cmd := grepBin + " -rHn";
    if ignoreCase {
      cmd := cmd + " -i";
    }
    ghost var options := cmd;
    var qPattern := ShellQuote(pattern);
    var qPath := ShellQuote(path);
    cmd := cmd + " -e " + qPattern + " -- " + qPath + " 2>/dev/null";
    Regroup(options, " -e ", qPattern, " -- ", qPath, " 2>/dev/null");
    if IsPlainWord(grepBin) {
      CommandRoundTrip(grepBin, ignoreCase, pattern, path);
    }
  }

  lemma Regroup(a: Text, b: Text, c: Text, d: Text, e: Text, f: Text)
    ensures a + b + c + d + e + f == (a + b) + c + (d + e + f)
  {
  }

  // ---------------------------------------------------------------- lexing what was quoted

  /** Inside single quotes, the escaped text of `s` lexes to `s` and stays inside the quotes. */
  lemma {:induction false} LexEscaped(s: Text, rest: Text, cur: Pending)
    requires cur.Token? && cur.quoted
    ensures Lex(Escaped(s) + rest, cur, SingleQuoted) == Lex(rest, Token(cur.text + s, true), SingleQuoted)
    decreases |s|
  {
    if s == [] {
      assert Escaped(s) + rest == rest;
      assert cur.text + s == cur.text;
    } else {
      var init, c := s[..|s| - 1], s[|s| - 1];
      var mid := Token(cur.text + init, true);
      assert Escaped(s) + rest == Escaped(init) + (EscapeQuote(c) + rest);
      LexEscaped(init, EscapeQuote(c) + rest, cur);
      assert mid.text + [c] == cur.text + s;
      if c == '\'' {
        var t := EscapeQuote(c) + rest;
        assert t[1..] == "\\''" + rest;
        assert t[1..][2..] == "'" + rest;
        assert t[1..][2..][1..] == rest;
        assert Lex(t[1..], mid, Unquoted) == Lex(t[1..][2..], Token(mid.text + [c], true), Unquoted);
      } else {
        assert ([c] + rest)[1..] == rest;
      }
    }
  }

  lemma LexQuoted(s: Text, rest: Text, cur: Pending)
    ensures Lex(Quoted(s) + rest, cur, Unquoted) == Lex(rest, Token(Collected(cur) + s, true), Unquoted)
  {
    var t := Quoted(s) + rest;
    assert t[1..] == Escaped(s) + ("'" + rest);
    LexEscaped(s, "'" + rest, Token(Collected(cur), true));
    assert ("'" + rest)[1..] == rest;
  }

  /** A single quote that is never closed makes the whole text no command. */
  lemma {:induction false} LexUnterminated(s: Text, cur: Pending)
    requires cur.Token? && cur.quoted
    ensures Lex(Escaped(s), cur, SingleQuoted) == None
  {
    LexEscaped(s, [], cur);
    assert Escaped(s) + [] == Escaped(s);
  }

  /** Between single quotes every character but a single quote stands for itself; without the second quote there is no
      command. */
  lemma SingleQuotes(s: Text)
    requires '\'' !in s
    ensures Tokens(['\''] + s + ['\'']) == Some([Word(s)]) && Tokens(['\''] + s) == None
  {
    hide Lex;
    EscapedSame(s);
    var open, close: Text := ['\''], ['\''];
    assert Quoted(s) == open + s + close && Quoted(s) + [] == Quoted(s);
    LexQuoted(s, [], NoToken);
    assert [] + s == s;
    LexEnd(s);
    LexUnterminated(s, Token([], true));
    LexOpen(s);
  }

  lemma LexEnd(s: Text)
    ensures Lex([], Token(s, true), Unquoted) == Some([Word(s)])
  {
  }

  lemma LexOpen(rest: Text)
    ensures Tokens(['\''] + rest) == Lex(rest, Token([], true), SingleQuoted)
  {
    assert (['\''] + rest)[1..] == rest;
  }

  lemma {:induction false} EscapedSame(s: Text)
    requires '\'' !in s
    ensures Escaped(s) == s
  {
    if s != [] {
      EscapedSame(s[..|s| - 1]);
    }
  }

  /** A run of plain characters extends the pending token. */
  lemma {:induction false} LexPlain(w: Text, rest: Text, cur: Pending)
    requires forall i :: 0 <= i < |w| ==> IsPlain(w[i])
    requires cur.NoToken? || !cur.quoted
    requires w != []
    ensures Lex(w + rest, cur, Unquoted) == Lex(rest, Token(Collected(cur) + w, false), Unquoted)
    decreases |w|
  {
    var next := Token(Collected(cur) + [w[0]], false);
    assert (w + rest)[1..] == w[1..] + rest;
    assert Lex(w + rest, cur, Unquoted) == Lex(w[1..] + rest, next, Unquoted);
    if |w| == 1 {
      assert w[1..] + rest == rest;
      assert w == [w[0]];
    } else {
      LexPlain(w[1..], rest, next);
      assert next.text + w[1..] == Collected(cur) + w;
    }
  }

  /** A plain word followed by a blank is one word token. */
  lemma LexWord(w: Text, rest: Text)
    requires IsPlainWord(w)
    ensures Lex(w + " " + rest, NoToken, Unquoted) == Prepend([Word(w)], Lex(rest, NoToken, Unquoted))
  {
    assert w + " " + rest == w + (" " + rest);
    LexPlain(w, " " + rest, NoToken);
    assert [] + w == w;
    assert (" " + rest)[1..] == rest;
  }

  lemma LexRedirect(digits: Text, target: Text)
    requires AllDigits(digits) && IsPlainWord(target)
    requires forall i :: 0 <= i < |digits| ==> IsPlain(digits[i])
    ensures Tokens(digits + (">" + target)) == Some([IoNumber(digits), Operator(">"), Word(target)])
  {
    hide Lex, IsPlain;
    LexPlain(digits, ">" + target, NoToken);
    assert Collected(NoToken) + digits == digits;
    LexGreater(target, Token(digits, false));
    LexLast(target);
    PrependTwice([IoNumber(digits), Operator(">")], [Word(target)], Some([]));
    assert Delimit(Token(digits, false), '>') + [Operator(">")] == [IoNumber(digits), Operator(">")];
    assert [IoNumber(digits), Operator(">")] + [Word(target)] == [IoNumber(digits), Operator(">"), Word(target)];
  }

  lemma LexLast(target: Text)
    requires IsPlainWord(target)
    ensures Tokens(target) == Some([Word(target)])
  {
    LexPlain(target, [], NoToken);
    assert target + [] == target && [] + target == target;
    assert Lex([], Token(target, false), Unquoted) == Some([Word(target)]);
  }

  lemma LexGreater(target: Text, cur: Pending)
    requires target != [] && IsPlain(target[0])
    ensures Lex(">" + target, cur, Unquoted) == Prepend(Delimit(cur, '>') + [Operator(">")], Tokens(target))
  {
    hide Delimit;
    var s := ">" + target;
    assert s[1] == target[0] && s[1..] == target && s[..1] == ">";
  }

  lemma LexBlank(rest: Text, cur: Pending)
    ensures Lex(" " + rest, cur, Unquoted) == Prepend(Delimit(cur, ' '), Tokens(rest))
  {
    assert (" " + rest)[1..] == rest;
  }

  lemma LexQuotedWord(s: Text, rest: Text)
    ensures Tokens(Quoted(s) + (" " + rest)) == Prepend([Word(s)], Tokens(rest))
  {
    LexQuoted(s, " " + rest, NoToken);
    assert Collected(NoToken) + s == s;
    LexBlank(rest, Token(s, true));
  }

  lemma PrependTwice(a: seq<Token>, b: seq<Token>, r: Option<seq<Token>>)
    ensures Prepend(a, Prepend(b, r)) == Prepend(a + b, r)
  {
    if r.Some? {
      assert a + (b + r.value) == a + b + r.value;
    }
  }

  /** ` dash 'path' redirect` after a pending quoted word. */
  lemma LexOperand(pattern: Text, dash: Text, path: Text, redirect: Text)
    requires IsPlainWord(dash)
    ensures Lex(" " + (dash + " " + (Quoted(path) + (" " + redirect))), Token(pattern, true), Unquoted) ==
            Prepend([Word(pattern), Word(dash), Word(path)], Tokens(redirect))
  {
    var operand := Quoted(path) + (" " + redirect);
    LexBlank(dash + " " + operand, Token(pattern, true));
    LexWord(dash, operand);
    LexQuotedWord(path, redirect);
    PrependTwice([Word(dash)], [Word(path)], Tokens(redirect));
    PrependTwice([Word(pattern)], [Word(dash)] + [Word(path)], Tokens(redirect));
    assert [Word(pattern)] + ([Word(dash)] + [Word(path)]) == [Word(pattern), Word(dash), Word(path)];
  }

  function TailTokens(path: Text): seq<Token> {
    [Word("--"), Word(path), IoNumber("2"), Operator(">"), Word("/dev/null")]
  }

  lemma TailShape(path: Text, blank: Text, dash: Text, redirect: Text)
    requires blank == " " && dash == "--" && redirect == "2" + (">" + "/dev/null")
    ensures Tail(path) == blank + (dash + blank + (Quoted(path) + (blank + redirect)))
    ensures IsPlainWord(dash)
  {
    assert " -- " == blank + dash + blank;
    assert " 2>/dev/null" == blank + redirect;
  }

  /** From just after the quoted pattern on. */
  lemma LexTail(pattern: Text, path: Text, dash: Text, redirect: Text)
    requires dash == "--" && redirect == "2" + (">" + "/dev/null")
    ensures Lex(Tail(path), Token(pattern, true), Unquoted) == Some([Word(pattern)] + TailTokens(path))
  {
    TailShape(path, " ", dash, redirect);
    LexRedirect("2", "/dev/null");
    LexOperand(pattern, dash, path, redirect);
    JoinTail(pattern, dash, path);
  }

  lemma JoinTail(pattern: Text, dash: Text, path: Text)
    requires dash == "--"
    ensures [Word(pattern), Word(dash), Word(path)] + [IoNumber("2"), Operator(">"), Word("/dev/null")] ==
            [Word(pattern)] + TailTokens(path)
  {
  }

  function HeadTokens(grepBin: Text, ignoreCase: bool): seq<Token> {
    [Word(grepBin), Word("-rHn")] + (if ignoreCase then [Word("-i")] else []) + [Word("-e")]
  }

  lemma LexTwoWords(a: Text, b: Text, rest: Text)
    requires IsPlainWord(a) && IsPlainWord(b)
    ensures Tokens(a + " " + (b + " " + rest)) == Prepend([Word(a), Word(b)], Tokens(rest))
  {
    LexWord(a, b + " " + rest);
    LexWord(b, rest);
    PrependTwice([Word(a)], [Word(b)], Tokens(rest));
    assert [Word(a)] + [Word(b)] == [Word(a), Word(b)];
  }

  lemma LexThreeWords(a: Text, b: Text, c: Text, rest: Text)
    requires IsPlainWord(a) && IsPlainWord(b) && IsPlainWord(c)
    ensures Tokens(a + " " + (b + " " + (c + " " + rest))) == Prepend([Word(a), Word(b), Word(c)], Tokens(rest))
  {
    LexWord(a, b + " " + (c + " " + rest));
    LexTwoWords(b, c, rest);
    PrependTwice([Word(a)], [Word(b), Word(c)], Tokens(rest));
    assert [Word(a)] + [Word(b), Word(c)] == [Word(a), Word(b), Word(c)];
  }

  lemma HeadShape(grepBin: Text, ignoreCase: bool, r: Text, i: Text, e: Text, rest: Text)
    requires r == "-rHn" && i == "-i" && e == "-e"
    ensures IsPlainWord(r) && IsPlainWord(i) && IsPlainWord(e)
    ensures Head(grepBin, ignoreCase) + rest ==
            if ignoreCase then grepBin + " " + (r + " " + (i + " " + (e + " " + rest)))
            else grepBin + " " + (r + " " + (e + " " + rest))
  {
    assert " -rHn" == " " + r && " -i" == " " + i && " -e " == " " + e + " ";
  }

  /** Everything before the quoted pattern. */
  lemma LexHead(grepBin: Text, ignoreCase: bool, rest: Text, r: Text, i: Text, e: Text)
    requires IsPlainWord(grepBin)
    requires r == "-rHn" && i == "-i" && e == "-e"
    ensures Tokens(Head(grepBin, ignoreCase) + rest) == Prepend(HeadTokens(grepBin, ignoreCase), Tokens(rest))
  {
    HeadShape(grepBin, ignoreCase, r, i, e, rest);
    if ignoreCase {
      LexTwoWords(i, e, rest);
      LexTwoWords(grepBin, r, i + " " + (e + " " + rest));
      PrependTwice([Word(grepBin), Word(r)], [Word(i), Word(e)], Tokens(rest));
      assert [Word(grepBin), Word(r)] + [Word(i), Word(e)] == HeadTokens(grepBin, ignoreCase);
    } else {
      LexThreeWords(grepBin, r, e, rest);
      assert [Word(grepBin), Word(r), Word(e)] == HeadTokens(grepBin, ignoreCase);
    }
  }

  lemma {:induction false} CStringEscaped(s: Text, rest: Text)
    requires '\0' in s
    ensures CString(Escaped(s) + rest) == Escaped(CString(s))
    decreases |s|
  {
    var init, c := s[..|s| - 1], s[|s| - 1];
    assert s == init + [c];
    assert Escaped(s) + rest == Escaped(init) + (EscapeQuote(c) + rest);
    if '\0' in init {
      CStringEscaped(init, EscapeQuote(c) + rest);
      CStringPrefix(init, [c]);
    } else {
      EscapedNulFree(init);
      CStringAppend(Escaped(init), EscapeQuote(c) + rest);
      CStringAppend(init, [c]);
      assert CString([c]) == [] && CString(EscapeQuote(c) + rest) == [];
      assert init + [] == init && Escaped(init) + [] == Escaped(init);
    }
  }

  lemma {:induction false} EscapedNulFree(s: Text)
    requires '\0' !in s
    ensures '\0' !in Escaped(s)
  {
    if s != [] {
      EscapedNulFree(s[..|s| - 1]);
    }
  }

  lemma HeadNulFree(grepBin: Text, ignoreCase: bool)
    requires IsPlainWord(grepBin)
    ensures '\0' !in Head(grepBin, ignoreCase)
  {
    assert '\0' !in grepBin;
  }

  lemma CommandRoundTrip(grepBin: Text, ignoreCase: bool, pattern: Text, path: Text)
    requires IsPlainWord(grepBin)
    ensures var seen := CString(Head(grepBin, ignoreCase) + Quoted(pattern) + Tail(path));
            Tokens(seen) == if '\0' in pattern || '\0' in path then None
                            else Some(GrepTokens(grepBin, ignoreCase, pattern, path))
  {
    HeadNulFree(grepBin, ignoreCase);
    QuotedPatternOn(pattern, path);
    LexHead(grepBin, ignoreCase, CString(Quoted(pattern) + Tail(path)), "-rHn", "-i", "-e");
    CutHead(Head(grepBin, ignoreCase), Quoted(pattern), Tail(path));
    GroupTokens(grepBin, ignoreCase, pattern, path);
  }

  lemma CutHead(head: Text, quoted: Text, tail: Text)
    requires '\0' !in head
    ensures CString(head + quoted + tail) == head + CString(quoted + tail)
  {
    hide CString;
    assert head + quoted + tail == head + (quoted + tail);
    CStringAppend(head, quoted + tail);
  }

  lemma GroupTokens(grepBin: Text, ignoreCase: bool, pattern: Text, path: Text)
    ensures HeadTokens(grepBin, ignoreCase) + ([Word(pattern)] + TailTokens(path)) ==
            GrepTokens(grepBin, ignoreCase, pattern, path)
  {
  }

  /** What the shell reads from the opening quote of the pattern on. */
  lemma QuotedPatternOn(pattern: Text, path: Text)
    ensures Tokens(CString(Quoted(pattern) + Tail(path))) ==
            if '\0' in pattern || '\0' in path then None else Some([Word(pattern)] + TailTokens(path))
  {
    if '\0' in pattern {
      CutInside(pattern, Tail(path), NoToken);
    } else {
      CutAfter(pattern, Tail(path));
      if '\0' in path {
        CutTail(pattern, path, " ", "--", "2" + (">" + "/dev/null"));
      } else {
        TailNulFree(path);
        LexTail(pattern, path, "--", "2" + (">" + "/dev/null"));
      }
    }
  }

  /** A NUL-free quoted value is read whole, whatever happens to the rest. */
  lemma CutAfter(s: Text, rest: Text)
    requires '\0' !in s
    ensures Tokens(CString(Quoted(s) + rest)) == Lex(CString(rest), Token(s, true), Unquoted)
  {
    EscapedNulFree(s);
    CStringAppend(Quoted(s), rest);
    LexQuoted(s, CString(rest), NoToken);
    assert Collected(NoToken) + s == s;
  }

  lemma TailNulFree(path: Text)
    requires '\0' !in path
    ensures CString(Tail(path)) == Tail(path)
  {
    EscapedNulFree(path);
    assert '\0' !in " -- " && '\0' !in Quoted(path) && '\0' !in " 2>/dev/null";
    assert '\0' !in Tail(path);
  }

  lemma CutTail(pattern: Text, path: Text, blank: Text, dash: Text, redirect: Text)
    requires '\0' in path
    requires blank == " " && dash == "--" && redirect == "2" + (">" + "/dev/null")
    ensures Lex(CString(Tail(path)), Token(pattern, true), Unquoted) == None
  {
    TailShape(path, blank, dash, redirect);
    var operand := Quoted(path) + (blank + redirect);
    var opening := blank + (dash + blank);
    assert Tail(path) == opening + operand;
    CStringAppend(opening, operand);
    CutInside(path, blank + redirect, NoToken);
    CutOperand(pattern, dash, CString(operand));
    assert opening + CString(operand) == " " + (dash + " " + CString(operand));
  }

  lemma CutOperand(pattern: Text, dash: Text, operand: Text)
    requires IsPlainWord(dash) && Tokens(operand) == None
    ensures Lex(" " + (dash + " " + operand), Token(pattern, true), Unquoted) == None
  {
    LexBlank(dash + " " + operand, Token(pattern, true));
    LexWord(dash, operand);
  }

  /** A NUL inside a quoted value ends the C string before the closing quote. */
  lemma CutInside(s: Text, rest: Text, cur: Pending)
    requires '\0' in s
    ensures Lex(CString(Quoted(s) + rest), cur, Unquoted) == None
  {
    var open: Text := "'";
    assert Quoted(s) + rest == open + (Escaped(s) + ("'" + rest));
    CStringAppend(open, Escaped(s) + ("'" + rest));
    CStringEscaped(s, "'" + rest);
    var seen := open + Escaped(CString(s));
    assert seen[1..] == Escaped(CString(s));
    LexUnterminated(CString(s), Token(Collected(cur), true));
  }
}
