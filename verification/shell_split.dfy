/** The quote-aware tokenizer of the improved cURL importer
    (`shellSplit`): a character-by-character state machine with a
    single-quote flag, a double-quote flag and an escape flag.

    Unlike a POSIX shell, a backslash escapes the next character even
    inside single quotes, and only the space character (not tab or
    newline) separates tokens. */
module ShellSplit {
  import opened Strs
  import Seqs

  /** The tokenizer's state: the tokens finished so far, the token being
      built, and the three flags. */
  datatype Lexer = Lexer(done: seq<string>, cur: string, single: bool, double: bool, escaped: bool)

  const Start: Lexer := Lexer([], "", false, false, false)

  /** A state between tokens of unquoted text. */
  function Neutral(done: seq<string>, cur: string): Lexer {
    Lexer(done, cur, false, false, false)
  }

  /** One character of input. The tests run in the source's order: a
      pending escape, a backslash, a single quote outside double quotes,
      a double quote outside single quotes, an unquoted space. */
  function Step(st: Lexer, c: char): Lexer {
    if st.escaped then st.(cur := st.cur + [c], escaped := false)
    else if c == '\\' then st.(escaped := true)
    else if c == '\'' && !st.double then st.(single := !st.single)
    else if c == '"' && !st.single then st.(double := !st.double)
    else if c == ' ' && !st.single && !st.double then
      if st.cur != "" then st.(done := st.done + [st.cur], cur := "") else st
    else st.(cur := st.cur + [c])
  }

  function Run(st: Lexer, s: string): Lexer
    decreases |s|
  {
    if |s| == 0 then st else Run(Step(st, s[0]), s[1..])
  }

  /** The end of input pushes a non-empty pending token. */
  function Finish(st: Lexer): seq<string> {
    if st.cur != "" then st.done + [st.cur] else st.done
  }

  /** The tokens of `s`. */
  function Tokens(s: string): seq<string> {
    Finish(Run(Start, s))
  }

  /** `shellSplit`, written as the source's loop over the characters. */
  method Split(str: string) returns (result: seq<string>)
    ensures result == Tokens(str)
    ensures forall t :: t in result ==> t != ""
  {
    result := [];
    var current := "";
    var inSingleQuote := false;
    var inDoubleQuote := false;
    var escaped := false;
    var i := 0;
    while i < |str|
      invariant 0 <= i <= |str|
      invariant Run(Lexer(result, current, inSingleQuote, inDoubleQuote, escaped), str[i..]) == Run(Start, str)
    {
      var ch := str[i];
      assert str[i..][0] == ch && str[i..][1..] == str[i + 1..];
      if escaped {
        current := current + [ch];
        escaped := false;
      } else if ch == '\\' {
        escaped := true;
      } else if ch == '\'' && !inDoubleQuote {
        inSingleQuote := !inSingleQuote;
      } else if ch == '"' && !inSingleQuote {
        inDoubleQuote := !inDoubleQuote;
      } else if ch == ' ' && !inSingleQuote && !inDoubleQuote {
        if current != "" {
          result := result + [current];
          current := "";
        }
      } else {
        current := current + [ch];
      }
      i := i + 1;
    }
    if current != "" {
      result := result + [current];
    }
    TokensNonEmpty(str);
  }

  lemma {:induction false} RunNoEmpty(st: Lexer, s: string)
    requires NoEmpty(st.done)
    ensures NoEmpty(Run(st, s).done)
    decreases |s|
  {
    if |s| > 0 {
      RunNoEmpty(Step(st, s[0]), s[1..]);
    }
  }

  /** No token is ever empty: runs of spaces and empty quotes yield nothing. */
  lemma TokensNonEmpty(s: string)
    ensures NoEmpty(Tokens(s))
  {
    RunNoEmpty(Start, s);
  }

  /** Running over a concatenation runs over each part in turn. */
  lemma {:induction false} RunAppend(st: Lexer, a: string, b: string)
    ensures Run(st, a + b) == Run(Run(st, a), b)
    decreases |a|
  {
    if |a| == 0 {
      assert a + b == b;
    } else {
      assert (a + b)[0] == a[0] && (a + b)[1..] == a[1..] + b;
      RunAppend(Step(st, a[0]), a[1..], b);
    }
  }

  /** Text without quotes or backslashes. */
  predicate Plain(s: string) {
    forall i :: 0 <= i < |s| ==> s[i] != '\\' && s[i] != '\'' && s[i] != '"'
  }

  /** Reference splitting: on single spaces, dropping empty pieces. */
  function Words(s: string): seq<string> {
    NonEmpty(SplitOn(s, ' '))
  }

  lemma PlainTail(s: string)
    requires Plain(s) && |s| > 0
    ensures Plain(s[1..])
  {
    forall i | 0 <= i < |s[1..]| ensures s[1..][i] != '\\' && s[1..][i] != '\'' && s[1..][i] != '"' {
      assert s[1..][i] == s[i + 1];
    }
  }

  /** A space closes the word before it. */
  lemma WordsAtSpace(cur: string, s: string)
    requires ' ' !in cur && |s| > 0 && s[0] == ' '
    ensures Words(cur + s) == Closed(cur) + Words(s[1..])
  {
    IndexOfAfter(cur, s, ' ');
    var t := cur + s;
    assert t[..|cur|] == cur;
    assert t[|cur| + 1..] == s[1..];
    var rest := SplitOn(s[1..], ' ');
    assert SplitOn(t, ' ') == [cur] + rest;
    assert ([cur] + rest)[0] == cur && ([cur] + rest)[1..] == rest;
  }

  lemma {:induction false} PlainRun(done: seq<string>, cur: string, s: string)
    requires ' ' !in cur && Plain(s)
    ensures Finish(Run(Neutral(done, cur), s)) == done + Words(cur + s)
    decreases |s|
  {
    if |s| == 0 {
      assert cur + s == cur;
      assert SplitOn(cur, ' ') == [cur];
    } else if s[0] == ' ' {
      PlainTail(s);
      PlainRun(done + Closed(cur), "", s[1..]);
      assert "" + s[1..] == s[1..];
      PlainSpace(done, cur, s);
    } else {
      PlainTail(s);
      PlainRun(done, cur + [s[0]], s[1..]);
      PlainChar(done, cur, s);
    }
  }

  /** The step of `PlainRun` at a space: the word so far is closed. */
  lemma PlainSpace(done: seq<string>, cur: string, s: string)
    requires ' ' !in cur && |s| > 0 && s[0] == ' '
    requires Finish(Run(Neutral(done + Closed(cur), ""), s[1..])) == done + Closed(cur) + Words(s[1..])
    ensures Finish(Run(Neutral(done, cur), s)) == done + Words(cur + s)
  {
    RunFirst(Neutral(done, cur), s);
    SpaceStep(done, cur);
    var after := Run(Neutral(done + Closed(cur), ""), s[1..]);
    assert Run(Neutral(done, cur), s) == after;
    WordsAtSpace(cur, s);
    Seqs.Associative(done, Closed(cur), Words(s[1..]));
  }

  lemma RunFirst(st: Lexer, s: string)
    requires |s| > 0
    ensures Run(st, s) == Run(Step(st, s[0]), s[1..])
  {
  }

  /** The word a space closes: none when it is empty. */
  function Closed(cur: string): seq<string> {
    if cur != "" then [cur] else []
  }

  lemma SpaceStep(done: seq<string>, cur: string)
    ensures Step(Neutral(done, cur), ' ') == Neutral(done + Closed(cur), "")
  {
  }

  /** The step of `PlainRun` at any other plain character: it joins the
      word so far. */
  lemma PlainChar(done: seq<string>, cur: string, s: string)
    requires ' ' !in cur && |s| > 0 && s[0] != ' ' && s[0] != '\\' && s[0] != '\'' && s[0] != '"'
    requires Finish(Run(Neutral(done, cur + [s[0]]), s[1..])) == done + Words(cur + [s[0]] + s[1..])
    ensures Finish(Run(Neutral(done, cur), s)) == done + Words(cur + s)
  {
    RunFirst(Neutral(done, cur), s);
    CharStep(done, cur, s[0]);
    assert cur + [s[0]] + s[1..] == cur + s;
  }

  lemma CharStep(done: seq<string>, cur: string, c: char)
    requires c != ' ' && c != '\\' && c != '\'' && c != '"'
    ensures Step(Neutral(done, cur), c) == Neutral(done, cur + [c])
  {
  }

  /** On text with no quotes or backslashes the tokenizer is plain
      splitting on spaces with empty pieces dropped. */
  lemma PlainTokens(s: string)
    requires Plain(s)
    ensures Tokens(s) == Words(s)
  {
    PlainRun([], "", s);
    assert "" + s == s;
  }

  lemma {:induction false} RunInSingle(st: Lexer, s: string)
    requires st.single && !st.double && !st.escaped
    requires forall i :: 0 <= i < |s| ==> s[i] != '\'' && s[i] != '\\'
    ensures Run(st, s) == st.(cur := st.cur + s)
    decreases |s|
  {
    if |s| == 0 {
      assert st.cur + s == st.cur;
    } else {
      RunInSingle(Step(st, s[0]), s[1..]);
      assert st.cur + [s[0]] + s[1..] == st.cur + s;
    }
  }

  /** An unterminated single quote runs to the end of the input, spaces
      included. */
  lemma UnterminatedSingleQuote(s: string)
    requires forall i :: 0 <= i < |s| ==> s[i] != '\'' && s[i] != '\\'
    ensures Tokens("'" + s) == if s == "" then [] else [s]
  {
    var t := "'" + s;
    assert t[0] == '\'' && t[1..] == s;
    assert Run(Start, t) == Run(Start.(single := true), s);
    RunInSingle(Start.(single := true), s);
    assert "" + s == s;
  }

  /** An unterminated double quote likewise runs to the end of the input. */
  lemma UnterminatedDoubleQuote(s: string)
    requires forall i :: 0 <= i < |s| ==> s[i] != '"' && s[i] != '\\'
    ensures Tokens("\"" + s) == if s == "" then [] else [s]
  {
    var t := "\"" + s;
    assert t[0] == '"' && t[1..] == s;
    assert Run(Start, t) == Run(Start.(double := true), s);
    RunInside(Start.(double := true), s);
    assert "" + s == s;
  }

  /** Every character of `s` behind a backslash. */
  function BackslashAll(s: string): (r: string)
    ensures |r| == 2 * |s|
    decreases |s|
  {
    if |s| == 0 then "" else ['\\', s[0]] + BackslashAll(s[1..])
  }

  /** One escape: whatever the quoting, a backslash adds the next
      character to the token literally, be it a quote, a space or another
      backslash, and leaves the quote flags as they were. */
  lemma EscapeStep(st: Lexer, c: char, rest: string)
    requires !st.escaped
    ensures Run(st, ['\\', c] + rest) == Run(st.(cur := st.cur + [c]), rest)
  {
    var t := ['\\', c] + rest;
    assert t[0] == '\\' && t[1..][0] == c && t[1..][1..] == rest;
  }

  /** Escaped text, in any quoting, is taken character for character:
      no quote opens or closes and no space ends the token. */
  lemma {:induction false} RunAllEscaped(st: Lexer, s: string)
    requires !st.escaped
    ensures Run(st, BackslashAll(s)) == st.(cur := st.cur + s)
    decreases |s|
  {
    if |s| == 0 {
      assert st.cur + s == st.cur;
    } else {
      EscapeStep(st, s[0], BackslashAll(s[1..]));
      RunAllEscaped(st.(cur := st.cur + [s[0]]), s[1..]);
      assert st.cur + [s[0]] + s[1..] == st.cur + s;
    }
  }

  /** A backslash escapes the next character even inside single quotes. */
  lemma BackslashInsideSingleQuotes()
    ensures Tokens("'a\\'b'") == ["a'b"]
  {
    var q := Lexer([], "", true, false, false);
    assert Run(Start, "'a\\'b'") == Run(q, "a\\'b'");
    assert Run(q, "a\\'b'") == Run(q.(cur := "a"), "\\'b'");
    assert Run(q.(cur := "a"), "\\'b'") == Run(q.(cur := "a", escaped := true), "'b'");
    assert Run(q.(cur := "a", escaped := true), "'b'") == Run(q.(cur := "a'"), "b'");
    assert Run(q.(cur := "a'"), "b'") == Run(q.(cur := "a'b"), "'");
    assert Run(q.(cur := "a'b"), "'") == Lexer([], "a'b", false, false, false);
  }

  /** How a command line writes one argument. */
  datatype Word =
    | Bare(text: string)
    | DoubleQuoted(text: string)
    | SingleQuoted(text: string)
    | EscapedDoubleQuoted(text: string)

  /** `s.replace(/"/g, '\\"')`. */
  function EscapeDoubleQuotes(s: string): string {
    ReplaceAll(s, "\"", "\\\"")
  }

  function Render(w: Word): string {
    match w
    case Bare(t) => t
    case DoubleQuoted(t) => "\"" + t + "\""
    case SingleQuoted(t) => "'" + t + "'"
    case EscapedDoubleQuoted(t) => "\"" + EscapeDoubleQuotes(t) + "\""
  }

  /** Words separated by single spaces. */
  function Line(ws: seq<Word>): string
    decreases |ws|
  {
    if |ws| == 0 then ""
    else if |ws| == 1 then Render(ws[0])
    else Render(ws[0]) + " " + Line(ws[1..])
  }

  /** The argument reads back as written: bare text has no spaces, quotes
      or backslashes; quoted text has no backslash and no quote of its own
      kind (the escaping form may hold double quotes). */
  predicate Safe(w: Word) {
    forall i :: 0 <= i < |w.text| ==>
      w.text[i] != '\\' &&
      (w.Bare? ==> w.text[i] != ' ' && w.text[i] != '\'' && w.text[i] != '"') &&
      (w.DoubleQuoted? ==> w.text[i] != '"') &&
      (w.SingleQuoted? ==> w.text[i] != '\'')
  }

  function Texts(ws: seq<Word>): (r: seq<string>)
    ensures |r| == |ws|
  {
    seq(|ws|, i requires 0 <= i < |ws| => ws[i].text)
  }

  lemma {:induction false} RunInside(st: Lexer, s: string)
    requires !st.escaped && st.single != st.double
    requires forall i :: 0 <= i < |s| ==> s[i] != '\\' && s[i] != (if st.single then '\'' else '"')
    ensures Run(st, s) == st.(cur := st.cur + s)
    decreases |s|
  {
    if |s| == 0 {
      assert st.cur + s == st.cur;
    } else {
      RunInside(Step(st, s[0]), s[1..]);
      assert st.cur + [s[0]] + s[1..] == st.cur + s;
    }
  }

  lemma {:induction false} RunPlainChars(st: Lexer, s: string)
    requires !st.escaped && !st.single && !st.double
    requires forall i :: 0 <= i < |s| ==> s[i] != '\\' && s[i] != '\'' && s[i] != '"' && s[i] != ' '
    ensures Run(st, s) == st.(cur := st.cur + s)
    decreases |s|
  {
    if |s| == 0 {
      assert st.cur + s == st.cur;
    } else {
      RunPlainChars(Step(st, s[0]), s[1..]);
      assert st.cur + [s[0]] + s[1..] == st.cur + s;
    }
  }

  lemma {:induction false} RunEscaped(st: Lexer, s: string)
    requires !st.escaped && !st.single && st.double
    requires forall i :: 0 <= i < |s| ==> s[i] != '\\'
    ensures Run(st, EscapeDoubleQuotes(s)) == st.(cur := st.cur + s)
    decreases |s|
  {
    if |s| == 0 {
      assert st.cur + s == st.cur;
    } else {
      var rest := EscapeDoubleQuotes(s[1..]);
      if s[0] == '"' {
        assert "\"" <= s;
        assert EscapeDoubleQuotes(s) == "\\\"" + rest;
        RunAppend(st, "\\\"", rest);
        assert Run(st, "\\\"") == st.(cur := st.cur + "\"");
      } else {
        assert !("\"" <= s);
        assert EscapeDoubleQuotes(s) == [s[0]] + rest;
        RunAppend(st, [s[0]], rest);
      }
      RunEscaped(Run(st, EscapeDoubleQuotes(s)[..|EscapeDoubleQuotes(s)| - |rest|]), s[1..]);
      assert st.cur + [s[0]] + s[1..] == st.cur + s;
    }
  }

  lemma WordRun(done: seq<string>, w: Word)
    requires Safe(w)
    ensures Run(Neutral(done, ""), Render(w)) == Neutral(done, w.text)
  {
    var st := Neutral(done, "");
    match w
    case Bare(t) =>
      RunPlainChars(st, t);
    case DoubleQuoted(t) =>
      RunAppend(st, "\"", t + "\"");
      assert "\"" + t + "\"" == "\"" + (t + "\"");
      RunAppend(st.(double := true), t, "\"");
      RunInside(st.(double := true), t);
    case SingleQuoted(t) =>
      RunAppend(st, "'", t + "'");
      assert "'" + t + "'" == "'" + (t + "'");
      RunAppend(st.(single := true), t, "'");
      RunInside(st.(single := true), t);
    case EscapedDoubleQuoted(t) =>
      var e := EscapeDoubleQuotes(t);
      RunAppend(st, "\"", e + "\"");
      assert "\"" + e + "\"" == "\"" + (e + "\"");
      RunAppend(st.(double := true), e, "\"");
      RunEscaped(st.(double := true), t);
  }

  /** One safe word followed by a space closes that word's token. */
  lemma WordThenSpace(done: seq<string>, w: Word, rest: string)
    requires Safe(w)
    ensures Run(Neutral(done, ""), Render(w) + " " + rest) ==
            Run(Neutral(done + (if w.text != "" then [w.text] else []), ""), rest)
  {
    var st := Neutral(done, "");
    var sp := " " + rest;
    WordRun(done, w);
    RunAppend(st, Render(w), sp);
    assert Render(w) + " " + rest == Render(w) + sp;
    assert sp[0] == ' ' && sp[1..] == rest;
    assert Run(Neutral(done, w.text), sp) == Run(Step(Neutral(done, w.text), ' '), rest);
    if w.text != "" {
      assert Step(Neutral(done, w.text), ' ') == Neutral(done + [w.text], "");
    } else {
      assert done + [] == done;
    }
  }

  lemma TextsCons(ws: seq<Word>)
    requires |ws| > 0
    ensures Texts(ws) == [ws[0].text] + Texts(ws[1..])
  {
  }

  lemma NonEmptyCons(t: string, ts: seq<string>)
    ensures NonEmpty([t] + ts) == (if t != "" then [t] else []) + NonEmpty(ts)
  {
    assert ([t] + ts)[0] == t && ([t] + ts)[1..] == ts;
  }

  predicate AllSafe(ws: seq<Word>) {
    forall i :: 0 <= i < |ws| ==> Safe(ws[i])
  }

  lemma AllSafeTail(ws: seq<Word>)
    requires |ws| > 0 && AllSafe(ws)
    ensures Safe(ws[0]) && AllSafe(ws[1..])
  {
    assert forall i :: 0 <= i < |ws[1..]| ==> ws[1..][i] == ws[i + 1];
  }

  lemma {:induction false} LineRun(done: seq<string>, ws: seq<Word>)
    requires AllSafe(ws)
    ensures Finish(Run(Neutral(done, ""), Line(ws))) == done + NonEmpty(Texts(ws))
    decreases |ws|
  {
    if |ws| == 0 {
      assert Texts(ws) == [];
    } else if |ws| == 1 {
      AllSafeTail(ws);
      WordRun(done, ws[0]);
      TextsCons(ws);
      NonEmptyCons(ws[0].text, []);
    } else {
      LineRunCons(done, ws);
    }
  }

  lemma {:induction false} LineRunCons(done: seq<string>, ws: seq<Word>)
    requires AllSafe(ws) && |ws| >= 2
    ensures Finish(Run(Neutral(done, ""), Line(ws))) == done + NonEmpty(Texts(ws))
    decreases |ws|, 0
  {
    var t := ws[0].text;
    var tail := ws[1..];
    var pre := if t != "" then [t] else [];
    var lineTail := Line(tail);
    AllSafeTail(ws);
    var st := Run(Neutral(done + pre, ""), lineTail);
    assert Run(Neutral(done, ""), Line(ws)) == st by {
      assert Line(ws) == Render(ws[0]) + " " + lineTail;
      WordThenSpace(done, ws[0], lineTail);
    }
    assert Finish(st) == done + pre + NonEmpty(Texts(tail)) by {
      LineRun(done + pre, tail);
    }
    assert NonEmpty(Texts(ws)) == pre + NonEmpty(Texts(tail)) by {
      TextsCons(ws);
      NonEmptyCons(t, Texts(tail));
    }
    assert done + pre + NonEmpty(Texts(tail)) == done + (pre + NonEmpty(Texts(tail)));
  }

  /** Safe words joined by spaces tokenize back to their non-empty texts:
      the quoting the cURL exporter writes is undone by the tokenizer. */
  lemma LineTokens(ws: seq<Word>)
    requires AllSafe(ws)
    ensures Tokens(Line(ws)) == NonEmpty(Texts(ws))
  {
    LineRun([], ws);
  }
}
