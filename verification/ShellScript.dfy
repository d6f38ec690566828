/**
 The run-script printer of `tempo/devnet/supervisor.py` and a tokenizer for the part of the shell
 language it prints in: quoting and token recognition of POSIX.1-2017, Shell Command Language,
 sections 2.2.1, 2.2.2 and 2.3.
 */
module ShellScript {
  import opened Outcomes

  // ---------------------------------------------------------------- printer

  /** `s.replace("'", "'\\''")` */
  function EscapeQuotes(s: string): string {
    if s == "" then ""
    else (if s[0] == '\'' then "'\\''" else [s[0]]) + EscapeQuotes(s[1..])
  }

  /** `_sh_quote` */
  function ShQuote(s: string): string {
    "'" + EscapeQuotes(s) + "'"
  }

  /** `sep.join(parts)` */
  function Join(sep: string, parts: seq<string>): string {
    if parts == [] then ""
    else if |parts| == 1 then parts[0]
    else parts[0] + sep + Join(sep, parts[1..])
  }

  const CONTINUATION := " \\\n"

  function ArgLines(args: seq<string>): (lines: seq<string>)
    ensures |lines| == |args|
  {
    seq(|args|, i requires 0 <= i < |args| => "  " + ShQuote(args[i]))
  }

  /** The `exec` command at the end of the script, with its newline */
  function ExecCommand(nodeArgs: seq<string>): string
    requires nodeArgs != []
  {
    "exec " + ShQuote(nodeArgs[0]) + CONTINUATION + Join(CONTINUATION, ArgLines(nodeArgs[1..])) + "\n"
  }

  /** Each line followed by a newline */
  function Unlines(lines: seq<string>): string {
    if lines == [] then "" else lines[0] + "\n" + Unlines(lines[1..])
  }

  /** Everything before the `exec` command, line by line */
  function PreambleLines(tag: string, includeSetEu: bool): seq<string> {
    ["#!/bin/sh", "# auto-generated by tempo-devnet" + (if tag == "" then "" else " (" + tag + ")"), ""]
    + (if includeSetEu then ["set -eu", ""] else [])
    + ["cd \"$(dirname \"$0\")\"", ""]
  }

  // ---------------------------------------------------------------- tokenizer

  datatype Mode = Plain | Quoted

  /** Characters that mean something of their own outside quotes; the tokenizer rejects them. */
  predicate Special(c: char) {
    c in "|&;<>()$`\"*?[]#~=%{}!\0"
  }

  function Emit(current: Option<string>): seq<string> {
    if current.None? then [] else [current.value]
  }

  /**
   The words of the simple command at the front of `s`, and what follows the newline ending it.
   `current` is the word under construction, if one has begun. Text outside the subset, an
   unterminated quote and the NUL character give `None`.
   */
  function Scan(s: string, mode: Mode, current: Option<string>): Option<(seq<string>, string)>
    decreases |s|
  {
    match mode
    case Quoted =>
      if s == "" || s[0] == '\0' then None
      else if s[0] == '\'' then Scan(s[1..], Plain, current)
      else Scan(s[1..], Quoted, Some(current.GetOr("") + [s[0]]))
    case Plain =>
      if s == "" then Some((Emit(current), ""))
      else if s[0] == '\n' then Some((Emit(current), s[1..]))
      else if s[0] == ' ' || s[0] == '\t' then
        var (words, rest) :- Scan(s[1..], Plain, None);
        Some((Emit(current) + words, rest))
      else if s[0] == '\'' then Scan(s[1..], Quoted, Some(current.GetOr("")))
      else if s[0] == '\\' then
        if |s| < 2 || s[1] == '\0' then None
        else if s[1] == '\n' then Scan(s[2..], Plain, current)
        else Scan(s[2..], Plain, Some(current.GetOr("") + [s[1]]))
      else if Special(s[0]) then None
      else Scan(s[1..], Plain, Some(current.GetOr("") + [s[0]]))
  }

  /** The first command of a text that starts outside quotes and between words */
  function Tokenize(s: string): Option<(seq<string>, string)> {
    Scan(s, Plain, None)
  }

  predicate NulFree(s: string) {
    '\0' !in s
  }

  // ---------------------------------------------------------------- one character at a time

  /** A scan result with earlier words put in front */
  function Prefixed(words: seq<string>, r: Option<(seq<string>, string)>): Option<(seq<string>, string)> {
    if r.None? then None else Some((words + r.value.0, r.value.1))
  }

  lemma {:induction false} ScanOrdinary(c: char, s: string, word: string)
    requires !Special(c) && c !in "\n \t'\\"
    ensures Scan([c] + s, Plain, Some(word)) == Scan(s, Plain, Some(word + [c]))
    ensures Scan([c] + s, Plain, None) == Scan(s, Plain, Some([c]))
  {
    assert ([c] + s)[1..] == s;
    assert "" + [c] == [c];
  }

  lemma {:induction false} ScanInQuotes(c: char, s: string, word: string)
    requires c != '\''
    ensures Scan([c] + s, Quoted, Some(word)) == if c == '\0' then None else Scan(s, Quoted, Some(word + [c]))
  {
    assert ([c] + s)[1..] == s;
  }

  lemma {:induction false} ScanCloseQuote(s: string, word: string)
    ensures Scan("'" + s, Quoted, Some(word)) == Scan(s, Plain, Some(word))
  {
    assert ("'" + s)[1..] == s;
  }

  lemma {:induction false} ScanOpenQuote(s: string, current: Option<string>)
    ensures Scan("'" + s, Plain, current) == Scan(s, Quoted, Some(current.GetOr("")))
  {
    assert ("'" + s)[1..] == s;
  }

  lemma {:induction false} ScanBackslash(c: char, s: string, word: string)
    requires c != '\n' && c != '\0'
    ensures Scan("\\" + [c] + s, Plain, Some(word)) == Scan(s, Plain, Some(word + [c]))
  {
    assert ("\\" + [c] + s)[2..] == s;
  }

  /** The four characters that stand for one quote inside quotes */
  lemma {:induction false} ScanEscapedQuote(s: string, word: string)
    ensures Scan("'\\''" + s, Quoted, Some(word)) == Scan(s, Quoted, Some(word + "'"))
  {
    assert "'\\''" + s == "'" + ("\\" + ['\''] + ("'" + s));
    ScanCloseQuote("\\" + ['\''] + ("'" + s), word);
    ScanBackslash('\'', "'" + s, word);
    ScanOpenQuote(s, Some(word + "'"));
  }

  lemma {:induction false} ScanBlank(s: string, current: Option<string>)
    ensures Scan(" " + s, Plain, current) == Prefixed(Emit(current), Scan(s, Plain, None))
  {
    assert (" " + s)[1..] == s;
  }

  /** A blank and an escaped newline end the word and continue the command. */
  lemma {:induction false} ScanContinuation(s: string, word: string)
    ensures Scan(CONTINUATION + s, Plain, Some(word)) == Prefixed([word], Scan(s, Plain, None))
  {
    var t := "\\\n" + s;
    assert t[2..] == s;
    assert CONTINUATION + s == " " + t;
    ScanBlank(t, Some(word));
  }

  // ---------------------------------------------------------------- the printer is inverted

  /**
   Inside quotes, an escaped text and its closing quote add exactly that text to the word; a NUL
   character in it makes the scan fail.
   */
  lemma {:induction false} ScanEscaped(a: string, rest: string, word: string)
    ensures Scan(EscapeQuotes(a) + "'" + rest, Quoted, Some(word))
         == if NulFree(a) then Scan(rest, Plain, Some(word + a)) else None
    decreases |a|
  {
    if a == "" {
      assert EscapeQuotes(a) + "'" + rest == "'" + rest;
      assert word + a == word;
      ScanCloseQuote(rest, word);
    } else {
      var tail := EscapeQuotes(a[1..]) + "'" + rest;
      assert a == [a[0]] + a[1..];
      assert (word + [a[0]]) + a[1..] == word + a;
      ScanEscaped(a[1..], rest, word + [a[0]]);
      if a[0] == '\'' {
        assert EscapeQuotes(a) + "'" + rest == "'\\''" + tail;
        ScanEscapedQuote(tail, word);
      } else {
        assert EscapeQuotes(a) + "'" + rest == [a[0]] + tail;
        ScanInQuotes(a[0], tail, word);
      }
    }
  }

  /** A quoted argument is one word, with nothing lost or added. */
  lemma {:induction false} ScanQuoted(a: string, rest: string)
    ensures Scan(ShQuote(a) + rest, Plain, None) == if NulFree(a) then Scan(rest, Plain, Some(a)) else None
  {
    ScanEscaped(a, rest, "");
    ScanOpenQuote(EscapeQuotes(a) + "'" + rest, None);
    assert ShQuote(a) + rest == "'" + (EscapeQuotes(a) + "'" + rest);
    assert "" + a == a;
  }

  /** An indented argument line: the quoted word, then whatever ends the line */
  lemma {:induction false} ScanArgLine(a: string, end: string)
    ensures Scan("  " + ShQuote(a) + end, Plain, None) == if NulFree(a) then Scan(end, Plain, Some(a)) else None
  {
    var q := ShQuote(a) + end;
    assert "  " + ShQuote(a) + end == " " + (" " + q);
    ScanBlank(q, None);
    ScanBlank(" " + q, None);
    ScanQuoted(a, end);
    var r := Scan(q, Plain, None);
    if r.Some? {
      assert [] + r.value.0 == r.value.0;
    }
  }

  predicate AllNulFree(args: seq<string>) {
    forall i :: 0 <= i < |args| ==> NulFree(args[i])
  }

  lemma {:induction false} ScanArgLines(args: seq<string>, rest: string)
    ensures Scan(Join(CONTINUATION, ArgLines(args)) + "\n" + rest, Plain, None)
         == if AllNulFree(args) then Some((args, rest)) else None
    decreases |args|
  {
    var text := Join(CONTINUATION, ArgLines(args)) + "\n" + rest;
    if args == [] {
      assert text == "\n" + rest;
      assert text[1..] == rest;
    } else {
      assert AllNulFree(args) <==> NulFree(args[0]) && AllNulFree(args[1..]) by {
        assert args == [args[0]] + args[1..];
      }
      var more := ArgLines(args[1..]);
      assert ArgLines(args)[1..] == more;
      if |args| == 1 {
        var end := "\n" + rest;
        assert text == "  " + ShQuote(args[0]) + end;
        ScanArgLine(args[0], end);
        assert end[1..] == rest && args == [args[0]];
      } else {
        var tail := Join(CONTINUATION, more) + "\n" + rest;
        var end := CONTINUATION + tail;
        assert text == "  " + ShQuote(args[0]) + end;
        ScanArgLine(args[0], end);
        ScanContinuation(tail, args[0]);
        ScanArgLines(args[1..], rest);
        assert args == [args[0]] + args[1..];
      }
    }
  }

  /** Ordinary characters up to a blank are one word. */
  lemma {:induction false} ScanWord(w: string, s: string, word: string)
    requires forall c :: c in w ==> !Special(c) && c !in "\n \t'\\"
    ensures Scan(w + (" " + s), Plain, Some(word)) == Prefixed([word + w], Scan(s, Plain, None))
    decreases |w|
  {
    if w == "" {
      assert w + (" " + s) == " " + s && word + w == word;
      ScanBlank(s, Some(word));
    } else {
      assert w + (" " + s) == [w[0]] + (w[1..] + (" " + s));
      ScanOrdinary(w[0], w[1..] + (" " + s), word);
      ScanWord(w[1..], s, word + [w[0]]);
      assert (word + [w[0]]) + w[1..] == word + w;
    }
  }

  lemma {:induction false} ScanExec(s: string)
    ensures Scan("exec " + s, Plain, None) == Prefixed(["exec"], Scan(s, Plain, None))
  {
    assert "exec " + s == ['e'] + ("xec" + (" " + s));
    ScanOrdinary('e', "xec" + (" " + s), "");
    ScanWord("xec", s, "e");
    assert ['e'] == "e" && "e" + "xec" == "exec";
  }

  /**
   Tokenizing the printed command gives back `exec` and the argument vector, whatever quotes,
   blanks, backslashes and newlines the arguments hold, and leaves exactly what follows. It does so
   exactly for the vectors without a NUL character, which no shell word can hold.
   */
  lemma {:induction false} TokenizeOfExecCommand(nodeArgs: seq<string>, rest: string)
    requires nodeArgs != []
    ensures Tokenize(ExecCommand(nodeArgs) + rest)
         == if AllNulFree(nodeArgs) then Some((["exec"] + nodeArgs, rest)) else None
  {
    var args := nodeArgs[1..];
    assert nodeArgs == [nodeArgs[0]] + args;
    assert AllNulFree(nodeArgs) <==> NulFree(nodeArgs[0]) && AllNulFree(args);
    var lines := Join(CONTINUATION, ArgLines(args)) + "\n" + rest;
    var q := ShQuote(nodeArgs[0]) + (CONTINUATION + lines);
    assert ExecCommand(nodeArgs) + rest == "exec " + q;
    ScanExec(q);
    ScanQuoted(nodeArgs[0], CONTINUATION + lines);
    ScanContinuation(lines, nodeArgs[0]);
    ScanArgLines(args, rest);
  }

  /** Different argument vectors give different commands. */
  lemma {:induction false} ExecCommandInjective(a: seq<string>, b: seq<string>)
    requires a != [] && AllNulFree(a)
    requires b != [] && AllNulFree(b)
    requires ExecCommand(a) == ExecCommand(b)
    ensures a == b
  {
    TokenizeOfExecCommand(a, "");
    TokenizeOfExecCommand(b, "");
    assert (["exec"] + a)[1..] == a && (["exec"] + b)[1..] == b;
  }

  // ---------------------------------------------------------------- the printer as written

  lemma {:induction false} UnlinesSum(a: seq<string>, b: seq<string>)
    ensures Unlines(a + b) == Unlines(a) + Unlines(b)
  {
    if a == [] {
      assert a + b == b;
    } else {
      UnlinesSum(a[1..], b);
      assert (a + b)[1..] == a[1..] + b;
    }
  }

  /** Joining lines of which the last is empty ends every other line with a newline. */
  lemma {:induction false} JoinIsUnlines(lines: seq<string>)
    ensures Join("\n", lines + [""]) == Unlines(lines)
  {
    if lines == [] {
    } else {
      JoinIsUnlines(lines[1..]);
      assert (lines + [""])[1..] == lines[1..] + [""];
    }
  }

  lemma {:induction false} ExecCommandLines(binary: string, argLines: string)
    ensures Unlines(["exec " + binary + " \\", argLines])
         == "exec " + binary + CONTINUATION + argLines + "\n"
  {
    var lines := ["exec " + binary + " \\", argLines];
    assert Unlines(lines[1..]) == argLines + "\n" + Unlines(lines[1..][1..]);
    assert " \\" + "\n" == CONTINUATION;
  }

  /** Text without a quote is printed as it is, between quotes. */
  lemma {:induction false} EscapeOfPlain(s: string)
    requires '\'' !in s
    ensures EscapeQuotes(s) == s
  {
    if s != "" {
      EscapeOfPlain(s[1..]);
      assert s == [s[0]] + s[1..];
    }
  }

  /** The layout of the command: one argument a line, indented by two blanks, backslash at the line ends */
  lemma {:induction false} ExecCommandLayout(binary: string, args: seq<string>, i: nat)
    requires '\'' !in binary
    ensures ExecCommand([binary] + args) ==
            "exec " + ("'" + binary + "'") + " \\\n" + Join(" \\\n", ArgLines(args)) + "\n"
    ensures i < |args| && '\'' !in args[i] ==> ArgLines(args)[i] == "  " + ("'" + args[i] + "'")
  {
    EscapeOfPlain(binary);
    assert ([binary] + args)[1..] == args;
    if i < |args| && '\'' !in args[i] {
      EscapeOfPlain(args[i]);
    }
  }

  /** The script up to the command, as text */
  function Preamble(tag: string, includeSetEu: bool): string {
    "#!/bin/sh" + "\n"
    + ("# auto-generated by tempo-devnet" + (if tag == "" then "" else " (" + tag + ")") + "\n" + "\n")
    + (if includeSetEu then "set -eu" + "\n" + "\n" else "")
    + ("cd \"$(dirname \"$0\")\"" + "\n" + "\n")
  }

  lemma {:induction false} PreambleText(tag: string, includeSetEu: bool)
    ensures Unlines(PreambleLines(tag, includeSetEu)) == Preamble(tag, includeSetEu)
  {
    var shebang := "#!/bin/sh";
    var header := "# auto-generated by tempo-devnet" + (if tag == "" then "" else " (" + tag + ")");
    var setEu := if includeSetEu then ["set -eu", ""] else [];
    var cd := "cd \"$(dirname \"$0\")\"";
    UnlinesSum([shebang, header, ""] + setEu, [cd, ""]);
    UnlinesSum([shebang, header, ""], setEu);
    UnlinesSum([shebang], [header, ""]);
    assert [shebang] + [header, ""] == [shebang, header, ""];
    OneLine(shebang);
    LineAndBlank(header);
    LineAndBlank("set -eu");
    LineAndBlank(cd);
  }

  lemma {:induction false} OneLine(a: string)
    ensures Unlines([a]) == a + "\n"
  {
    assert Unlines([a]) == a + "\n" + Unlines([]);
  }

  lemma {:induction false} LineAndBlank(a: string)
    ensures Unlines([a, ""]) == a + "\n" + "\n"
  {
    UnlinesSum([a], [""]);
    assert [a] + [""] == [a, ""];
    OneLine(a);
    OneLine("");
    assert "" + "\n" == "\n";
  }

  /** `_write_run_script_content`; an empty argument list is an `IndexError` in the source. */
  method WriteRunScriptContent(nodeArgs: seq<string>, tag: string, includeSetEu: bool) returns (r: Option<string>)
    ensures r.None? <==> nodeArgs == []
    ensures nodeArgs != [] ==> r == Some(Preamble(tag, includeSetEu) + ExecCommand(nodeArgs))
    ensures nodeArgs != [] && AllNulFree(nodeArgs) ==>
              Tokenize(r.value[|Preamble(tag, includeSetEu)|..]) == Some((["exec"] + nodeArgs, ""))
  {
    if nodeArgs == [] {
      return None;
    }
    var tagSuffix := if tag != "" then " (" + tag + ")" else "";
    var binary := ShQuote(nodeArgs[0]);
    var argLines := Join(CONTINUATION, ArgLines(nodeArgs[1..]));
    var lines := ["#!/bin/sh", "# auto-generated by tempo-devnet" + tagSuffix, ""];
    if includeSetEu {
      lines := lines + ["set -eu"];
      lines := lines + [""];
    }
    lines := lines + ["cd \"$(dirname \"$0\")\""];
    lines := lines + [""];
    assert lines == PreambleLines(tag, includeSetEu);
    lines := lines + ["exec " + binary + " \\"];
    lines := lines + [argLines];
    assert lines == PreambleLines(tag, includeSetEu) + ["exec " + binary + " \\", argLines];
    UnlinesSum(PreambleLines(tag, includeSetEu), ["exec " + binary + " \\", argLines]);
    ExecCommandLines(binary, argLines);
    JoinIsUnlines(lines);
    lines := lines + [""];
    r := Some(Join("\n", lines));
    TokenizeOfExecCommand(nodeArgs, "");
    PreambleText(tag, includeSetEu);
    assert r.value[|Preamble(tag, includeSetEu)|..] == ExecCommand(nodeArgs) + "";
  }
}
