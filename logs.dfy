/** The receipt log viewer (logs.tsx): each log line is unescaped, trimmed
    and, when it is JSON, pretty-printed. */
module Logs {
  import opened Wrappers
  import opened Strings
  import opened Json
  import ExecUtils

  const EventPrefix := "EVENT_JSON:"

  /** The three escape rewrites of lines 8-12, in order; text with no
      backslash is left as it is. */
  function Rewritten(raw: string): (r: string)
    ensures |r| <= |raw|
    ensures ExecUtils.NoBackslash(raw) ==> r == raw
  {
    var a := ExecUtils.ReplaceEscape(raw, 'n', '\n');
    var b := ExecUtils.ReplaceEscape(a, 't', '\t');
    ExecUtils.ReplaceEscape(b, '"', '"')
  }

  /** The text after the three escape rewrites and the trim. */
  function Unescaped(raw: string): (r: string)
    ensures |r| <= |raw|
    ensures r != [] ==> !IsJsWhitespace(r[0]) && !IsJsWhitespace(r[|r| - 1])
  {
    Trim(Rewritten(raw))
  }

  /** `beautify(raw)` (lines 7-19): the pretty-printed JSON when the unescaped
      text parses, else that text. */
  function Beautify(parse: Parser, stringify: Stringifier, raw: string): (r: string)
    ensures parse(Unescaped(raw)).Some? ==> r == stringify(parse(Unescaped(raw)).value)
    ensures parse(Unescaped(raw)).None? ==> r == Unescaped(raw)
  {
    var u := Unescaped(raw);
    match parse(u)
    case Some(j) => stringify(j)
    case None => u
  }

  /** The text shown for one log (lines 27-31). */
  function LogDisplay(parse: Parser, stringify: Stringifier, text: string): (r: string)
    ensures StartsWith(text, EventPrefix) ==> r == Beautify(parse, stringify, text[|EventPrefix|..])
    ensures !StartsWith(text, EventPrefix) ==> r == Beautify(parse, stringify, text)
  {
    if StartsWith(text, EventPrefix) then Beautify(parse, stringify, text[|EventPrefix|..])
    else Beautify(parse, stringify, text)
  }

  /** `ReceiptLogs` (lines 21-37): one empty viewer for no logs, else one
      viewer per log in order. */
  function ReceiptLogs(parse: Parser, stringify: Stringifier, logs: seq<string>): (r: seq<string>)
    ensures logs == [] ==> r == [""]
    ensures logs != [] ==> (|r| == |logs| &&
                            forall i :: 0 <= i < |logs| ==> r[i] == LogDisplay(parse, stringify, logs[i]))
  {
    if logs == [] then [""]
    else seq(|logs|, i requires 0 <= i < |logs| => LogDisplay(parse, stringify, logs[i]))
  }

  /** An event log is shown as its JSON payload: the prefix never reaches
      the parser. */
  lemma EventPayloadShown(parse: Parser, stringify: Stringifier, payload: string)
    ensures LogDisplay(parse, stringify, EventPrefix + payload) == Beautify(parse, stringify, payload)
  {
    var text := EventPrefix + payload;
    assert text[..|EventPrefix|] == EventPrefix;
    assert text[|EventPrefix|..] == payload;
  }

  /** Plain text with no backslash, no surrounding whitespace and no JSON
      reading is shown exactly as logged. */
  lemma PlainTextUnchanged(parse: Parser, stringify: Stringifier, text: string)
    requires ExecUtils.NoBackslash(text)
    requires text != [] ==> !IsJsWhitespace(text[0]) && !IsJsWhitespace(text[|text| - 1])
    requires parse(text).None?
    ensures Beautify(parse, stringify, text) == text
  {
    TrimmedUnchanged(text);
  }

  lemma TrimmedUnchanged(s: string)
    requires s != [] ==> !IsJsWhitespace(s[0]) && !IsJsWhitespace(s[|s| - 1])
    ensures Trim(s) == s
  {
    if s != [] {
      assert TrimStart(s) == s;
      assert TrimEnd(s) == s;
    }
  }

  /** `s` holds no backslash directly followed by `c`. */
  predicate NoEscapePair(s: string, c: char) {
    forall i :: 0 <= i < |s| - 1 ==> !(s[i] == '\\' && s[i + 1] == c)
  }

  /** No escape pair `\c` survives its own rewrite when the replacement is
      neither a backslash nor `c`: after line 9 no `\n` is left, after line
      10 no `\t`. (Line 11 replaces `\"` by `"` itself, so `\\"` still ends
      as `\"`.) */
  lemma {:induction false} NoEscapeLeft(s: string, c: char, rep: char)
    requires c != '\\' && rep != '\\' && rep != c
    ensures NoEscapePair(ExecUtils.ReplaceEscape(s, c, rep), c)
    decreases |s|
  {
    if s == [] {
    } else if |s| >= 2 && s[0] == '\\' && s[1] == c {
      NoEscapeLeft(s[2..], c, rep);
      var rest := ExecUtils.ReplaceEscape(s[2..], c, rep);
      var r := ExecUtils.ReplaceEscape(s, c, rep);
      assert r == [rep] + rest;
      forall i | 0 <= i < |r| - 1
        ensures !(r[i] == '\\' && r[i + 1] == c)
      {
        if i > 0 {
          assert r[i] == rest[i - 1] && r[i + 1] == rest[i];
          assert 0 <= i - 1 < |rest| - 1;
          assert !(rest[i - 1] == '\\' && rest[i] == c);
        }
      }
    } else {
      NoEscapeLeft(s[1..], c, rep);
      var rest := ExecUtils.ReplaceEscape(s[1..], c, rep);
      if rest != [] {
        FirstOfReplaced(s[1..], c, rep);
      }
    }
  }

  /** The first character of a rewrite is the replacement or the input's
      own first character. */
  lemma FirstOfReplaced(s: string, c: char, rep: char)
    requires s != []
    ensures var r := ExecUtils.ReplaceEscape(s, c, rep);
            r != [] &&
            r[0] == (if |s| >= 2 && s[0] == '\\' && s[1] == c then rep else s[0])
  {
  }

  /** A quote escaped twice keeps one backslash: `\\"` is shown as `\"`. */
  lemma DoubleEscapedQuote()
    ensures ExecUtils.ReplaceEscape("\\\\\"", '"', '"') == "\\\""
  {
  }
}
