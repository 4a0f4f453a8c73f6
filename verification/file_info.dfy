/**
 * FileInfo.toJsonString: a file entry rendered as a one-line JSON object with
 * the keys name, path, isDirectory, size and lastModified, in that order.
 * The escaping is five successive replace calls; a character-by-character
 * reading of it, and its inverse, are stated alongside.
 */
module FileInfos {
  import opened Wrappers
  import opened JavaStrings

  datatype FileInfo = FileInfo(
    name: Option<string>,
    path: Option<string>,
    isDirectory: Option<bool>,
    size: Option<int>,
    lastModified: Option<int>)

  /** escapeJson as written: backslash first, then quote, newline, carriage return and tab. */
  function EscapeJson(s: Option<string>): (r: string)
    ensures s.None? ==> r == ""
  {
    if s.None? then ""
    else
      var a := Replace(s.value, "\\", "\\\\");
      var b := Replace(a, "\"", "\\\"");
      var c := Replace(b, "\n", "\\n");
      var d := Replace(c, "\r", "\\r");
      Replace(d, "\t", "\\t")
  }

  /** What one char becomes. */
  function EscapeChar(x: char): string {
    if x == '\\' then "\\\\"
    else if x == '"' then "\\\""
    else if x == '\n' then "\\n"
    else if x == '\r' then "\\r"
    else if x == '\t' then "\\t"
    else [x]
  }

  function EscapeChars(s: string): string {
    if s == "" then "" else EscapeChar(s[0]) + EscapeChars(s[1..])
  }

  /** The five passes as one function of the text, so that concatenation distributes over it. */
  function Passes(s: string): string {
    var a := Replace(s, "\\", "\\\\");
    var b := Replace(a, "\"", "\\\"");
    var c := Replace(b, "\n", "\\n");
    var d := Replace(c, "\r", "\\r");
    Replace(d, "\t", "\\t")
  }

  lemma PassesConcat(x: string, y: string)
    ensures Passes(x + y) == Passes(x) + Passes(y)
  {
    ReplaceCharConcat(x, y, '\\', "\\\\");
    var a1, a2 := Replace(x, "\\", "\\\\"), Replace(y, "\\", "\\\\");
    ReplaceCharConcat(a1, a2, '"', "\\\"");
    var b1, b2 := Replace(a1, "\"", "\\\""), Replace(a2, "\"", "\\\"");
    ReplaceCharConcat(b1, b2, '\n', "\\n");
    var c1, c2 := Replace(b1, "\n", "\\n"), Replace(b2, "\n", "\\n");
    ReplaceCharConcat(c1, c2, '\r', "\\r");
    var d1, d2 := Replace(c1, "\r", "\\r"), Replace(c2, "\r", "\\r");
    ReplaceCharConcat(d1, d2, '\t', "\\t");
  }

  /** Each later pass leaves an earlier pass's output for one char alone. */
  lemma PassesChar(x: char)
    ensures Passes([x]) == EscapeChar(x)
  {
    ReplaceCharSingle(x, '\\', "\\\\");
    var a := Replace([x], "\\", "\\\\");
    if x == '\\' {
      ReplaceAbsent(a, "\"", "\\\"");
      ReplaceAbsent(a, "\n", "\\n");
      ReplaceAbsent(a, "\r", "\\r");
      ReplaceAbsent(a, "\t", "\\t");
    } else {
      ReplaceCharSingle(x, '"', "\\\"");
      var b := Replace(a, "\"", "\\\"");
      if x == '"' {
        ReplaceAbsent(b, "\n", "\\n");
        ReplaceAbsent(b, "\r", "\\r");
        ReplaceAbsent(b, "\t", "\\t");
      } else {
        ReplaceCharSingle(x, '\n', "\\n");
        var c := Replace(b, "\n", "\\n");
        if x == '\n' {
          ReplaceAbsent(c, "\r", "\\r");
          ReplaceAbsent(c, "\t", "\\t");
        } else {
          ReplaceCharSingle(x, '\r', "\\r");
          var d := Replace(c, "\r", "\\r");
          if x == '\r' {
            ReplaceAbsent(d, "\t", "\\t");
          } else {
            ReplaceCharSingle(x, '\t', "\\t");
          }
        }
      }
    }
  }

  /** The chained replacements escape the text char by char: no pass rewrites an earlier pass's output. */
  lemma {:induction false} EscapeIsCharwise(s: string)
    ensures EscapeJson(Some(s)) == EscapeChars(s)
  {
    if s != "" {
      assert s == [s[0]] + s[1..];
      PassesConcat([s[0]], s[1..]);
      PassesChar(s[0]);
      EscapeIsCharwise(s[1..]);
    }
  }

  /** Reading the escapes back. */
  function Unescape(e: string): string
    decreases |e|
  {
    if e == "" then ""
    else if e[0] == '\\' && |e| >= 2 then
      var x := e[1];
      [if x == 'n' then '\n' else if x == 'r' then '\r' else if x == 't' then '\t' else x] + Unescape(e[2..])
    else [e[0]] + Unescape(e[1..])
  }

  lemma {:induction false} UnescapeCharwise(s: string)
    ensures Unescape(EscapeChars(s)) == s
  {
    if s != "" {
      var e := EscapeChars(s);
      var head := EscapeChar(s[0]);
      assert e == head + EscapeChars(s[1..]);
      if |head| == 2 {
        assert e[2..] == EscapeChars(s[1..]);
      } else {
        assert e[1..] == EscapeChars(s[1..]);
      }
      UnescapeCharwise(s[1..]);
    }
  }

  /** The escaping loses nothing, and leaves no raw newline, carriage return or tab. */
  lemma EscapeRoundTrip(s: string)
    ensures Unescape(EscapeJson(Some(s))) == s
    ensures '\n' !in EscapeJson(Some(s)) && '\r' !in EscapeJson(Some(s)) && '\t' !in EscapeJson(Some(s))
  {
    EscapeIsCharwise(s);
    UnescapeCharwise(s);
    NoRawControls(s);
  }

  lemma {:induction false} NoRawControls(s: string)
    ensures '\n' !in EscapeChars(s) && '\r' !in EscapeChars(s) && '\t' !in EscapeChars(s)
  {
    if s != "" {
      NoRawControls(s[1..]);
    }
  }

  /** %b of a Boolean and %d of a Long. */
  function BoolText(b: bool): string {
    if b then "true" else "false"
  }

  /** toJsonString: a null flag, size or time is written as false, 0 and 0. */
  function ToJsonString(f: FileInfo): (r: string)
    ensures |r| > 9 && r[..9] == "{\"name\":\"" && r[|r| - 1] == '}'
  {
    var open := "{\"name\":\"";
    var fields := EscapeJson(f.name)
      + "\",\"path\":\"" + EscapeJson(f.path)
      + "\",\"isDirectory\":" + BoolText(f.isDirectory.GetOr(false))
      + ",\"size\":" + IntToString(f.size.GetOr(0))
      + ",\"lastModified\":" + IntToString(f.lastModified.GetOr(0));
    assert (open + fields + "}")[..9] == open;
    open + fields + "}"
  }

  /** Null fields render as their defaults. */
  lemma NullFieldsDefault(name: Option<string>, path: Option<string>)
    ensures ToJsonString(FileInfo(name, path, None, None, None)) == ToJsonString(FileInfo(name, path, Some(false), Some(0), Some(0)))
    ensures ToJsonString(FileInfo(None, None, None, None, None)) == ToJsonString(FileInfo(Some(""), Some(""), None, None, None))
  {
  }
}
