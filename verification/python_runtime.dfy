/**
 * PythonRuntimeDetector's pure parts: the list of executables to probe and
 * the reading of `json.dumps(site.getsitepackages())` output. The probing
 * itself (processes, timeouts, the version regex) is not modelled.
 */
module PythonRuntime {
  import opened Wrappers
  import opened JavaStrings

  const NULL_POINTER: string := "NullPointerException"

  const WINDOWS_CANDIDATES: seq<string> :=
    ["python", "python3", "C:\\Python310\\python.exe", "C:\\Python311\\python.exe", "C:\\Python312\\python.exe"]
  const UNIX_CANDIDATES: seq<string> :=
    ["python3", "python", "/usr/bin/python3", "/usr/local/bin/python3", "/opt/homebrew/bin/python3"]

  /**
   * buildCandidatePaths: the configured path, then the platform's fixed list;
   * List.of refuses a null configured path.
   */
  function CandidatePaths(configured: Option<string>, osName: string): (r: Result<seq<string>, string>)
    ensures configured.None? <==> r.Failure?
    ensures r.Success? ==> |r.value| == 6 && r.value[0] == configured.value
    ensures r.Success? ==> r.value[1..] == if Contains(Lower(osName), "win") then WINDOWS_CANDIDATES else UNIX_CANDIDATES
  {
    if configured.None? then Failure(NULL_POINTER)
    else if Contains(Lower(osName), "win") then Success([configured.value] + WINDOWS_CANDIDATES)
    else Success([configured.value] + UNIX_CANDIDATES)
  }

  /** replaceAll("^\"|\"$", ""): one leading and one trailing quote removed, never the same one twice. */
  function StripQuotes(s: string): (r: string)
    ensures |r| <= |s|
  {
    var start := if |s| > 0 && s[0] == '"' then 1 else 0;
    var end := if |s| > start && s[|s| - 1] == '"' then |s| - 1 else |s|;
    s[start..end]
  }

  /** One cleaned item: trimmed, unquoted, and with each doubled backslash made single. */
  function CleanItem(piece: string): string {
    Replace(StripQuotes(Trim(piece)), "\\\\", "\\")
  }

  function CleanAll(pieces: seq<string>): (r: seq<string>)
    ensures |r| == |pieces| && forall i :: 0 <= i < |pieces| ==> r[i] == CleanItem(pieces[i])
  {
    if pieces == [] then [] else [CleanItem(pieces[0])] + CleanAll(pieces[1..])
  }

  /**
   * parseSitePackages: null unless the trimmed text is bracketed; a blank
   * inside gives no paths; otherwise each comma-separated piece, cleaned.
   * A null text fails inside the try and also gives null.
   */
  function ParseSitePackages(output: Option<string>): (r: Option<seq<string>>)
    ensures output.None? ==> r.None?
    ensures output.Some? ==> (r.Some? <==> |Trim(output.value)| >= 2 && Trim(output.value)[0] == '[' && Trim(output.value)[|Trim(output.value)| - 1] == ']')
  {
    if output.None? then None
    else
      var t := Trim(output.value);
      if |t| == 0 || t[0] != '[' || t[|t| - 1] != ']' then None
      else
        var content := t[1..|t| - 1];
        if Trim(content) == "" then Some([])
        else
          Some(CleanAll(Split(content, ',')))
  }

  // ---------------------------------------------------------------------------
  // The text Python prints, and reading it back
  // ---------------------------------------------------------------------------

  /** json.dumps's escaping of a backslash. */
  function Escape(p: string): string {
    Replace(p, "\\", "\\\\")
  }

  function Quoted(p: string): string {
    "\"" + Escape(p) + "\""
  }

  /** The pieces between the commas of `["a", "b"]`: a space before every item but the first. */
  function Pieces(paths: seq<string>): (r: seq<string>)
    ensures |r| == |paths|
    ensures forall i :: 0 <= i < |r| ==> r[i] == (if i == 0 then "" else " ") + Quoted(paths[i])
  {
    seq(|paths|, i requires 0 <= i < |paths| => (if i == 0 then "" else " ") + Quoted(paths[i]))
  }

  /** json.dumps of a list of strings, as Python prints it. */
  function Render(paths: seq<string>): string {
    "[" + Join(Pieces(paths), ",") + "]"
  }

  /** A path the simple reader can carry: printable ASCII without a quote or a comma. */
  predicate Plain(p: string) {
    forall i :: 0 <= i < |p| ==> ' ' <= p[i] <= '~' && p[i] != '"' && p[i] != ','
  }

  /** Escaping leaves every other character where it was: a char other than the backslash occurs after escaping iff before. */
  lemma {:induction false} EscapeKeeps(p: string, d: char)
    requires d != '\\'
    ensures d in Escape(p) <==> d in p
  {
    if p != "" {
      assert p == [p[0]] + p[1..];
      ReplaceCharConcat([p[0]], p[1..], '\\', "\\\\");
      ReplaceCharSingle(p[0], '\\', "\\\\");
      EscapeKeeps(p[1..], d);
    }
  }

  /** Undoing the escaping gives the path back. */
  lemma {:induction false} UnescapeEscape(p: string)
    ensures Replace(Escape(p), "\\\\", "\\") == p
  {
    if p != "" {
      assert p == [p[0]] + p[1..];
      ReplaceCharConcat([p[0]], p[1..], '\\', "\\\\");
      ReplaceCharSingle(p[0], '\\', "\\\\");
      UnescapeEscape(p[1..]);
      if p[0] == '\\' {
        ReplacePrefix("\\\\", "\\", Escape(p[1..]));
      } else {
        var e := [p[0]] + Escape(p[1..]);
        assert !("\\\\" <= e) by {
          assert e[0] != '\\';
        }
        assert e[1..] == Escape(p[1..]);
      }
    }
  }

  /** Trim of an item that starts and ends with a quote, with or without one space before it. */
  lemma TrimQuoted(q: string, lead: string)
    requires |q| >= 2 && q[0] == '"' && q[|q| - 1] == '"'
    requires lead == "" || lead == " "
    ensures Trim(lead + q) == q
  {
    if lead == " " {
      assert (lead + q)[1..] == q;
      assert TrimStart(lead + q) == TrimStart(q);
    }
    TrimOfTrimmed(q);
  }

  /** One piece of the printed list cleans back to its path. */
  lemma CleanPiece(paths: seq<string>, i: nat)
    requires i < |paths| && Plain(paths[i])
    ensures CleanItem(Pieces(paths)[i]) == paths[i]
  {
    var p := paths[i];
    var q := Quoted(p);
    EscapeKeeps(p, '"');
    TrimQuoted(q, if i == 0 then "" else " ");
    var e := Escape(p);
    assert '"' !in e;
    if |e| > 0 {
      assert q[|q| - 1] == '"' && q[1..|q| - 1] == e;
    }
    assert StripQuotes(q) == e;
    UnescapeEscape(p);
  }

  /** A text that is already trimmed and bracketed, with something non-blank inside, is read piece by piece. */
  lemma ParseBracketed(t: string, content: string)
    requires |t| >= 2 && t[0] == '[' && t[|t| - 1] == ']' && t[1..|t| - 1] == content
    requires |content| > 0 && !IsTrimmable(content[0])
    ensures ParseSitePackages(Some(t)) == Some(CleanAll(Split(content, ',')))
  {
    TrimOfTrimmed(t);
    assert Trim(content) != "";
  }

  /** The printed list's inside splits back into its pieces and starts with a quote. */
  lemma ContentSplits(paths: seq<string>)
    requires paths != [] && forall i :: 0 <= i < |paths| ==> Plain(paths[i])
    ensures var content := Join(Pieces(paths), ",");
      |content| > 0 && content[0] == '"' && Split(content, ',') == Pieces(paths)
  {
    var pieces := Pieces(paths);
    var content := Join(pieces, ",");
    forall i | 0 <= i < |pieces|
      ensures ',' !in pieces[i]
    {
      EscapeKeeps(paths[i], ',');
    }
    SplitJoin(pieces, ',');
    assert pieces[0] == Quoted(paths[0]);
    if |pieces| > 1 {
      assert content == pieces[0] + "," + Join(pieces[1..], ",");
    }
  }

  lemma EmptyList()
    ensures ParseSitePackages(Some("[]")) == Some([])
  {
    var t := "[]";
    TrimOfTrimmed(t);
    assert t[1..|t| - 1] == "";
  }

  lemma CleanAllPieces(paths: seq<string>)
    requires forall i :: 0 <= i < |paths| ==> Plain(paths[i])
    ensures CleanAll(Pieces(paths)) == paths
  {
    forall i | 0 <= i < |paths|
      ensures CleanAll(Pieces(paths))[i] == paths[i]
    {
      CleanPiece(paths, i);
    }
  }

  lemma ParseRender(paths: seq<string>)
    requires paths != [] && forall i :: 0 <= i < |paths| ==> Plain(paths[i])
    ensures ParseSitePackages(Some(Render(paths))) == Some(CleanAll(Pieces(paths)))
  {
    var content := Join(Pieces(paths), ",");
    var text := Render(paths);
    assert text[1..|text| - 1] == content;
    ContentSplits(paths);
    ParseBracketed(text, content);
  }

  lemma RoundTripNonEmpty(paths: seq<string>)
    requires paths != [] && forall i :: 0 <= i < |paths| ==> Plain(paths[i])
    ensures ParseSitePackages(Some(Render(paths))) == Some(paths)
  {
    ParseRender(paths);
    CleanAllPieces(paths);
  }

  /** Reading what Python prints gives the paths back, for plain paths. */
  lemma SitePackagesRoundTrip(paths: seq<string>)
    requires forall i :: 0 <= i < |paths| ==> Plain(paths[i])
    ensures ParseSitePackages(Some(Render(paths))) == Some(paths)
  {
    if paths == [] {
      assert Pieces(paths) == [];
      assert Render(paths) == "[]";
      EmptyList();
    } else {
      RoundTripNonEmpty(paths);
    }
  }

  lemma CleanHalves(x: char, y: char)
    requires 'a' <= x <= 'z' && 'a' <= y <= 'z'
    ensures CleanItem("\"" + [x]) == [x] && CleanItem([y] + "\"") == [y]
  {
    CleanOpeningHalf(x);
    CleanClosingHalf(y);
  }

  lemma CleanOpeningHalf(x: char)
    requires 'a' <= x <= 'z'
    ensures CleanItem("\"" + [x]) == [x]
  {
    var piece := "\"" + [x];
    TrimOfTrimmed(piece);
    assert StripQuotes(piece) == [x];
    ReplaceAbsent([x], "\\\\", "\\");
  }

  lemma CleanClosingHalf(y: char)
    requires 'a' <= y <= 'z'
    ensures CleanItem([y] + "\"") == [y]
  {
    var piece := [y] + "\"";
    TrimOfTrimmed(piece);
    assert StripQuotes(piece) == [y];
    ReplaceAbsent([y], "\\\\", "\\");
  }

  lemma SplitTwo(a: string, b: string)
    requires ',' !in a && ',' !in b && b != ""
    ensures Split(a + "," + b, ',') == [a, b]
  {
    var parts := [a, b];
    assert Join(parts, ",") == a + "," + Join([b], ",");
    SplitJoin(parts, ',');
  }

  /** The printed form of a path holding one comma. */
  lemma CommaPathRenders(x: char, y: char)
    requires 'a' <= x <= 'z' && 'a' <= y <= 'z'
    ensures Render([[x] + "," + [y]]) == "[" + (("\"" + [x]) + "," + ([y] + "\"")) + "]"
  {
    var path := [x] + "," + [y];
    var content := ("\"" + [x]) + "," + ([y] + "\"");
    ReplaceAbsent(path, "\\", "\\\\");
    assert Quoted(path) == content;
    assert Pieces([path])[0] == "" + Quoted(path) && "" + content == content;
    assert Pieces([path]) == [content];
  }

  /** The reader is not a JSON parser: a comma inside a path splits it in two. */
  lemma CommaSplitsPath(x: char, y: char)
    requires 'a' <= x <= 'z' && 'a' <= y <= 'z'
    ensures ParseSitePackages(Some(Render([[x] + "," + [y]]))) == Some([[x], [y]])
  {
    CommaPathRenders(x, y);
    ParseCommaText(x, y);
  }

  lemma ParseCommaText(x: char, y: char)
    requires 'a' <= x <= 'z' && 'a' <= y <= 'z'
    ensures ParseSitePackages(Some("[" + (("\"" + [x]) + "," + ([y] + "\"")) + "]")) == Some([[x], [y]])
  {
    var a, b := "\"" + [x], [y] + "\"";
    ParseTwoPieces(a, b);
    CleanTwo(a, b);
    CleanHalves(x, y);
  }

  lemma CleanTwo(a: string, b: string)
    ensures CleanAll([a, b]) == [CleanItem(a), CleanItem(b)]
  {
    assert [a, b][1..] == [b];
  }

  /** A bracketed text with two comma-free pieces, the first starting with a quote. */
  lemma ParseTwoPieces(a: string, b: string)
    requires |a| > 0 && a[0] == '"' && ',' !in a && ',' !in b && b != ""
    ensures ParseSitePackages(Some("[" + (a + "," + b) + "]")) == Some(CleanAll([a, b]))
  {
    var content := a + "," + b;
    var t := "[" + content + "]";
    assert t[1..|t| - 1] == content;
    ParseBracketed(t, content);
    SplitTwo(a, b);
  }
}
