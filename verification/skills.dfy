/**
 * SkillsTools: the XML listing of agent skills. A skill is a node of the
 * skill tree the registry read from disk; the listing shows either the
 * given skills only or every skill below them in pre-order, and every
 * attribute and text goes through the five-entity XML escaping.
 */
module SkillsXml {
  import opened Wrappers
  import opened JavaStrings

  /**
   * A skill as the registry holds it. `skillFile` is the skill directory
   * resolved against "SKILL.md", which the path library computes.
   */
  datatype Skill = Skill(name: string, description: Option<string>, skillFile: string, children: seq<Skill>)

  /** The registry: skills by name, and the roots of the tree in discovery order. */
  datatype Registry = Registry(byName: map<string, Skill>, roots: seq<Skill>)

  const NO_SKILLS: string :=
    "<available_skills description=\"Skills the agent can use.\">No skills available.</available_skills>"
  const HEADER: string :=
    "<available_skills description=\"Skills the agent can use. Use the Read tool with the provided absolute path to fetch full contents.\">\n"
  const FOOTER: string := "</available_skills>"

  // ---------------------------------------------------------------------------
  // escapeXml
  // ---------------------------------------------------------------------------

  /** escapeXml as written: the ampersand first, then <, >, the double and the single quote. */
  function EscapeXml(text: Option<string>): (r: string)
    ensures text.None? ==> r == ""
  {
    if text.None? then "" else Passes(text.value)
  }

  function Passes(s: string): string {
    var a := Replace(s, "&", "&amp;");
    var b := Replace(a, "<", "&lt;");
    var c := Replace(b, ">", "&gt;");
    var d := Replace(c, "\"", "&quot;");
    Replace(d, "'", "&apos;")
  }

  /** The entity of one char. */
  function EscapeChar(x: char): string {
    if x == '&' then "&amp;"
    else if x == '<' then "&lt;"
    else if x == '>' then "&gt;"
    else if x == '"' then "&quot;"
    else if x == '\'' then "&apos;"
    else [x]
  }

  function EscapeChars(s: string): string {
    if s == "" then "" else EscapeChar(s[0]) + EscapeChars(s[1..])
  }

  lemma PassesConcat(x: string, y: string)
    ensures Passes(x + y) == Passes(x) + Passes(y)
  {
    ReplaceCharConcat(x, y, '&', "&amp;");
    var a1, a2 := Replace(x, "&", "&amp;"), Replace(y, "&", "&amp;");
    ReplaceCharConcat(a1, a2, '<', "&lt;");
    var b1, b2 := Replace(a1, "<", "&lt;"), Replace(a2, "<", "&lt;");
    ReplaceCharConcat(b1, b2, '>', "&gt;");
    var c1, c2 := Replace(b1, ">", "&gt;"), Replace(b2, ">", "&gt;");
    ReplaceCharConcat(c1, c2, '"', "&quot;");
    var d1, d2 := Replace(c1, "\"", "&quot;"), Replace(c2, "\"", "&quot;");
    ReplaceCharConcat(d1, d2, '\'', "&apos;");
  }

  /** An entity written by one pass holds none of the chars the later passes replace. */
  lemma PassesChar(x: char)
    ensures Passes([x]) == EscapeChar(x)
  {
    var a := Replace([x], "&", "&amp;");
    var b := Replace(a, "<", "&lt;");
    if x == '&' {
      assert a == "&amp;" by {
        ReplaceCharSingle(x, '&', "&amp;");
      }
      LaterPassesKeep(a);
    } else if x == '<' {
      assert a == [x] by {
        ReplaceCharSingle(x, '&', "&amp;");
      }
      assert b == "&lt;" by {
        ReplaceCharSingle(x, '<', "&lt;");
      }
      LaterPassesKeep(b);
      ReplaceAbsent(b, "<", "&lt;");
    } else {
      assert a == [x] by {
        ReplaceCharSingle(x, '&', "&amp;");
      }
      assert b == [x] by {
        ReplaceCharSingle(x, '<', "&lt;");
      }
      PassesAfterLt(x);
    }
  }

  /** The passes for <, >, " and ' leave an entity alone. */
  lemma LaterPassesKeep(e: string)
    requires '<' !in e && '>' !in e && '"' !in e && '\'' !in e
    ensures
      var b := Replace(e, "<", "&lt;");
      var c := Replace(b, ">", "&gt;");
      var d := Replace(c, "\"", "&quot;");
      Replace(d, "'", "&apos;") == e
  {
    ReplaceAbsent(e, "<", "&lt;");
    ReplaceAbsent(e, ">", "&gt;");
    ReplaceAbsent(e, "\"", "&quot;");
    ReplaceAbsent(e, "'", "&apos;");
  }

  /** The last three passes on a char that is neither an ampersand nor a <. */
  lemma PassesAfterLt(x: char)
    requires x != '&' && x != '<'
    ensures
      var c := Replace([x], ">", "&gt;");
      var d := Replace(c, "\"", "&quot;");
      Replace(d, "'", "&apos;") == EscapeChar(x)
  {
    ReplaceCharSingle(x, '>', "&gt;");
    var c := Replace([x], ">", "&gt;");
    if x == '>' {
      ReplaceAbsent(c, "\"", "&quot;");
      ReplaceAbsent(c, "'", "&apos;");
    } else {
      ReplaceCharSingle(x, '"', "&quot;");
      var d := Replace(c, "\"", "&quot;");
      if x == '"' {
        ReplaceAbsent(d, "'", "&apos;");
      } else {
        ReplaceCharSingle(x, '\'', "&apos;");
      }
    }
  }

  /** Because the ampersand goes first, the chain escapes char by char and never escapes an entity twice. */
  lemma {:induction false} EscapeIsCharwise(s: string)
    ensures EscapeXml(Some(s)) == EscapeChars(s)
  {
    if s != "" {
      assert s == [s[0]] + s[1..];
      PassesConcat([s[0]], s[1..]);
      PassesChar(s[0]);
      EscapeIsCharwise(s[1..]);
    }
  }

  /** Entity decoding of the five entities the escaping writes. */
  function Unescape(e: string): string
    decreases |e|
  {
    if e == "" then ""
    else if "&amp;" <= e then "&" + Unescape(e[5..])
    else if "&lt;" <= e then "<" + Unescape(e[4..])
    else if "&gt;" <= e then ">" + Unescape(e[4..])
    else if "&quot;" <= e then "\"" + Unescape(e[6..])
    else if "&apos;" <= e then "'" + Unescape(e[6..])
    else [e[0]] + Unescape(e[1..])
  }

  /** Decoding reads one escaped char back off the front. */
  lemma UnescapeHead(x: char, rest: string)
    ensures Unescape(EscapeChar(x) + rest) == [x] + Unescape(rest)
  {
    if x == '&' {
      UnescapeAmp(rest);
    } else if x == '<' {
      UnescapeLt(rest);
    } else if x == '>' {
      UnescapeGt(rest);
    } else if x == '"' {
      UnescapeQuot(rest);
    } else if x == '\'' {
      UnescapeApos(rest);
    } else {
      UnescapePlain(x, rest);
    }
  }

  lemma UnescapeAmp(rest: string)
    ensures Unescape("&amp;" + rest) == "&" + Unescape(rest)
  {
    var e := "&amp;" + rest;
    assert "&amp;" <= e && e[5..] == rest;
  }

  lemma UnescapeLt(rest: string)
    ensures Unescape("&lt;" + rest) == "<" + Unescape(rest)
  {
    var e := "&lt;" + rest;
    assert e[1] == 'l' && "&amp;"[1] == 'a';
    assert "&lt;" <= e && e[4..] == rest;
  }

  lemma UnescapeGt(rest: string)
    ensures Unescape("&gt;" + rest) == ">" + Unescape(rest)
  {
    var e := "&gt;" + rest;
    assert e[1] == 'g' && "&amp;"[1] == 'a' && "&lt;"[1] == 'l';
    assert "&gt;" <= e && e[4..] == rest;
  }

  lemma UnescapeQuot(rest: string)
    ensures Unescape("&quot;" + rest) == "\"" + Unescape(rest)
  {
    var e := "&quot;" + rest;
    assert e[1] == 'q' && "&amp;"[1] == 'a' && "&lt;"[1] == 'l' && "&gt;"[1] == 'g';
    assert "&quot;" <= e && e[6..] == rest;
  }

  lemma UnescapeApos(rest: string)
    ensures Unescape("&apos;" + rest) == "'" + Unescape(rest)
  {
    var e := "&apos;" + rest;
    assert e[1] == 'a' && e[2] == 'p' && "&amp;"[2] == 'm';
    assert "&lt;"[1] == 'l' && "&gt;"[1] == 'g' && "&quot;"[1] == 'q';
    assert "&apos;" <= e && e[6..] == rest;
  }

  /** A char other than the ampersand stands for itself. */
  lemma UnescapePlain(x: char, rest: string)
    requires x != '&'
    ensures Unescape([x] + rest) == [x] + Unescape(rest)
  {
    var e := [x] + rest;
    assert e[0] == x && e[1..] == rest;
  }

  lemma {:induction false} UnescapeCharwise(s: string)
    ensures Unescape(EscapeChars(s)) == s
  {
    if s != "" {
      UnescapeHead(s[0], EscapeChars(s[1..]));
      UnescapeCharwise(s[1..]);
    }
  }

  predicate NoMarkup(s: string) {
    '<' !in s && '>' !in s && '"' !in s && '\'' !in s
  }

  lemma {:induction false} NoMarkupCharwise(s: string)
    ensures NoMarkup(EscapeChars(s))
  {
    if s != "" {
      NoMarkupCharwise(s[1..]);
    }
  }

  /** The escaped text decodes back to the original and holds no raw <, >, " or '. */
  lemma EscapeRoundTrip(s: string)
    ensures Unescape(EscapeXml(Some(s))) == s
    ensures NoMarkup(EscapeXml(Some(s)))
  {
    EscapeIsCharwise(s);
    UnescapeCharwise(s);
    NoMarkupCharwise(s);
  }

  // ---------------------------------------------------------------------------
  // buildSkillsXml / appendSkillXml
  // ---------------------------------------------------------------------------

  /** The agent_skill element of one skill, with its trailing newline. */
  function SkillLine(s: Skill): string {
    "<agent_skill fullPath=\"" + EscapeXml(Some(s.skillFile)) + "\">" + EscapeXml(s.description) + "</agent_skill>\n"
  }

  /** appendSkillXml: the skill's element, then (when recursive) its children's. */
  function AppendSkill(s: Skill, recursive: bool): (r: string)
    ensures SkillLine(s) <= r
    ensures !recursive || s.children == [] ==> r == SkillLine(s)
    decreases s, 1
  {
    SkillLine(s) + (if recursive && s.children != [] then AppendAll(s.children, true) else "")
  }

  function AppendAll(ss: seq<Skill>, recursive: bool): string
    decreases ss, 0
  {
    if ss == [] then "" else AppendSkill(ss[0], recursive) + AppendAll(ss[1..], recursive)
  }

  /** buildSkillsXml. */
  function BuildSkillsXml(skills: seq<Skill>, recursive: bool): (r: string)
    ensures skills == [] <==> r == NO_SKILLS
  {
    if skills == [] then NO_SKILLS
    else
      var r := HEADER + AppendAll(skills, recursive) + FOOTER;
      WrappedIsNotEmptyText(AppendAll(skills, recursive));
      r
  }

  /** Whatever the body, the wrapped listing is not the no-skills text. */
  lemma WrappedIsNotEmptyText(body: string)
    ensures HEADER + body + FOOTER != NO_SKILLS
  {
    var r := HEADER + body + FOOTER;
    assert r[..|NO_SKILLS|] != NO_SKILLS by {
      assert r[|NO_SKILLS| - 1] == HEADER[|NO_SKILLS| - 1];
    }
  }

  /** The skills the recursive listing visits: each skill, then its subtree, before its next sibling. */
  function Preorder(ss: seq<Skill>): (r: seq<Skill>)
    ensures |r| >= |ss|
    decreases ss
  {
    if ss == [] then []
    else [ss[0]] + Preorder(ss[0].children) + Preorder(ss[1..])
  }

  /** The elements of the given skills, one after the other. */
  function Lines(ss: seq<Skill>): string {
    if ss == [] then "" else SkillLine(ss[0]) + Lines(ss[1..])
  }

  lemma {:induction false} LinesAppend(a: seq<Skill>, b: seq<Skill>)
    ensures Lines(a + b) == Lines(a) + Lines(b)
  {
    if a == [] {
      assert a + b == b;
    } else {
      assert (a + b)[1..] == a[1..] + b;
      LinesAppend(a[1..], b);
    }
  }

  /** Without recursion, one element per listed skill and nothing from below. */
  lemma {:induction false} FlatListsEachSkill(ss: seq<Skill>)
    ensures AppendAll(ss, false) == Lines(ss)
  {
    if ss != [] {
      FlatListsEachSkill(ss[1..]);
    }
  }

  /** With recursion, the elements follow the pre-order of the tree. */
  lemma {:induction false} RecursiveIsPreorder(ss: seq<Skill>)
    ensures AppendAll(ss, true) == Lines(Preorder(ss))
    decreases ss
  {
    if ss != [] {
      var s := ss[0];
      RecursiveIsPreorder(s.children);
      RecursiveIsPreorder(ss[1..]);
      LinesAppend([s] + Preorder(s.children), Preorder(ss[1..]));
      LinesAppend([s], Preorder(s.children));
      assert Lines([s]) == SkillLine(s) by {
        assert [s][1..] == [];
      }
    }
  }

  /** The recursive listing of a forest is the flat listing of its pre-order. */
  lemma RecursiveEqualsFlatPreorder(ss: seq<Skill>)
    ensures BuildSkillsXml(ss, true) == BuildSkillsXml(Preorder(ss), false)
  {
    RecursiveIsPreorder(ss);
    FlatListsEachSkill(Preorder(ss));
  }

  // ---------------------------------------------------------------------------
  // getSkillsInfo / getAllSkillsInfo
  // ---------------------------------------------------------------------------

  /** The reply for a name the registry does not know; it shows the name as given, untrimmed. */
  function NotFound(skillName: string): string {
    "<error>技能不存在: " + skillName + "</error>"
  }

  /** A null or all-blank name, as trim().isEmpty() reads it. */
  predicate NoName(skillName: Option<string>) {
    skillName.None? || Trim(skillName.value) == ""
  }

  /** getSkillsInfo: the roots for no name, else the named skill's direct children. */
  function GetSkillsInfo(reg: Registry, skillName: Option<string>): (r: string)
    ensures NoName(skillName) ==> r == BuildSkillsXml(reg.roots, false)
    ensures !NoName(skillName) && Trim(skillName.value) !in reg.byName ==> r == NotFound(skillName.value)
    ensures !NoName(skillName) && Trim(skillName.value) in reg.byName ==>
      r == BuildSkillsXml(reg.byName[Trim(skillName.value)].children, false)
  {
    if NoName(skillName) then BuildSkillsXml(reg.roots, false)
    else
      var key := Trim(skillName.value);
      if key !in reg.byName then NotFound(skillName.value)
      else BuildSkillsXml(reg.byName[key].children, false)
  }

  /** getAllSkillsInfo: the whole forest for no name, else the named skill with everything below it. */
  function GetAllSkillsInfo(reg: Registry, skillName: Option<string>): (r: string)
    ensures NoName(skillName) ==> r == BuildSkillsXml(Preorder(reg.roots), false)
    ensures !NoName(skillName) && Trim(skillName.value) !in reg.byName ==> r == NotFound(skillName.value)
    ensures !NoName(skillName) && Trim(skillName.value) in reg.byName ==>
      var s := reg.byName[Trim(skillName.value)];
      r == BuildSkillsXml([s] + Preorder(s.children), false)
  {
    if NoName(skillName) then
      RecursiveEqualsFlatPreorder(reg.roots);
      BuildSkillsXml(reg.roots, true)
    else
      var key := Trim(skillName.value);
      if key !in reg.byName then NotFound(skillName.value)
      else
        var s := reg.byName[key];
        RecursiveEqualsFlatPreorder([s]);
        assert Preorder([s]) == [s] + Preorder(s.children) by {
          assert [s][1..] == [];
        }
        BuildSkillsXml([s], true)
  }

  /** The name is trimmed for the lookup: padded and bare names select the same skills. */
  lemma PaddingIgnored(reg: Registry, name: string)
    requires name != "" && !IsTrimmable(name[0]) && !IsTrimmable(name[|name| - 1])
    ensures Trim(" " + name + " ") == name
    ensures name in reg.byName ==> GetSkillsInfo(reg, Some(" " + name + " ")) == GetSkillsInfo(reg, Some(name))
    ensures name !in reg.byName ==> GetSkillsInfo(reg, Some(" " + name + " ")) == NotFound(" " + name + " ")
  {
    TrimPadded(name);
  }
}
