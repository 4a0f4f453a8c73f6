/**
 * EnvLoader: reading `.env` lines into system properties. The file is the
 * sequence of its lines; the properties are a map that later lines update.
 */
module EnvFiles {
  import opened Wrappers
  import opened JavaStrings

  const MASK: string := "******"

  /** processLine: the key and value a line sets, or None for a blank, comment or malformed line. */
  function ProcessLine(line: string): (r: Option<(string, string)>)
    ensures r.Some? ==> r.value.0 != ""
  {
    var t := Trim(line);
    if t == "" || StartsWith(t, "#") then None
    else
      var i := IndexOf(t, '=');
      if i == -1 then None
      else
        var key := Trim(t[..i]);
        var value := Trim(t[i + 1..]);
        if key == "" then None else Some((key, value))
  }

  /** What a line that sets something always looks like: a non-empty trimmed key without '=', a trimmed value; and a line without '=' sets nothing. */
  lemma ProcessLineShape(line: string)
    ensures var t := Trim(line);
      t == "" || StartsWith(t, "#") || '=' !in t ==> ProcessLine(line).None?
    ensures var r := ProcessLine(line);
      r.Some? ==> r.value.0 != "" && Trim(r.value.0) == r.value.0 && '=' !in r.value.0 && Trim(r.value.1) == r.value.1
  {
    var t := Trim(line);
    if t != "" && !StartsWith(t, "#") && IndexOf(t, '=') != -1 {
      var i := IndexOf(t, '=');
      EntryHalves(t[..i], t[i + 1..]);
    }
  }

  /** The two trimmed halves of a line split at its first '=': both are fixed by trimming, and the key has no '='. */
  lemma EntryHalves(before: string, after: string)
    requires '=' !in before
    ensures Trim(Trim(before)) == Trim(before) && '=' !in Trim(before)
    ensures Trim(Trim(after)) == Trim(after)
  {
    TrimOfTrimmedIsTrim(before);
    TrimOfTrimmedIsTrim(after);
    var k := TrimOffset(before);
    var key := Trim(before);
    forall j | 0 <= j < |key|
      ensures key[j] != '='
    {
      assert key[j] == before[k + j];
    }
  }

  lemma TrimOfTrimmedIsTrim(s: string)
    ensures Trim(Trim(s)) == Trim(s)
  {
    TrimOfTrimmed(Trim(s));
  }

  /** A well-formed `key=value` line reads back as that key and value; the value may itself hold '='. */
  lemma ParseEntry(key: string, value: string)
    requires key != "" && Trimmed(key) && '=' !in key && key[0] != '#'
    requires Trimmed(value)
    ensures ProcessLine(key + "=" + value) == Some((key, value))
  {
    var line := key + "=" + value;
    var t := Trim(line);
    assert t == line by {
      EntryLineTrimmed(key, value);
    }
    assert t != "" && !StartsWith(t, "#") by {
      assert t[0] == key[0];
    }
    var i := IndexOf(t, '=');
    assert i == |key| && t[..i] == key && t[i + 1..] == value by {
      EntryLineSplit(key, value);
    }
    assert Trim(t[..i]) == key by {
      TrimOfTrimmed(key);
    }
    assert Trim(t[i + 1..]) == value by {
      TrimOfTrimmed(value);
    }
  }

  lemma EntryLineTrimmed(key: string, value: string)
    requires key != "" && Trimmed(key) && Trimmed(value)
    ensures Trim(key + "=" + value) == key + "=" + value
  {
    var line := key + "=" + value;
    assert !IsTrimmable(key[0]);
    assert line[0] == key[0];
    if value == "" {
      assert line[|line| - 1] == '=';
    } else {
      assert !IsTrimmable(value[|value| - 1]);
      assert line[|line| - 1] == value[|value| - 1];
    }
    TrimOfTrimmed(line);
  }

  lemma EntryLineSplit(key: string, value: string)
    requires '=' !in key
    ensures IndexOf(key + "=" + value, '=') == |key|
    ensures (key + "=" + value)[..|key|] == key
    ensures (key + "=" + value)[|key| + 1..] == value
  {
    IndexAfterPrefix(key, "=" + value, '=');
    assert key + "=" + value == key + ("=" + value);
  }

  /** Comment and blank lines set nothing. */
  lemma CommentIgnored(text: string)
    ensures ProcessLine("#" + text).None?
    ensures ProcessLine("").None?
  {
    TrimKeepsNonBlankHead("#" + text);
  }

  /** Trimming a line that starts with a visible char keeps that char first. */
  lemma TrimKeepsNonBlankHead(s: string)
    requires s != "" && !IsTrimmable(s[0])
    ensures Trim(s) != "" && Trim(s)[0] == s[0]
  {
    assert TrimStart(s) == s;
    assert TrimOffset(s) == 0;
  }

  /** One line applied to the properties. */
  function Apply(props: map<string, string>, line: string): map<string, string>
  {
    match ProcessLine(line)
    case None => props
    case Some((k, v)) => props[k := v]
  }

  /** loadFromInputStream: the lines in file order. */
  function Load(props: map<string, string>, lines: seq<string>): (r: map<string, string>)
    decreases lines
    ensures forall k :: k in props ==> k in r
    ensures (forall i :: 0 <= i < |lines| ==> ProcessLine(lines[i]).None?) ==> r == props
  {
    if lines == [] then props else Load(Apply(props, lines[0]), lines[1..])
  }

  /** The line sets the property `k`. */
  predicate SetsKey(line: string, k: string) {
    ProcessLine(line).Some? && ProcessLine(line).value.0 == k
  }

  /** A line adds no property other than the one it sets. */
  lemma ApplyAddsOnlyItsKey(props: map<string, string>, line: string, k: string)
    requires k !in props && !SetsKey(line, k)
    ensures k !in Apply(props, line)
  {
  }

  /** Every property that loading adds was set by one of the lines. */
  lemma {:induction false} LoadNewKeysFromLines(props: map<string, string>, lines: seq<string>, k: string)
    requires k in Load(props, lines) && k !in props
    decreases lines
    ensures exists i :: 0 <= i < |lines| && SetsKey(lines[i], k)
  {
    if lines == [] {
      assert false;
    } else if !SetsKey(lines[0], k) {
      ApplyAddsOnlyItsKey(props, lines[0], k);
      LoadNewKeysFromLines(Apply(props, lines[0]), lines[1..], k);
      var i :| 0 <= i < |lines[1..]| && SetsKey(lines[1..][i], k);
      assert SetsKey(lines[i + 1], k);
    }
  }

  lemma {:induction false} LoadAppend(props: map<string, string>, a: seq<string>, b: seq<string>)
    decreases a
    ensures Load(props, a + b) == Load(Load(props, a), b)
  {
    if a == [] {
      assert a + b == b;
    } else {
      assert (a + b)[0] == a[0] && (a + b)[1..] == a[1..] + b;
      LoadAppend(Apply(props, a[0]), a[1..], b);
    }
  }

  /** A later line for a key wins over every earlier one; ignored lines change nothing. */
  lemma LaterLineWins(props: map<string, string>, lines: seq<string>, last: string)
    ensures ProcessLine(last).Some? ==>
      var kv := ProcessLine(last).value;
      Load(props, lines + [last]) == Load(props, lines)[kv.0 := kv.1]
    ensures ProcessLine(last).None? ==> Load(props, lines + [last]) == Load(props, lines)
  {
    LoadAppend(props, lines, [last]);
    assert [last][1..] == [];
  }

  /** A key naming a password, secret or token, in any case. */
  predicate Sensitive(key: string) {
    var u := Upper(key);
    Contains(u, "PASSWORD") || Contains(u, "SECRET") || Contains(u, "TOKEN")
  }

  /** maskSensitiveValue: the value, or six stars for a sensitive key. */
  function MaskSensitiveValue(key: string, value: string): (r: string)
    ensures Sensitive(key) ==> r == MASK
    ensures !Sensitive(key) ==> r == value
  {
    if Sensitive(key) then MASK else value
  }

  /** Any key with a password, secret or token word inside, in whatever case, is masked. */
  lemma SensitiveWordMasks(before: string, word: string, after: string, value: string)
    requires Upper(word) in {"PASSWORD", "SECRET", "TOKEN"}
    ensures MaskSensitiveValue(before + word + after, value) == MASK
  {
    UpperConcat(before + word, after);
    UpperConcat(before, word);
    ContainsInfix(Upper(before), Upper(word), Upper(after));
  }

  /** Masking ignores the key's case. */
  lemma MaskIgnoresCase(k1: string, k2: string, value: string)
    requires Upper(k1) == Upper(k2)
    ensures MaskSensitiveValue(k1, value) == MaskSensitiveValue(k2, value)
  {
  }
}
