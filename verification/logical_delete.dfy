/**
 * LogicalDeleteInsertInterceptor: before an INSERT into a table with a
 * logical-delete column, look the row up by its key and either let the
 * insert go ahead, purge a logically deleted twin first, or refuse. The
 * entity's fields (in declaration order, superclass fields after the
 * class's own) and the rows the lookup returns are given; reflection and
 * JDBC are not modelled.
 */
module LogicalDeleteInsert {
  import opened Wrappers
  import opened JavaStrings

  // ---------------------------------------------------------------------------
  // camelToUnderscore
  // ---------------------------------------------------------------------------

  predicate IsAsciiLower(c: char) {
    'a' <= c <= 'z'
  }

  predicate IsAsciiUpper(c: char) {
    'A' <= c <= 'Z'
  }

  /** replaceAll("([a-z])([A-Z])", "$1_$2"): a left-to-right scan that puts '_' inside each lower-upper pair. */
  function SplitWords(s: string): (r: string)
    ensures |r| >= |s|
    decreases |s|
  {
    if |s| >= 2 && IsAsciiLower(s[0]) && IsAsciiUpper(s[1]) then [s[0], '_', s[1]] + SplitWords(s[2..])
    else if s == "" then ""
    else [s[0]] + SplitWords(s[1..])
  }

  /** camelToUnderscore. */
  function CamelToUnderscore(s: string): (r: string)
    ensures forall i :: 0 <= i < |r| ==> !IsAsciiUpper(r[i])
  {
    Lower(SplitWords(s))
  }

  /** The text without its underscores. */
  function Unscored(s: string): (r: string) {
    if s == "" then "" else (if s[0] == '_' then "" else [s[0]]) + Unscored(s[1..])
  }

  lemma {:induction false} UnscoredAppend(a: string, b: string)
    ensures Unscored(a + b) == Unscored(a) + Unscored(b)
  {
    if a == "" {
      assert a + b == b;
    } else {
      assert (a + b)[0] == a[0] && (a + b)[1..] == a[1..] + b;
      UnscoredAppend(a[1..], b);
    }
  }

  /** The scan only adds underscores: taking them out again gives the input's letters back. */
  lemma {:induction false} SplitWordsOnlyAddsUnderscores(s: string)
    ensures Unscored(SplitWords(s)) == Unscored(s)
    decreases |s|
  {
    if |s| >= 2 && IsAsciiLower(s[0]) && IsAsciiUpper(s[1]) {
      SplitWordsOnlyAddsUnderscores(s[2..]);
      UnscoredAppend([s[0], '_', s[1]], SplitWords(s[2..]));
      assert s == [s[0], s[1]] + s[2..];
      UnscoredAppend([s[0], s[1]], s[2..]);
      assert Unscored([s[0], '_', s[1]]) == [s[0], s[1]] by {
        assert [s[0], '_', s[1]][1..] == ['_', s[1]] && ['_', s[1]][1..] == [s[1]] && [s[1]][1..] == [];
      }
      assert Unscored([s[0], s[1]]) == [s[0], s[1]] by {
        assert [s[0], s[1]][1..] == [s[1]] && [s[1]][1..] == [];
      }
    } else if s != "" {
      SplitWordsOnlyAddsUnderscores(s[1..]);
    }
  }

  /** With no upper-case letter there is nothing to split. */
  lemma {:induction false} SplitWordsNoUpper(s: string)
    requires forall i :: 0 <= i < |s| ==> !IsAsciiUpper(s[i])
    ensures SplitWords(s) == s
    decreases |s|
  {
    if s != "" {
      SplitWordsNoUpper(s[1..]);
    }
  }

  /** Converting twice is converting once. */
  lemma CamelToUnderscoreIdempotent(s: string)
    ensures CamelToUnderscore(CamelToUnderscore(s)) == CamelToUnderscore(s)
  {
    var r := CamelToUnderscore(s);
    SplitWordsNoUpper(r);
    LowerKeeps(r);
  }

  /** A lower-case letter followed by an upper-case one gets an underscore between them. */
  lemma SplitWordsPair(x: char, y: char, rest: string)
    requires IsAsciiLower(x) && IsAsciiUpper(y)
    ensures SplitWords([x, y] + rest) == [x, '_', y] + SplitWords(rest)
  {
    var s := [x, y] + rest;
    assert s[0] == x && s[1] == y && s[2..] == rest;
  }

  /** A lower-case word followed by a capitalised one gets exactly one underscore between them. */
  lemma TwoWords(a: string, c: char, b: string)
    requires a != "" && IsAsciiLower(a[|a| - 1]) && IsAsciiUpper(c)
    requires forall i :: 0 <= i < |a| ==> !IsAsciiUpper(a[i])
    requires forall i :: 0 <= i < |b| ==> !IsAsciiUpper(b[i])
    ensures SplitWords(a + [c] + b) == a + "_" + [c] + b
  {
    var p, x, t := a[..|a| - 1], a[|a| - 1], [c] + b;
    PrefixWithoutPairs(a, t);
    SplitWordsPair(x, c, b);
    SplitWordsNoUpper(b);
    ConcatAssoc([x], [c], b);
    assert [x] + [c] == [x, c];
    ConcatAssoc(a, [c], b);
    LastSplit(a, p, x, c, b);
  }

  /** Regrouping the result: the prefix, the split pair and the tail make up the whole. */
  lemma LastSplit(a: string, p: string, x: char, c: char, b: string)
    requires a != "" && p == a[..|a| - 1] && x == a[|a| - 1]
    ensures p + ([x, '_', c] + b) == a + "_" + [c] + b
  {
    assert a == p + [x];
    assert [x, '_', c] + b == [x] + "_" + [c] + b;
  }

  /** A prefix without upper-case letters passes through unchanged up to its last char. */
  lemma {:induction false} PrefixWithoutPairs(a: string, rest: string)
    requires a != ""
    requires forall i :: 0 <= i < |a| ==> !IsAsciiUpper(a[i])
    ensures SplitWords(a + rest) == a[..|a| - 1] + SplitWords([a[|a| - 1]] + rest)
    decreases |a|
  {
    if |a| > 1 {
      var s := a + rest;
      assert s[1] == a[1];
      assert s[1..] == a[1..] + rest;
      PrefixWithoutPairs(a[1..], rest);
      assert a[..|a| - 1] == [a[0]] + a[1..][..|a[1..]| - 1];
    } else {
      assert a[..|a| - 1] == "";
      assert a == [a[|a| - 1]];
    }
  }

  // ---------------------------------------------------------------------------
  // getTableName
  // ---------------------------------------------------------------------------

  /** The table: the TableName annotation's value when non-empty, else the class name with every "PO" removed, in snake case. */
  function TableName(annotation: Option<string>, simpleName: string): (r: string)
    ensures annotation.Some? && annotation.value != "" ==> r == annotation.value
  {
    if annotation.Some? && annotation.value != "" then annotation.value
    else CamelToUnderscore(Replace(simpleName, "PO", ""))
  }

  /** One step of Replace over a char that cannot start the target. */
  lemma ReplaceStep(s: string, target: string, replacement: string)
    requires |target| > 0 && s != "" && s[0] != target[0]
    ensures Replace(s, target, replacement) == [s[0]] + Replace(s[1..], target, replacement)
  {
    assert target[0] != s[0];
  }

  lemma {:induction false} ReplaceAfterAbsent(a: string, b: string, target: string, replacement: string)
    requires |target| > 0 && target[0] !in a
    ensures Replace(a + b, target, replacement) == a + Replace(b, target, replacement)
    decreases |a|
  {
    if a == "" {
      assert a + b == b;
    } else {
      var s := a + b;
      assert s[0] == a[0] && s[1..] == a[1..] + b;
      assert a[0] != target[0] by {
        assert a[0] in a;
      }
      ReplaceStep(s, target, replacement);
      ReplaceAfterAbsent(a[1..], b, target, replacement);
      assert a == [a[0]] + a[1..];
    }
  }

  /** A class named with a "PO" suffix, and no other 'P', maps to the snake case of the rest. */
  lemma PersistentObjectSuffixDropped(base: string)
    requires 'P' !in base
    ensures TableName(None, base + "PO") == CamelToUnderscore(base)
  {
    ReplaceAfterAbsent(base, "PO", "PO", "");
    ReplacePrefix("PO", "", "");
    assert "PO" + "" == "PO";
    assert Replace("", "PO", "") == "";
    assert base + "" == base;
  }

  // ---------------------------------------------------------------------------
  // extractKeyInfo / buildQueryCondition
  // ---------------------------------------------------------------------------

  /** A field value as JDBC sees it. */
  datatype Value = Num(n: int) | Text(s: string)

  /**
   * An entity field: its value (None for null), whether it carries the TableId annotation,
   * and its UniqueKey group when annotated ("" for a single-field key).
   */
  datatype Field = Field(name: string, value: Option<Value>, isTableId: bool, uniqueGroup: Option<string>)

  /** An insertion-ordered map, as the key info's maps are iterated. */
  type Entries<V> = seq<(string, V)>

  /** Map.put: a present key keeps its place and takes the new value; a new key goes last. */
  /** Map.get: the value stored under a key, None when the key is absent. */
  function Lookup<V>(m: Entries<V>, key: string): (r: Option<V>)
    ensures r.Some? ==> exists i :: 0 <= i < |m| && m[i] == (key, r.value)
    ensures r.None? <==> forall i :: 0 <= i < |m| ==> m[i].0 != key
  {
    if m == [] then None
    else if m[0].0 == key then Some(m[0].1)
    else
      var r := Lookup(m[1..], key);
      assert forall i :: 1 <= i < |m| ==> m[i] == m[1..][i - 1];
      r
  }

  function Put<V>(m: Entries<V>, key: string, v: V): (r: Entries<V>)
    ensures |r| == |m| || |r| == |m| + 1
    ensures |r| > 0 && exists i :: 0 <= i < |r| && r[i] == (key, v)
    ensures Lookup(r, key) == Some(v)
    ensures forall o :: o != key ==> Lookup(r, o) == Lookup(m, o)
  {
    if m == [] then
      var r := [(key, v)];
      assert r[0] == (key, v);
      r
    else if m[0].0 == key then
      var r := [(key, v)] + m[1..];
      assert r[0] == (key, v);
      r
    else
      var rest := Put(m[1..], key, v);
      var r := [m[0]] + rest;
      assert exists i :: 0 <= i < |r| && r[i] == (key, v) by {
        var j :| 0 <= j < |rest| && rest[j] == (key, v);
        assert r[j + 1] == (key, v);
      }
      r
  }

  /** The key info: the primary key, the single-field unique keys, and the composite groups with their fields. */
  datatype KeyInfo = KeyInfo(pk: Option<(string, Value)>, singles: Entries<Value>, groups: Entries<Entries<Value>>)

  /** addCompositeUniqueKey: the group is created on first use. */
  function AddToGroup(groups: Entries<Entries<Value>>, group: string, name: string, v: Value): (r: Entries<Entries<Value>>)
    ensures forall i :: 0 <= i < |groups| ==> groups[i].1 != [] ==> (0 <= i < |r| && r[i].1 != [])
    ensures NoEmptyGroup(groups) ==> NoEmptyGroup(r)
    ensures r != []
  {
    if groups == [] then [(group, [(name, v)])]
    else if groups[0].0 == group then [(group, Put(groups[0].1, name, v))] + groups[1..]
    else
      var rest := AddToGroup(groups[1..], group, name, v);
      assert forall i :: 1 <= i < |groups| ==> groups[i] == groups[1..][i - 1];
      [groups[0]] + rest
  }

  /**
   * After adding a field to a group, the group exists and maps the field to its
   * value; the group's other fields and every other group are unchanged.
   */
  lemma {:induction false} AddToGroupContents(groups: Entries<Entries<Value>>, group: string, name: string, v: Value)
    ensures Lookup(AddToGroup(groups, group, name, v), group).Some?
    ensures forall g :: g != group ==> Lookup(AddToGroup(groups, group, name, v), g) == Lookup(groups, g)
    ensures Lookup(GroupOf(AddToGroup(groups, group, name, v), group), name) == Some(v)
    ensures forall o :: o != name ==> Lookup(GroupOf(AddToGroup(groups, group, name, v), group), o) == Lookup(GroupOf(groups, group), o)
    decreases |groups|
  {
    var r := AddToGroup(groups, group, name, v);
    if groups == [] {
      assert GroupOf(r, group) == [(name, v)];
    } else if groups[0].0 == group {
      assert r[1..] == groups[1..];
      assert GroupOf(r, group) == Put(groups[0].1, name, v);
      assert GroupOf(groups, group) == groups[0].1;
    } else {
      var rest := AddToGroup(groups[1..], group, name, v);
      AddToGroupContents(groups[1..], group, name, v);
      assert r[1..] == rest;
      assert GroupOf(r, group) == GroupOf(rest, group);
      assert GroupOf(groups, group) == GroupOf(groups[1..], group);
    }
  }

  /** The fields of a composite group; an absent group has none. */
  function GroupOf(groups: Entries<Entries<Value>>, group: string): Entries<Value> {
    if Lookup(groups, group).Some? then Lookup(groups, group).value else []
  }

  predicate NoEmptyGroup(groups: Entries<Entries<Value>>) {
    forall i :: 0 <= i < |groups| ==> groups[i].1 != []
  }

  /** A non-null field carrying the TableId annotation. */
  predicate IdKey(f: Field) {
    f.value.Some? && f.isTableId
  }

  /** A non-null field carrying a UniqueKey annotation with no group. */
  predicate SingleKey(f: Field) {
    f.value.Some? && f.uniqueGroup == Some("")
  }

  /** A non-null field carrying a UniqueKey annotation in the named (non-empty) group. */
  predicate GroupKey(f: Field, group: string) {
    f.value.Some? && group != "" && f.uniqueGroup == Some(group)
  }

  /**
   * One field's contribution: a null value contributes nothing; otherwise a TableId
   * field becomes the primary key, and a UniqueKey field is stored, under its name,
   * among the single keys or in its group. Every other entry stays as it was.
   */
  function AddField(k: KeyInfo, f: Field): (r: KeyInfo)
    ensures NoEmptyGroup(k.groups) ==> NoEmptyGroup(r.groups)
    ensures f.value.None? ==> r == k
    ensures IdKey(f) ==> r.pk == Some((f.name, f.value.value))
    ensures !IdKey(f) ==> r.pk == k.pk
    ensures forall o :: Lookup(r.singles, o) == if SingleKey(f) && f.name == o then f.value else Lookup(k.singles, o)
    ensures forall g :: Lookup(r.groups, g).Some? <==> Lookup(k.groups, g).Some? || GroupKey(f, g)
    ensures forall g, o ::
              Lookup(GroupOf(r.groups, g), o) == if GroupKey(f, g) && f.name == o then f.value else Lookup(GroupOf(k.groups, g), o)
  {
    if f.value.None? then k
    else
      var v := f.value.value;
      var pk := if f.isTableId then Some((f.name, v)) else k.pk;
      match f.uniqueGroup
      case None =>
        assert forall g :: !GroupKey(f, g);
        KeyInfo(pk, k.singles, k.groups)
      case Some(group) =>
        if group == "" then
          assert forall g :: !GroupKey(f, g);
          KeyInfo(pk, Put(k.singles, f.name, v), k.groups)
        else
          AddToGroupContents(k.groups, group, f.name, v);
          assert forall g :: GroupKey(f, g) <==> g == group;
          KeyInfo(pk, k.singles, AddToGroup(k.groups, group, f.name, v))
  }

  /** extractKeyInfo over the fields in iteration order. */
  function ExtractKeyInfo(fields: seq<Field>): (r: KeyInfo)
    ensures NoEmptyGroup(r.groups)
  {
    if fields == [] then KeyInfo(None, [], [])
    else AddField(ExtractKeyInfo(fields[..|fields| - 1]), fields[|fields| - 1])
  }

  /** The last field decides the primary key when it is a non-null TableId field. */
  lemma PrimaryKeyStep(fields: seq<Field>)
    requires fields != []
    ensures var f := fields[|fields| - 1];
      ExtractKeyInfo(fields).pk == if IdKey(f) then Some((f.name, f.value.value)) else ExtractKeyInfo(fields[..|fields| - 1]).pk
  {
    assert ExtractKeyInfo(fields) == AddField(ExtractKeyInfo(fields[..|fields| - 1]), fields[|fields| - 1]);
  }

  /** The last field decides a single key's value when it is a non-null single key with that name. */
  lemma SingleStep(fields: seq<Field>, name: string)
    requires fields != []
    ensures var f := fields[|fields| - 1];
      Lookup(ExtractKeyInfo(fields).singles, name)
      == if SingleNamed(f, name) then f.value else Lookup(ExtractKeyInfo(fields[..|fields| - 1]).singles, name)
  {
    assert ExtractKeyInfo(fields) == AddField(ExtractKeyInfo(fields[..|fields| - 1]), fields[|fields| - 1]);
  }

  lemma NoIdKeySplit(fields: seq<Field>)
    requires fields != []
    ensures var n := |fields| - 1;
      (forall i :: 0 <= i < |fields| ==> !IdKey(fields[i]))
      <==> (forall i :: 0 <= i < n ==> !IdKey(fields[..n][i])) && !IdKey(fields[n])
  {
    var n := |fields| - 1;
    assert forall i :: 0 <= i < n ==> fields[..n][i] == fields[i];
  }

  lemma NoSingleSplit(fields: seq<Field>, name: string)
    requires fields != []
    ensures var n := |fields| - 1;
      (forall i :: 0 <= i < |fields| ==> !SingleNamed(fields[i], name))
      <==> (forall i :: 0 <= i < n ==> !SingleNamed(fields[..n][i], name)) && !SingleNamed(fields[n], name)
  {
    var n := |fields| - 1;
    assert forall i :: 0 <= i < n ==> fields[..n][i] == fields[i];
  }

  /** There is a primary key exactly when some field is a non-null TableId field. */
  lemma {:induction false} PrimaryKeyPresent(fields: seq<Field>)
    ensures ExtractKeyInfo(fields).pk.None? <==> forall i :: 0 <= i < |fields| ==> !IdKey(fields[i])
    decreases |fields|
  {
    if fields != [] {
      var n := |fields| - 1;
      var p := fields[..n];
      PrimaryKeyPresent(p);
      PrimaryKeyStep(fields);
      NoIdKeySplit(fields);
    }
  }

  /** The primary key is the last non-null TableId field: a later one overrides an earlier one. */
  lemma {:induction false} PrimaryKeyLatest(fields: seq<Field>, i: int)
    requires 0 <= i < |fields| && IdKey(fields[i])
    requires forall j :: i < j < |fields| ==> !IdKey(fields[j])
    ensures ExtractKeyInfo(fields).pk == Some((fields[i].name, fields[i].value.value))
    decreases |fields|
  {
    var n := |fields| - 1;
    var p := fields[..n];
    PrimaryKeyStep(fields);
    if i < n {
      assert !IdKey(fields[n]);
      assert forall j :: i < j < |p| ==> p[j] == fields[j];
      PrimaryKeyLatest(p, i);
    }
  }

  /** A non-null single unique key field named `name`. */
  predicate SingleNamed(f: Field, name: string) {
    SingleKey(f) && f.name == name
  }

  /** A name holds a single key exactly when some non-null single-key field has that name. */
  lemma {:induction false} SinglePresent(fields: seq<Field>, name: string)
    ensures Lookup(ExtractKeyInfo(fields).singles, name).None? <==> forall i :: 0 <= i < |fields| ==> !SingleNamed(fields[i], name)
    decreases |fields|
  {
    if fields != [] {
      var n := |fields| - 1;
      var p := fields[..n];
      SinglePresent(p, name);
      SingleStep(fields, name);
      NoSingleSplit(fields, name);
    }
  }

  /** A single key holds the value of the last non-null single-key field with its name. */
  lemma {:induction false} SingleLatest(fields: seq<Field>, name: string, i: int)
    requires 0 <= i < |fields| && SingleNamed(fields[i], name)
    requires forall j :: i < j < |fields| ==> !SingleNamed(fields[j], name)
    ensures Lookup(ExtractKeyInfo(fields).singles, name) == fields[i].value
    decreases |fields|
  {
    var n := |fields| - 1;
    var p := fields[..n];
    SingleStep(fields, name);
    if i < n {
      assert !SingleNamed(fields[n], name);
      assert forall j :: i < j < |p| ==> p[j] == fields[j];
      SingleLatest(p, name, i);
    }
  }

  /** The last field creates its group when it is a non-null member of it. */
  lemma GroupStep(fields: seq<Field>, group: string)
    requires fields != []
    ensures Lookup(ExtractKeyInfo(fields).groups, group).Some?
      <==> Lookup(ExtractKeyInfo(fields[..|fields| - 1]).groups, group).Some? || GroupKey(fields[|fields| - 1], group)
  {
    assert ExtractKeyInfo(fields) == AddField(ExtractKeyInfo(fields[..|fields| - 1]), fields[|fields| - 1]);
  }

  lemma SomeGroupKeySplit(fields: seq<Field>, group: string)
    requires fields != []
    ensures var n := |fields| - 1;
      (exists i :: 0 <= i < |fields| && GroupKey(fields[i], group))
      <==> (exists i :: 0 <= i < n && GroupKey(fields[..n][i], group)) || GroupKey(fields[n], group)
  {
    var n := |fields| - 1;
    assert forall i :: 0 <= i < n ==> fields[..n][i] == fields[i];
  }

  /** A composite group exists exactly when some non-null field names it. */
  lemma {:induction false} GroupPresent(fields: seq<Field>, group: string)
    ensures Lookup(ExtractKeyInfo(fields).groups, group).Some? <==> exists i :: 0 <= i < |fields| && GroupKey(fields[i], group)
    decreases |fields|
  {
    if fields != [] {
      var n := |fields| - 1;
      GroupPresent(fields[..n], group);
      GroupStep(fields, group);
      SomeGroupKeySplit(fields, group);
    }
  }

  /** A non-null field of the composite group `group` named `name`. */
  predicate GroupMember(f: Field, group: string, name: string) {
    GroupKey(f, group) && f.name == name
  }

  /** The last field decides a group field's value when it is a non-null member of that group with that name. */
  lemma GroupFieldStep(fields: seq<Field>, group: string, name: string)
    requires fields != []
    ensures var f := fields[|fields| - 1];
      Lookup(GroupOf(ExtractKeyInfo(fields).groups, group), name)
      == if GroupMember(f, group, name) then f.value else Lookup(GroupOf(ExtractKeyInfo(fields[..|fields| - 1]).groups, group), name)
  {
    assert ExtractKeyInfo(fields) == AddField(ExtractKeyInfo(fields[..|fields| - 1]), fields[|fields| - 1]);
  }

  lemma NoMemberSplit(fields: seq<Field>, group: string, name: string)
    requires fields != []
    ensures var n := |fields| - 1;
      (forall i :: 0 <= i < |fields| ==> !GroupMember(fields[i], group, name))
      <==> (forall i :: 0 <= i < n ==> !GroupMember(fields[..n][i], group, name)) && !GroupMember(fields[n], group, name)
  {
    var n := |fields| - 1;
    assert forall i :: 0 <= i < n ==> fields[..n][i] == fields[i];
  }

  /** Within a group, a name is present exactly when some non-null field of the group has that name. */
  lemma {:induction false} GroupFieldPresent(fields: seq<Field>, group: string, name: string)
    ensures (Lookup(GroupOf(ExtractKeyInfo(fields).groups, group), name).None?
             <==> forall i :: 0 <= i < |fields| ==> !GroupMember(fields[i], group, name))
    decreases |fields|
  {
    if fields != [] {
      var n := |fields| - 1;
      var p := fields[..n];
      GroupFieldPresent(p, group, name);
      GroupFieldStep(fields, group, name);
      NoMemberSplit(fields, group, name);
    }
  }

  /** Within a group, a field holds the value of the last non-null field of the group with its name. */
  lemma {:induction false} GroupFieldLatest(fields: seq<Field>, group: string, name: string, i: int)
    requires 0 <= i < |fields| && GroupMember(fields[i], group, name)
    requires forall j :: i < j < |fields| ==> !GroupMember(fields[j], group, name)
    ensures Lookup(GroupOf(ExtractKeyInfo(fields).groups, group), name) == fields[i].value
    decreases |fields|
  {
    var n := |fields| - 1;
    var p := fields[..n];
    GroupFieldStep(fields, group, name);
    if i < n {
      assert !GroupMember(fields[n], group, name);
      assert forall j :: i < j < |p| ==> p[j] == fields[j];
      GroupFieldLatest(p, group, name, i);
    }
  }

  /** KeyInfo.isEmpty. */
  predicate IsEmpty(k: KeyInfo) {
    k.pk.None? && k.singles == [] && k.groups == []
  }

  /** The query's WHERE clause and its parameters, in placeholder order. */
  datatype Condition = Condition(whereClause: string, params: seq<Value>)

  function Placeholder(name: string): string {
    CamelToUnderscore(name) + " = ?"
  }

  /** The WHERE parts and parameters of a composite group, in the group's field order. */
  function GroupParts(fields: Entries<Value>): (r: (seq<string>, seq<Value>))
    ensures |r.0| == |fields| && |r.1| == |fields|
    ensures forall i :: 0 <= i < |fields| ==> r.0[i] == Placeholder(fields[i].0) && r.1[i] == fields[i].1
  {
    if fields == [] then ([], [])
    else
      var rest := GroupParts(fields[1..]);
      ([Placeholder(fields[0].0)] + rest.0, [fields[0].1] + rest.1)
  }

  /** The first group with a field, if any. */
  function FirstNonEmptyGroup(groups: Entries<Entries<Value>>): (r: Option<Entries<Value>>)
    ensures r.Some? ==> r.value != [] && exists i :: 0 <= i < |groups| && groups[i].1 == r.value
    ensures r.None? <==> forall i :: 0 <= i < |groups| ==> groups[i].1 == []
  {
    if groups == [] then None
    else if groups[0].1 != [] then Some(groups[0].1)
    else
      var r := FirstNonEmptyGroup(groups[1..]);
      assert forall i :: 1 <= i < |groups| ==> groups[i] == groups[1..][i - 1];
      r
  }

  /**
   * buildQueryCondition: the primary key (its field name used as the column
   * as it is), else the first single unique key, else the first non-empty
   * composite group joined with " AND ".
   */
  function BuildQueryCondition(k: KeyInfo): (r: Option<Condition>)
    ensures k.pk.Some? ==> r == Some(Condition(k.pk.value.0 + " = ?", [k.pk.value.1]))
    ensures k.pk.None? && k.singles != [] ==> r == Some(Condition(Placeholder(k.singles[0].0), [k.singles[0].1]))
    ensures r.Some? ==> |r.value.params| >= 1
  {
    if k.pk.Some? then Some(Condition(k.pk.value.0 + " = ?", [k.pk.value.1]))
    else if k.singles != [] then Some(Condition(Placeholder(k.singles[0].0), [k.singles[0].1]))
    else
      match FirstNonEmptyGroup(k.groups)
      case None => None
      case Some(fields) =>
        var parts := GroupParts(fields);
        Some(Condition(Join(parts.0, " AND "), parts.1))
  }

  /** For a key info the fields produced, a condition exists exactly when the key info is not empty. */
  lemma ConditionIffKeys(fields: seq<Field>)
    ensures BuildQueryCondition(ExtractKeyInfo(fields)).None? <==> IsEmpty(ExtractKeyInfo(fields))
  {
    var k := ExtractKeyInfo(fields);
    if k.pk.None? && k.singles == [] && k.groups != [] {
      assert k.groups[0].1 != [];
    }
  }

  /**
   * Without a primary key, a declared single unique key decides the condition: the
   * query tests one single key's column against that key's value.
   */
  lemma SingleKeyCondition(fields: seq<Field>)
    requires forall i :: 0 <= i < |fields| ==> !IdKey(fields[i])
    requires exists i :: 0 <= i < |fields| && SingleKey(fields[i])
    ensures var k := ExtractKeyInfo(fields);
      exists i :: 0 <= i < |fields| && SingleKey(fields[i]) && Lookup(k.singles, fields[i].name).Some?
        && BuildQueryCondition(k) == Some(Condition(Placeholder(fields[i].name), [Lookup(k.singles, fields[i].name).value]))
  {
    var k := ExtractKeyInfo(fields);
    PrimaryKeyPresent(fields);
    var i0 :| 0 <= i0 < |fields| && SingleKey(fields[i0]);
    SinglePresent(fields, fields[i0].name);
    assert SingleNamed(fields[i0], fields[i0].name);
    assert k.singles != [];
    var first := k.singles[0].0;
    assert Lookup(k.singles, first) == Some(k.singles[0].1);
    SinglePresent(fields, first);
    var i :| 0 <= i < |fields| && SingleNamed(fields[i], first);
  }

  /** A composite condition has one placeholder per field of the group, and the parameters follow the fields. */
  lemma CompositeCondition(k: KeyInfo)
    requires k.pk.None? && k.singles == [] && FirstNonEmptyGroup(k.groups).Some?
    ensures var fields := FirstNonEmptyGroup(k.groups).value;
      var c := BuildQueryCondition(k).value;
      && c.whereClause == Join(GroupParts(fields).0, " AND ")
      && |c.params| == |fields|
      && forall i :: 0 <= i < |fields| ==> c.params[i] == fields[i].1
  {
  }

  /** The primary key outranks the unique keys, whatever they are. */
  lemma PrimaryKeyFirst(pk: (string, Value), singles: Entries<Value>, groups: Entries<Entries<Value>>)
    ensures BuildQueryCondition(KeyInfo(Some(pk), singles, groups)) == BuildQueryCondition(KeyInfo(Some(pk), [], []))
  {
  }

  // ---------------------------------------------------------------------------
  // The decision on an existing row
  // ---------------------------------------------------------------------------

  /** A row the lookup returned: its id and its logical-delete column (None for SQL NULL). */
  datatype Row = Row(id: int, deleted: Option<Value>)

  /** What the interceptor does before letting the insert proceed. */
  datatype Decision =
    | Proceed
    | PurgeThenProceed(id: int)
    | Refuse(message: string)

  /** A delete flag that is non-null and not zero marks a logically deleted row. */
  /**
   * The flag of an existing row reads as deleted unless it is null or the
   * number 0; text never equals 0L or 0, so any text flag reads as deleted.
   */
  predicate IsDeleted(flag: Option<Value>)
    ensures flag.None? || flag == Some(Num(0)) ==> !IsDeleted(flag)
    ensures flag.Some? && flag.value.Num? && flag.value.n != 0 ==> IsDeleted(flag)
    ensures flag.Some? && flag.value.Text? ==> IsDeleted(flag)
  {
    flag.Some? && flag.value != Num(0)
  }

  function DuplicateMessage(table: string, where: string): string {
    "发现多条记录匹配相同的主键/唯一键，数据不一致！表: " + table + ", 条件: " + where
  }

  function LiveMessage(table: string, where: string): string {
    "记录已存在且未删除，无法插入！表: " + table + ", 条件: " + where
  }

  /** handleLogicalDeletedRecord once the rows are known. */
  function Decide(table: string, c: Condition, rows: seq<Row>): (r: Decision)
    ensures rows == [] <==> r == Proceed
    ensures |rows| > 1 ==> r == Refuse(DuplicateMessage(table, c.whereClause))
    ensures r.PurgeThenProceed? <==> |rows| == 1 && IsDeleted(rows[0].deleted)
    ensures r.PurgeThenProceed? ==> r.id == rows[0].id
    ensures |rows| == 1 && !IsDeleted(rows[0].deleted) ==> r == Refuse(LiveMessage(table, c.whereClause))
  {
    if rows == [] then Proceed
    else if |rows| > 1 then Refuse(DuplicateMessage(table, c.whereClause))
    else if IsDeleted(rows[0].deleted) then PurgeThenProceed(rows[0].id)
    else Refuse(LiveMessage(table, c.whereClause))
  }

  /** The field the interceptor treats as the logical-delete flag: the first annotated one or the first named isDeleted. */
  function FindLogicDeleteField(fields: seq<Field>, annotated: string -> bool): (r: Option<string>)
    ensures r.Some? ==> exists i :: 0 <= i < |fields| && fields[i].name == r.value
  {
    if fields == [] then None
    else if annotated(fields[0].name) || fields[0].name == "isDeleted" then Some(fields[0].name)
    else
      var r := FindLogicDeleteField(fields[1..], annotated);
      assert r.Some? ==> exists i :: 0 <= i < |fields| && fields[i].name == r.value by {
        if r.Some? {
          var j :| 0 <= j < |fields[1..]| && fields[1..][j].name == r.value;
          assert fields[j + 1].name == r.value;
        }
      }
      r
  }

  /**
   * intercept: a non-insert, a null parameter, an entity without a delete
   * flag or without keys goes straight through; otherwise the rows found by
   * `lookup` for the condition decide.
   */
  function Intercept(isInsert: bool, fields: Option<seq<Field>>, annotated: string -> bool,
                     tableAnnotation: Option<string>, simpleName: string,
                     lookup: Condition -> seq<Row>): (r: Decision)
    ensures !isInsert || fields.None? ==> r == Proceed
    ensures fields.Some? && FindLogicDeleteField(fields.value, annotated).None? ==> r == Proceed
    ensures fields.Some? && IsEmpty(ExtractKeyInfo(fields.value)) ==> r == Proceed
  {
    if !isInsert || fields.None? then Proceed
    else if FindLogicDeleteField(fields.value, annotated).None? then Proceed
    else
      var k := ExtractKeyInfo(fields.value);
      if IsEmpty(k) then Proceed
      else
        ConditionIffKeys(fields.value);
        var c := BuildQueryCondition(k).value;
        Decide(TableName(tableAnnotation, simpleName), c, lookup(c))
  }
}
