/**
 * The untyped JSON values the source passes around as `Object` and
 * `Map<String, Object>` (Jackson output, message payloads, schema maps).
 * An object is an insertion-ordered list of entries, as a LinkedHashMap is;
 * only a list without repeated keys (UniqueKeys) stands for a Java map, and
 * lookups take the first entry, which for such a list is the only one.
 * Numbers are integers only.
 */
module JsonValues {
  import opened Wrappers

  datatype Json =
    | JNull
    | JBool(b: bool)
    | JNumber(n: int)
    | JString(s: string)
    | JArray(items: seq<Json>)
    | JObject(fields: seq<Member>)

  /** One entry of a JSON object. */
  datatype Member = Member(key: string, value: Json)

  /** A size that strictly decreases into every child, entries included. */
  function Size(j: Json): (n: nat)
    ensures n >= 1
    decreases j, 1
  {
    match j
    case JArray(items) => 1 + ItemsSize(items)
    case JObject(fields) => 1 + FieldsSize(fields)
    case _ => 1
  }

  function ItemsSize(items: seq<Json>): (n: nat)
    ensures forall i :: 0 <= i < |items| ==> Size(items[i]) < n
    decreases items, 0
  {
    if items == [] then 0 else 1 + Size(items[0]) + ItemsSize(items[1..])
  }

  function FieldsSize(fields: seq<Member>): (n: nat)
    ensures forall i :: 0 <= i < |fields| ==> Size(fields[i].value) < n
    decreases fields, 0
  {
    if fields == [] then 0 else 1 + Size(fields[0].value) + FieldsSize(fields[1..])
  }

  /** Map.containsKey. */
  predicate HasKey(fields: seq<Member>, key: string) {
    exists i :: 0 <= i < |fields| && fields[i].key == key
  }

  /** No key occurs twice: the lists that stand for a Java map. */
  predicate UniqueKeys(fields: seq<Member>) {
    forall i, j :: 0 <= i < j < |fields| ==> fields[i].key != fields[j].key
  }

  /**
   * Map.get on a list without repeated keys: the value of the entry with the key;
   * a JSON null reads as Java null. On other lists the first entry wins.
   */
  function Get(fields: seq<Member>, key: string): (r: Option<Json>)
    ensures r.Some? ==> r.value != JNull
    ensures r.Some? ==> HasKey(fields, key)
    ensures !HasKey(fields, key) ==> r.None?
  {
    if fields == [] then None
    else if fields[0].key == key then (if fields[0].value == JNull then None else Some(fields[0].value))
    else
      var r := Get(fields[1..], key);
      assert r.Some? ==> HasKey(fields, key) by {
        if r.Some? {
          var i :| 0 <= i < |fields[1..]| && fields[1..][i].key == key;
          assert fields[i + 1].key == key;
        }
      }
      r
  }

  /** Without repeated keys, the lookup finds the value stored under the key wherever it sits. */
  lemma {:induction false} GetUnique(fields: seq<Member>, k: nat)
    requires UniqueKeys(fields) && k < |fields|
    ensures Get(fields, fields[k].key) == if fields[k].value == JNull then None else Some(fields[k].value)
  {
    if k > 0 {
      assert fields[0].key != fields[k].key;
      assert fields[1..][k - 1] == fields[k];
      assert UniqueKeys(fields[1..]) by {
        forall i, j | 0 <= i < j < |fields[1..]|
          ensures fields[1..][i].key != fields[1..][j].key
        {
          assert fields[1..][i] == fields[i + 1] && fields[1..][j] == fields[j + 1];
        }
      }
      GetUnique(fields[1..], k - 1);
    }
  }

  /** A value found by a lookup is smaller than the object it was found in. */
  lemma {:induction false} GetSmaller(fields: seq<Member>, key: string)
    ensures Get(fields, key).Some? ==> Size(Get(fields, key).value) < FieldsSize(fields)
  {
    if fields != [] && fields[0].key != key {
      GetSmaller(fields[1..], key);
    }
  }

  /** A lookup in a list whose first entry has the key finds that entry. */
  lemma GetFirst(fields: seq<Member>, key: string, v: Json)
    requires |fields| > 0 && fields[0] == Member(key, v) && v != JNull
    ensures Get(fields, key) == Some(v)
  {
  }

  /** A lookup skips an entry with a different key. */
  lemma GetSkip(fields: seq<Member>, key: string)
    requires |fields| > 0 && fields[0].key != key
    ensures Get(fields, key) == Get(fields[1..], key)
    ensures HasKey(fields, key) <==> HasKey(fields[1..], key)
  {
    if HasKey(fields, key) {
      var i :| 0 <= i < |fields| && fields[i].key == key;
      assert fields[1..][i - 1].key == key;
    }
    if HasKey(fields[1..], key) {
      var i :| 0 <= i < |fields[1..]| && fields[1..][i].key == key;
      assert fields[i + 1].key == key;
    }
  }

  /** A key is in a concatenation exactly when it is in one of the parts. */
  lemma HasKeyAppend(a: seq<Member>, b: seq<Member>, key: string)
    ensures HasKey(a + b, key) <==> HasKey(a, key) || HasKey(b, key)
  {
    if HasKey(a + b, key) {
      var i :| 0 <= i < |a + b| && (a + b)[i].key == key;
      if i >= |a| {
        assert b[i - |a|].key == key;
      }
    }
    if HasKey(b, key) {
      var i :| 0 <= i < |b| && b[i].key == key;
      assert (a + b)[|a| + i].key == key;
    }
    if HasKey(a, key) {
      var i :| 0 <= i < |a| && a[i].key == key;
      assert (a + b)[i].key == key;
    }
  }

  /** A lookup in a concatenation finds the first part's entry when it has the key. */
  lemma {:induction false} GetAppend(a: seq<Member>, b: seq<Member>, key: string)
    ensures Get(a + b, key) == if HasKey(a, key) then Get(a, key) else Get(b, key)
  {
    if a == [] {
      assert a + b == b;
    } else if a[0].key == key {
      assert (a + b)[0] == a[0];
    } else {
      assert (a + b)[0] == a[0];
      assert (a + b)[1..] == a[1..] + b;
      GetSkip(a + b, key);
      GetSkip(a, key);
      GetAppend(a[1..], b, key);
    }
  }

  /** A lookup in five concatenated parts finds the first part that has the key. */
  lemma GetAppend5(a: seq<Member>, b: seq<Member>, c: seq<Member>, d: seq<Member>, e: seq<Member>, key: string)
    ensures Get(a + b + c + d + e, key) ==
      if HasKey(a, key) then Get(a, key) else if HasKey(b, key) then Get(b, key)
      else if HasKey(c, key) then Get(c, key) else if HasKey(d, key) then Get(d, key) else Get(e, key)
  {
    GetAppend(a + b + c + d, e, key);
    GetAppend(a + b + c, d, key);
    HasKeyAppend(a + b + c, d, key);
    GetAppend(a + b, c, key);
    HasKeyAppend(a + b, c, key);
    GetAppend(a, b, key);
    HasKeyAppend(a, b, key);
  }

  /** A one-entry object. */
  lemma GetSingle(k: string, v: Json, key: string)
    ensures HasKey([Member(k, v)], key) <==> k == key
    ensures Get([Member(k, v)], key) == if k == key && v != JNull then Some(v) else None
  {
    if k == key {
      assert [Member(k, v)][0].key == key;
    }
  }

  predicate AllStrings(items: seq<Json>) {
    forall i :: 0 <= i < |items| ==> items[i].JString?
  }

  function Strings(items: seq<Json>): (r: seq<string>)
    requires AllStrings(items)
    ensures |r| == |items| && forall i :: 0 <= i < |items| ==> r[i] == items[i].s
  {
    if items == [] then [] else [items[0].s] + Strings(items[1..])
  }

  function FromStrings(ss: seq<string>): (r: seq<Json>)
    ensures AllStrings(r) && Strings(r) == ss
  {
    if ss == [] then []
    else
      var r := [JString(ss[0])] + FromStrings(ss[1..]);
      assert r[1..] == FromStrings(ss[1..]);
      r
  }
}
