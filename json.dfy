/**
 * The Python value that `json.loads` hands to the services: null, booleans, numbers, strings,
 * lists and dicts. A dict is kept as the list of its key/value pairs in document order, so
 * that duplicate keys behave as they do for a dict built from those pairs: a lookup sees the
 * LAST pair with the key, and iteration visits each distinct key once, at its FIRST position.
 */
module Json {
  import opened Wrappers
  import opened Seqs

  datatype Json =
    | JNull
    | JBool(b: bool)
    | JNum(n: real)
    | JStr(s: string)
    | JArr(items: seq<Json>)
    | JObj(fields: seq<(string, Json)>)

  function FieldKey(f: (string, Json)): string { f.0 }

  /** `d[key]` for the dict built from `fields`: the value of the last pair with that key. */
  function Lookup(fields: seq<(string, Json)>, key: string): (r: Option<Json>)
    ensures r.None? <==> key !in KeySet(fields, FieldKey)
    ensures r.Some? ==>
      exists i :: 0 <= i < |fields| && fields[i] == (key, r.value) &&
        forall j :: i < j < |fields| ==> fields[j].0 != key
  {
    if |fields| == 0 then None
    else
      KeySetSnoc(fields[..|fields| - 1], fields[|fields| - 1], FieldKey);
      assert fields == fields[..|fields| - 1] + [fields[|fields| - 1]];
      if fields[|fields| - 1].0 == key then Some(fields[|fields| - 1].1)
      else Lookup(fields[..|fields| - 1], key)
  }

  /** `d.get(key, default)`: a key that is present yields its value, even when that is null. */
  function Get(fields: seq<(string, Json)>, key: string, default: Json): (r: Json)
    ensures key !in KeySet(fields, FieldKey) ==> r == default
    ensures key in KeySet(fields, FieldKey) ==> Some(r) == Lookup(fields, key)
  {
    Lookup(fields, key).GetOr(default)
  }

  /** The distinct keys of the dict, in the order iteration visits them. */
  function Keys(fields: seq<(string, Json)>): (ks: seq<string>)
    ensures |ks| <= |fields|
    ensures forall k :: k in ks <==> k in KeySet(fields, FieldKey)
    ensures forall i, j :: 0 <= i < j < |ks| ==> ks[i] != ks[j]
  {
    var kept := KeepFirst(fields, FieldKey);
    var ks := seq(|kept|, i requires 0 <= i < |kept| => kept[i].0);
    assert forall k :: k in ks <==> k in KeySet(kept, FieldKey) by {
      forall k | k in KeySet(kept, FieldKey) ensures k in ks {
        KeySetMember(kept, FieldKey, k);
        var i :| 0 <= i < |kept| && kept[i].0 == k;
        assert ks[i] == k;
      }
    }
    ks
  }

  /** Python truthiness: None, False, 0, "", [] and {} are false. */
  predicate Truthy(v: Json) {
    match v
    case JNull => false
    case JBool(b) => b
    case JNum(n) => n != 0.0
    case JStr(s) => |s| > 0
    case JArr(items) => |items| > 0
    case JObj(fields) => |fields| > 0
  }

  /** Python iteration: a list yields its items, a string its one-character strings, a dict
      its keys; anything else raises TypeError (None). */
  function Iterate(v: Json): (r: Option<seq<Json>>)
    ensures r.Some? <==> v.JArr? || v.JStr? || v.JObj?
    ensures v.JArr? ==> r == Some(v.items)
    ensures v.JStr? ==>
      r.Some? && |r.value| == |v.s| && (forall i :: 0 <= i < |v.s| ==> r.value[i] == JStr([v.s[i]]))
    ensures v.JObj? ==>
      var ks := Keys(v.fields);
      r.Some? && |r.value| == |ks| && (forall i :: 0 <= i < |ks| ==> r.value[i] == JStr(ks[i]))
  {
    match v
    case JArr(items) => Some(items)
    case JStr(s) => Some(seq(|s|, i requires 0 <= i < |s| => JStr([s[i]])))
    case JObj(fields) =>
      var ks := Keys(fields);
      Some(seq(|ks|, i requires 0 <= i < |ks| => JStr(ks[i])))
    case _ => None
  }
}
