/**
 * Decoded JSON values as Python's `json.loads` produces them (dict, list,
 * str, int, float, bool, None), with the few Python operations the server
 * applies to them: truth value, `dict.get` and iteration.
 *
 * The decoder itself is not modelled: every operation that calls
 * `json.loads` takes it as a parameter `parse: string -> ParseResult`.
 */
module Json {
  import opened Wrappers

  datatype Json =
    | JNull
    | JBool(b: bool)
    | JInt(i: int)
    | JFloat(r: real)
    | JStr(s: string)
    | JArr(items: seq<Json>)
      /** An object as its (key, value) pairs in document order. */
    | JObj(fields: seq<(string, Json)>)

  /** Outcome of `json.loads`: a value, or a `JSONDecodeError` with its message. */
  datatype ParseResult = Parsed(value: Json) | DecodeError(detail: string)

  /** Python's truth value of a decoded value: what `if not x` tests. */
  predicate Truthy(v: Json)
  {
    match v
    case JNull => false
    case JBool(b) => b
    case JInt(i) => i != 0
    case JFloat(r) => r != 0.0
    case JStr(s) => s != []
    case JArr(a) => a != []
    case JObj(f) => f != []
  }

  /**
   * The value stored under `key` in an object's pairs. A repeated key keeps
   * its last value, as the dict built by `json.loads` does.
   */
  function Lookup(fields: seq<(string, Json)>, key: string): (r: Option<Json>)
    ensures r.None? <==> forall k :: 0 <= k < |fields| ==> fields[k].0 != key
    ensures r.Some? ==> exists k :: && 0 <= k < |fields| && fields[k] == (key, r.value)
                                    && forall j :: k < j < |fields| ==> fields[j].0 != key
  {
    if fields == [] then None
    else if fields[|fields| - 1].0 == key then Some(fields[|fields| - 1].1)
    else Lookup(fields[..|fields| - 1], key)
  }

  /** Some pair of `fields` has key `key`. */
  predicate HasKey(fields: seq<(string, Json)>, key: string)
  {
    exists k :: 0 <= k < |fields| && fields[k].0 == key
  }

  /**
   * The keys of the dict `json.loads` builds from an object's pairs: each
   * key once, at the place where it first occurs.
   */
  function Keys(fields: seq<(string, Json)>): seq<string>
  {
    if fields == [] then []
    else
      var ks := Keys(fields[..|fields| - 1]);
      if fields[|fields| - 1].0 in ks then ks else ks + [fields[|fields| - 1].0]
  }

  /**
   * The dict's keys are exactly the keys of the pairs, none repeated, and
   * not fewer than one when there is a pair.
   */
  lemma {:induction false} KeysSpec(fields: seq<(string, Json)>)
    ensures forall key :: key in Keys(fields) <==> HasKey(fields, key)
    ensures forall i, j :: 0 <= i < j < |Keys(fields)| ==> Keys(fields)[i] != Keys(fields)[j]
    ensures |Keys(fields)| <= |fields|
    ensures fields != [] ==> Keys(fields) != []
  {
    if fields != [] {
      var init := fields[..|fields| - 1];
      KeysSpec(init);
      forall key | HasKey(init, key) ensures HasKey(fields, key) {
        var k :| 0 <= k < |init| && init[k].0 == key;
        assert fields[k] == init[k];
      }
      forall key | HasKey(fields, key) && key != fields[|fields| - 1].0 ensures HasKey(init, key) {
        var k :| 0 <= k < |fields| && fields[k].0 == key;
        assert init[k] == fields[k];
      }
      assert HasKey(fields, fields[|fields| - 1].0);
    }
  }

  /** The dict's keys as the string values `for` yields. */
  function KeyItems(fields: seq<(string, Json)>): seq<Json>
  {
    var ks := Keys(fields);
    seq(|ks|, k requires 0 <= k < |ks| => JStr(ks[k]))
  }

  lemma KeyItemsSpec(fields: seq<(string, Json)>)
    ensures forall k :: 0 <= k < |KeyItems(fields)| ==> KeyItems(fields)[k].JStr?
    ensures forall key :: JStr(key) in KeyItems(fields) <==> HasKey(fields, key)
    ensures forall i, j :: 0 <= i < j < |KeyItems(fields)| ==> KeyItems(fields)[i] != KeyItems(fields)[j]
    ensures fields != [] <==> KeyItems(fields) != []
  {
    KeysSpec(fields);
    var ks, items := Keys(fields), KeyItems(fields);
    forall key ensures JStr(key) in items <==> key in ks {
      if key in ks {
        var i :| 0 <= i < |ks| && ks[i] == key;
        assert items[i] == JStr(key);
      }
    }
  }

  /**
   * `for item in v`: a list yields its items, a string its one-character
   * strings, a dict each of its keys once; iterating any other value raises
   * `TypeError` (None here).
   */
  function Iterate(v: Json): (r: Option<seq<Json>>)
    ensures r.Some? <==> v.JArr? || v.JStr? || v.JObj?
    ensures v.JObj? ==>
              && r.Some?
              && (forall k :: 0 <= k < |r.value| ==> r.value[k].JStr?)
              && (forall key :: JStr(key) in r.value <==> HasKey(v.fields, key))
              && (forall i, j :: 0 <= i < j < |r.value| ==> r.value[i] != r.value[j])
              && (Truthy(v) <==> r.value != [])
  {
    match v
    case JArr(a) => Some(a)
    case JStr(s) => Some(seq(|s|, k requires 0 <= k < |s| => JStr([s[k]])))
    case JObj(f) =>
      KeyItemsSpec(f);
      Some(KeyItems(f))
    case _ => None
  }
}
