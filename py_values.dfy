/** The parts of Python's semantics the pygame importer relies on, over the values `json.load`
    returns: subscripts, `in`, truth values, iteration, `dict` insertion order and floor
    division. */
module PyValues {
  import opened Text
  import opened JsonValues

  /** The exceptions the importer can raise. */
  datatype PyError = KeyError(key: string) | TypeError | ValueError | AttributeError | ZeroDivisionError

  /** `j[key]` with a string key: only a dict can be subscripted by a string, and a missing
      key raises `KeyError`. */
  function Subscript(j: Json, key: string): (r: Result<Json, PyError>)
    ensures r.Ok? <==> j.JObj? && HasKey(j.fields, key)
    ensures r.Ok? ==> Lookup(j.fields, key) == Some(r.value)
    ensures j.JObj? && !HasKey(j.fields, key) ==> r == Err(KeyError(key))
    ensures !j.JObj? ==> r == Err(TypeError)
  {
    match j
    case JObj(fields) =>
      (match Lookup(fields, key)
       case Some(v) => Ok(v)
       case None => Err(KeyError(key)))
    case _ => Err(TypeError)
  }

  /** `d.get(key, default)` on a dict. */
  function Get(fields: seq<(string, Json)>, key: string, default: Json): (r: Json)
    ensures HasKey(fields, key) ==> Some(r) == Lookup(fields, key)
    ensures !HasKey(fields, key) ==> r == default
  {
    match Lookup(fields, key)
    case Some(v) => v
    case None => default
  }

  /** Python's truth value of a decoded JSON value. */
  predicate Truthy(j: Json)
  {
    match j
    case JNull => false
    case JBool(b) => b
    case JInt(i) => i != 0
    case JStr(s) => |s| > 0
    case JArr(items) => |items| > 0
    case JObj(fields) => |fields| > 0
  }

  predicate IsSubstring(needle: string, s: string)
  {
    exists i | 0 <= i <= |s| :: needle <= s[i..]
  }

  /** `needle in j`: a key of a dict, an element of a list, a substring of a string; numbers,
      booleans and `None` raise `TypeError`. */
  function Contains(j: Json, needle: string): (r: Result<bool, PyError>)
    ensures j.JObj? ==> r == Ok(HasKey(j.fields, needle))
  {
    match j
    case JObj(fields) => Ok(HasKey(fields, needle))
    case JArr(items) => Ok(JStr(needle) in items)
    case JStr(s) => Ok(IsSubstring(needle, s))
    case _ => Err(TypeError)
  }

  // ---------------------------------------------------------------------------
  // Dicts: insertion order, and the last value given for a key

  predicate HasDictKey<K(==), V>(d: seq<(K, V)>, k: K)
  {
    exists i | 0 <= i < |d| :: d[i].0 == k
  }

  predicate DistinctDictKeys<K(==), V>(d: seq<(K, V)>)
  {
    forall i, j | 0 <= i < j < |d| :: d[i].0 != d[j].0
  }

  /** A dict's keys are its first key and the keys of the rest. */
  lemma HasDictKeyCons<K(!new), V>(d: seq<(K, V)>, q: K)
    requires |d| > 0
    ensures HasDictKey(d, q) <==> d[0].0 == q || HasDictKey(d[1..], q)
  {
    if HasDictKey(d[1..], q) {
      var i :| 0 <= i < |d[1..]| && d[1..][i].0 == q;
      assert d[i + 1].0 == q;
    }
    if HasDictKey(d, q) && d[0].0 != q {
      var i :| 0 <= i < |d| && d[i].0 == q;
      assert d[1..][i - 1].0 == q;
    }
  }

  /** `d[k] = v`: an existing key keeps its place and takes the new value; a new key goes at
      the end. */
  function DictInsert<K(==,!new), V>(d: seq<(K, V)>, k: K, v: V): (r: seq<(K, V)>)
    ensures |r| > 0
    ensures forall q :: HasDictKey(r, q) <==> HasDictKey(d, q) || q == k
  {
    if |d| == 0 then
      assert [(k, v)][0].0 == k;
      [(k, v)]
    else if d[0].0 == k then
      var r := [(k, v)] + d[1..];
      assert r[1..] == d[1..];
      assert forall q :: HasDictKey(r, q) <==> HasDictKey(d, q) || q == k by {
        forall q ensures HasDictKey(r, q) <==> HasDictKey(d, q) || q == k {
          HasDictKeyCons(r, q);
          HasDictKeyCons(d, q);
        }
      }
      r
    else
      var rest := DictInsert(d[1..], k, v);
      var r := [d[0]] + rest;
      assert r[1..] == rest;
      assert forall q :: HasDictKey(r, q) <==> HasDictKey(d, q) || q == k by {
        forall q ensures HasDictKey(r, q) <==> HasDictKey(d, q) || q == k {
          HasDictKeyCons(r, q);
          HasDictKeyCons(d, q);
        }
      }
      r
  }

  /** A new key is appended. */
  lemma {:induction false} DictInsertNew<K(!new), V>(d: seq<(K, V)>, k: K, v: V)
    requires !HasDictKey(d, k)
    ensures DictInsert(d, k, v) == d + [(k, v)]
  {
    if |d| > 0 {
      HasDictKeyCons(d, k);
      DictInsertNew(d[1..], k, v);
      assert [d[0]] + (d[1..] + [(k, v)]) == d + [(k, v)];
    }
  }

  /** The dict `json.load` builds from an object's members, in document order. */
  function DictItems(fields: seq<(string, Json)>): (d: seq<(string, Json)>)
    ensures forall k :: HasDictKey(d, k) <==> HasKey(fields, k)
  {
    if |fields| == 0 then []
    else
      var init := fields[..|fields| - 1];
      var d := DictInsert(DictItems(init), fields[|fields| - 1].0, fields[|fields| - 1].1);
      assert forall k :: HasKey(fields, k) <==> HasKey(init, k) || fields[|fields| - 1].0 == k by {
        forall k ensures HasKey(fields, k) <==> HasKey(init, k) || fields[|fields| - 1].0 == k {
          if HasKey(init, k) {
            var i :| 0 <= i < |init| && init[i].0 == k;
            assert fields[i].0 == k;
          }
          if HasKey(fields, k) && fields[|fields| - 1].0 != k {
            var i :| 0 <= i < |fields| && fields[i].0 == k;
            assert init[i].0 == k;
          }
        }
      }
      d
  }

  /** An object without repeated keys gives a dict with the same items in the same order. */
  lemma {:induction false} DictItemsOfDistinct(fields: seq<(string, Json)>)
    requires DistinctDictKeys(fields)
    ensures DictItems(fields) == fields
  {
    if |fields| > 0 {
      var init := fields[..|fields| - 1];
      var last := fields[|fields| - 1];
      assert DistinctDictKeys(init) by {
        forall i, j | 0 <= i < j < |init| ensures init[i].0 != init[j].0 {
          assert init[i] == fields[i] && init[j] == fields[j];
        }
      }
      DictItemsOfDistinct(init);
      assert !HasKey(init, last.0);
      DictInsertNew(init, last.0, last.1);
      assert init + [last] == fields;
    }
  }

  /** `for x in j`: a list gives its elements, a dict its keys, a string its characters;
      anything else is not iterable. */
  function Iterate(j: Json): (r: Option<seq<Json>>)
    ensures j.JArr? ==> r == Some(j.items)
  {
    match j
    case JArr(items) => Some(items)
    case JObj(fields) => Some(KeysOf(DictItems(fields)))
    case JStr(s) => Some(Chars(s))
    case _ => None
  }

  function KeysOf(d: seq<(string, Json)>): (r: seq<Json>)
    ensures |r| == |d|
    ensures forall i | 0 <= i < |d| :: r[i] == JStr(d[i].0)
  {
    if |d| == 0 then [] else [JStr(d[0].0)] + KeysOf(d[1..])
  }

  function Chars(s: string): (r: seq<Json>)
    ensures |r| == |s|
    ensures forall i | 0 <= i < |s| :: r[i] == JStr([s[i]])
  {
    if |s| == 0 then [] else [JStr([s[0]])] + Chars(s[1..])
  }

  /** `a // b`: the quotient rounded toward negative infinity. */
  function FloorDiv(a: int, b: int): (q: int)
    requires b != 0
    ensures b > 0 ==> q * b <= a < q * b + b
    ensures b < 0 ==> q * b >= a > q * b + b
  {
    if b > 0 then a / b else (-a) / (-b)
  }

  /** `a % b`: the remainder that goes with `//`, with the sign of `b`. */
  function FloorMod(a: int, b: int): (m: int)
    requires b != 0
    ensures a == FloorDiv(a, b) * b + m
    ensures b > 0 ==> 0 <= m < b
    ensures b < 0 ==> b < m <= 0
  {
    a - FloorDiv(a, b) * b
  }
}
