/** JSON-like values as Python holds them after `json` decoding, and the
    handful of Python operations the link module applies to them. A dict is
    an ORDERED sequence of key/value pairs, because Python dicts remember
    insertion order and the module takes "the first value" of a dict. */
module Json {
  import opened Outcomes

  datatype Json =
    | JNull
    | JBool(b: bool)
    | JInt(n: int)
    | JStr(s: string)
    | JList(items: seq<Json>)
    | JObject(fields: seq<(string, Json)>)

  /** The pairs of a dict, in insertion order. */
  type Fields = seq<(string, Json)>

  /** The keys of a dict, in insertion order. */
  function Keys(fields: Fields): (ks: seq<string>)
    ensures |ks| == |fields|
    ensures forall i :: 0 <= i < |fields| ==> ks[i] == fields[i].0
  {
    if fields == [] then [] else [fields[0].0] + Keys(fields[1..])
  }

  /** `d.get(key)`, None standing for a missing key. */
  function Lookup(fields: Fields, key: string): (r: Option<Json>)
    ensures r.None? <==> key !in Keys(fields)
    ensures r.Some? ==> (key, r.value) in fields
  {
    if fields == [] then None
    else if fields[0].0 == key then Some(fields[0].1)
    else Lookup(fields[1..], key)
  }

  /** `d[key] = value`: an existing key keeps its position and takes the new
      value, a new key is appended at the end; every other key keeps its
      value. */
  function SetField(fields: Fields, key: string, value: Json): (r: Fields)
    ensures Lookup(r, key) == Some(value)
    ensures forall k :: k != key ==> Lookup(r, k) == Lookup(fields, k)
  {
    if fields == [] then [(key, value)]
    else if fields[0].0 == key then
      var r := [(key, value)] + fields[1..];
      assert r[1..] == fields[1..];
      r
    else
      var rest := SetField(fields[1..], key, value);
      var r := [fields[0]] + rest;
      assert r[0] == fields[0] && r[1..] == rest;
      r
  }

  /** Setting a key the dict already has leaves every key where it was. */
  lemma {:induction false} SetFieldKeepsKeys(fields: Fields, key: string, value: Json)
    requires key in Keys(fields)
    ensures Keys(SetField(fields, key, value)) == Keys(fields)
  {
    ConsUnfolds(fields[0], fields[1..]);
    assert fields == [fields[0]] + fields[1..];
    if fields[0].0 == key {
      ConsUnfolds((key, value), fields[1..]);
    } else {
      SetFieldKeepsKeys(fields[1..], key, value);
      ConsUnfolds(fields[0], SetField(fields[1..], key, value));
    }
  }

  /** Setting a key the dict does not have yet appends exactly that pair. */
  lemma {:induction false} SetFieldAppends(fields: Fields, key: string, value: Json)
    requires key !in Keys(fields)
    ensures SetField(fields, key, value) == fields + [(key, value)]
  {
    if fields != [] {
      ConsUnfolds(fields[0], fields[1..]);
      SetFieldAppends(fields[1..], key, value);
      assert fields == [fields[0]] + fields[1..];
      assert [fields[0]] + (fields[1..] + [(key, value)]) == fields + [(key, value)];
    }
  }

  /** How `Keys` and `Lookup` unfold on a dict whose first pair is `head`. */
  lemma ConsUnfolds(head: (string, Json), rest: Fields)
    ensures Keys([head] + rest) == [head.0] + Keys(rest)
    ensures forall k :: Lookup([head] + rest, k) == if head.0 == k then Some(head.1) else Lookup(rest, k)
  {
    assert ([head] + rest)[1..] == rest;
  }

  /** Python truthiness: None, False, 0, "", [] and {} are false. */
  predicate Truthy(v: Json) {
    match v
    case JNull => false
    case JBool(b) => b
    case JInt(n) => n != 0
    case JStr(s) => s != ""
    case JList(items) => items != []
    case JObject(fields) => fields != []
  }

  /** The integer a bool or an int stands for (`True == 1` in Python). */
  function Numeric(v: Json): int
    requires v.JBool? || v.JInt?
  {
    if v.JInt? then v.n else if v.b then 1 else 0
  }

  /** Python `==` on decoded JSON values: bools compare as integers, lists
      element-wise, and dicts by length and then key by key, ignoring order. */
  predicate PyEquals(a: Json, b: Json)
    decreases a
  {
    match a
    case JNull => b.JNull?
    case JBool(_) => (b.JBool? || b.JInt?) && Numeric(a) == Numeric(b)
    case JInt(_) => (b.JBool? || b.JInt?) && Numeric(a) == Numeric(b)
    case JStr(s) => b.JStr? && b.s == s
    case JList(xs) =>
      && b.JList?
      && |xs| == |b.items|
      && forall i :: 0 <= i < |xs| ==> PyEquals(xs[i], b.items[i])
    case JObject(f) =>
      && b.JObject?
      && |f| == |b.fields|
      && forall i :: 0 <= i < |f| ==> MemberEquals(f[i], b.fields)
  }

  /** The pair `member` of one dict is matched, value-equal, in `other`. */
  predicate MemberEquals(member: (string, Json), other: Fields)
    decreases member, 0
  {
    match Lookup(other, member.0)
    case None => false
    case Some(v) => PyEquals(member.1, v)
  }

  /** `needle` occurs as a contiguous part of `s` (Python `needle in s`). */
  predicate IsSubstring(needle: string, s: string) {
    needle <= s || (s != [] && IsSubstring(needle, s[1..]))
  }

  /** Python `key in container` for a string key. */
  function Contains(container: Json, key: string): Result<bool> {
    match container
    case JObject(f) => Ok(key in Keys(f))
    case JList(items) => Ok(JStr(key) in items)
    case JStr(s) => Ok(IsSubstring(key, s))
    case _ => Err(TypeError)
  }

  /** Python `container[key]` for a string key: only a dict accepts it. */
  function Subscript(container: Json, key: string): Result<Json> {
    match container
    case JObject(f) =>
      (match Lookup(f, key)
       case Some(v) => Ok(v)
       case None => Err(KeyError(key)))
    case _ => Err(TypeError)
  }

  /** What `for x in v` walks over: list items, dict keys, string characters. */
  function Iterate(v: Json): Result<seq<Json>> {
    match v
    case JList(items) => Ok(items)
    case JObject(f) => Ok(seq(|f|, i requires 0 <= i < |f| => JStr(f[i].0)))
    case JStr(s) => Ok(seq(|s|, i requires 0 <= i < |s| => JStr([s[i]])))
    case _ => Err(TypeError)
  }

  /** `list(v.values())[0]`: the value of the first key inserted. */
  function FirstValue(v: Json): Result<Json> {
    match v
    case JObject(f) => if f == [] then Err(IndexError) else Ok(f[0].1)
    case _ => Err(AttributeError)
  }
}
