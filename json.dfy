/** The JSON tree that `to_dict()` produces and `jsonify` sends. */
module Json {
  import opened Wrappers

  datatype Json =
    | JNull
    | JInt(n: int)
    | JStr(s: string)
    | JArray(items: seq<Json>)
    | JObject(members: seq<Member>)

  /** One `key: value` entry of an object. */
  datatype Member = Member(key: string, value: Json)

  /** The keys of a list of members, in order. */
  function KeysOf(ms: seq<Member>): (ks: seq<string>)
    ensures |ks| == |ms|
    ensures forall i :: 0 <= i < |ms| ==> ks[i] == ms[i].key
  {
    if ms == [] then [] else [ms[0].key] + KeysOf(ms[1..])
  }

  /** Members pairing each key with the value at the same position. */
  function Zip(keys: seq<string>, values: seq<Json>): (ms: seq<Member>)
    requires |keys| == |values|
    ensures KeysOf(ms) == keys
    ensures |ms| == |keys| && forall i :: 0 <= i < |ms| ==> ms[i].value == values[i]
  {
    if keys == [] then [] else [Member(keys[0], values[0])] + Zip(keys[1..], values[1..])
  }

  /** The keys of an object; any other value has none. */
  function Keys(j: Json): seq<string> {
    if j.JObject? then KeysOf(j.members) else []
  }

  predicate HasKey(j: Json, key: string) {
    key in Keys(j)
  }

  /** The value stored under `key`, if the members hold it. */
  function Lookup(ms: seq<Member>, key: string): (r: Option<Json>)
    ensures r.Some? <==> key in KeysOf(ms)
    ensures r.Some? ==> Member(key, r.value) in ms
  {
    if ms == [] then None
    else if ms[0].key == key then Some(ms[0].value)
    else Lookup(ms[1..], key)
  }

  function Get(j: Json, key: string): Option<Json> {
    if j.JObject? then Lookup(j.members, key) else None
  }

  /** Nesting depth: scalars are 0, a container is one more than its deepest part. */
  function Depth(j: Json): nat
    decreases j, 1
  {
    match j
    case JArray(items) => 1 + ItemsDepth(items)
    case JObject(ms) => 1 + MembersDepth(ms)
    case _ => 0
  }

  /** The greatest depth among `items`, 0 when there are none. */
  function ItemsDepth(items: seq<Json>): (d: nat)
    ensures forall i :: 0 <= i < |items| ==> Depth(items[i]) <= d
    ensures items == [] ==> d == 0
    decreases items, 0
  {
    if items == [] then 0
    else
      var rest := ItemsDepth(items[1..]);
      var first := Depth(items[0]);
      if first < rest then rest else first
  }

  /** The greatest depth among the members' values, 0 when there are none. */
  function MembersDepth(ms: seq<Member>): (d: nat)
    ensures forall i :: 0 <= i < |ms| ==> Depth(ms[i].value) <= d
    ensures ms == [] ==> d == 0
    decreases ms, 0
  {
    if ms == [] then 0
    else
      var rest := MembersDepth(ms[1..]);
      var first := Depth(ms[0].value);
      if first < rest then rest else first
  }

  /** A bound on every member's value bounds the members' depth. */
  lemma {:induction false} MembersDepthAtMost(ms: seq<Member>, d: nat)
    requires forall i :: 0 <= i < |ms| ==> Depth(ms[i].value) <= d
    ensures MembersDepth(ms) <= d
  {
    if ms != [] {
      assert forall i :: 0 <= i < |ms[1..]| ==> ms[1..][i] == ms[i + 1];
      MembersDepthAtMost(ms[1..], d);
    }
  }

  /** A bound on every item bounds the items' depth. */
  lemma {:induction false} ItemsDepthAtMost(items: seq<Json>, d: nat)
    requires forall i :: 0 <= i < |items| ==> Depth(items[i]) <= d
    ensures ItemsDepth(items) <= d
  {
    if items != [] {
      assert forall i :: 0 <= i < |items[1..]| ==> items[1..][i] == items[i + 1];
      ItemsDepthAtMost(items[1..], d);
    }
  }

  /** A bound that holds on both parts holds on their concatenation. */
  lemma MembersDepthAppend(a: seq<Member>, b: seq<Member>, d: nat)
    requires forall i :: 0 <= i < |a| ==> Depth(a[i].value) <= d
    requires forall i :: 0 <= i < |b| ==> Depth(b[i].value) <= d
    ensures MembersDepth(a + b) <= d
  {
    var ab := a + b;
    forall i | 0 <= i < |ab| ensures Depth(ab[i].value) <= d {
      if i >= |a| {
        assert ab[i] == b[i - |a|];
      }
    }
    MembersDepthAtMost(ab, d);
  }

  /** A key is looked up in the first list that has it. */
  lemma {:induction false} LookupAppend(a: seq<Member>, b: seq<Member>, key: string)
    ensures Lookup(a + b, key) == if key in KeysOf(a) then Lookup(a, key) else Lookup(b, key)
  {
    if a == [] {
      assert a + b == b;
    } else {
      assert (a + b)[0] == a[0] && (a + b)[1..] == a[1..] + b;
      LookupAppend(a[1..], b, key);
      assert KeysOf(a) == [a[0].key] + KeysOf(a[1..]);
    }
  }

  /** Keys of concatenated member lists concatenate. */
  lemma {:induction false} KeysOfAppend(a: seq<Member>, b: seq<Member>)
    ensures KeysOf(a + b) == KeysOf(a) + KeysOf(b)
  {
    if a != [] {
      assert (a + b)[1..] == a[1..] + b;
      KeysOfAppend(a[1..], b);
    }
  }
}
