/** JSON values as the token builder produces them (kotlinx.serialization's `JsonElement`). */
module Json {
  import opened Base

  /**
   * A JSON value. An object is the ordered list of its members, so the order in
   * which keys were inserted is part of the value.
   */
  datatype Json =
    | JNull
    | JNumber(n: int)
    | JString(s: string)
    | JObject(members: seq<(string, Json)>)

  /** The keys of an object's members, in order. */
  function Keys(members: seq<(string, Json)>): seq<string>
  {
    if members == [] then [] else [members[0].0] + Keys(members[1..])
  }

  /** No key occurs twice among the members. */
  predicate DistinctKeys(members: seq<(string, Json)>)
  {
    forall i, j :: 0 <= i < j < |members| ==> members[i].0 != members[j].0
  }

  /** The value held under `key`: the first member with that key, if any. */
  function Lookup(members: seq<(string, Json)>, key: string): Option<Json>
  {
    if members == [] then None
    else if members[0].0 == key then Some(members[0].1)
    else Lookup(members[1..], key)
  }

  /** The keys are exactly the members' first components, position by position. */
  lemma {:induction false} KeysAt(members: seq<(string, Json)>)
    ensures |Keys(members)| == |members|
    ensures forall i :: 0 <= i < |members| ==> Keys(members)[i] == members[i].0
  {
    if members != [] {
      KeysAt(members[1..]);
    }
  }

  /** A key is found exactly when it is one of the keys. */
  lemma {:induction false} LookupFound(members: seq<(string, Json)>, key: string)
    ensures Lookup(members, key).Some? <==> key in Keys(members)
  {
    if members != [] {
      LookupFound(members[1..], key);
    }
  }

  /** With distinct keys, looking up the key of any member yields that member's value. */
  lemma {:induction false} LookupAt(members: seq<(string, Json)>, i: nat)
    requires DistinctKeys(members)
    requires i < |members|
    ensures Lookup(members, members[i].0) == Some(members[i].1)
  {
    if i > 0 {
      assert members[0].0 != members[i].0;
      assert DistinctKeys(members[1..]) by {
        forall a, b | 0 <= a < b < |members| - 1
          ensures members[1..][a].0 != members[1..][b].0
        {
          assert members[1..][a] == members[a + 1] && members[1..][b] == members[b + 1];
        }
      }
      LookupAt(members[1..], i - 1);
    }
  }

  /** A key that no member carries is not found. */
  lemma {:induction false} LookupMissing(members: seq<(string, Json)>, key: string)
    requires forall i :: 0 <= i < |members| ==> members[i].0 != key
    ensures Lookup(members, key) == None
  {
    KeysAt(members);
    LookupFound(members, key);
  }
}
