/**
 * The insertion-ordered mutable map (`mutableMapOf`, a `LinkedHashMap`) that the
 * header and payload builders fill one key at a time before wrapping it in a
 * JSON object.
 */
module JsonMaps {
  import opened Base
  import opened Json

  /**
   * `map[key] = value` on an insertion-ordered map: a key already present keeps
   * its position and takes the new value; a new key goes after all others.
   */
  function Put(members: seq<(string, Json)>, key: string, value: Json): seq<(string, Json)>
  {
    if members == [] then [(key, value)]
    else if members[0].0 == key then [(key, value)] + members[1..]
    else [members[0]] + Put(members[1..], key, value)
  }

  /** Putting a new key appends it. */
  lemma {:induction false} PutNew(members: seq<(string, Json)>, key: string, value: Json)
    requires key !in Keys(members)
    ensures Put(members, key, value) == members + [(key, value)]
  {
    if members != [] {
      PutNew(members[1..], key, value);
    }
  }

  /** Putting a key that is present replaces its value where it stands. */
  lemma {:induction false} PutPresent(members: seq<(string, Json)>, key: string, value: Json, i: nat)
    requires DistinctKeys(members)
    requires i < |members| && members[i].0 == key
    ensures Put(members, key, value) == members[i := (key, value)]
  {
    if i > 0 {
      assert members[0].0 != members[i].0;
      assert DistinctKeys(members[1..]) by {
        forall a, b | 0 <= a < b < |members| - 1
          ensures members[1..][a].0 != members[1..][b].0
        {
          assert members[1..][a] == members[a + 1] && members[1..][b] == members[b + 1];
        }
      }
      PutPresent(members[1..], key, value, i - 1);
      assert members[i := (key, value)] == [members[0]] + members[1..][i - 1 := (key, value)];
    }
  }

  /** After a put, the key yields the new value and every other key what it yielded before. */
  lemma {:induction false} PutLookup(members: seq<(string, Json)>, key: string, value: Json, other: string)
    ensures Lookup(Put(members, key, value), key) == Some(value)
    ensures other != key ==> Lookup(Put(members, key, value), other) == Lookup(members, other)
  {
    if members != [] && members[0].0 != key {
      PutLookup(members[1..], key, value, other);
    }
  }

  /** A put adds the key to the key list and no other key. */
  lemma {:induction false} PutKeys(members: seq<(string, Json)>, key: string, value: Json)
    ensures Keys(Put(members, key, value)) == if key in Keys(members) then Keys(members) else Keys(members) + [key]
  {
    if members != [] {
      PutKeys(members[1..], key, value);
      if members[0].0 != key {
        assert Keys(Put(members, key, value)) == [members[0].0] + Keys(Put(members[1..], key, value));
      }
    }
  }

  /** A put never makes a key appear twice. */
  lemma PutKeepsDistinct(members: seq<(string, Json)>, key: string, value: Json)
    requires DistinctKeys(members)
    ensures DistinctKeys(Put(members, key, value))
  {
    KeysAt(members);
    if key in Keys(members) {
      var i :| 0 <= i < |Keys(members)| && Keys(members)[i] == key;
      PutPresent(members, key, value, i);
    } else {
      PutNew(members, key, value);
    }
  }

  /** A `LinkedHashMap<String, JsonElement>` under construction. */
  class MutableJsonMap {
    /** The members in insertion order. */
    var entries: seq<(string, Json)>

    /** A map never holds a key twice. */
    ghost predicate Valid()
      reads this
    {
      DistinctKeys(entries)
    }

    /** `mutableMapOf()`: an empty map. */
    constructor ()
      ensures Valid() && entries == []
    {
      entries := [];
    }

    /** `map[key] = value`. */
    method Set(key: string, value: Json)
      requires Valid()
      modifies this
      ensures Valid()
      ensures entries == Put(old(entries), key, value)
    {
      PutKeepsDistinct(entries, key, value);
      entries := Put(entries, key, value);
    }
  }
}
