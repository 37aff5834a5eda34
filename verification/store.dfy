/**
 * The Redis keyspace the gateway consults. Host records are hashes keyed by host name
 * (fields "url", "ssl", "public"); subject rule sets are sets of regular-expression strings
 * keyed by subject ("email:<addr>", "authkey:<token>", "ip:<cidr>"). `keyOrder` is the
 * order in which KEYS enumerates the set keys, which the IP allow-list scan follows.
 */
module Store {
  import opened Wrappers

  datatype Db = Db(hashes: map<string, map<string, string>>, sets: map<string, seq<string>>, keyOrder: seq<string>) {

    /** The enumeration lists every set key exactly once. */
    ghost predicate Valid() {
      && (forall k :: k in sets <==> k in keyOrder)
      && NoDuplicates(keyOrder)
    }

    /** HGET: a field of a hash, absent when the key or the field is missing. */
    function HGet(key: string, field: string): (r: Option<string>)
      ensures r.Some? <==> key in hashes && field in hashes[key]
    {
      if key in hashes && field in hashes[key] then Some(hashes[key][field]) else None
    }

    /** SMEMBERS: the members of a set; a missing key reads as the empty set. */
    function Members(key: string): (r: seq<string>)
      ensures key !in sets ==> r == []
    {
      if key in sets then sets[key] else []
    }

    /** KEYS "<prefix>*": the set keys that start with `prefix`, in enumeration order. */
    function Keys(prefix: string): (r: seq<string>)
      ensures forall k :: k in r <==> k in keyOrder && prefix <= k
      ensures Valid() ==> (forall k :: k in r <==> k in sets && prefix <= k) && NoDuplicates(r)
    {
      StartingWith(keyOrder, prefix)
    }

    /** DEL: the key is gone whatever its type; every other key is untouched. */
    function Delete(key: string): (r: Db)
      ensures r.Members(key) == [] && forall f :: r.HGet(key, f) == None
      ensures forall k :: k != key ==> r.Members(k) == Members(k)
      ensures forall k, f :: k != key ==> r.HGet(k, f) == HGet(k, f)
      ensures key !in r.keyOrder
      ensures Valid() ==> r.Valid()
    {
      var order := Without(keyOrder, key);
      assert Valid() ==> forall k :: k in sets - {key} <==> k in order;
      Db(hashes - {key}, sets - {key}, order)
    }
  }

  /** The elements of `s` that start with `prefix`, in their order. */
  function StartingWith(s: seq<string>, prefix: string): (r: seq<string>)
    ensures forall k :: k in r <==> k in s && prefix <= k
    ensures NoDuplicates(s) ==> NoDuplicates(r)
  {
    if s == [] then []
    else if prefix <= s[0] then
      var rest := StartingWith(s[1..], prefix);
      assert NoDuplicates(s) ==> NoDuplicates(s[1..]) && s[0] !in s[1..] by {
        assert NoDuplicates(s) ==> forall j :: 0 <= j < |s[1..]| ==> s[1..][j] != s[0];
      }
      assert forall j :: 0 <= j < |rest| ==> rest[j] in rest;
      [s[0]] + rest
    else
      assert NoDuplicates(s) ==> NoDuplicates(s[1..]);
      StartingWith(s[1..], prefix)
  }

  predicate NoDuplicates(s: seq<string>) {
    forall i, j :: 0 <= i < j < |s| ==> s[i] != s[j]
  }

  /** `s` with every occurrence of `x` removed, the rest in order. */
  function Without(s: seq<string>, x: string): (r: seq<string>)
    ensures forall k :: k in r <==> k in s && k != x
    ensures NoDuplicates(s) ==> NoDuplicates(r)
  {
    if s == [] then []
    else if s[0] == x then Without(s[1..], x)
    else
      var rest := Without(s[1..], x);
      assert NoDuplicates(s) ==> NoDuplicates(s[1..]) && s[0] !in s[1..] by {
        assert NoDuplicates(s) ==> forall j :: 0 <= j < |s[1..]| ==> s[1..][j] != s[0];
      }
      assert forall j :: 0 <= j < |rest| ==> rest[j] in rest;
      [s[0]] + rest
  }

  lemma {:induction false} WithoutTwice(s: seq<string>, x: string)
    ensures Without(Without(s, x), x) == Without(s, x)
  {
    if s != [] {
      WithoutTwice(s[1..], x);
      if s[0] != x {
        assert ([s[0]] + Without(s[1..], x))[1..] == Without(s[1..], x);
      }
    }
  }

  /** Deleting a key twice leaves the store as deleting it once: a repeated DEL is a no-op. */
  lemma DeleteIdempotent(db: Db, key: string)
    ensures db.Delete(key).Delete(key) == db.Delete(key)
  {
    WithoutTwice(db.keyOrder, key);
  }

  /** The Redis server behind the connection pool: the only state the route changes. */
  class Redis {
    var db: Db

    /** The keyspace keeps its enumeration consistent: KEYS lists every set key once. */
    ghost predicate Valid()
      reads this
    {
      db.Valid()
    }

    constructor (contents: Db)
      requires contents.Valid()
      ensures Valid() && db == contents
    {
      db := contents;
    }

    method Del(key: string)
      requires Valid()
      modifies this
      ensures Valid() && db == old(db).Delete(key)
    {
      db := db.Delete(key);
    }
  }
}
