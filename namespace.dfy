/**
 * namespace.go: the key-to-value store that receives the parsed values.
 */
module Namespaces {
  import opened Wrappers
  import opened Errors

  /**
   * A dynamically typed stored value: nil, a string, a bool, a list built by
   * the actions (Go's []interface{}), or a []string put there by a caller.
   */
  datatype Value = Nil | Str(s: string) | Bool(b: bool) | List(items: seq<string>) | Strings(elems: seq<string>)

  class Namespace {
    var mapping: map<string, Value>

    /** NewNamespace: an empty mapping. */
    constructor ()
      ensures mapping == map[]
    {
      mapping := map[];
    }

    /** Get: the stored value, or nil for a missing key. */
    function Get(key: string): (v: Value)
      reads this
      ensures key in mapping ==> v == mapping[key]
      ensures key !in mapping ==> v == Nil
    {
      if KeyExists(key) then mapping[key] else Nil
    }

    /** KeyExists: whether the key is present, whatever its value (even nil). */
    predicate KeyExists(key: string)
      reads this
      ensures KeyExists(key) <==> key in mapping
    {
      key in mapping
    }

    /** Require: no error iff every key is present; else the first missing key in argument order. */
    method Require(keys: seq<string>) returns (err: Maybe<Error>)
      ensures err.None? <==> forall i :: 0 <= i < |keys| ==> keys[i] in mapping
      ensures err.Some? ==> exists j :: 0 <= j < |keys| && err.value == KeyMissing(keys[j]) && keys[j] !in mapping
                              && forall i :: 0 <= i < j ==> keys[i] in mapping
    {
      var i := 0;
      while i < |keys|
        invariant 0 <= i <= |keys|
        invariant forall k :: 0 <= k < i ==> keys[k] in mapping
      {
        if keys[i] !in mapping {
          return Some(KeyMissing(keys[i]));
        }
        i := i + 1;
      }
      return None;
    }

    /** Set: stores the value under the key, touching no other key, and returns this namespace. */
    method Set(key: string, value: Value) returns (n: Namespace)
      modifies this
      ensures n == this
      ensures mapping == old(mapping)[key := value]
      ensures Get(key) == value && KeyExists(key)
      ensures forall k :: k != key ==> (k in mapping <==> k in old(mapping))
      ensures forall k :: k != key && k in mapping ==> mapping[k] == old(mapping)[k]
    {
      mapping := mapping[key := value];
      return this;
    }

    /**
     * Slice: a copy of a stored []string; nothing for a missing key and nothing
     * for any other value, including the lists the actions store.
     */
    method Slice(key: string) returns (slice: seq<string>)
      ensures key !in mapping ==> slice == []
      ensures key in mapping && !mapping[key].Strings? ==> slice == []
      ensures key in mapping && mapping[key].Strings? ==> slice == mapping[key].elems
    {
      if !KeyExists(key) {
        return [];
      }
      if !mapping[key].Strings? {
        return [];
      }
      var source := mapping[key].elems;
      slice := [];
      var i := 0;
      while i < |source|
        invariant 0 <= i <= |source|
        invariant slice == source[..i]
      {
        slice := slice + [source[i]];
        i := i + 1;
      }
      assert source[..|source|] == source;
    }

    /** String: "" for a missing key, else the stored string (any other value is a panic). */
    function String(key: string): (s: string)
      reads this
      requires key in mapping ==> mapping[key].Str?
      ensures key !in mapping ==> s == ""
      ensures key in mapping ==> Str(s) == mapping[key]
    {
      if !KeyExists(key) then "" else mapping[key].s
    }

    /** Try: an error iff the key is absent, else the stored value. */
    function Try(key: string): (r: (Value, Maybe<Error>))
      reads this
      ensures r.1.Some? <==> key !in mapping
      ensures r.1.Some? ==> r == (Nil, Some(KeyAbsent(key)))
      ensures r.1.None? ==> r.0 == mapping[key]
    {
      if !KeyExists(key) then (Nil, Some(KeyAbsent(key))) else (mapping[key], None)
    }
  }
}
