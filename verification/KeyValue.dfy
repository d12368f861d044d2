/** database/level/cache.go: lists kept under a key, read, changed and written back. */
module KeyValue {
  import opened ChainTypes

  /** The list under a key; nothing is stored for an absent key. */
  function At<T>(lists: map<string, seq<T>>, key: string): seq<T>
  {
    if key in lists then lists[key] else []
  }

  /** A list without the first occurrence of a value. */
  function DelFirst<T(==)>(s: seq<T>, v: T): seq<T>
  {
    if s == [] then [] else if s[0] == v then s[1..] else [s[0]] + DelFirst(s[1..], v)
  }

  /** Deleting takes out one occurrence, if there is one, and nothing else. */
  lemma {:induction false} DelFirstMultiset<T>(s: seq<T>, v: T)
    ensures multiset(DelFirst(s, v)) == multiset(s) - multiset{v}
  {
    if s == [] {
    } else {
      assert s == [s[0]] + s[1..];
      if s[0] != v {
        DelFirstMultiset(s[1..], v);
      }
    }
  }

  /** Deleting a value and appending another one commute: a goroutine may append before or
      after its spawner deletes. */
  lemma {:induction false} DelFirstAppend<T>(s: seq<T>, v: T, w: T)
    requires v != w
    ensures DelFirst(s + [w], v) == DelFirst(s, v) + [w]
  {
    if s == [] {
      assert [] + [w] == [w];
      assert [w][1..] == [];
    } else {
      assert (s + [w])[1..] == s[1..] + [w];
      if s[0] != v {
        DelFirstAppend(s[1..], v, w);
      }
    }
  }

  lemma {:induction false} DelFirstAt<T>(s: seq<T>, v: T, i: nat)
    requires i < |s| && s[i] == v && v !in s[..i]
    ensures DelFirst(s, v) == s[..i] + s[i + 1..]
  {
    if i == 0 {
    } else {
      assert s[0] == s[..i][0] && s[0] != v;
      assert s[1..][..i - 1] == s[..i][1..];
      DelFirstAt(s[1..], v, i - 1);
    }
  }

  lemma {:induction false} DelAbsent<T>(s: seq<T>, v: T)
    requires v !in s
    ensures DelFirst(s, v) == s
  {
    if s == [] {
    } else {
      DelAbsent(s[1..], v);
    }
  }

  class KVStore<T(==)> {
    var lists: map<string, seq<T>>

    constructor ()
      ensures lists == map[]
    {
      lists := map[];
    }

    method GetArray(key: string) returns (arr: seq<T>)
      ensures arr == At(lists, key)
    {
      if key !in lists {
        return [];
      }
      arr := lists[key];
    }

    method Append(key: string, value: T)
      modifies this
      ensures lists == old(lists)[key := At(old(lists), key) + [value]]
    {
      var results := GetArray(key);
      lists := lists[key := results + [value]];
    }

    /** Deletes the first occurrence of the value in the list under the key; with the empty
        value, here None, everything under the key. */
    method Del(key: string, value: Option<T>)
      modifies this
      ensures lists == if value.None? then old(lists) - {key} else old(lists)[key := DelFirst(At(old(lists), key), value.value)]
    {
      if value.None? {
        lists := lists - {key};
        return;
      }
      var results := GetArray(key);
      var i := 0;
      while i < |results|
        invariant 0 <= i <= |results| && value.value !in results[..i]
        invariant results == At(old(lists), key) && lists == old(lists)
      {
        if results[i] == value.value {
          DelFirstAt(results, value.value, i);
          results := results[..i] + results[i + 1..];
          lists := lists[key := results];
          return;
        }
        assert results[..i + 1] == results[..i] + [results[i]];
        i := i + 1;
      }
      assert results[..i] == results;
      DelAbsent(results, value.value);
      lists := lists[key := results];
    }
  }
}
