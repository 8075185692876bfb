/** shared/shared_map.h: a map behind a mutex. `set` inserts and never overwrites. */
module SharedMaps {
  function InsertNew<V>(m: map<string, V>, key: string, value: V): (r: map<string, V>)
    ensures r.Keys == m.Keys + {key}
    ensures forall k :: k in m ==> r[k] == m[k]
    ensures key !in m ==> r[key] == value
  {
    if key in m then m else m[key := value]
  }

  class SharedMap<V> {
    var contents: map<string, V>
    /** The keys given to `remove` so far, in order. */
    ghost var removals: seq<string>

    constructor ()
      ensures contents == map[] && removals == []
    {
      contents, removals := map[], [];
    }

    method Remove(key: string)
      modifies this
      ensures contents == old(contents) - {key}
      ensures removals == old(removals) + [key]
    {
      contents := contents - {key};
      removals := removals + [key];
    }

    method Set(key: string, value: V)
      modifies this
      ensures contents == InsertNew(old(contents), key, value)
      ensures removals == old(removals)
    {
      if key !in contents {
        contents := contents[key := value];
      }
    }

    method Exist(key: string) returns (found: bool)
      ensures found <==> key in contents
    {
      found := key in contents;
    }

    method GetMap() returns (m: map<string, V>)
      ensures m == contents
    {
      m := contents;
    }
  }
}
