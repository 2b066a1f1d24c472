/** src/storage/mem.rs: the object-store semantics the upload protocol relies on. */
module ObjectStore {
  import opened Prelude

  type Bytes = seq<bv8>

  class MemStore {
    var objects: map<string, Bytes>

    constructor ()
      ensures objects == map[]
    {
      objects := map[];
    }

    method Put(key: string, body: Bytes)
      modifies this
      ensures objects == old(objects)[key := body]
    {
      objects := objects[key := body];
    }

    method Get(key: string) returns (body: Option<Bytes>)
      ensures body == if key in objects then Some(objects[key]) else None
    {
      if key in objects {
        body := Some(objects[key]);
      } else {
        body := None;
      }
    }

    /** Removes every named object and counts the ones that were there, each once. */
    method DeleteMany(keys: seq<string>) returns (n: nat)
      modifies this
      ensures objects == old(objects) - Named(keys)
      ensures n == |Named(keys) * old(objects).Keys|
    {
      hide Named;
      n := 0;
      ghost var was := objects;
      NamedNone(keys);
      for i := 0 to |keys|
        invariant objects == was - Named(keys[..i])
        invariant n == |Named(keys[..i]) * was.Keys|
      {
        var k := keys[i];
        NamedStep(keys, i, was.Keys);
        RemoveOneMore(was, Named(keys[..i]), k);
        if k in objects {
          n := n + 1;
          objects := objects - {k};
        }
      }
      assert keys[..|keys|] == keys;
    }
  }

  ghost function Named(keys: seq<string>): set<string> { set k | k in keys }

  lemma NamedNone(keys: seq<string>)
    ensures Named(keys[..0]) == {}
  {
  }

  lemma RemoveOneMore(m: map<string, Bytes>, gone: set<string>, k: string)
    ensures (m - gone) - {k} == m - (gone + {k})
    ensures k !in m - gone ==> m - (gone + {k}) == m - gone
  {
  }

  lemma {:induction false} NamedStep(keys: seq<string>, i: nat, present: set<string>)
    requires i < |keys|
    ensures Named(keys[..i+1]) == Named(keys[..i]) + {keys[i]}
    ensures |Named(keys[..i+1]) * present| ==
            |Named(keys[..i]) * present| + (if keys[i] in present && keys[i] !in Named(keys[..i]) then 1 else 0)
  {
    assert keys[..i+1] == keys[..i] + [keys[i]];
    var before, after := Named(keys[..i]) * present, Named(keys[..i+1]) * present;
    if keys[i] in present && keys[i] !in Named(keys[..i]) {
      assert after == before + {keys[i]};
    } else {
      assert after == before;
    }
  }
}
