/** The tag-aware cache the controllers use: entries under string keys,
    each with the tags given when it was stored. Only the get-or-compute
    and tag-invalidation behaviour is modelled (no expiry, no eviction). */
module Cache {

  datatype Entry = Entry(payload: string, tags: set<string>)

  /** The entries that survive invalidating `tags`: those carrying none of
      them. */
  function Invalidated(entries: map<string, Entry>, tags: set<string>): map<string, Entry> {
    map k | k in entries && entries[k].tags !! tags :: entries[k]
  }

  /** Invalidation drops exactly the entries carrying one of the tags and
      leaves every other entry as it was. */
  lemma InvalidatedDropsExactlyTagged(entries: map<string, Entry>, tags: set<string>, k: string)
    ensures k in Invalidated(entries, tags) <==> k in entries && entries[k].tags !! tags
    ensures k in Invalidated(entries, tags) ==> Invalidated(entries, tags)[k] == entries[k]
  {
  }

  /** Invalidating the same tags twice is the same as once. */
  lemma InvalidateIdempotent(entries: map<string, Entry>, tags: set<string>)
    ensures Invalidated(Invalidated(entries, tags), tags) == Invalidated(entries, tags)
  {
  }

  class TagAwareCache {
    var entries: map<string, Entry>

    constructor ()
      ensures entries == map[]
    {
      entries := map[];
    }

    /** `get($key, $callback)`: a hit returns the stored payload and leaves
        the cache alone; a miss computes the payload and stores it with
        the tags the callback sets. */
    method Get(key: string, tags: set<string>, compute: () -> string) returns (value: string, hit: bool)
      modifies this
      ensures hit <==> key in old(entries)
      ensures hit ==> value == old(entries)[key].payload && entries == old(entries)
      ensures !hit ==> value == compute() && entries == old(entries)[key := Entry(value, tags)]
    {
      hit := key in entries;
      if hit {
        value := entries[key].payload;
      } else {
        value := compute();
        entries := entries[key := Entry(value, tags)];
      }
    }

    /** `invalidateTags($tags)`. */
    method InvalidateTags(tags: set<string>)
      modifies this
      ensures entries == Invalidated(old(entries), tags)
    {
      entries := Invalidated(entries, tags);
    }
  }
}
