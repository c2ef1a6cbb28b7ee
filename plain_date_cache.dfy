/** The memo behind `getPlainDate`: a `Map` from date text to the parsed
    plain date, filled on first use. */
module PlainDateCache {
  import opened Wrappers
  import opened Dates

  class PlainDateCache {
    var cache: map<string, PlainDate>

    /** Every cached entry is the parse of its key. */
    ghost predicate Valid()
      reads this
    {
      forall s :: s in cache ==> Parse(s) == Some(cache[s])
    }

    constructor ()
      ensures Valid() && cache == map[]
    {
      cache := map[];
    }

    /** `getPlainDate(s)`: answers from the cache when it can, otherwise
        parses and remembers the result.  `None` is the RangeError that
        `Temporal.PlainDate.from` throws; nothing is cached then. */
    method GetPlainDate(s: string) returns (r: Option<PlainDate>)
      requires Valid()
      modifies this
      ensures Valid()
      ensures r == Parse(s)
      ensures cache == if r.Some? then old(cache)[s := r.value] else old(cache)
    {
      if s in cache {
        r := Some(cache[s]);
        return;
      }
      r := Parse(s);
      if r.Some? {
        cache := cache[s := r.value];
      }
    }
  }
}
