/** The resolver cache: responses of expensive queries, kept per name together with the
    identifier and the query text they were computed for. A call is answered from the cache
    only while both are unchanged and a response is stored; otherwise the response is
    computed again and replaces that one entry. */
module Cache {
  import opened Wrappers

  /** What is stored under one name. A `None` response is Python's `None`. */
  datatype Entry<I, Q, R> = Entry(id: I, query: Q, response: Option<R>)

  /** The call can be answered from `c`: the name is present with the same identifier and
      query, and its stored response is not `None`. */
  predicate Hit<K(==), I(==), Q(==), R>(c: map<K, Entry<I, Q, R>>, name: K, id: I, query: Q)
  {
    name in c && c[name].id == id && c[name].query == query && c[name].response.Some?
  }

  /** The cache after a call for `name`, where `computed` is what the response function
      would return if it were called. */
  function Resolved<K(==), I(==), Q(==), R>(c: map<K, Entry<I, Q, R>>, name: K, id: I, query: Q,
                                            computed: Option<R>): (c': map<K, Entry<I, Q, R>>)
    ensures name in c' && c'[name].id == id && c'[name].query == query
    ensures Hit(c, name, id, query) ==> c' == c
    ensures !Hit(c, name, id, query) ==> c'[name].response == computed
    ensures c'.Keys == c.Keys + {name}
    ensures forall n :: n in c && n != name ==> c'[n] == c[n]
  {
    if Hit(c, name, id, query) then c else c[name := Entry(id, query, computed)]
  }

  class ResolveCache<K(==), I(==), Q(==), R> {
    var cache: map<K, Entry<I, Q, R>>

    /** A new cache holds nothing. */
    constructor ()
      ensures cache == map[]
    {
      cache := map[];
    }

    /** Answers a call for `name`. `computed` stands for the value the response function
        yields; `called` tells whether that function was invoked. */
    method Resolve(name: K, id: I, query: Q, computed: Option<R>) returns (r: Option<R>, called: bool)
      modifies this
      ensures called <==> !Hit(old(cache), name, id, query)
      ensures cache == Resolved(old(cache), name, id, query, computed)
      ensures r == cache[name].response
      ensures !called ==> r == old(cache)[name].response && r.Some?
      ensures called ==> r == computed
    {
      var response: Option<R> := None;
      if name in cache {
        var cached := cache[name];
        if cached.id == id && cached.query == query {
          response := cached.response;
        }
      }
      called := response.None?;
      if called {
        cache := cache[name := Entry(id, query, computed)];
      }
      r := cache[name].response;
    }
  }

  /** A second identical call is answered from the cache and changes nothing, provided the
      first one stored a response. */
  lemma ResolveIdempotent<K, I, Q, R>(c: map<K, Entry<I, Q, R>>, name: K, id: I, query: Q,
                                      computed: Option<R>, again: Option<R>)
    requires computed.Some? || Hit(c, name, id, query)
    ensures var c1 := Resolved(c, name, id, query, computed);
      Hit(c1, name, id, query) && Resolved(c1, name, id, query, again) == c1
  {
  }

  /** A changed identifier or query, or a stored `None`, forces a recomputation that
      overwrites the entry. */
  lemma StaleEntryRecomputed<K, I, Q, R>(c: map<K, Entry<I, Q, R>>, name: K, id: I, query: Q,
                                         computed: Option<R>)
    requires name in c
    requires c[name].id != id || c[name].query != query || c[name].response.None?
    ensures Resolved(c, name, id, query, computed)[name] == Entry(id, query, computed)
  {
  }

  /** The call sequence of the cache's test: first call computes, an unchanged call is
      served from the entry even after its response was replaced by hand, a changed id
      recomputes, and so does a changed query. */
  lemma CacheScenario<K, R>(name: K, v123: R, v345: R, manual: R)
    ensures var c1 := Resolved(map[], name, 0, "query", Some(v123));
      && c1[name].response == Some(v123)
      && var c2 := c1[name := c1[name].(response := Some(manual))];
      && Resolved(c2, name, 0, "query", Some(v123)) == c2
      && var c3 := Resolved(c2, name, 1, "query", Some(v345));
      && c3[name].response == Some(v345)
      && var c4 := Resolved(c3, name, 0, "query", Some(v123));
      && c4[name].response == Some(v123)
      && var c5 := c4[name := c4[name].(response := Some(manual))];
      && Resolved(c5, name, 0, "other query", Some(v123))[name].response == Some(v123)
  {
  }
}
