/** The route table of the authorisation resolver, pattern by pattern, the route each
    family of paths is decided by, and the decisions on the paths the resolver's tests name. */
module SecurityTable {
  import opened Wrappers
  import opened Security
  import opened Strings

  /** A text starting with `t` agrees with `t` character by character. */
  lemma CharsAt(s: string, t: string)
    requires StartsWith(s, t)
    ensures forall k :: 0 <= k < |t| ==> s[k] == t[k]
  {
    forall k | 0 <= k < |t| ensures s[k] == t[k] {
      assert s[..|t|][k] == s[k];
    }
  }

  /** Starting with a longer text implies starting with its prefix. */
  lemma PrefixOf(s: string, t: string, u: string)
    requires StartsWith(u, t)
    ensures StartsWith(s, u) ==> StartsWith(s, t)
  {
    if StartsWith(s, u) { assert s[..|t|] == s[..|u|][..|t|]; }
  }

  /** Text that differs from `t` at position `k` does not start with `t`. */
  lemma DiffersAt(s: string, t: string, k: nat)
    requires k < |s| && k < |t| && s[k] != t[k]
    ensures !StartsWith(s, t)
  {
    if |t| <= |s| { assert s[..|t|][k] == s[k]; }
  }

  lemma OutsideJob(path: string)
    requires !StartsWith(path, "/gob_management/job")
    ensures !StartsWith(path, "/gob_management/job/")
  {
    PrefixOf(path, "/gob_management/job", "/gob_management/job/");
  }

  lemma TableIndex(j: int)
    requires 0 <= j < |PERMISSIONS|
    ensures j == 0 || j == 1 || j == 2 || j == 3 || j == 4 || j == 5 || j == 6 || j == 7 || j == 8 || j == 9
  {
  }

  /* Each pattern of the table as a condition on the path, and the characters a matching
     path has at the positions where the patterns part ways. */

  lemma Chars0(path: string)
    ensures StartsWith(path, "/status/health") ==>
      |path| >= 14 && path[1] == 's'
  {
    if StartsWith(path, "/status/health") { CharsAt(path, "/status/health"); }
  }

  lemma Chars1(path: string)
    ensures StartsWith(path, "/gob_management/job") ==>
      |path| >= 19 && path[1] == 'g' && path[16] == 'j'
  {
    if StartsWith(path, "/gob_management/job") { CharsAt(path, "/gob_management/job"); }
  }

  lemma Chars2(path: string)
    ensures StartsWith(path, "/gob_management/job/") ==>
      |path| >= 20 && path[1] == 'g' && path[16] == 'j'
  {
    if StartsWith(path, "/gob_management/job/") { CharsAt(path, "/gob_management/job/"); }
  }

  lemma Chars3(path: string)
    ensures StartsWith(path, "/gob_management/socket") ==>
      |path| >= 22 && path[1] == 'g' && path[16] == 's'
  {
    if StartsWith(path, "/gob_management/socket") { CharsAt(path, "/gob_management/socket"); }
  }

  lemma Chars4(path: string)
    ensures StartsWith(path, "/gob_management/public/state/") ==>
      |path| >= 29 && path[1] == 'g' && path[16] == 'p' && path[23] == 's'
  {
    if StartsWith(path, "/gob_management/public/state/") { CharsAt(path, "/gob_management/public/state/"); }
  }

  lemma Chars5(path: string)
    ensures StartsWith(path, "/gob_management/queue/") ==>
      |path| >= 22 && path[1] == 'g' && path[16] == 'q'
  {
    if StartsWith(path, "/gob_management/queue/") { CharsAt(path, "/gob_management/queue/"); }
  }

  lemma Chars6(path: string)
    ensures StartsWith(path, "/gob_management/public/catalogs") ==>
      |path| >= 31 && path[1] == 'g' && path[16] == 'p' && path[23] == 'c'
  {
    if StartsWith(path, "/gob_management/public/catalogs") { CharsAt(path, "/gob_management/public/catalogs"); }
  }

  lemma Chars7(path: string)
    ensures StartsWith(path, "/gob_management/public/queues") ==>
      |path| >= 29 && path[1] == 'g' && path[16] == 'p' && path[23] == 'q'
  {
    if StartsWith(path, "/gob_management/public/queues") { CharsAt(path, "/gob_management/public/queues"); }
  }

  lemma Chars8(path: string)
    ensures StartsWith(path, "/gob_management/public/graphql") ==>
      |path| >= 30 && path[1] == 'g' && path[16] == 'p' && path[23] == 'g'
  {
    if StartsWith(path, "/gob_management/public/graphql") { CharsAt(path, "/gob_management/public/graphql"); }
  }

  /* Route texts without metacharacters, assembled from short pieces (the solver handles
     a literal's characters more cheaply a few at a time). */

  lemma PlainJoin(a: string, b: string, c: string)
    requires Plain(a) && Plain(b) && c == a + b
    ensures Plain(c)
  {
    PlainAppend(a, b);
  }

  lemma PlainBase()
    ensures Plain("/gob_management")
  {
  }

  lemma PlainPublicPart()
    ensures Plain("/public")
  {
  }

  lemma PlainPublicBase()
    ensures Plain("/gob_management/public")
  {
    PlainBase();
    PlainPublicPart();
    PlainJoin("/gob_management", "/public", "/gob_management/public");
  }

  lemma Route0(path: string)
    ensures Matches(PERMISSIONS[0].pattern, path) <==>
      StartsWith(path, "/status/health")
  {
    assert PERMISSIONS[0].pattern == "/status/health" + ['/', '?'];
    MatchesOptionalEnd("/status/health", '/', path);
  }

  lemma Route1(path: string)
    ensures Matches(PERMISSIONS[1].pattern, path) <==>
      StartsWith(path, "/gob_management/job")
  {
    PlainBase();
    assert Plain("/job/");
    PlainJoin("/gob_management", "/job/", "/gob_management/job" + ['/']);
    assert PERMISSIONS[1].pattern == "/gob_management/job" + ['/', '?'];
    MatchesOptionalEnd("/gob_management/job", '/', path);
  }

  lemma Route2(path: string)
    ensures Matches(PERMISSIONS[2].pattern, path) <==>
      StartsWith(path, "/gob_management/job/") && |path| > 20 && path[20] != '\n'
  {
    PlainBase();
    assert Plain("/job/");
    PlainJoin("/gob_management", "/job/", "/gob_management/job/");
    assert PERMISSIONS[2].pattern == "/gob_management/job/" + ".+";
    MatchesPlusEnd("/gob_management/job/", path);
  }

  lemma Route3(path: string)
    ensures Matches(PERMISSIONS[3].pattern, path) <==>
      StartsWith(path, "/gob_management/socket") && |path| > 22 && path[22] != '\n'
      && StartsWith(path[23..], "io/")
  {
    PlainBase();
    assert Plain("/socket");
    PlainJoin("/gob_management", "/socket", "/gob_management/socket");
    assert PERMISSIONS[3].pattern == "/gob_management/socket" + "." + "io/" + ".*";
    MatchesWildcardInside("/gob_management/socket", "io/", path);
  }

  lemma Route4(path: string)
    ensures Matches(PERMISSIONS[4].pattern, path) <==>
      StartsWith(path, "/gob_management/public/state/")
  {
    PlainPublicBase();
    assert Plain("/state/");
    PlainJoin("/gob_management/public", "/state/", "/gob_management/public/state/");
    assert PERMISSIONS[4].pattern == "/gob_management/public/state/" + ".*";
    MatchesStarEnd("/gob_management/public/state/", path);
  }

  lemma Route5(path: string)
    ensures Matches(PERMISSIONS[5].pattern, path) <==>
      StartsWith(path, "/gob_management/queue/")
  {
    PlainBase();
    assert Plain("/queue/");
    PlainJoin("/gob_management", "/queue/", "/gob_management/queue/");
    assert PERMISSIONS[5].pattern == "/gob_management/queue/" + ".*";
    MatchesStarEnd("/gob_management/queue/", path);
  }

  lemma Route6(path: string)
    ensures Matches(PERMISSIONS[6].pattern, path) <==>
      StartsWith(path, "/gob_management/public/catalogs")
  {
    PlainPublicBase();
    assert Plain("/catalogs/");
    PlainJoin("/gob_management/public", "/catalogs/", "/gob_management/public/catalogs" + ['/']);
    assert PERMISSIONS[6].pattern == "/gob_management/public/catalogs" + ['/', '?'];
    MatchesOptionalEnd("/gob_management/public/catalogs", '/', path);
  }

  lemma Route7(path: string)
    ensures Matches(PERMISSIONS[7].pattern, path) <==>
      StartsWith(path, "/gob_management/public/queues")
  {
    PlainPublicBase();
    assert Plain("/queues/");
    PlainJoin("/gob_management/public", "/queues/", "/gob_management/public/queues" + ['/']);
    assert PERMISSIONS[7].pattern == "/gob_management/public/queues" + ['/', '?'];
    MatchesOptionalEnd("/gob_management/public/queues", '/', path);
  }

  lemma Route8(path: string)
    ensures Matches(PERMISSIONS[8].pattern, path) <==>
      StartsWith(path, "/gob_management/public/graphql")
  {
    PlainPublicBase();
    assert Plain("/graphql/");
    PlainJoin("/gob_management/public", "/graphql/", "/gob_management/public/graphql" + ['/']);
    assert PERMISSIONS[8].pattern == "/gob_management/public/graphql" + ['/', '?'];
    MatchesOptionalEnd("/gob_management/public/graphql", '/', path);
  }

  lemma Route9(path: string)
    ensures Matches(PERMISSIONS[9].pattern, path) <==>
      StartsWith(path, "/")
  {
    assert PERMISSIONS[9].pattern == "/" + ".*";
    MatchesStarEnd("/", path);
  }

  /* The route consulted for each family of paths: the longest matching pattern alone
     decides, and a method it does not list is refused. */

  /** The health check, with or without a trailing slash (and anything after it). */
  lemma HealthPaths(path: string, verb: string)
    requires StartsWith(path, "/status/health")
    ensures MatchPath(PERMISSIONS, path, verb) ==
      if verb == "GET" then Some(Permission(["GET"], Public)) else None
  {
    Route0(path); Route1(path); Route2(path); Route3(path); Route4(path); Route5(path); Route6(path); Route7(path); Route8(path); Route9(path);
    Chars0(path); Chars1(path); Chars2(path); Chars3(path); Chars4(path); Chars5(path); Chars6(path); Chars7(path); Chars8(path);
    forall j | 0 <= j < |PERMISSIONS|
      ensures j == 0 || !Matches(PERMISSIONS[j].pattern, path)
        || |PERMISSIONS[j].pattern| < |PERMISSIONS[0].pattern|
    {
      TableIndex(j);
    }
    assert Selected(PERMISSIONS, path, 0);
    MatchPathSelected(PERMISSIONS, path, verb, 0);
  }

  /** The job collection: the job prefix, not followed by `/` and another character. */
  lemma JobCollectionPaths(path: string, verb: string)
    requires StartsWith(path, "/gob_management/job")
    requires !(StartsWith(path, "/gob_management/job/") && |path| > 20 && path[20] != '\n')
    ensures MatchPath(PERMISSIONS, path, verb) ==
      if verb == "POST" then Some(Permission(["POST"], AnyOf([GOB_ADMIN]))) else None
  {
    Route0(path); Route1(path); Route2(path); Route3(path); Route4(path); Route5(path); Route6(path); Route7(path); Route8(path); Route9(path);
    Chars0(path); Chars1(path); Chars2(path); Chars3(path); Chars4(path); Chars5(path); Chars6(path); Chars7(path); Chars8(path);
    forall j | 0 <= j < |PERMISSIONS|
      ensures j == 1 || !Matches(PERMISSIONS[j].pattern, path)
        || |PERMISSIONS[j].pattern| < |PERMISSIONS[1].pattern|
    {
      TableIndex(j);
    }
    assert Selected(PERMISSIONS, path, 1);
    MatchPathSelected(PERMISSIONS, path, verb, 1);
  }

  /** A job item: the job prefix, `/` and at least one more character. The collection
      pattern matches as well, but it is shorter. */
  lemma JobItemPaths(path: string, verb: string)
    requires StartsWith(path, "/gob_management/job/") && |path| > 20 && path[20] != '\n'
    ensures MatchPath(PERMISSIONS, path, verb) ==
      if verb == "DELETE" then Some(Permission(["DELETE"], AnyOf([GOB_ADMIN]))) else None
  {
    Route0(path); Route1(path); Route2(path); Route3(path); Route4(path); Route5(path); Route6(path); Route7(path); Route8(path); Route9(path);
    Chars0(path); Chars1(path); Chars2(path); Chars3(path); Chars4(path); Chars5(path); Chars6(path); Chars7(path); Chars8(path);
    PrefixOf(path, "/gob_management/job", "/gob_management/job/");
    forall j | 0 <= j < |PERMISSIONS|
      ensures j == 2 || !Matches(PERMISSIONS[j].pattern, path)
        || |PERMISSIONS[j].pattern| < |PERMISSIONS[2].pattern|
    {
      TableIndex(j);
    }
    assert Selected(PERMISSIONS, path, 2);
    MatchPathSelected(PERMISSIONS, path, verb, 2);
  }

  /** The socket endpoint. */
  lemma SocketPaths(path: string, verb: string)
    requires StartsWith(path, "/gob_management/socket") && |path| > 22 && path[22] != '\n'
      && StartsWith(path[23..], "io/")
    ensures MatchPath(PERMISSIONS, path, verb) ==
      if verb == "GET" || verb == "POST" then Some(Permission(["GET", "POST"], Public)) else None
  {
    Chars3(path);
    assert !Matches(PERMISSIONS[0].pattern, path) by { Route0(path); Chars0(path); }
    assert !Matches(PERMISSIONS[1].pattern, path) by { Route1(path); Chars1(path); }
    assert !Matches(PERMISSIONS[2].pattern, path) by { Route2(path); Chars2(path); }
    assert Matches(PERMISSIONS[3].pattern, path) by { Route3(path); }
    assert !Matches(PERMISSIONS[4].pattern, path) by { Route4(path); Chars4(path); }
    assert !Matches(PERMISSIONS[5].pattern, path) by { Route5(path); Chars5(path); }
    assert !Matches(PERMISSIONS[6].pattern, path) by { Route6(path); Chars6(path); }
    assert !Matches(PERMISSIONS[7].pattern, path) by { Route7(path); Chars7(path); }
    assert !Matches(PERMISSIONS[8].pattern, path) by { Route8(path); Chars8(path); }
    forall j | 0 <= j < |PERMISSIONS|
      ensures j == 3 || !Matches(PERMISSIONS[j].pattern, path)
        || |PERMISSIONS[j].pattern| < |PERMISSIONS[3].pattern|
    {
      TableIndex(j);
    }
    assert Selected(PERMISSIONS, path, 3);
    MatchPathSelected(PERMISSIONS, path, verb, 3);
  }

  /** Process and workflow state, under the public base path. */
  lemma StatePaths(path: string, verb: string)
    requires StartsWith(path, "/gob_management/public/state/")
    ensures MatchPath(PERMISSIONS, path, verb) ==
      if verb == "GET" then Some(Permission(["GET"], Public)) else None
  {
    Route0(path); Route1(path); Route2(path); Route3(path); Route4(path); Route5(path); Route6(path); Route7(path); Route8(path); Route9(path);
    Chars0(path); Chars1(path); Chars2(path); Chars3(path); Chars4(path); Chars5(path); Chars6(path); Chars7(path); Chars8(path);
    forall j | 0 <= j < |PERMISSIONS|
      ensures j == 4 || !Matches(PERMISSIONS[j].pattern, path)
        || |PERMISSIONS[j].pattern| < |PERMISSIONS[4].pattern|
    {
      TableIndex(j);
    }
    assert Selected(PERMISSIONS, path, 4);
    MatchPathSelected(PERMISSIONS, path, verb, 4);
  }

  /** A queue item. */
  lemma QueuePaths(path: string, verb: string)
    requires StartsWith(path, "/gob_management/queue/")
    ensures MatchPath(PERMISSIONS, path, verb) ==
      if verb == "DELETE" then Some(Permission(["DELETE"], AnyOf([GOB_ADMIN]))) else None
  {
    Route0(path); Route1(path); Route2(path); Route3(path); Route4(path); Route5(path); Route6(path); Route7(path); Route8(path); Route9(path);
    Chars0(path); Chars1(path); Chars2(path); Chars3(path); Chars4(path); Chars5(path); Chars6(path); Chars7(path); Chars8(path);
    forall j | 0 <= j < |PERMISSIONS|
      ensures j == 5 || !Matches(PERMISSIONS[j].pattern, path)
        || |PERMISSIONS[j].pattern| < |PERMISSIONS[5].pattern|
    {
      TableIndex(j);
    }
    assert Selected(PERMISSIONS, path, 5);
    MatchPathSelected(PERMISSIONS, path, verb, 5);
  }

  /** The public catalogue listing. */
  lemma PublicCatalogsPaths(path: string, verb: string)
    requires StartsWith(path, "/gob_management/public/catalogs")
    ensures MatchPath(PERMISSIONS, path, verb) ==
      if verb == "GET" then Some(Permission(["GET"], Public)) else None
  {
    Route0(path); Route1(path); Route2(path); Route3(path); Route4(path); Route5(path); Route6(path); Route7(path); Route8(path); Route9(path);
    Chars0(path); Chars1(path); Chars2(path); Chars3(path); Chars4(path); Chars5(path); Chars6(path); Chars7(path); Chars8(path);
    forall j | 0 <= j < |PERMISSIONS|
      ensures j == 6 || !Matches(PERMISSIONS[j].pattern, path)
        || |PERMISSIONS[j].pattern| < |PERMISSIONS[6].pattern|
    {
      TableIndex(j);
    }
    assert Selected(PERMISSIONS, path, 6);
    MatchPathSelected(PERMISSIONS, path, verb, 6);
  }

  /** The public queue listing. */
  lemma PublicQueuesPaths(path: string, verb: string)
    requires StartsWith(path, "/gob_management/public/queues")
    ensures MatchPath(PERMISSIONS, path, verb) ==
      if verb == "GET" then Some(Permission(["GET"], Public)) else None
  {
    Route0(path); Route1(path); Route2(path); Route3(path); Route4(path); Route5(path); Route6(path); Route7(path); Route8(path); Route9(path);
    Chars0(path); Chars1(path); Chars2(path); Chars3(path); Chars4(path); Chars5(path); Chars6(path); Chars7(path); Chars8(path);
    forall j | 0 <= j < |PERMISSIONS|
      ensures j == 7 || !Matches(PERMISSIONS[j].pattern, path)
        || |PERMISSIONS[j].pattern| < |PERMISSIONS[7].pattern|
    {
      TableIndex(j);
    }
    assert Selected(PERMISSIONS, path, 7);
    MatchPathSelected(PERMISSIONS, path, verb, 7);
  }

  /** The GraphQL endpoint. */
  lemma GraphqlPaths(path: string, verb: string)
    requires StartsWith(path, "/gob_management/public/graphql")
    ensures MatchPath(PERMISSIONS, path, verb) ==
      if verb == "GET" || verb == "POST" then Some(Permission(["GET", "POST"], Public)) else None
  {
    Route0(path); Route1(path); Route2(path); Route3(path); Route4(path); Route5(path); Route6(path); Route7(path); Route8(path); Route9(path);
    Chars0(path); Chars1(path); Chars2(path); Chars3(path); Chars4(path); Chars5(path); Chars6(path); Chars7(path); Chars8(path);
    forall j | 0 <= j < |PERMISSIONS|
      ensures j == 8 || !Matches(PERMISSIONS[j].pattern, path)
        || |PERMISSIONS[j].pattern| < |PERMISSIONS[8].pattern|
    {
      TableIndex(j);
    }
    assert Selected(PERMISSIONS, path, 8);
    MatchPathSelected(PERMISSIONS, path, verb, 8);
  }

  /** Every other absolute path (one that no earlier pattern matches) falls to the
      catch-all pattern, which admits the two administrator roles for GET and POST. */
  lemma FallbackPaths(path: string, verb: string)
    requires StartsWith(path, "/")
    requires !StartsWith(path, "/status/health")
    requires !StartsWith(path, "/gob_management/job")
    requires !(StartsWith(path, "/gob_management/socket") && |path| > 22 && path[22] != '\n'
      && StartsWith(path[23..], "io/"))
    requires !StartsWith(path, "/gob_management/public/state/")
    requires !StartsWith(path, "/gob_management/queue/")
    requires !StartsWith(path, "/gob_management/public/catalogs")
    requires !StartsWith(path, "/gob_management/public/queues")
    requires !StartsWith(path, "/gob_management/public/graphql")
    ensures MatchPath(PERMISSIONS, path, verb) ==
      if verb == "GET" || verb == "POST" then Some(Permission(["GET", "POST"], AnyOf([GOB_ADMIN, GOB_ADMIN_R]))) else None
  {
    assert !Matches(PERMISSIONS[0].pattern, path) by { Route0(path); }
    assert !Matches(PERMISSIONS[1].pattern, path) by { Route1(path); }
    assert !Matches(PERMISSIONS[2].pattern, path) by { Route2(path); OutsideJob(path); }
    assert !Matches(PERMISSIONS[3].pattern, path) by { Route3(path); }
    assert !Matches(PERMISSIONS[4].pattern, path) by { Route4(path); }
    assert !Matches(PERMISSIONS[5].pattern, path) by { Route5(path); }
    assert !Matches(PERMISSIONS[6].pattern, path) by { Route6(path); }
    assert !Matches(PERMISSIONS[7].pattern, path) by { Route7(path); }
    assert !Matches(PERMISSIONS[8].pattern, path) by { Route8(path); }
    Route9(path);
    forall j | 0 <= j < |PERMISSIONS|
      ensures j == 9 || !Matches(PERMISSIONS[j].pattern, path)
        || |PERMISSIONS[j].pattern| < |PERMISSIONS[9].pattern|
    {
      TableIndex(j);
    }
    assert Selected(PERMISSIONS, path, 9);
    MatchPathSelected(PERMISSIONS, path, verb, 9);
  }

  /* The outcomes the resolver's tests list. */

  lemma HealthOutcomes()
    ensures MatchPath(PERMISSIONS, "/status/health/", "GET") == Some(Permission(["GET"], Public))
  {
    HealthPaths("/status/health/", "GET");
  }

  lemma HealthNoSlashOutcomes()
    ensures MatchPath(PERMISSIONS, "/status/health", "GET") == Some(Permission(["GET"], Public))
    ensures MatchPath(PERMISSIONS, "/status/health", "POST") == None
  {
    HealthPaths("/status/health", "GET");
    HealthPaths("/status/health", "POST");
  }

  lemma JobCollectionOutcomes()
    ensures MatchPath(PERMISSIONS, "/gob_management/job", "POST") == Some(Permission(["POST"], AnyOf([GOB_ADMIN])))
    ensures MatchPath(PERMISSIONS, "/gob_management/job", "DELETE") == None
  {
    JobCollectionPaths("/gob_management/job", "POST");
    JobCollectionPaths("/gob_management/job", "DELETE");
  }

  lemma JobItemOutcomes()
    ensures MatchPath(PERMISSIONS, "/gob_management/job/1", "DELETE") == Some(Permission(["DELETE"], AnyOf([GOB_ADMIN])))
    ensures MatchPath(PERMISSIONS, "/gob_management/job/1", "GET") == None
  {
    JobItemPaths("/gob_management/job/1", "DELETE");
    JobItemPaths("/gob_management/job/1", "GET");
  }

  lemma CatalogsOutcomes()
    ensures MatchPath(PERMISSIONS, "/gob_management/catalogs", "GET") == Some(Permission(["GET", "POST"], AnyOf([GOB_ADMIN, GOB_ADMIN_R])))
  {
    DiffersAt("/gob_management/catalogs", "/status/health", 1);
    DiffersAt("/gob_management/catalogs", "/gob_management/job", 16);
    DiffersAt("/gob_management/catalogs", "/gob_management/socket", 16);
    DiffersAt("/gob_management/catalogs", "/gob_management/public/", 16);
    DiffersAt("/gob_management/catalogs", "/gob_management/queue/", 16);
    FallbackPaths("/gob_management/catalogs", "GET");
  }

  lemma CatalogsSlashOutcomes()
    ensures MatchPath(PERMISSIONS, "/gob_management/catalogs/", "GET") == Some(Permission(["GET", "POST"], AnyOf([GOB_ADMIN, GOB_ADMIN_R])))
  {
    DiffersAt("/gob_management/catalogs/", "/status/health", 1);
    DiffersAt("/gob_management/catalogs/", "/gob_management/job", 16);
    DiffersAt("/gob_management/catalogs/", "/gob_management/socket", 16);
    DiffersAt("/gob_management/catalogs/", "/gob_management/public/", 16);
    DiffersAt("/gob_management/catalogs/", "/gob_management/queue/", 16);
    FallbackPaths("/gob_management/catalogs/", "GET");
  }

  lemma QueuesOutcomes()
    ensures MatchPath(PERMISSIONS, "/gob_management/queues/", "GET") == Some(Permission(["GET", "POST"], AnyOf([GOB_ADMIN, GOB_ADMIN_R])))
    ensures MatchPath(PERMISSIONS, "/gob_management/queues/", "POST") == Some(Permission(["GET", "POST"], AnyOf([GOB_ADMIN, GOB_ADMIN_R])))
  {
    DiffersAt("/gob_management/queues/", "/status/health", 1);
    DiffersAt("/gob_management/queues/", "/gob_management/job", 16);
    DiffersAt("/gob_management/queues/", "/gob_management/socket", 16);
    DiffersAt("/gob_management/queues/", "/gob_management/public/", 16);
    DiffersAt("/gob_management/queues/", "/gob_management/queue/", 21);
    FallbackPaths("/gob_management/queues/", "GET");
    FallbackPaths("/gob_management/queues/", "POST");
  }

  lemma QueueItemOutcomes()
    ensures MatchPath(PERMISSIONS, "/gob_management/queue/a", "POST") == None
    ensures MatchPath(PERMISSIONS, "/gob_management/queue/a", "DELETE") == Some(Permission(["DELETE"], AnyOf([GOB_ADMIN])))
  {
    QueuePaths("/gob_management/queue/a", "POST");
    QueuePaths("/gob_management/queue/a", "DELETE");
  }

  lemma ProcessStateOutcomes()
    ensures MatchPath(PERMISSIONS, "/gob_management/public/state/process/1", "GET") == Some(Permission(["GET"], Public))
    ensures MatchPath(PERMISSIONS, "/gob_management/public/state/process/1", "POST") == None
  {
    StatePaths("/gob_management/public/state/process/1", "GET");
    StatePaths("/gob_management/public/state/process/1", "POST");
  }

  lemma WorkflowStateOutcomes()
    ensures MatchPath(PERMISSIONS, "/gob_management/public/state/workflow", "GET") == Some(Permission(["GET"], Public))
  {
    StatePaths("/gob_management/public/state/workflow", "GET");
  }

  lemma WorkflowStateSlashOutcomes()
    ensures MatchPath(PERMISSIONS, "/gob_management/public/state/workflow/", "GET") == Some(Permission(["GET"], Public))
    ensures MatchPath(PERMISSIONS, "/gob_management/public/state/workflow/", "POST") == None
  {
    StatePaths("/gob_management/public/state/workflow/", "GET");
    StatePaths("/gob_management/public/state/workflow/", "POST");
  }

  /** Role intersection on the resolver's role examples: an empty required list admits no
      one, the public sentinel everyone. */
  lemma AllowedAccessOutcomes()
    ensures !IsAllowedAccess([], Permission(["GET"], AnyOf(["roleA", "roleB"])))
    ensures !IsAllowedAccess(["roleC"], Permission(["GET"], AnyOf(["roleA", "roleB"])))
    ensures IsAllowedAccess(["roleA"], Permission(["GET"], AnyOf(["roleA", "roleB"])))
    ensures IsAllowedAccess(["roleB"], Permission(["GET"], AnyOf(["roleA", "roleB"])))
    ensures IsAllowedAccess(["roleA", "roleB"], Permission(["GET"], AnyOf(["roleA", "roleB"])))
    ensures !IsAllowedAccess(["roleA"], Permission(["GET"], AnyOf([])))
    ensures !IsAllowedAccess([], Permission(["GET"], AnyOf([])))
    ensures IsAllowedAccess([], Permission(["GET"], Public))
  {
    assert "roleA" in ["roleA"];
    assert "roleB" in ["roleB"];
  }

  /** An administrator posting to the health check is refused: the health pattern is the
      longest match and lists only GET, although the catch-all would admit the post. */
  lemma NoFallbackForAdmin()
    ensures BeforeRequest(PERMISSIONS, "POST", "/status/health", [GOB_ADMIN]) == Some(FORBIDDEN)
    ensures BeforeRequest(PERMISSIONS, "GET", "/status/health", []) == None
  {
    HealthPaths("/status/health", "POST");
    HealthPaths("/status/health", "GET");
  }

  /** Job removal needs the administrator role. */
  lemma JobRemovalNeedsAdmin()
    ensures BeforeRequest(PERMISSIONS, "DELETE", "/gob_management/job/1", [GOB_ADMIN]) == None
    ensures BeforeRequest(PERMISSIONS, "DELETE", "/gob_management/job/1", [GOB_ADMIN_R]) == Some(FORBIDDEN)
  {
    JobItemPaths("/gob_management/job/1", "DELETE");
    assert GOB_ADMIN in [GOB_ADMIN];
  }
}
