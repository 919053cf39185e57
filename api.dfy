/** The decisions of the web API's own handlers: who may start a job and what answer a job
    request gets, the reshaping of the catalogue model into name lists, and the method the
    queue purge accepts. */
module Api {
  import opened Wrappers
  import opened Strings
  import opened Dicts
  import opened Workflow
  import JobsServicer
  import Security
  import SecurityTable

  /** An answer of a handler: a text body with a status, or a JSON body (status 200). */
  datatype Response = TextReply(text: string, status: int) | JsonReply(body: Dict<string, string>)

  const LOCAL_HOST := "127.0.0.1"
  const USERID_HEADER := "X-Auth-Userid"
  const ROLES_HEADER := "X-Auth-Roles"
  /** Any roles text containing this passes the role check. */
  const ADMIN_ROLE_PART := "gob_adm"
  const NOT_LOGGED_IN := TextReply("Not logged in", 401)
  const NO_RIGHTS := TextReply("Insufficient rights to start job", 403)
  const JOB_FAILED := "Job start failed: "

  /** The roles header, the empty text when it is absent. */
  function RolesOf(headers: Dict<string, string>): string
  {
    match Get(headers, ROLES_HEADER)
    case None => ""
    case Some(roles) => roles
  }

  /** The admission check of `_job`: `None` to proceed, otherwise the refusal. It lets a
      request through exactly when the host names `127.0.0.1` or the caller is logged in
      with a roles text containing `gob_adm`; a missing user id is reported before missing
      rights. */
  function JobGate(host: string, headers: Dict<string, string>): (r: Option<Response>)
    ensures r == None <==>
      (exists i :: OccursAt(host, LOCAL_HOST, i)) ||
      (HasKey(headers, USERID_HEADER) && exists i :: OccursAt(RolesOf(headers), ADMIN_ROLE_PART, i))
    ensures r == Some(NOT_LOGGED_IN) <==>
      !(exists i :: OccursAt(host, LOCAL_HOST, i)) && !HasKey(headers, USERID_HEADER)
    ensures r == Some(NO_RIGHTS) <==>
      !(exists i :: OccursAt(host, LOCAL_HOST, i)) && HasKey(headers, USERID_HEADER) &&
      !(exists i :: OccursAt(RolesOf(headers), ADMIN_ROLE_PART, i))
  {
    if Contains(host, LOCAL_HOST) then None
    else if Get(headers, USERID_HEADER).None? then Some(NOT_LOGGED_IN)
    else if !Contains(RolesOf(headers), ADMIN_ROLE_PART) then Some(NO_RIGHTS)
    else None
  }

  /** A caller without a roles header is refused when remote and logged in. */
  lemma NoRolesNoRights(host: string, headers: Dict<string, string>)
    requires !Contains(host, LOCAL_HOST) && HasKey(headers, USERID_HEADER)
    requires !HasKey(headers, ROLES_HEADER)
    ensures JobGate(host, headers) == Some(NO_RIGHTS)
  {
    assert !Contains("", ADMIN_ROLE_PART);
  }

  /** `data['action']` of the request body, which must be a JSON object with a non-null
      `action`. */
  function Action(data: Option<Dict<string, Option<string>>>): (r: Result<string, string>)
    ensures r.Ok? <==> data.Some? && Get(data.value, "action").Some? && Get(data.value, "action").value.Some?
    ensures r.Ok? ==> Get(data.value, "action") == Some(Some(r.value))
  {
    if data.None? then Err("no JSON object")
    else
      var action := Get(data.value, "action");
      if action.None? then Err("'action'")
      else if action.value.None? then Err("no action")
      else Ok(action.value.value)
  }

  /** `_job`: the gate, then the job named by the body's `action` is published with the
      body as its request. The answer is the published header as JSON; any failure after the
      gate answers 400 with its reason. */
  method Job(host: string, headers: Dict<string, string>, data: Option<Dict<string, Option<string>>>,
             commands: Dict<string, StartCommand>, validate: (StartCommand, Dict<string, string>) -> bool)
    returns (reply: Response)
    ensures JobGate(host, headers).Some? ==> reply == JobGate(host, headers).value
    ensures JobGate(host, headers).None? ==>
      reply.TextReply? ==> reply.status == 400 && StartsWith(reply.text, JOB_FAILED)
    ensures reply.JsonReply? <==>
      && JobGate(host, headers).None?
      && Action(data).Ok?
      && HasKey(commands, Action(data).value)
      && var command := Get(commands, Action(data).value).value;
      && ArgsFrom(command.args, DictRequest(data.value), false).Ok?
      && validate(command, ArgsFrom(command.args, DictRequest(data.value), false).value)
    ensures reply.JsonReply? ==>
      ArgsFrom(Get(commands, Action(data).value).value.args, DictRequest(data.value), false) == Ok(reply.body)
  {
    var refused := JobGate(host, headers);
    if refused.Some? {
      return refused.value;
    }
    var action := Action(data);
    if action.Err? {
      return TextReply(JOB_FAILED + action.error, 400);
    }
    var msg := JobsServicer.PublishJob(commands, validate, action.value, DictRequest(data.value));
    if msg.Err? {
      return TextReply(JOB_FAILED + msg.error, 400);
    }
    return JsonReply(msg.value.header);
  }

  /** A job started from a request body gets every declared argument the body holds, so
      none of the failures is a missing attribute. */
  lemma BodyArgsNeverMissing(command: StartCommand, data: Dict<string, Option<string>>)
    ensures ArgsFrom(command.args, DictRequest(data), false).Ok?
  {
    ArgsFromFails(command.args, DictRequest(data), false);
  }

  /** The name lists `_catalogs` builds: each catalog name mapped to the names of its
      collections, in their order; a repeated catalog name keeps its first position and
      its last list. */
  function CatalogNames<M>(catalogs: Dict<string, Dict<string, M>>): Dict<string, seq<string>>
  {
    if catalogs == [] then []
    else
      var (name, collections) := catalogs[|catalogs| - 1];
      Put(CatalogNames(catalogs[..|catalogs| - 1]), name, Keys(collections))
  }

  /** For a catalogue given as a dict (unique names) the result lists the catalogs in the
      same order, each with exactly its collection names in order. */
  lemma {:induction false} CatalogNamesShape<M>(catalogs: Dict<string, Dict<string, M>>)
    requires UniqueKeys(catalogs)
    ensures |CatalogNames(catalogs)| == |catalogs|
    ensures forall i :: 0 <= i < |catalogs| ==>
      CatalogNames(catalogs)[i] == (catalogs[i].0, Keys(catalogs[i].1))
  {
    if catalogs != [] {
      var init := catalogs[..|catalogs| - 1];
      var (name, collections) := catalogs[|catalogs| - 1];
      CatalogNamesShape(init);
      assert !HasKey(CatalogNames(init), name) by {
        forall i | 0 <= i < |init| ensures CatalogNames(init)[i].0 != name {
          assert init[i].0 == catalogs[i].0;
        }
      }
    }
  }

  const JSON_CONTENT: Dict<string, string> := [("Content-Type", "application/json")]

  /** `_catalogs`: the nested loops over catalogs and their collections. */
  method Catalogs<M>(catalogs: Dict<string, Dict<string, M>>)
    returns (result: Dict<string, seq<string>>, status: int, contentType: Dict<string, string>)
    ensures result == CatalogNames(catalogs)
    ensures status == 200 && contentType == JSON_CONTENT
  {
    result := [];
    var i := 0;
    while i < |catalogs|
      invariant 0 <= i <= |catalogs|
      invariant result == CatalogNames(catalogs[..i])
    {
      var (name, collections) := catalogs[i];
      var names: seq<string> := [];
      var j := 0;
      while j < |collections|
        invariant 0 <= j <= |collections|
        invariant names == Keys(collections[..j])
      {
        names := names + [collections[j].0];
        j := j + 1;
      }
      assert collections[..j] == collections;
      assert catalogs[..i + 1][..i] == catalogs[..i];
      result := Put(result, name, names);
      i := i + 1;
    }
    assert catalogs[..i] == catalogs;
    status := 200;
    contentType := JSON_CONTENT;
  }

  /** The catalogue of the API's test: `catalog1` with the collections `coll1` and `coll2`. */
  lemma CatalogsExample<M>(catalogs: Dict<string, Dict<string, M>>, m1: M, m2: M)
    requires catalogs == [("catalog1", [("coll1", m1), ("coll2", m2)])]
    ensures CatalogNames(catalogs) == [("catalog1", ["coll1", "coll2"])]
  {
    assert Keys([("coll1", m1), ("coll2", m2)]) == ["coll1", "coll2"];
    CatalogNamesShape(catalogs);
  }

  /** `_queue`: only `DELETE` gets past the assertion, and then the purge's answer is
      returned; `purged` stands for that answer. */
  function Queue(verb: string, purged: (string, int)): Result<(string, int), string>
  {
    if verb == "DELETE" then Ok(purged) else Err("AssertionError")
  }

  /** Every method the queue test tries besides `DELETE` fails the assertion. */
  lemma QueueRejects(purged: (string, int))
    ensures forall verb :: verb in ["GET", "POST", "PUT", "PATCH", "ANY OTHER METHOD"] ==> Queue(verb, purged).Err?
  {
  }

  /** Behind the security middleware the assertion cannot fail: a request for a queue path
      that the middleware lets through (other than a preflight `OPTIONS`) is a `DELETE`, by
      a caller holding the admin role. */
  lemma QueueGuarded(path: string, verb: string, userRoles: seq<string>, purged: (string, int))
    requires StartsWith(path, "/gob_management/queue/")
    requires verb != "OPTIONS"
    requires Security.BeforeRequest(Security.PERMISSIONS, verb, path, userRoles) == None
    ensures Queue(verb, purged) == Ok(purged)
    ensures Security.GOB_ADMIN in userRoles
  {
    SecurityTable.QueuePaths(path, verb);
    var m := Security.MatchPath(Security.PERMISSIONS, path, verb);
    assert m.Some? && Security.IsAllowedAccess(userRoles, m.value);
  }
}
