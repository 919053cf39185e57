# GOB-Management core, modelled in Dafny

This project models the decision logic of the GOB management back end and proves properties
of it. It covers nine components:

- **Route authorisation resolver** (`security.dfy`, `security_table.dfy`). The request path
  is matched against the permission table with `re.match` semantics, anchored at the start.
  A small matcher handles the regex subset the table uses: literals, `.`, and postfix `?`,
  `*` and `+`. The longest matching pattern alone decides, with the first one in table order
  winning ties. The verb must be listed on that entry; there is no fallback to a shorter
  pattern. The entry's roles are either public or a list the caller must intersect.
  `OPTIONS` always passes. `security_table.dfy` works out, pattern by pattern, which paths
  each entry of the actual table matches. It then gives the decision for every absolute
  path, family by family, with the catch-all family being exactly the paths no earlier key
  matches. It also covers all the cases in the resolver's tests.
- **Resolver cache** (`cache.dfy`). `ResolveCache` is a class over a map from name to
  (id, query, response). A call is served from the map while id and query are unchanged and
  a response is stored. Otherwise exactly that entry is recomputed and overwritten.
- **Log broadcaster** (`socket.dfy`). The `LogBroadcaster` class holds a client counter and
  a worker slot. The worker loop runs over a sequence of observed passes and returns the
  `new_logs` events it emits.
- **Proto generator** (`codegen.dfy`). `GRPCCodeGenerator` collects services and messages
  from start commands and writes the proto3 text. The import fix is a literal replace-all.
- **Job service and job handler** (`grpcjobs.dfy`, `jobs.dfy`, with the shared part in
  `workflow.dfy`). The gRPC attribute name `Start<word chars>Job` is parsed to the job type.
  Arguments are extracted from a dict or object request. The workflow message is built with
  an optional step name.
- **Request user** (`auth.dfy`). `X-Auth-` headers are projected into props, and the props
  are rendered as `USER: k='v', ...`.
- **API handlers** (`api.dfy`): the job admission gate and the job answer, the catalogue
  reshaping, and the `DELETE`-only queue purge.
- **Duration scalar** (`scalars.dfy`). The rendered duration is cut at the first `.`.
- **Shared datatypes** (`strings.dfy`, `dicts.dfy`, `wrappers.dfy`). These are Python's string
  operations on ASCII text, and an insertion-ordered dict modelled as a sequence of pairs.
  `Put` replaces a value in place or appends.

Collaborators from the platform's shared library are parameters of the model:

- the start commands, as a dict from name to command;
- argument validation, as a predicate;
- role extraction, as the caller's role list.

The role names `gob_admin` and `gob_admin_r` are constants. The public base path is
`/gob_management/public`, which is the value the resolver's tests imply. The module that
defines it is not part of this model.

The key `/gob_management/socket.io/.*` is modelled as written. Its `.` is a wildcard, so
`SecurityTable.Route3` states that any character other than a newline may stand between
`socket` and `io/`.

## Model

| member | source | states |
|---|---|---|
| Security.MatchesMeansSomePrefix | src/gobmanagement/security.py:109 | `re.match` of a table key succeeds exactly when the compiled pattern matches some prefix of the path in full |
| Security.FullMatchPrefix | src/gobmanagement/security.py:109 | a full match of a prefix of the path is a prefix match of the path |
| Security.PrefixMatchEnd | src/gobmanagement/security.py:109 | every prefix match ends somewhere: some prefix of the path matches in full |
| Security.CompilePlain | src/gobmanagement/security.py:11-52 | text without regex metacharacters compiles to one literal atom per character, followed by the rest of the pattern |
| Security.MatchLiteral | src/gobmanagement/security.py:109 | literal atoms followed by a rest match exactly the paths that start with the text, where the rest matches what follows |
| Security.MatchesOptionalEnd | src/gobmanagement/security.py:12 | a key `t` + `c?` matches exactly the paths starting with `t` |
| Security.MatchesStarEnd | src/gobmanagement/security.py:28 | a key `t` + `.*` matches exactly the paths starting with `t` |
| Security.MatchesPlusEnd | src/gobmanagement/security.py:20 | a key `t` + `.+` matches exactly the paths starting with `t` followed by one more character that is not a newline |
| Security.MatchesWildcardInside | src/gobmanagement/security.py:24 | a key `t` + `.` + `u` + `.*` matches `t`, any character except a newline, then `u` |
| Security.MatchingRoutes | src/gobmanagement/security.py:109 | the matches are table routes whose key matches; the list is empty exactly when no key matches |
| Security.SelectedUnique | src/gobmanagement/security.py:112 | at most one route is the selected one: it matches, no matching key is longer, and no earlier matching key has the same length |
| Security.Longest | src/gobmanagement/security.py:112 | of a non-empty list of routes, the one taken is in the list and no route in it has a longer pattern |
| Security.LongestIsSelected | src/gobmanagement/security.py:112 | the first element of the stable descending sort by key length is the selected route |
| Security.MatchPath | src/gobmanagement/security.py:102-113 | a permission is returned exactly when the selected route lists the verb, and it is that route's permission |
| Security.MatchPathSelected | src/gobmanagement/security.py:112-113 | once a route is selected, only its methods decide; a shorter matching key that allows the verb is never consulted |
| Security.MatchPathNoRoute | src/gobmanagement/security.py:110-113 | a path no key matches gives no permission |
| Security.MatchedRoles | src/gobmanagement/security.py:98 | a role is kept exactly when the caller has it and the entry requires it |
| Security.IsAllowedAccess | src/gobmanagement/security.py:87-100 | access is allowed exactly when the entry is public or some caller role is required; an empty requirement denies everyone |
| Security.BeforeRequest | src/gobmanagement/security.py:73-85 | the request passes exactly when it is `OPTIONS`, or the selected route lists the verb and access is allowed; any other outcome is `("Forbidden", 403)` |
| Security.NoRouteForbidden | src/gobmanagement/security.py:84-85 | a request other than `OPTIONS` whose path no key matches is refused |
| SecurityTable.Route0 | src/gobmanagement/security.py:12 | `/status/health/?` matches exactly the paths starting with `/status/health` |
| SecurityTable.Route1 | src/gobmanagement/security.py:16 | the job collection key matches exactly the paths starting with `/gob_management/job` |
| SecurityTable.Route2 | src/gobmanagement/security.py:20 | the job item key needs a character that is not a newline after `/gob_management/job/` |
| SecurityTable.Route3 | src/gobmanagement/security.py:24 | the socket key needs `/gob_management/socket`, any character but a newline, then `io/` |
| SecurityTable.Route4 | src/gobmanagement/security.py:28 | the state key matches exactly the paths starting with `/gob_management/public/state/` |
| SecurityTable.Route5 | src/gobmanagement/security.py:32 | the queue key matches exactly the paths starting with `/gob_management/queue/` |
| SecurityTable.Route6 | src/gobmanagement/security.py:36 | the public catalogs key matches exactly the paths starting with `/gob_management/public/catalogs` |
| SecurityTable.Route7 | src/gobmanagement/security.py:40 | the public queues key matches exactly the paths starting with `/gob_management/public/queues` |
| SecurityTable.Route8 | src/gobmanagement/security.py:44 | the GraphQL key matches exactly the paths starting with `/gob_management/public/graphql` |
| SecurityTable.Route9 | src/gobmanagement/security.py:48 | the catch-all `/.*` matches exactly the paths starting with `/` |
| SecurityTable.HealthPaths | src/gobmanagement/security.py:12-15 | every health path gives the public permission for `GET` and nothing for any other verb, even though the catch-all allows `POST` |
| SecurityTable.JobCollectionPaths | src/gobmanagement/security.py:16-19 | a job path that is not a job item gives the admin-only permission for `POST` and nothing otherwise |
| SecurityTable.JobItemPaths | src/gobmanagement/security.py:20-23 | a job item gives the admin-only permission for `DELETE` and nothing otherwise |
| SecurityTable.SocketPaths | src/gobmanagement/security.py:24-27 | socket paths are public for `GET` and `POST` and give nothing for other verbs |
| SecurityTable.StatePaths | src/gobmanagement/security.py:28-31 | state paths are public for `GET` and give nothing for other verbs |
| SecurityTable.QueuePaths | src/gobmanagement/security.py:32-35 | a queue item gives the admin-only permission for `DELETE` and nothing otherwise |
| SecurityTable.PublicCatalogsPaths | src/gobmanagement/security.py:36-39 | the public catalogue listing is public for `GET` and gives nothing for other verbs |
| SecurityTable.PublicQueuesPaths | src/gobmanagement/security.py:40-43 | the public queue listing is public for `GET` and gives nothing for other verbs |
| SecurityTable.GraphqlPaths | src/gobmanagement/security.py:44-47 | GraphQL is public for `GET` and `POST` and gives nothing for other verbs |
| SecurityTable.FallbackPaths | src/gobmanagement/security.py:48-51 | an absolute path that none of keys 0 to 8 matches needs an admin or read-only admin role, for `GET` and `POST` only; the requires are exactly the negations of what `Route0` to `Route8` state, with the job item family inside the job family |
| SecurityTable.HealthOutcomes | src/tests/test_security.py:62 | `/status/health/` `GET` is public |
| SecurityTable.HealthNoSlashOutcomes | src/tests/test_security.py:63-64 | `/status/health` `GET` is public; `POST` gets nothing |
| SecurityTable.JobCollectionOutcomes | src/tests/test_security.py:65-66 | `/gob_management/job` `POST` needs the admin role; `DELETE` gets nothing |
| SecurityTable.JobItemOutcomes | src/tests/test_security.py:67-68 | `/gob_management/job/1` `DELETE` needs the admin role; `GET` gets nothing |
| SecurityTable.CatalogsOutcomes | src/tests/test_security.py:69 | `/gob_management/catalogs` `GET` needs one of the two admin roles |
| SecurityTable.CatalogsSlashOutcomes | src/tests/test_security.py:70 | `/gob_management/catalogs/` `GET` needs one of the two admin roles |
| SecurityTable.QueuesOutcomes | src/tests/test_security.py:71-72 | `/gob_management/queues/` `GET` and `POST` need one of the two admin roles |
| SecurityTable.QueueItemOutcomes | src/tests/test_security.py:73-74 | `/gob_management/queue/a` `POST` gets nothing; `DELETE` needs the admin role |
| SecurityTable.ProcessStateOutcomes | src/tests/test_security.py:75-76 | a process state path is public for `GET`; `POST` gets nothing |
| SecurityTable.WorkflowStateOutcomes | src/tests/test_security.py:77 | `/gob_management/public/state/workflow` `GET` is public |
| SecurityTable.WorkflowStateSlashOutcomes | src/tests/test_security.py:78-79 | the workflow state path with a slash is public for `GET`; `POST` gets nothing |
| SecurityTable.AllowedAccessOutcomes | src/tests/test_security.py:39-56 | role intersection outcomes of the test: no roles, a foreign role, one or both required roles, an empty requirement, and the public entry |
| SecurityTable.NoFallbackForAdmin | src/gobmanagement/security.py:61-63 | `POST /status/health` is refused even to an admin; `GET` passes with no roles |
| SecurityTable.JobRemovalNeedsAdmin | src/gobmanagement/security.py:20-23 | `DELETE /gob_management/job/1` passes for the admin role and is refused for the read-only admin |
| Cache.Resolved | src/gobmanagement/cache.py:29-43 | after a call the entry for the name has the given id and query; a hit leaves the map unchanged; a miss stores the computed response; no other entry changes |
| Cache.ResolveCache.constructor | src/gobmanagement/cache.py:12-16 | a new cache is empty |
| Cache.ResolveCache.Resolve | src/gobmanagement/cache.py:18-45 | the response function is called exactly on a miss; the new map is `Resolved` of the old; the return value is the stored response, the old one on a hit and the computed one on a miss |
| Cache.ResolveIdempotent | src/gobmanagement/cache.py:30-35 | once a response is stored, a repeated identical call is a hit and changes nothing |
| Cache.StaleEntryRecomputed | src/gobmanagement/cache.py:29-43 | a changed id, a changed query or a stored `None` forces a recompute that overwrites the entry |
| Cache.CacheScenario | src/tests/test_cache.py:15-32 | the call sequence of the cache's test: compute, serve from the cache, then recompute on a changed id and on a changed query |
| Socket.RunLength | src/gobmanagement/socket.py:65 | the loop makes as many passes as there are leading positive client counts |
| Socket.LogBroadcaster.constructor | src/gobmanagement/socket.py:16-25 | a new broadcaster has no clients and no worker |
| Socket.LogBroadcaster.StartBroadcasts | src/gobmanagement/socket.py:48-55 | a worker is spawned exactly when none is recorded; afterwards one is recorded; the count is unchanged |
| Socket.LogBroadcaster.OnConnect | src/gobmanagement/socket.py:27-36 | the count goes up by exactly one, and a worker is recorded, spawned only when none was |
| Socket.LogBroadcaster.OnDisconnect | src/gobmanagement/socket.py:38-46 | the count goes down by exactly one, below zero if need be; the worker slot is untouched |
| Socket.LogBroadcaster.Broadcasts | src/gobmanagement/socket.py:57-73 | the events are those of `LogEvents` over the passes the loop makes; the loop exits exactly when it sees a count that is not positive, and only then is the worker slot cleared |
| Socket.PollLoop | src/gobmanagement/socket.py:64-70 | the loop makes exactly `RunLength` passes and its events are `LogEvents` of the readings of those passes |
| Socket.LogEvents | src/gobmanagement/socket.py:64-69 | the first event never carries `None`; each event differs from the one before; the last event carries the last reading; with no events the last reading is `None` |
| Socket.SilentIffNoLogs | src/gobmanagement/socket.py:66-69 | nothing is emitted exactly when every reading is `None` |
| Socket.ConstantReadings | src/gobmanagement/socket.py:66-69 | readings that never change emit one event, or none when they are `None` |
| Codegen.MessageNameShape | src/gobmanagement/grpc/codegen.py:39-40 | `MessageName`: a message name is three characters longer than the command's name and ends in `Job`; its first character is not lower case, no later character of the name part is upper case, and the name part lower-cases to what the command's name lower-cases to |
| Codegen.ServiceFor | src/gobmanagement/grpc/codegen.py:42-46 | a command's rpc is named `Start` followed by the name of the message it takes, that message is the command's message, and it answers with the response message |
| Codegen.Fields | src/gobmanagement/grpc/codegen.py:38 | one string field per argument, in the argument order |
| Codegen.ServicesFor | src/gobmanagement/grpc/codegen.py:37-46 | one rpc per command, the i-th being the i-th command's |
| Codegen.MessagesFor | src/gobmanagement/grpc/codegen.py:37-51 | one message per command, the i-th being the i-th command's |
| Codegen.CommandsAppend | src/gobmanagement/grpc/codegen.py:37-51 | one more command adds its rpc and its message after those of the commands before it |
| Codegen.ServiceLines | src/gobmanagement/grpc/codegen.py:74-75 | one rpc line per service, in order |
| Codegen.ServiceLinesAppend | src/gobmanagement/grpc/codegen.py:74-81 | `ServiceLine`, `ServicesText`: one more service puts its rpc line after the others inside the service block |
| Codegen.FieldLines | src/gobmanagement/grpc/codegen.py:99 | one line per field, the field at position i numbered i + 1 |
| Codegen.FieldLinesAppend | src/gobmanagement/grpc/codegen.py:99-105 | `FieldLine`, `MessageText`: one more field puts its line after the others, numbered one past them |
| Codegen.MessageTexts | src/gobmanagement/grpc/codegen.py:89-90 | one block per message, in order |
| Codegen.MessageTextsAppend | src/gobmanagement/grpc/codegen.py:89-90 | `MessageText`: one more message puts its block after the others |
| Codegen.FieldNumber | src/gobmanagement/grpc/codegen.py:99 | `FieldLine`: the number in a field line is all digits and reads back as the position plus one, followed by `;` and a newline |
| Codegen.GRPCCodeGenerator.constructor | src/gobmanagement/grpc/codegen.py:25-27 | a new generator has no services and no messages |
| Codegen.GRPCCodeGenerator.CollectCommands | src/gobmanagement/grpc/codegen.py:29-56 | the services grow by one per command; the messages grow by one per command and then the response message |
| Codegen.GRPCCodeGenerator.WriteMessages | src/gobmanagement/grpc/codegen.py:83-105 | the text is the message blocks one after the other |
| Codegen.GRPCCodeGenerator.GenerateProtoDefinition | src/gobmanagement/grpc/codegen.py:107-115 | `ProtoDefinition`: the text is the header, then the service block, then the message blocks |
| Codegen.CollectedPairs | src/gobmanagement/grpc/codegen.py:37-56 | after collecting, the i-th rpc takes the i-th message, every rpc answers with the last message, and that message is `JobResponse` with a single `status` string field |
| Codegen.FixImport | src/gobmanagement/grpc/codegen.py:143 | text without `import jobs_pb2` is left unchanged; each replaced import makes the text longer by the 23 characters of the package prefix |
| Codegen.FixImportOne | src/gobmanagement/grpc/codegen.py:143 | a single `import jobs_pb2` between two texts without one becomes `import gobmanagement.grpc.out.jobs_pb2`, and nothing else changes |
| Codegen.FixImportExample | src/tests/grpc/test_codegen.py:137-149 | the test's contents `some text and import jobs_pb2 and some more stuff` become `some text and import gobmanagement.grpc.out.jobs_pb2 and some more stuff` |
| Codegen.OneServiceBlock | src/tests/grpc/test_codegen.py:73-79 | `ServicesText`: one service gives `service Jobs {`, its `rpc N(A) returns (R) {}` line and the closing brace |
| Codegen.SmallNumbers | src/gobmanagement/grpc/codegen.py:99 | the first two field numbers are written `1` and `2` |
| Codegen.TwoFieldLines | src/gobmanagement/grpc/codegen.py:99 | two fields are written as `\t<type> <name> = 1;` and `= 2;` in order |
| Codegen.TwoFieldMessageBlock | src/tests/grpc/test_codegen.py:81-90 | `MessageText`: a two-field message gives its opening line, the two numbered field lines and the closing brace |
| Codegen.CollectExample | src/tests/grpc/test_codegen.py:10-57 | `command_a` and `command_b` give `StartCommand_aJob`/`Command_aJob` and `StartCommand_bJob`/`Command_bJob`, with their argument fields |
| Codegen.ServiceExample | src/gobmanagement/grpc/codegen.py:38-46 | a command `command_<x>` gives the rpc `StartCommand_<x>Job` taking `Command_<x>Job` and answering `JobResponse` |
| Codegen.MessageExample | src/gobmanagement/grpc/codegen.py:47-51 | a command `command_<x>` with three arguments gives the message `Command_<x>Job` with one string field per argument, in order |
| Workflow.ValueOf | src/gobmanagement/grpc/services/jobs.py:57 | a value is found only under a name the request holds |
| Workflow.ArgsFromFails | src/gobmanagement/grpc/services/jobs.py:54-60 | `ArgsFrom`: extraction fails exactly when some listed attribute is missing from an object read without a default |
| Workflow.ArgsFromContents | src/gobmanagement/grpc/services/jobs.py:54-60 | `ArgsFrom`: the arguments have unique keys, and each listed name holds its request value when that value is not `None`; no other name is present |
| Workflow.DictObjectAgree | src/gobmanagement/grpc/services/jobs.py:57 | a dict and an object with the same values give the same arguments, provided every listed attribute exists or a default is used |
| Workflow.BuildMessage | src/gobmanagement/grpc/services/jobs.py:37-45 | the message has the command's workflow and the arguments as header, and the start step as step name exactly when the step is truthy |
| JobsServicer.ParseJobNameCorrect | src/gobmanagement/grpc/services/jobs.py:19-25 | `ParseJobName`: parsing succeeds exactly on names that fully match `Start(\w*)Job`, and gives the lower-cased middle part |
| JobsServicer.ServiceNameRoundTrip | src/gobmanagement/grpc/services/jobs.py:20-23 | the rpc name the generator writes for a command parses back to the command's name in lower case |
| JobsServicer.GetattrExamples | src/tests/grpc/services/test_jobs.py:25-36 | `StartSomeJob` gives `some`, `StartSome_UnderscoredJob` gives `some_underscored`, and `SomeOtherMethodThatsNotCaught` fails |
| JobsServicer.ExtractArgs | src/gobmanagement/grpc/services/jobs.py:54-60 | the loop's result is the strict extraction over the declared arguments, failing on a missing attribute |
| JobsServicer.ArgsFromErrorStays | src/gobmanagement/grpc/services/jobs.py:56-57 | the first failing attribute ends extraction with its error |
| JobsServicer.PublishJob | src/gobmanagement/grpc/services/jobs.py:32-48 | an unknown command, an extraction error or a failed validation fails; otherwise the message has the workflow, the step name when truthy, and the extracted arguments |
| JobsServicer.StartJob | src/gobmanagement/grpc/services/jobs.py:50-52 | the reply is `OK` exactly when the command is known, its arguments can be read and they validate; a message is published exactly then, and it is the command's workflow, its start step when truthy, and the extracted arguments |
| JobsServicer.Call | src/gobmanagement/grpc/services/jobs.py:19-30 | an attribute name of another shape raises `AttributeError` and publishes nothing; a well-formed name starts the parsed job type with the request, answering `OK` exactly when that job type is known and its arguments can be read and validate, and publishing its full message; a failed start publishes nothing |
| JobsServicer.ExtractArgsExample | src/tests/grpc/services/test_jobs.py:69-101 | for the test's object and dict requests, `arg3` (`None`) is left out and the other two are kept |
| JobHandler.ArgNames | src/gobmanagement/jobs.py:35 | the names read are the declared ones in order, then `user` |
| JobHandler.ExtractArgs | src/gobmanagement/jobs.py:33-39 | the loop's result is the lenient extraction over the declared arguments and `user`, which never fails |
| JobHandler.HandlerArgs | src/gobmanagement/jobs.py:33-39 | the arguments have unique keys and hold exactly the non-`None` values of the declared names and `user`; a missing attribute counts as `None` |
| JobHandler.HandlerDictObjectAgree | src/gobmanagement/jobs.py:36 | dict and object requests with the same values always give the same arguments |
| JobHandler.PublishJob | src/gobmanagement/jobs.py:12-28 | an unknown command or a failed validation fails; otherwise the message has the workflow, the step name when truthy, and the arguments |
| JobHandler.ExtractArgsExample | src/tests/test_jobs.py:10-43 | for the test's object and dict requests, `arg3` and the absent `user` are left out |
| Auth.AuthPropsLookup | src/gobmanagement/auth.py:8-14 | `AuthProps`: the props have unique keys; a key is present exactly when some `X-Auth-` header strips to it, and it holds the value of the last such header |
| Auth.OtherHeaderIgnored | src/gobmanagement/auth.py:12 | a header without the `X-Auth-` prefix changes nothing |
| Auth.UserTextShape | src/gobmanagement/auth.py:17-18 | `UserText`: the string form starts with `USER: `; it is `USER: ` alone exactly when there are no props; each later prop appends `, k='v'` |
| Auth.RequestUser.constructor | src/gobmanagement/auth.py:8-15 | the loop over the headers collects exactly `AuthProps` of the headers |
| Auth.Entries | src/gobmanagement/auth.py:18 | one `k='v'` entry per prop, in insertion order |
| Auth.RequestUser.ToString | src/gobmanagement/auth.py:17-18 | the string form starts with `USER: `; it is `USER: ` alone exactly when there are no props; one prop gives `USER: k='v'`; with more, it is the form of all props but the last, then `, ` and the last one's entry |
| Auth.RequestUserExamples | src/tests/test_auth.py:13-31 | no headers give no props and `USER: `; two auth headers beside `X-prop3` give the two stripped props and their joined string |
| Api.JobGate | src/gobmanagement/api.py:40-51 | a request proceeds exactly when the host contains `127.0.0.1`, or the user id is present and the roles contain `gob_adm`; a missing user id gives 401 before roles are looked at; missing rights give 403 |
| Api.NoRolesNoRights | src/gobmanagement/api.py:45-51 | a remote, logged-in caller without a roles header is refused with 403 |
| Api.Action | src/gobmanagement/api.py:53-57 | the job name is the body's non-null `action`; a missing body or key fails |
| Api.Job | src/gobmanagement/api.py:34-61 | a refusal of the gate is the answer; after the gate every failure is a 400 starting `Job start failed: `; a JSON answer comes exactly from a known command whose arguments validate, and holds the extracted arguments |
| Api.BodyArgsNeverMissing | src/gobmanagement/api.py:57 | a dict body never makes argument extraction fail |
| Api.CatalogNamesShape | src/gobmanagement/api.py:67-71 | `CatalogNames`: each catalog name maps to the names of its collections in their order, with catalogs in their order |
| Api.Catalogs | src/gobmanagement/api.py:64-72 | the nested loops build `CatalogNames` of the catalogue, with status 200 and a JSON content type |
| Api.CatalogsExample | src/tests/test_api.py:15-36 | `catalog1` with `coll1` and `coll2` gives `{'catalog1': ['coll1', 'coll2']}` |
| Api.QueueRejects | src/tests/test_api.py:58-62 | every other method the test tries fails the assertion |
| Api.QueueGuarded | src/gobmanagement/api.py:100-103 | behind the resolver, a queue request that passes (other than `OPTIONS`) is a `DELETE` by an admin, so the assertion holds and the purge's answer is returned |
| Scalars.Serialize | src/gobmanagement/scalars.py:18 | the result is a prefix of the rendering with no `.`, and a `.` follows it unless it is the whole rendering |
| Scalars.SerializeWhole | src/gobmanagement/scalars.py:18 | a rendering without `.` is returned unchanged |
| Scalars.SerializeIdempotent | src/gobmanagement/scalars.py:18 | serializing twice gives the same as once |
| Scalars.SerializeDropsFraction | src/gobmanagement/scalars.py:13-18 | text without `.`, then `.` and a fraction, comes back as the text |
| Scalars.SerializeExample | src/gobmanagement/scalars.py:13 | `hh:mm:ss.msecs` becomes `hh:mm:ss` |

## Left out

- Python's `re` engine beyond the subset the table uses. A pattern with any other metacharacter is treated as matching nothing, and no table key contains one.
- Flask, the request object and role extraction. The verb, path, host, headers, JSON body and role list are parameters.
- Header lookup in the model is case-sensitive; Flask's header lookup is not.
- `LogBroadcaster` threads, `time.sleep`, the socket emit and the database query. One run of the worker loop is a method over the observed passes, each pass being the client count at the loop test and the newest log id. Concurrent changes to the count appear only through those observed counts.
- File writing, `_absolute_path`, `compile_proto` and the import-time `generate()` of the generator. The `_write_*` steps produce text, and `_fix_import` acts on the file's contents as text.
- Codegen.GRPCCodeGenerator.CollectCommands: takes the start commands as a sequence, not as the shared library's `get_all()` dict.
- `StartCommands.get` for an unknown name, and `validate_arguments`, belong to the shared library. An unknown name is modelled as a failure and validation as a predicate parameter. The exact exception texts are not modelled.
- `publish` to the message broker. The message a `PublishJob` returns in `Ok` is the one published, and a failing publish is not modelled.
- Request and body values are text or `None`; other JSON value types are not modelled.
- The `setattr` in `RequestUser`; only the props and the string form are modelled.
- `jsonify` and the HTTP status of a JSON answer; `Api.Job` returns the header itself.
- `JobHandler.remove_job` and the other database work, purging a queue, and listing queues.
- Api.Catalogs: a catalogue is given as its collection dicts; the other fields of a catalog are not modelled.
- Case mapping and word characters are ASCII only, whereas Python's `str.lower`, `str.capitalize` and `\w` follow Unicode.
- `str(timedelta)` is not modelled; `Scalars.Serialize` takes the rendered text.
