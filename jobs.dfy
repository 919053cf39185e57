/** The job handler of the web API: the same message is built as by the job service, but the
    arguments are read leniently (a missing attribute counts as `None`) and the caller's
    `user` is passed along with the declared ones. */
module JobHandler {
  import opened Wrappers
  import opened Dicts
  import opened Workflow

  /** The names `_extract_args` reads: the declared ones, in order, then `user`. */
  function ArgNames(command: StartCommand): (names: seq<string>)
    ensures |names| == |command.args| + 1 && names[|names| - 1] == "user"
    ensures names[..|command.args|] == command.args
    ensures forall n :: n in names <==> n in command.args || n == "user"
  {
    command.args + ["user"]
  }

  /** `_extract_args`: every name of `ArgNames` read from the request, a missing one as
      `None`, kept when its value is not `None`. It never fails. */
  method ExtractArgs(command: StartCommand, request: Request) returns (args: Dict<string, string>)
    ensures ArgsFrom(ArgNames(command), request, true) == Ok(args)
  {
    var names := ArgNames(command);
    args := [];
    var i := 0;
    while i < |names|
      invariant 0 <= i <= |names|
      invariant ArgsFrom(names[..i], request, true) == Ok(args)
    {
      var name := names[i];
      assert names[..i + 1][..i] == names[..i];
      var attr := ValueOf(request, name);
      if attr.Some? {
        args := Put(args, name, attr.value);
      }
      i := i + 1;
    }
    assert names[..i] == names;
  }

  /** What the handler passes on: unique keys, the declared arguments and `user` with their
      request values when these are not `None`, and nothing else. */
  lemma HandlerArgs(command: StartCommand, request: Request)
    ensures ArgsFrom(ArgNames(command), request, true).Ok?
    ensures var args := ArgsFrom(ArgNames(command), request, true).value;
      && UniqueKeys(args)
      && Get(args, "user") == ValueOf(request, "user")
      && forall n :: Get(args, n) == if n in command.args || n == "user" then ValueOf(request, n) else None
  {
    ArgsFromFails(ArgNames(command), request, true);
    ArgsFromContents(ArgNames(command), request, true);
  }

  /** A dict request and an object request with the same values give the same arguments,
      whatever attributes the object lacks. */
  lemma HandlerDictObjectAgree(command: StartCommand, values: Dict<string, Option<string>>)
    ensures ArgsFrom(ArgNames(command), DictRequest(values), true)
         == ArgsFrom(ArgNames(command), ObjectRequest(values), true)
  {
    DictObjectAgree(ArgNames(command), values, true);
  }

  /** `publish_job`: an unknown command or arguments that do not validate fail; otherwise
      the message for the command with the extracted arguments, which is published. */
  method PublishJob(commands: Dict<string, StartCommand>, validate: (StartCommand, Dict<string, string>) -> bool,
                    name: string, request: Request) returns (r: Result<WorkflowMessage, string>)
    ensures !HasKey(commands, name) ==> r.Err?
    ensures HasKey(commands, name) ==>
      var command := Get(commands, name).value;
      && ArgsFrom(ArgNames(command), request, true).Ok?
      && var args := ArgsFrom(ArgNames(command), request, true).value;
      && (!validate(command, args) ==> r.Err?)
      && (validate(command, args) ==>
            r == Ok(WorkflowMessage(command.workflow,
                                    if Truthy(command.startStep) then command.startStep else None,
                                    args)))
  {
    var found := Get(commands, name);
    if found.None? {
      return Err("unknown start command: " + name);
    }
    var command := found.value;
    var args := ExtractArgs(command, request);
    if !validate(command, args) {
      return Err("invalid arguments for " + name);
    }
    var msg := BuildMessage(command, args);
    return Ok(msg);
  }

  /** The request of the handler's test: `arg3` is `None` and the object has no `user`, so
      both are left out, for the object and for the dict alike. */
  lemma ExtractArgsExample(command: StartCommand, values: Dict<string, Option<string>>)
    requires command.args == ["arg1", "arg2", "arg3"]
    requires values == [("arg1", Some("someval1")), ("arg2", Some("someval2")), ("arg3", None)]
    ensures ArgsFrom(ArgNames(command), ObjectRequest(values), true) == Ok([("arg1", "someval1"), ("arg2", "someval2")])
    ensures ArgsFrom(ArgNames(command), DictRequest(values), true) == Ok([("arg1", "someval1"), ("arg2", "someval2")])
  {
    var names := ArgNames(command);
    var r := ObjectRequest(values);
    assert values[0].0 == "arg1" && values[1].0 == "arg2" && values[2].0 == "arg3";
    assert "user" != "arg1" && "user" != "arg2" && "user" != "arg3";
    assert !HasKey(values, "user");
    assert names[..3][..2] == names[..2];
    assert names[..2][..1] == names[..1];
    assert names[..1][..0] == [];
    assert names[..4] == names;
    assert Attr(r, "arg1", true) == Ok(Some("someval1"));
    assert Attr(r, "arg2", true) == Ok(Some("someval2"));
    assert Attr(r, "arg3", true) == Ok(None);
    assert Attr(r, "user", true) == Ok(None);
    assert Put([], "arg1", "someval1") == [("arg1", "someval1")];
    assert IndexOf([("arg1", "someval1")], "arg2") == None;
    assert Put([("arg1", "someval1")], "arg2", "someval2") == [("arg1", "someval1"), ("arg2", "someval2")];
    assert names[..2][1] == "arg2" && names[..3][2] == "arg3" && names[3] == "user";
    assert ArgsFrom(names[..1], r, true) == Ok([("arg1", "someval1")]);
    assert ArgsFrom(names[..2], r, true) == Ok([("arg1", "someval1"), ("arg2", "someval2")]);
    assert ArgsFrom(names[..3], r, true) == Ok([("arg1", "someval1"), ("arg2", "someval2")]);
    HandlerDictObjectAgree(command, values);
  }
}
