/** The gRPC job service. Every rpc `Start<Name>Job` of the generated service is answered by
    one catch-all: the attribute name is parsed back to the job type, the job's workflow
    message is built from the request and published, and the reply is `JobResponse("OK")`. */
module JobsServicer {
  import opened Wrappers
  import opened Strings
  import opened Dicts
  import opened Workflow
  import Codegen

  /** `re.fullmatch(r'Start(\w*)Job', name)`, stated directly: the name is `Start`, a run of
      word characters, and `Job`. */
  ghost predicate IsStartJobName(name: string)
  {
    exists middle :: name == "Start" + middle + "Job" && AllWordChars(middle)
  }

  /** The part between `Start` and `Job`. */
  function Middle(name: string): string
    requires |name| >= 8
  {
    name[5..|name| - 3]
  }

  /** `__getattr__`: the job type for an attribute name, the lower-cased middle part, or an
      `AttributeError` for a name of any other shape. */
  function ParseJobName(name: string): Result<string, string>
  {
    if |name| >= 8 && StartsWith(name, "Start") && EndsWith(name, "Job") && AllWordChars(Middle(name))
    then Ok(Lower(Middle(name)))
    else Err("AttributeError")
  }

  /** Parsing succeeds exactly on names of the rpc shape, and yields the lower-cased middle
      part of such a name. */
  lemma ParseJobNameCorrect(name: string)
    ensures ParseJobName(name).Ok? <==> IsStartJobName(name)
    ensures forall middle :: name == "Start" + middle + "Job" ==>
      ParseJobName(name) == if AllWordChars(middle) then Ok(Lower(middle)) else Err("AttributeError")
  {
    forall middle | name == "Start" + middle + "Job"
      ensures |name| >= 8 && StartsWith(name, "Start") && EndsWith(name, "Job") && Middle(name) == middle
    {
    }
    if ParseJobName(name).Ok? {
      var middle := Middle(name);
      assert name == "Start" + middle + "Job";
    }
  }

  /** The rpc the generator writes for a command is parsed back to the command's name in
      lower case; for a lower-case name, to the name itself. */
  lemma ServiceNameRoundTrip(command: StartCommand)
    requires AllWordChars(command.name)
    ensures ParseJobName(Codegen.ServiceFor(command).name) == Ok(Lower(command.name))
    ensures (forall i :: 0 <= i < |command.name| ==> !IsUpper(command.name[i])) ==>
      ParseJobName(Codegen.ServiceFor(command).name) == Ok(command.name)
  {
    var cap := Capitalize(command.name);
    CapitalizeWordChars(command.name);
    LowerCapitalize(command.name);
    ParseJobNameCorrect("Start" + cap + "Job");
    if forall i :: 0 <= i < |command.name| ==> !IsUpper(command.name[i]) {
      assert Lower(command.name) == command.name;
    }
  }

  /** The attribute names of the service's tests. */
  lemma GetattrExamples(some: string, underscored: string, other: string)
    requires some == "StartSomeJob"
    requires underscored == "StartSome_UnderscoredJob"
    requires other == "SomeOtherMethodThatsNotCaught"
    ensures ParseJobName(some) == Ok("some")
    ensures ParseJobName(underscored) == Ok("some_underscored")
    ensures ParseJobName(other).Err?
  {
    ParseSome(some);
    ParseUnderscored(underscored);
    assert other[0] != "Start"[1];
  }

  lemma ParseSome(name: string)
    requires name == "StartSomeJob"
    ensures ParseJobName(name) == Ok("some")
  {
    assert name == "Start" + "Some" + "Job";
    ParseJobNameCorrect(name);
    assert AllWordChars("Some");
    assert Lower("Some") == "some" by {
      assert LowerChar('S') == 's';
    }
  }

  lemma ParseUnderscored(name: string)
    requires name == "StartSome_UnderscoredJob"
    ensures ParseJobName(name) == Ok("some_underscored")
  {
    UnderscoredShape(name);
    UnderscoredMiddle();
  }

  lemma UnderscoredShape(name: string)
    requires name == "StartSome_UnderscoredJob"
    ensures |name| >= 8 && StartsWith(name, "Start") && EndsWith(name, "Job")
    ensures Middle(name) == "Some_Underscored"
  {
  }

  /** The middle part is made of word characters and lower-cases piece by piece. */
  lemma UnderscoredMiddle()
    ensures AllWordChars("Some_Underscored")
    ensures Lower("Some_Underscored") == "some_underscored"
  {
    SomePiece();
    UnderscoredPiece();
    WordCharsAppend("Some_", "Underscored");
    LowerAppend("Some_", "Underscored");
    assert "Some_" + "Underscored" == "Some_Underscored";
    assert "some_" + "underscored" == "some_underscored";
  }

  lemma SomePiece()
    ensures AllWordChars("Some_") && Lower("Some_") == "some_"
  {
    assert LowerChar('S') == 's';
  }

  lemma UnderscoredPiece()
    ensures AllWordChars("Underscored") && Lower("Underscored") == "underscored"
  {
    assert LowerChar('U') == 'u';
  }

  /** The reply of `start_job`. */
  datatype JobResponse = JobResponse(status: string)

  /** `_extract_args`: each declared argument read from the request (a missing attribute of
      an object request raises), kept when its value is not `None`. */
  method ExtractArgs(command: StartCommand, request: Request) returns (r: Result<Dict<string, string>, string>)
    ensures r == ArgsFrom(command.args, request, false)
  {
    var args: Dict<string, string> := [];
    var i := 0;
    while i < |command.args|
      invariant 0 <= i <= |command.args|
      invariant ArgsFrom(command.args[..i], request, false) == Ok(args)
    {
      var name := command.args[i];
      assert command.args[..i + 1][..i] == command.args[..i];
      var attr := Attr(request, name, false);
      if attr.Err? {
        ArgsFromErrorStays(command.args, i + 1, request, false);
        assert command.args[..|command.args|] == command.args;
        return Err(attr.error);
      }
      if attr.value.Some? {
        args := Put(args, name, attr.value.value);
      }
      i := i + 1;
    }
    assert command.args[..i] == command.args;
    r := Ok(args);
  }

  /** Once collecting over a prefix of the names fails, collecting over the whole list fails
      with the same error. */
  lemma {:induction false} ArgsFromErrorStays(names: seq<string>, n: nat, r: Request, lenient: bool)
    requires n <= |names|
    requires ArgsFrom(names[..n], r, lenient).Err?
    ensures ArgsFrom(names, r, lenient) == ArgsFrom(names[..n], r, lenient)
    decreases |names| - n
  {
    if n < |names| {
      assert names[..n + 1][..n] == names[..n];
      ArgsFromErrorStays(names, n + 1, r, lenient);
    } else {
      assert names[..n] == names;
    }
  }

  /** `publish_job`: looks the command up (an unknown name fails), extracts and validates
      the arguments (either may fail), and builds the message; an `Ok` message is the one
      published. `validate` stands for the command's argument validation. */
  method PublishJob(commands: Dict<string, StartCommand>, validate: (StartCommand, Dict<string, string>) -> bool,
                    name: string, request: Request) returns (r: Result<WorkflowMessage, string>)
    ensures !HasKey(commands, name) ==> r.Err?
    ensures HasKey(commands, name) ==>
      var command := Get(commands, name).value;
      var args := ArgsFrom(command.args, request, false);
      && (args.Err? ==> r == Err(args.error))
      && (args.Ok? && !validate(command, args.value) ==> r.Err?)
      && (args.Ok? && validate(command, args.value) ==>
            r == Ok(WorkflowMessage(command.workflow,
                                    if Truthy(command.startStep) then command.startStep else None,
                                    args.value)))
  {
    var found := Get(commands, name);
    if found.None? {
      return Err("unknown start command: " + name);
    }
    var command := found.value;
    var args := ExtractArgs(command, request);
    if args.Err? {
      return Err(args.error);
    }
    if !validate(command, args.value) {
      return Err("invalid arguments for " + name);
    }
    var msg := BuildMessage(command, args.value);
    return Ok(msg);
  }

  /** `start_job`: publishes the job and answers `OK`; a failure to publish propagates. */
  method StartJob(commands: Dict<string, StartCommand>, validate: (StartCommand, Dict<string, string>) -> bool,
                  name: string, request: Request) returns (r: Result<JobResponse, string>, published: Option<WorkflowMessage>)
    ensures r.Ok? <==> published.Some?
    ensures r.Ok? ==> r.value == JobResponse("OK")
    ensures r.Ok? <==>
      && HasKey(commands, name)
      && var command := Get(commands, name).value;
      && ArgsFrom(command.args, request, false).Ok?
      && validate(command, ArgsFrom(command.args, request, false).value)
    ensures r.Ok? ==>
      var command := Get(commands, name).value;
      published == Some(WorkflowMessage(command.workflow,
                                        if Truthy(command.startStep) then command.startStep else None,
                                        ArgsFrom(command.args, request, false).value))
  {
    var msg := PublishJob(commands, validate, name, request);
    if msg.Err? {
      return Err(msg.error), None;
    }
    return Ok(JobResponse("OK")), Some(msg.value);
  }

  /** An rpc call through the catch-all: the attribute name gives the job type, which is
      started with the call's request. */
  method Call(commands: Dict<string, StartCommand>, validate: (StartCommand, Dict<string, string>) -> bool,
              attribute: string, request: Request) returns (r: Result<JobResponse, string>, published: Option<WorkflowMessage>)
    ensures ParseJobName(attribute).Err? ==> r == Err("AttributeError") && published == None
    ensures r.Ok? <==> published.Some?
    ensures r.Ok? ==> r.value == JobResponse("OK")
    ensures ParseJobName(attribute).Ok? ==>
      var name := ParseJobName(attribute).value;
      && (r.Ok? <==>
            && HasKey(commands, name)
            && var command := Get(commands, name).value;
            && ArgsFrom(command.args, request, false).Ok?
            && validate(command, ArgsFrom(command.args, request, false).value))
      && (r.Ok? ==>
            var command := Get(commands, name).value;
            published == Some(WorkflowMessage(command.workflow,
                                              if Truthy(command.startStep) then command.startStep else None,
                                              ArgsFrom(command.args, request, false).value)))
  {
    var jobType := ParseJobName(attribute);
    if jobType.Err? {
      return Err(jobType.error), None;
    }
    r, published := StartJob(commands, validate, jobType.value, request);
  }

  /** The request of the extraction test, as an object and as a dict: `arg3` is `None` and
      is left out. */
  lemma ExtractArgsExample(command: StartCommand, values: Dict<string, Option<string>>)
    requires command.args == ["arg1", "arg2", "arg3"]
    requires values == [("arg1", Some("someval1")), ("arg2", Some("someval2")), ("arg3", None)]
    ensures ArgsFrom(command.args, ObjectRequest(values), false) == Ok([("arg1", "someval1"), ("arg2", "someval2")])
    ensures ArgsFrom(command.args, DictRequest(values), false) == Ok([("arg1", "someval1"), ("arg2", "someval2")])
  {
    assert command.args[..2] == ["arg1", "arg2"];
    assert command.args[..1] == ["arg1"];
    assert command.args[..0] == [];
    assert "arg1" != "arg2" && "arg1" != "arg3" && "arg2" != "arg3";
    assert values[0].0 == "arg1" && values[1].0 == "arg2" && values[2].0 == "arg3";
    var r := ObjectRequest(values);
    assert Attr(r, "arg1", false) == Ok(Some("someval1"));
    assert Attr(r, "arg2", false) == Ok(Some("someval2"));
    assert Attr(r, "arg3", false) == Ok(None);
    assert command.args[..2][..1] == command.args[..1];
    assert command.args[..1][..0] == [];
    assert command.args[..3] == command.args;
    assert Put([], "arg1", "someval1") == [("arg1", "someval1")];
    assert IndexOf([("arg1", "someval1")], "arg2") == None;
    assert Put([("arg1", "someval1")], "arg2", "someval2") == [("arg1", "someval1"), ("arg2", "someval2")];
    assert command.args[..2][1] == "arg2";
    assert ArgsFrom(command.args[..1], r, false) == Ok([("arg1", "someval1")]);
    assert ArgsFrom(command.args[..2], r, false) == Ok([("arg1", "someval1"), ("arg2", "someval2")]);
    DictObjectAgree(command.args, values, false);
  }
}
