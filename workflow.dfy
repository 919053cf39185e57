/** What the two job front ends share: start commands as the platform's shared library
    describes them, the request a job is started with, the arguments taken from it, and the
    workflow message that is published. */
module Workflow {
  import opened Wrappers
  import opened Dicts

  /** A start command: its name, the names of its arguments, the workflow it starts and
      the step to start at (`None` for none). */
  datatype StartCommand = StartCommand(name: string, args: seq<string>, workflow: string, startStep: Option<string>)

  /** A request carries its values either in a dict or as attributes of an object. A
      `None` value is Python's `None`; an object lacks the attributes not listed. */
  datatype Request = DictRequest(entries: Dict<string, Option<string>>) | ObjectRequest(attrs: Dict<string, Option<string>>)

  /** The values the request holds, by name. */
  function Values(r: Request): Dict<string, Option<string>>
  {
    match r
    case DictRequest(entries) => entries
    case ObjectRequest(attrs) => attrs
  }

  /** The value under `name`, with a missing one read as `None`. */
  function ValueOf(r: Request, name: string): (v: Option<string>)
    ensures v.Some? ==> HasKey(Values(r), name)
  {
    match Get(Values(r), name)
    case None => None
    case Some(v) => v
  }

  /** Reading one argument. A dict answers `None` for a missing name; an object without
      the attribute raises, unless a default of `None` is given (`lenient`). */
  function Attr(r: Request, name: string, lenient: bool): Result<Option<string>, string>
  {
    if r.ObjectRequest? && !lenient && !HasKey(r.attrs, name) then Err("AttributeError: " + name)
    else Ok(ValueOf(r, name))
  }

  /** The arguments the loop collects over `names`, in order: each name whose value is not
      `None`, mapped to that value (a repeated name keeps its first position and its last
      value). The first unreadable attribute ends the loop with its error. */
  function ArgsFrom(names: seq<string>, r: Request, lenient: bool): Result<Dict<string, string>, string>
  {
    if names == [] then Ok([])
    else
      var name := names[|names| - 1];
      match ArgsFrom(names[..|names| - 1], r, lenient)
      case Err(e) => Err(e)
      case Ok(d) =>
        match Attr(r, name, lenient)
        case Err(e) => Err(e)
        case Ok(None) => Ok(d)
        case Ok(Some(v)) => Ok(Put(d, name, v))
  }

  /** Collecting fails exactly when some listed attribute is missing from an object read
      without a default. */
  lemma {:induction false} ArgsFromFails(names: seq<string>, r: Request, lenient: bool)
    ensures ArgsFrom(names, r, lenient).Err? <==>
      r.ObjectRequest? && !lenient && exists n :: n in names && !HasKey(r.attrs, n)
  {
    if names != [] {
      var init := names[..|names| - 1];
      ArgsFromFails(init, r, lenient);
      assert forall n :: n in names <==> n in init || n == names[|names| - 1];
    }
  }

  /** The collected arguments: unique keys, and under each name exactly its request value,
      for the listed names whose value is not `None`. */
  lemma {:induction false} ArgsFromContents(names: seq<string>, r: Request, lenient: bool)
    requires ArgsFrom(names, r, lenient).Ok?
    ensures UniqueKeys(ArgsFrom(names, r, lenient).value)
    ensures forall n ::
      Get(ArgsFrom(names, r, lenient).value, n) == if n in names then ValueOf(r, n) else None
  {
    if names != [] {
      var init := names[..|names| - 1];
      var name := names[|names| - 1];
      ArgsFromContents(init, r, lenient);
      var d := ArgsFrom(init, r, lenient).value;
      assert forall n :: n in names <==> n in init || n == name;
      match Attr(r, name, lenient)
      case Ok(None) =>
      case Ok(Some(v)) =>
        PutKeys(d, name, v);
        forall n ensures Get(Put(d, name, v), n) == if n in names then ValueOf(r, n) else None {
          PutGet(d, name, v, n);
        }
    }
  }

  /** A dict and an object holding the same values give the same arguments, provided the
      object has every listed attribute or is read with a default. */
  lemma {:induction false} DictObjectAgree(names: seq<string>, values: Dict<string, Option<string>>, lenient: bool)
    requires lenient || forall n :: n in names ==> HasKey(values, n)
    ensures ArgsFrom(names, DictRequest(values), lenient) == ArgsFrom(names, ObjectRequest(values), lenient)
  {
    if names != [] {
      var init := names[..|names| - 1];
      assert forall n :: n in init ==> n in names;
      DictObjectAgree(init, values, lenient);
    }
  }

  /** Python truthiness of the start step: present and not empty. */
  predicate Truthy(step: Option<string>)
  {
    step.Some? && step.value != ""
  }

  /** `{'workflow': {'workflow_name': …, 'step_name': …}, 'header': …}`; `stepName` is
      `None` when the key is absent. */
  datatype WorkflowMessage = WorkflowMessage(workflowName: string, stepName: Option<string>, header: Dict<string, string>)

  /** Builds the message for `command` with the collected `args`, adding the step name only
      when the command has a truthy start step. */
  method BuildMessage(command: StartCommand, args: Dict<string, string>) returns (msg: WorkflowMessage)
    ensures msg.workflowName == command.workflow
    ensures msg.header == args
    ensures msg.stepName == if Truthy(command.startStep) then command.startStep else None
  {
    msg := WorkflowMessage(command.workflow, None, args);
    if Truthy(command.startStep) {
      msg := msg.(stepName := command.startStep);
    }
  }
}
