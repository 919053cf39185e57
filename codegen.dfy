/** The proto3 definition generator for the job service: every start command becomes an
    rpc `Start<Name>Job` taking a message `<Name>Job` with one string field per argument,
    all answering with `JobResponse`. The definition is written as text: header, service
    block, message blocks. */
module Codegen {
  import opened Wrappers
  import opened Strings
  import opened Workflow

  datatype Field = Field(typ: string, name: string)
  datatype Service = Service(name: string, arg: string, ret: string)
  datatype Message = Message(name: string, args: seq<Field>)

  const RESPONSE_MESSAGE := "JobResponse"

  /** The message every rpc answers with. */
  const RESPONSE: Message := Message(RESPONSE_MESSAGE, [Field("string", "status")])

  /** `command.name.capitalize()` followed by `Job`. */
  function MessageName(command: StartCommand): string
  {
    Capitalize(command.name) + "Job"
  }

  /** A message name is the command's name with its first character upper-cased and the rest
      lower-cased, followed by `Job`; it lower-cases to what the command's name lower-cases to. */
  lemma MessageNameShape(command: StartCommand)
    ensures var r := MessageName(command);
      && |r| == |command.name| + 3 && EndsWith(r, "Job")
      && Lower(r[..|command.name|]) == Lower(command.name)
      && (command.name != [] ==> !IsLowerCase(r[0]))
      && (forall i :: 0 < i < |command.name| ==> !IsUpper(r[i]))
  {
    LowerCapitalize(command.name);
    CapitalizeCases(command.name);
    var c := Capitalize(command.name);
    var r := c + "Job";
    assert r[..|c|] == c;
    assert forall i :: 0 <= i < |c| ==> r[i] == c[i];
  }

  /** The rpc of a command is `Start` followed by the name of the message it takes, and it
      answers with the response message. */
  function ServiceFor(command: StartCommand): (s: Service)
    ensures s.name == "Start" + s.arg
    ensures s.arg == MessageFor(command).name
    ensures s.ret == RESPONSE.name
  {
    Service("Start" + Capitalize(command.name) + "Job", MessageName(command), RESPONSE_MESSAGE)
  }

  /** One string field per argument, in the argument order. */
  function Fields(args: seq<string>): (fs: seq<Field>)
    ensures |fs| == |args|
    ensures forall i :: 0 <= i < |args| ==> fs[i] == Field("string", args[i])
  {
    if args == [] then [] else Fields(args[..|args| - 1]) + [Field("string", args[|args| - 1])]
  }

  function MessageFor(command: StartCommand): Message
  {
    Message(MessageName(command), Fields(command.args))
  }

  /** One rpc per command, in command order. */
  function ServicesFor(commands: seq<StartCommand>): (ss: seq<Service>)
    ensures |ss| == |commands|
    ensures forall i :: 0 <= i < |commands| ==> ss[i] == ServiceFor(commands[i])
  {
    if commands == [] then []
    else ServicesFor(commands[..|commands| - 1]) + [ServiceFor(commands[|commands| - 1])]
  }

  /** One message per command, in command order. */
  function MessagesFor(commands: seq<StartCommand>): (ms: seq<Message>)
    ensures |ms| == |commands|
    ensures forall i :: 0 <= i < |commands| ==> ms[i] == MessageFor(commands[i])
  {
    if commands == [] then []
    else MessagesFor(commands[..|commands| - 1]) + [MessageFor(commands[|commands| - 1])]
  }

  /** `syntax = "proto3";` and an empty line. */
  const HEADER := "syntax = \"proto3\";\n\n"

  function ServiceLine(s: Service): string
  {
    "\trpc " + s.name + "(" + s.arg + ") returns (" + s.ret + ") {}\n"
  }

  /** One rpc line per service, in order. */
  function ServiceLines(services: seq<Service>): (lines: seq<string>)
    ensures |lines| == |services|
    ensures forall i :: 0 <= i < |services| ==> lines[i] == ServiceLine(services[i])
  {
    if services == [] then []
    else ServiceLines(services[..|services| - 1]) + [ServiceLine(services[|services| - 1])]
  }

  /** The service block. */
  function ServicesText(services: seq<Service>): string
  {
    "service Jobs {\n" + Concat(ServiceLines(services)) + "}\n\n"
  }

  /** The line of the field at (zero-based) position `i`; fields are numbered from 1. */
  function FieldLine(f: Field, i: nat): string
  {
    "\t" + f.typ + " " + f.name + " = " + NatToString(i + 1) + ";\n"
  }

  /** The number a field line carries reads back as the field's position plus one. */
  lemma FieldNumber(f: Field, i: nat)
    ensures var prefix := "\t" + f.typ + " " + f.name + " = ";
      && StartsWith(FieldLine(f, i), prefix)
      && var num := FieldLine(f, i)[|prefix|..|FieldLine(f, i)| - 2];
      && (forall k :: 0 <= k < |num| ==> IsDigit(num[k]))
      && ParseDigits(num) == i + 1
      && FieldLine(f, i)[|FieldLine(f, i)| - 2..] == ";\n"
  {
    var prefix := "\t" + f.typ + " " + f.name + " = ";
    var line := FieldLine(f, i);
    assert line == prefix + NatToString(i + 1) + ";\n";
    assert line[|prefix|..|line| - 2] == NatToString(i + 1);
    NatToStringRoundTrip(i + 1);
  }

  /** One line per field, the field at position i numbered i + 1. */
  function FieldLines(fields: seq<Field>): (lines: seq<string>)
    ensures |lines| == |fields|
    ensures forall i :: 0 <= i < |fields| ==> lines[i] == FieldLine(fields[i], i)
  {
    if fields == [] then []
    else FieldLines(fields[..|fields| - 1]) + [FieldLine(fields[|fields| - 1], |fields| - 1)]
  }

  /** A message block. */
  function MessageText(m: Message): string
  {
    "message " + m.name + " {\n" + Concat(FieldLines(m.args)) + "}\n\n"
  }

  /** One block per message, in order. */
  function MessageTexts(ms: seq<Message>): (texts: seq<string>)
    ensures |texts| == |ms|
    ensures forall i :: 0 <= i < |ms| ==> texts[i] == MessageText(ms[i])
  {
    if ms == [] then [] else MessageTexts(ms[..|ms| - 1]) + [MessageText(ms[|ms| - 1])]
  }

  /** One more service puts its rpc line after the others. */
  lemma ServiceLinesAppend(services: seq<Service>, s: Service)
    ensures Concat(ServiceLines(services + [s])) == Concat(ServiceLines(services)) + ServiceLine(s)
  {
    assert (services + [s])[..|services|] == services;
    ConcatOne(ServiceLines(services), ServiceLine(s));
  }

  /** One more field puts its line after the others, numbered one past them. */
  lemma FieldLinesAppend(fields: seq<Field>, f: Field)
    ensures Concat(FieldLines(fields + [f])) == Concat(FieldLines(fields)) + FieldLine(f, |fields|)
  {
    assert (fields + [f])[..|fields|] == fields;
    ConcatOne(FieldLines(fields), FieldLine(f, |fields|));
  }

  /** One more message puts its block after the others. */
  lemma MessageTextsAppend(ms: seq<Message>, m: Message)
    ensures Concat(MessageTexts(ms + [m])) == Concat(MessageTexts(ms)) + MessageText(m)
  {
    assert (ms + [m])[..|ms|] == ms;
    ConcatOne(MessageTexts(ms), MessageText(m));
  }

  /** One more command adds its rpc and its message last. */
  lemma CommandsAppend(commands: seq<StartCommand>, c: StartCommand)
    ensures ServicesFor(commands + [c]) == ServicesFor(commands) + [ServiceFor(c)]
    ensures MessagesFor(commands + [c]) == MessagesFor(commands) + [MessageFor(c)]
  {
    assert (commands + [c])[..|commands|] == commands;
  }

  lemma CollectStep(commands: seq<StartCommand>, i: nat)
    requires i < |commands|
    ensures ServicesFor(commands[..i + 1]) == ServicesFor(commands[..i]) + [ServiceFor(commands[i])]
    ensures MessagesFor(commands[..i + 1]) == MessagesFor(commands[..i]) + [MessageFor(commands[i])]
  {
    assert commands[..i + 1] == commands[..i] + [commands[i]];
    CommandsAppend(commands[..i], commands[i]);
  }

  /** The full text for the commands, in the order header, services, messages. */
  function ProtoDefinition(services: seq<Service>, messages: seq<Message>): string
  {
    HEADER + ServicesText(services) + Concat(MessageTexts(messages))
  }

  class GRPCCodeGenerator {
    var messages: seq<Message>
    var services: seq<Service>

    constructor ()
      ensures messages == [] && services == []
    {
      messages := [];
      services := [];
    }

    /** Appends one service and one message per command, in command order, then the
        response message. */
    method CollectCommands(commands: seq<StartCommand>)
      modifies this
      ensures services == old(services) + ServicesFor(commands)
      ensures messages == old(messages) + MessagesFor(commands) + [RESPONSE]
    {
      var i := 0;
      while i < |commands|
        invariant 0 <= i <= |commands|
        invariant services == old(services) + ServicesFor(commands[..i])
        invariant messages == old(messages) + MessagesFor(commands[..i])
      {
        CollectStep(commands, i);
        ghost var ss, ms := ServicesFor(commands[..i]), MessagesFor(commands[..i]);
        services := services + [ServiceFor(commands[i])];
        messages := messages + [MessageFor(commands[i])];
        assert services == old(services) + (ss + [ServiceFor(commands[i])]);
        assert messages == old(messages) + (ms + [MessageFor(commands[i])]);
        i := i + 1;
      }
      assert commands[..i] == commands;
      messages := messages + [RESPONSE];
    }

    /** The message blocks, one after the other. */
    method WriteMessages() returns (text: string)
      ensures text == Concat(MessageTexts(messages))
    {
      text := "";
      var i := 0;
      while i < |messages|
        invariant 0 <= i <= |messages|
        invariant text == Concat(MessageTexts(messages[..i]))
      {
        assert messages[..i + 1] == messages[..i] + [messages[i]];
        MessageTextsAppend(messages[..i], messages[i]);
        text := text + MessageText(messages[i]);
        i := i + 1;
      }
      assert messages[..i] == messages;
    }

    method GenerateProtoDefinition() returns (text: string)
      ensures text == ProtoDefinition(services, messages)
    {
      var ms := WriteMessages();
      text := HEADER + ServicesText(services) + ms;
    }
  }

  /** After collecting from nothing, the i-th rpc takes the i-th message, every rpc answers
      with the last message, and that message is the response. */
  lemma CollectedPairs(commands: seq<StartCommand>)
    ensures var ss, ms := ServicesFor(commands), MessagesFor(commands) + [RESPONSE];
      && |ms| == |ss| + 1
      && (forall i :: 0 <= i < |ss| ==> ss[i].arg == ms[i].name && ss[i].ret == ms[|ms| - 1].name)
      && ms[|ms| - 1] == RESPONSE
  {
  }

  /** The import the protocol compiler writes, relative to its output directory. */
  const RELATIVE_IMPORT := "import jobs_pb2"

  /** The same import within the package. */
  const PACKAGE_IMPORT := "import gobmanagement.grpc.out.jobs_pb2"

  /** `_fix_import`: the compiler's relative import made absolute within the package. Text
      without the relative import is left alone, and each replaced import lengthens the text
      by the package prefix `gobmanagement.grpc.out.`. */
  function FixImport(contents: string): (r: string)
    ensures !Contains(contents, RELATIVE_IMPORT) ==> r == contents
    ensures |r| == |contents| + 23 * OccurrenceCount(contents, RELATIVE_IMPORT)
  {
    ReplaceFacts(contents, RELATIVE_IMPORT, PACKAGE_IMPORT);
    ReplaceAll(contents, RELATIVE_IMPORT, PACKAGE_IMPORT)
  }

  /** The first character of the relative import does not recur in it. */
  lemma ImportFirstUnique()
    ensures forall k :: 0 < k < |RELATIVE_IMPORT| ==> RELATIVE_IMPORT[k] != RELATIVE_IMPORT[0]
  {
  }

  /** A single relative import between texts without one is the one import rewritten. */
  lemma FixImportOne(a: string, b: string)
    requires !Contains(a, RELATIVE_IMPORT) && !Contains(b, RELATIVE_IMPORT)
    ensures FixImport(a + RELATIVE_IMPORT + b) == a + PACKAGE_IMPORT + b
  {
    ImportFirstUnique();
    ReplaceOne(a, RELATIVE_IMPORT, PACKAGE_IMPORT, b);
  }

  /** The text of the `_fix_import` test: the one import in the middle is rewritten. */
  lemma FixImportExample(a: string, b: string)
    requires a == "some text and " && b == " and some more stuff"
    ensures FixImport(a + "import jobs_pb2" + b) == a + "import gobmanagement.grpc.out.jobs_pb2" + b
  {
    assert !Contains(a, RELATIVE_IMPORT);
    forall i ensures !OccursAt(b, RELATIVE_IMPORT, i) {
      if 0 <= i && i + 15 <= |b| {
        assert b[i] != 'i' && b[i..i + 15][0] == b[i];
      }
    }
    FixImportOne(a, b);
  }

  /* The generated text on the shapes its tests use. */

  /** A single service gives the block opening `service Jobs {`, its rpc line and the
      closing brace followed by an empty line. */
  lemma OneServiceBlock(s: Service)
    ensures ServicesText([s])
      == "service Jobs {\n" + "\trpc " + s.name + "(" + s.arg + ") returns (" + s.ret + ") {}\n" + "}\n\n"
  {
    assert ServiceLines([s]) == [ServiceLine(s)];
    assert Concat([ServiceLine(s)]) == ServiceLine(s) + Concat([]);
  }

  /** The first two field numbers. */
  lemma SmallNumbers()
    ensures NatToString(1) == "1" && NatToString(2) == "2"
  {
  }

  /** Two fields are numbered 1 and 2, in order. */
  lemma TwoFieldLines(f1: Field, f2: Field)
    ensures Concat(FieldLines([f1, f2]))
      == "\t" + f1.typ + " " + f1.name + " = " + "1" + ";\n"
       + ("\t" + f2.typ + " " + f2.name + " = " + "2" + ";\n")
  {
    SmallNumbers();
    var lines := FieldLines([f1, f2]);
    assert lines == [FieldLine(f1, 0), FieldLine(f2, 1)];
    assert lines[1..] == [FieldLine(f2, 1)];
    assert Concat(lines[1..]) == FieldLine(f2, 1) + Concat([]);
  }

  /** A message with two fields gives its opening line, the two numbered field lines and
      the closing brace followed by an empty line. */
  lemma TwoFieldMessageBlock(name: string, f1: Field, f2: Field)
    ensures Concat(MessageTexts([Message(name, [f1, f2])]))
      == "message " + name + " {\n"
       + ("\t" + f1.typ + " " + f1.name + " = " + "1" + ";\n"
       + ("\t" + f2.typ + " " + f2.name + " = " + "2" + ";\n"))
       + "}\n\n"
  {
    var m := Message(name, [f1, f2]);
    TwoFieldLines(f1, f2);
    assert MessageTexts([m]) == [MessageText(m)];
    assert Concat([MessageText(m)]) == MessageText(m) + Concat([]);
  }

  /** The rpcs and messages collected for the commands `command_a` and `command_b`: the
      name is capitalized (the rest lower-cased) and wrapped in `Start…Job` and `…Job`. */
  lemma CollectExample(a: StartCommand, b: StartCommand)
    requires a.name == "command_a" && a.args == ["a", "b", "c"]
    requires b.name == "command_b" && b.args == ["d", "e", "f"]
    ensures ServicesFor([a, b])[0] == Service("StartCommand_aJob", "Command_aJob", "JobResponse")
    ensures ServicesFor([a, b])[1] == Service("StartCommand_bJob", "Command_bJob", "JobResponse")
    ensures MessagesFor([a, b])[0] == Message("Command_aJob", [Field("string", "a"), Field("string", "b"), Field("string", "c")])
    ensures MessagesFor([a, b])[1] == Message("Command_bJob", [Field("string", "d"), Field("string", "e"), Field("string", "f")])
  {
    ServiceExample(a, 'a');
    ServiceExample(b, 'b');
    MessageExample(a, 'a', "a", "b", "c");
    MessageExample(b, 'b', "d", "e", "f");
  }

  /** The rpc for a command `command_<x>`. */
  lemma ServiceExample(c: StartCommand, x: char)
    requires 'a' <= x <= 'z' && c.name == "command_" + [x]
    ensures ServiceFor(c) == Service("StartCommand_" + [x] + "Job", "Command_" + [x] + "Job", RESPONSE_MESSAGE)
  {
    CapitalizeCommand(c.name, x);
  }

  /** The message for a command `command_<x>` with three arguments. */
  lemma MessageExample(c: StartCommand, x: char, a1: string, a2: string, a3: string)
    requires 'a' <= x <= 'z' && c.name == "command_" + [x] && c.args == [a1, a2, a3]
    ensures MessageFor(c) == Message("Command_" + [x] + "Job", [Field("string", a1), Field("string", a2), Field("string", a3)])
  {
    CapitalizeCommand(c.name, x);
  }

  /** `command_<x>` capitalizes to `Command_<x>` for a lower-case letter `x`. */
  lemma CapitalizeCommand(name: string, x: char)
    requires 'a' <= x <= 'z' && name == "command_" + [x]
    ensures Capitalize(name) == "Command_" + [x]
  {
    assert name[1..] == "ommand_" + [x];
    assert forall i :: 0 <= i < |name[1..]| ==> !IsUpper(name[1..][i]);
    assert UpperChar('c') == 'C';
  }
}
