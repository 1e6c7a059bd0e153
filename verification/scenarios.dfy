/**
 The example bot: the three example command modules registered in one registry, the
 behaviour of their callables, and what the router makes of concrete interactions.
 */
module Scenarios {
  import opened Values
  import opened Registry
  import opened Router
  import PingCommand
  import TestCommand
  import ModalCommand

  /** What a command sends back through the vendor library. */
  datatype Response =
    | Reply(text: string)
    | ReplyWithButtons(text: string, buttonIds: seq<string>)
    | Respond(choices: seq<TestCommand.Choice>)
    | ShowModal(modal: ModalCommand.Modal)

  /** What the example callables do when called with an interaction. */
  function Perform(f: Callable, i: Interaction): seq<Response> {
    if f == PingCommand.Execute then
      [ReplyWithButtons(PingCommand.Prompt, PingCommand.ButtonIds)]
    else if f == PingCommand.ButtonHandler && i.Button? then
      var replies := PingCommand.ButtonReplies(i.customId);
      if |replies| == 1 then [Reply(replies[0])] else []
    else if f == TestCommand.Execute && i.ChatInput? then
      [Reply(TestCommand.ExecuteReply(i.options))]
    else if f == TestCommand.AutoCompleteHandler && i.Autocomplete? then
      [Respond(TestCommand.Suggestions(i.focused))]
    else if f == ModalCommand.Execute then
      [ShowModal(ModalCommand.Shown)]
    else if f == ModalCommand.SubmitHandler && i.ModalSubmit? then
      match ModalCommand.SubmitReply(i.fields)
      case Some(text) => [Reply(text)]
      case None => []
    else []
  }

  /** Routing an interaction and running whatever it invokes. */
  function Handle(reg: Registry, i: Interaction): seq<Response> {
    match HandleCommand(reg, i)
    case Invoked(f, a) => Perform(f, a)
    case _ => []
  }

  /** The example modules as they are written. */
  const ModulesAsWritten: seq<Module> := [PingCommand.AsWritten, ModalCommand.AsWritten, TestCommand.AsWritten]

  /** The example modules with their handlers exported under allow-listed names. */
  const Modules: seq<Module> := [PingCommand.Corrected, ModalCommand.AsWritten, TestCommand.Corrected]

  function Bot(ms: seq<Module>): Registry {
    RegisterAll(Empty, ms)
  }

  // ---------------------------------------------------------------- registration

  /** As written, `ping` ends up with an empty handler table: `buttonHandler` is not installed. */
  lemma PingHandlersAsWritten()
    ensures Stored(PingCommand.AsWritten).handlers == Some(map[])
  {
    InstallHandlersPair(map[], PingCommand.AsWritten.exports[0], PingCommand.AsWritten.exports[1]);
  }

  /** As written, `test` keeps its empty inline table: `autoCompleteHandler` is not installed. */
  lemma TestHandlersAsWritten()
    ensures Stored(TestCommand.AsWritten).handlers == Some(map[])
  {
    InstallHandlersPair(map[], TestCommand.AsWritten.exports[0], TestCommand.AsWritten.exports[1]);
  }

  /** `handleModalSubmit` passes the allow-list and is installed under its own name. */
  lemma ModalHandlers()
    ensures Stored(ModalCommand.AsWritten).handlers == Some(map["handleModalSubmit" := Fn(ModalCommand.SubmitHandler)])
  {
    InstallHandlersPair(map[], ModalCommand.AsWritten.exports[0], ModalCommand.AsWritten.exports[1]);
  }

  lemma PingHandlersCorrected()
    ensures Stored(PingCommand.Corrected).handlers == Some(map["handleButtonClick" := Fn(PingCommand.ButtonHandler)])
  {
    InstallHandlersPair(map[], PingCommand.Corrected.exports[0], PingCommand.Corrected.exports[1]);
  }

  lemma TestHandlersCorrected()
    ensures Stored(TestCommand.Corrected).handlers == Some(map["handleAutoComplete" := Fn(TestCommand.AutoCompleteHandler)])
  {
    InstallHandlersPair(map[], TestCommand.Corrected.exports[0], TestCommand.Corrected.exports[1]);
  }

  /**
   Three registered modules give three payloads, in order; the map is keyed by name, so a
   repeated name keeps the later module.
   */
  lemma BotOfThree(m1: Module, m2: Module, m3: Module)
    requires Registers(CommandOf(m1)) && Registers(CommandOf(m2)) && Registers(CommandOf(m3))
    ensures Bot([m1, m2, m3]).commands == map[
      CommandOf(m1).data.value.name := Stored(m1),
      CommandOf(m2).data.value.name := Stored(m2),
      CommandOf(m3).data.value.name := Stored(m3)]
    ensures Bot([m1, m2, m3]).payloads
         == [ToJson(CommandOf(m1).data.value), ToJson(CommandOf(m2).data.value), ToJson(CommandOf(m3).data.value)]
  {
    RegisterAllThree(Empty, m1, m2, m3);
  }

  /** The registry of the example bot, from either list of modules. */
  lemma BotSteps(ms: seq<Module>)
    requires ms == ModulesAsWritten || ms == Modules
    ensures Bot(ms).commands == map[
      PingCommand.Name := Stored(ms[0]),
      ModalCommand.Name := Stored(ms[1]),
      TestCommand.Name := Stored(ms[2])]
    ensures Bot(ms).payloads == [ToJson(PingCommand.Data), ToJson(ModalCommand.Data), ToJson(TestCommand.Data)]
  {
    assert ms == [ms[0], ms[1], ms[2]];
    BotOfThree(ms[0], ms[1], ms[2]);
  }

  /** Payloads are sent in registration order, one per command. */
  lemma PayloadsInRegistrationOrder()
    ensures |Bot(Modules).payloads| == 3
    ensures Bot(Modules).payloads[0].name == "ping"
    ensures Bot(Modules).payloads[1].name == "testmodal"
    ensures Bot(Modules).payloads[2].name == "test"
  {
    BotSteps(Modules);
  }

  // ---------------------------------------------------------------- routing

  /** Both buttons of `ping` and the modal of `testmodal` lead back to their commands. */
  lemma CustomIdsReachTheirCommands()
    ensures ExtractCommandName(PingCommand.HelloButtonId) == PingCommand.Name
    ensures ExtractCommandName(PingCommand.HiButtonId) == PingCommand.Name
    ensures ExtractCommandName(ModalCommand.ModalId) == ModalCommand.Name
  {
    HelloButtonOwner();
    HiButtonOwner();
    ModalOwner();
  }

  lemma HelloButtonOwner()
    ensures ExtractCommandName("ping-hello_button") == "ping"
  {
    ExtractFromCustomId("ping", "hello_button");
    assert "ping-hello_button" == "ping" + [Separator] + "hello_button";
  }

  lemma HiButtonOwner()
    ensures ExtractCommandName("ping-hi_button") == "ping"
  {
    ExtractFromCustomId("ping", "hi_button");
    assert "ping-hi_button" == "ping" + [Separator] + "hi_button";
  }

  lemma ModalOwner()
    ensures ExtractCommandName("testmodal-testmodal") == "testmodal"
  {
    ExtractFromCustomId("testmodal", "testmodal");
    assert "testmodal-testmodal" == "testmodal" + [Separator] + "testmodal";
  }

  /**
   Any modal submission whose custom identifier leads to `testmodal` is routed to
   `handleModalSubmit`, which replies with what was typed, if the field is there.
   */
  lemma ModalRoute(reg: Registry, customId: string, fields: map<string, string>)
    requires ExtractCommandName(customId) == ModalCommand.Name
    requires Lookup(reg, ModalCommand.Name) == Some(Stored(ModalCommand.AsWritten))
    ensures var i := ModalSubmit(customId, fields);
      && HandleCommand(reg, i) == Invoked(ModalCommand.SubmitHandler, i)
      && Handle(reg, i)
         == (if ModalCommand.SubmitReply(fields).Some? then [Reply(ModalCommand.SubmitReply(fields).value)] else [])
  {
    ModalHandlers();
    HandlerRoute(reg, ModalSubmit(customId, fields), Stored(ModalCommand.AsWritten), "handleModalSubmit", ModalCommand.SubmitHandler);
  }

  /** A submission of the `testmodal` modal is routed to `handleModalSubmit` once. */
  lemma ModalSubmitRouted(fields: map<string, string>)
    ensures var i := ModalSubmit(ModalCommand.ModalId, fields);
      && HandleCommand(Bot(ModulesAsWritten), i) == Invoked(ModalCommand.SubmitHandler, i)
      && Handle(Bot(ModulesAsWritten), i)
         == (if ModalCommand.SubmitReply(fields).Some? then [Reply(ModalCommand.SubmitReply(fields).value)] else [])
  {
    BotSteps(ModulesAsWritten);
    ModalOwner();
    ModalRoute(Bot(ModulesAsWritten), ModalCommand.ModalId, fields);
  }

  /** Filling in the modal `execute` shows and submitting it yields exactly one reply. */
  lemma ModalRoundTrip(text: string)
    ensures Handle(Bot(ModulesAsWritten), ModalSubmit(ModalCommand.ModalId, ModalCommand.Submission(ModalCommand.Shown, text)))
         == [Reply(if text != "" then "You submitted: " + text else ModalCommand.EmptyReply)]
  {
    var fields := ModalCommand.Submission(ModalCommand.Shown, text);
    ModalSubmitRouted(fields);
    ModalCommand.SubmittingShownModal(text);
  }

  /** Every `ping` button leads back to `ping`. */
  lemma PingButtonOwner(customId: string)
    requires customId in PingCommand.ButtonIds
    ensures ExtractCommandName(customId) == PingCommand.Name
  {
    HelloButtonOwner();
    HiButtonOwner();
  }

  /** A click on a `ping` button, with `ping` registered as written, reaches no handler. */
  lemma PingClickAsWritten(reg: Registry, customId: string)
    requires ExtractCommandName(customId) == PingCommand.Name
    requires Lookup(reg, PingCommand.Name) == Some(Stored(PingCommand.AsWritten))
    ensures HandleCommand(reg, Button(customId)) == Ignored
    ensures Handle(reg, Button(customId)) == []
  {
    PingHandlersAsWritten();
    HandlerMissing(reg, Button(customId), Stored(PingCommand.AsWritten), "handleButtonClick");
  }

  /** As written, clicking either `ping` button invokes nothing: its handler was never installed. */
  lemma PingClickIgnoredAsWritten(customId: string)
    requires customId in PingCommand.ButtonIds
    ensures HandleCommand(Bot(ModulesAsWritten), Button(customId)) == Ignored
    ensures Handle(Bot(ModulesAsWritten), Button(customId)) == []
  {
    BotSteps(ModulesAsWritten);
    PingButtonOwner(customId);
    PingClickAsWritten(Bot(ModulesAsWritten), customId);
  }

  /** A click on a `ping` button, with the handler exported as `handleButtonClick`, gets its reply. */
  lemma PingClickCorrected(reg: Registry, customId: string)
    requires ExtractCommandName(customId) == PingCommand.Name
    requires Lookup(reg, PingCommand.Name) == Some(Stored(PingCommand.Corrected))
    ensures HandleCommand(reg, Button(customId)) == Invoked(PingCommand.ButtonHandler, Button(customId))
    ensures Handle(reg, Button(customId))
         == (if customId in PingCommand.ButtonIds then [Reply(PingCommand.ButtonReplies(customId)[0])] else [])
  {
    PingHandlersCorrected();
    PingCommand.ButtonRepliesCoverButtons(customId);
    HandlerRoute(reg, Button(customId), Stored(PingCommand.Corrected), "handleButtonClick", PingCommand.ButtonHandler);
  }

  /** With the handler exported as `handleButtonClick`, each button gets its one reply. */
  lemma PingClickRepliesCorrected(customId: string)
    requires customId in PingCommand.ButtonIds
    ensures HandleCommand(Bot(Modules), Button(customId)) == Invoked(PingCommand.ButtonHandler, Button(customId))
    ensures Handle(Bot(Modules), Button(customId))
         == [Reply(if customId == PingCommand.HelloButtonId then "hello world" else "hi")]
  {
    BotSteps(Modules);
    PingButtonOwner(customId);
    PingClickCorrected(Bot(Modules), customId);
  }

  /** Autocompletion for `test`, registered as written, reaches no handler. */
  lemma AutocompleteAsWritten(reg: Registry, query: string)
    requires Lookup(reg, TestCommand.Name) == Some(Stored(TestCommand.AsWritten))
    ensures HandleCommand(reg, Autocomplete(TestCommand.Name, query)) == Ignored
  {
    TestHandlersAsWritten();
    HandlerMissing(reg, Autocomplete(TestCommand.Name, query), Stored(TestCommand.AsWritten), "handleAutoComplete");
  }

  /** As written, autocompletion for `test` invokes nothing. */
  lemma AutocompleteIgnoredAsWritten(query: string)
    ensures HandleCommand(Bot(ModulesAsWritten), Autocomplete(TestCommand.Name, query)) == Ignored
  {
    BotSteps(ModulesAsWritten);
    AutocompleteAsWritten(Bot(ModulesAsWritten), query);
  }

  /** Autocompletion for `test`, with the handler exported as `handleAutoComplete`, responds with the suggestions. */
  lemma AutocompleteRoute(reg: Registry, query: string)
    requires Lookup(reg, TestCommand.Name) == Some(Stored(TestCommand.Corrected))
    ensures Handle(reg, Autocomplete(TestCommand.Name, query)) == [Respond(TestCommand.Suggestions(query))]
  {
    TestHandlersCorrected();
    HandlerRoute(reg, Autocomplete(TestCommand.Name, query), Stored(TestCommand.Corrected), "handleAutoComplete", TestCommand.AutoCompleteHandler);
  }

  /** With the handler exported as `handleAutoComplete`, "sh" is answered with the sharding guide. */
  lemma AutocompleteCorrected()
    ensures Handle(Bot(Modules), Autocomplete(TestCommand.Name, "sh"))
         == [Respond([TestCommand.Choice("Sharding: Getting started", "sharding: getting started")])]
  {
    BotSteps(Modules);
    AutocompleteRoute(Bot(Modules), "sh");
    TestCommand.ShardingSuggestions();
  }

  /** A button whose custom identifier names no command invokes nothing and throws nothing. */
  lemma UnknownCommandIgnored()
    ensures HandleCommand(Bot(Modules), Button("missingcmd-x")) == Ignored
  {
    BotSteps(Modules);
    ExtractFromCustomId("missingcmd", "x");
    assert "missingcmd-x" == "missingcmd" + [Separator] + "x";
    assert "missingcmd" !in Bot(Modules).commands;
  }
}
