/**
 The interaction router of the client (`handleCommand` and its four branches in
 lib/client.ts): an inbound interaction is mapped to the command that owns it and then
 to the one callable that is invoked, or to nothing.
 */
module Router {
  import opened Values
  import opened Registry

  /** The inbound interactions the router distinguishes, plus every other kind. */
  datatype Interaction =
    | ChatInput(commandName: string, options: map<string, string>)
    | Button(customId: string)
    | Autocomplete(commandName: string, focused: string)
    | ModalSubmit(customId: string, fields: map<string, string>)
    | OtherInteraction

  /** What handling an interaction amounts to. */
  datatype Outcome =
    | Invoked(f: Callable, arg: Interaction)  // exactly one callable called with the interaction
    | Ignored                                 // nothing called, nothing thrown
    | NotCallable                             // `command.execute(...)` throws a TypeError

  const Separator: char := '-'

  /** `customId.split("-")[0]`: the text before the first separator, or all of it. */
  function ExtractCommandName(customId: string): (r: string)
    ensures |r| <= |customId| && r == customId[..|r|]
    ensures Separator !in r
    ensures |r| < |customId| ==> customId[|r|] == Separator
  {
    if |customId| == 0 || customId[0] == Separator then ""
    else [customId[0]] + ExtractCommandName(customId[1..])
  }

  /**
   A custom identifier `name + "-" + suffix` leads back to `name` exactly when the name
   itself has no separator; otherwise the owning command is unreachable.
   */
  lemma {:induction false} ExtractFromCustomId(name: string, suffix: string)
    ensures ExtractCommandName(name + [Separator] + suffix) == name <==> Separator !in name
  {
    var id := name + [Separator] + suffix;
    if Separator !in name {
      if |name| > 0 {
        assert id[1..] == name[1..] + [Separator] + suffix;
        ExtractFromCustomId(name[1..], suffix);
      }
    }
  }

  /** `handleChatInput`: look the command up by name and call its `execute`. */
  function HandleChatInput(reg: Registry, i: Interaction): (r: Outcome)
    requires i.ChatInput?
    ensures r.Ignored? <==> i.commandName !in reg.commands
    ensures r.Invoked? <==> i.commandName in reg.commands && reg.commands[i.commandName].execute.IsFunction()
    ensures r.Invoked? ==> r.arg == i && Fn(r.f) == reg.commands[i.commandName].execute
  {
    match Lookup(reg, i.commandName)
    case None => Ignored
    case Some(command) =>
      if command.execute.IsFunction() then Invoked(command.execute.f, i) else NotCallable
  }

  /** The shared tail of the three handler branches: call `handlers[key]` when it is a function. */
  function CallHandler(command: Option<Command>, key: string, i: Interaction): (r: Outcome)
    ensures r != NotCallable
    ensures r.Invoked? <==>
      command.Some? && command.value.handlers.Some? && key in command.value.handlers.value
      && command.value.handlers.value[key].IsFunction()
    ensures r.Invoked? ==> r.arg == i && Fn(r.f) == command.value.handlers.value[key]
  {
    if command.None? || command.value.handlers.None? then Ignored
    else
      var handlers := command.value.handlers.value;
      if key in handlers && handlers[key].IsFunction() then Invoked(handlers[key].f, i)
      else Ignored
  }

  /** The function a command holds under a handler key, if it holds one. */
  function HandlerOf(command: Option<Command>, key: string): Option<Callable> {
    if command.Some? && command.value.handlers.Some? && key in command.value.handlers.value
       && command.value.handlers.value[key].IsFunction()
    then Some(command.value.handlers.value[key].f)
    else None
  }

  /** `handleButton` */
  function HandleButton(reg: Registry, i: Interaction): (r: Outcome)
    requires i.Button?
    ensures r != NotCallable
    ensures ExtractCommandName(i.customId) !in reg.commands ==> r == Ignored
    ensures r.Invoked? <==> HandlerOf(Lookup(reg, ExtractCommandName(i.customId)), "handleButtonClick").Some?
    ensures r.Invoked? ==> r.arg == i && HandlerOf(Lookup(reg, ExtractCommandName(i.customId)), "handleButtonClick") == Some(r.f)
  {
    CallHandler(Lookup(reg, ExtractCommandName(i.customId)), "handleButtonClick", i)
  }

  /** `handleAutoComplete` */
  function HandleAutoComplete(reg: Registry, i: Interaction): (r: Outcome)
    requires i.Autocomplete?
    ensures r != NotCallable
    ensures i.commandName !in reg.commands ==> r == Ignored
    ensures r.Invoked? <==> HandlerOf(Lookup(reg, i.commandName), "handleAutoComplete").Some?
    ensures r.Invoked? ==> r.arg == i && HandlerOf(Lookup(reg, i.commandName), "handleAutoComplete") == Some(r.f)
  {
    CallHandler(Lookup(reg, i.commandName), "handleAutoComplete", i)
  }

  /** `handleModal` */
  function HandleModal(reg: Registry, i: Interaction): (r: Outcome)
    requires i.ModalSubmit?
    ensures r != NotCallable
    ensures ExtractCommandName(i.customId) !in reg.commands ==> r == Ignored
    ensures r.Invoked? <==> HandlerOf(Lookup(reg, ExtractCommandName(i.customId)), "handleModalSubmit").Some?
    ensures r.Invoked? ==> r.arg == i && HandlerOf(Lookup(reg, ExtractCommandName(i.customId)), "handleModalSubmit") == Some(r.f)
  {
    CallHandler(Lookup(reg, ExtractCommandName(i.customId)), "handleModalSubmit", i)
  }

  /** `handleCommand`: dispatch on the kind of interaction. */
  function HandleCommand(reg: Registry, i: Interaction): (r: Outcome)
    ensures r.Invoked? ==> r.arg == i
    ensures r.NotCallable? <==>
      i.ChatInput? && i.commandName in reg.commands && !reg.commands[i.commandName].execute.IsFunction()
    ensures Owner(i).None? || Owner(i).value !in reg.commands ==> r == Ignored
  {
    match i
    case ChatInput(_, _) => HandleChatInput(reg, i)
    case Button(_) => HandleButton(reg, i)
    case Autocomplete(_, _) => HandleAutoComplete(reg, i)
    case ModalSubmit(_, _) => HandleModal(reg, i)
    case OtherInteraction => Ignored
  }

  /**
   The name of the command an interaction belongs to: the declared command name for
   chat-input and autocomplete, the custom identifier's first segment for buttons and
   modal submissions.
   */
  function Owner(i: Interaction): Option<string> {
    match i
    case ChatInput(name, _) => Some(name)
    case Autocomplete(name, _) => Some(name)
    case Button(id) => Some(ExtractCommandName(id))
    case ModalSubmit(id, _) => Some(ExtractCommandName(id))
    case OtherInteraction => None
  }

  /** The property of a command an interaction calls: `execute`, or a handler name. */
  datatype Slot = Execute | Handler(key: string)

  function SlotOf(i: Interaction): Option<Slot> {
    match i
    case ChatInput(_, _) => Some(Execute)
    case Button(_) => Some(Handler("handleButtonClick"))
    case Autocomplete(_, _) => Some(Handler("handleAutoComplete"))
    case ModalSubmit(_, _) => Some(Handler("handleModalSubmit"))
    case OtherInteraction => None
  }

  /** The value a command holds in a slot, if any. */
  function SlotValue(c: Command, s: Slot): Option<JsValue> {
    match s
    case Execute => Some(c.execute)
    case Handler(key) =>
      if c.handlers.Some? && key in c.handlers.value then Some(c.handlers.value[key]) else None
  }

  /**
   The router invokes `f` with interaction `a` exactly when `a` is the interaction, its
   owner is registered, and the owner's slot for this kind of interaction holds `f`.
   */
  lemma HandleCommandInvokes(reg: Registry, i: Interaction, f: Callable, a: Interaction)
    ensures HandleCommand(reg, i) == Invoked(f, a)
        <==> && a == i
             && Owner(i).Some? && Owner(i).value in reg.commands
             && SlotOf(i).Some?
             && SlotValue(reg.commands[Owner(i).value], SlotOf(i).value) == Some(Fn(f))
  {
  }

  /**
   An interaction whose owner is registered with a function under the interaction's
   handler key invokes that function.
   */
  lemma HandlerRoute(reg: Registry, i: Interaction, c: Command, key: string, f: Callable)
    requires SlotOf(i) == Some(Handler(key))
    requires Owner(i).Some? && Lookup(reg, Owner(i).value) == Some(c)
    requires c.handlers.Some? && key in c.handlers.value && c.handlers.value[key] == Fn(f)
    ensures HandleCommand(reg, i) == Invoked(f, i)
  {
  }

  /** An interaction whose owner is registered without anything under its handler key is ignored. */
  lemma HandlerMissing(reg: Registry, i: Interaction, c: Command, key: string)
    requires SlotOf(i) == Some(Handler(key))
    requires Owner(i).Some? && Lookup(reg, Owner(i).value) == Some(c)
    requires c.handlers.None? || key !in c.handlers.value
    ensures HandleCommand(reg, i) == Ignored
  {
  }

  /**
   The allow-list of the registry is exactly the set of handler keys the router reads: a
   key is installed only if some kind of interaction looks it up, and every key looked up
   can be installed.
   */
  lemma AllowListIsRouterKeys(key: string)
    ensures IsValidHandlerKey(key) <==> exists i :: SlotOf(i) == Some(Handler(key))
  {
    if IsValidHandlerKey(key) {
      if key == "handleButtonClick" {
        assert SlotOf(Button("")) == Some(Handler(key));
      } else if key == "handleAutoComplete" {
        assert SlotOf(Autocomplete("", "")) == Some(Handler(key));
      } else {
        assert SlotOf(ModalSubmit("", map[])) == Some(Handler(key));
      }
    }
  }

  /** When every registered `execute` is a function, the router never throws. */
  lemma HandleCommandNeverThrowsOnCallables(reg: Registry, i: Interaction)
    requires forall k :: k in reg.commands ==> reg.commands[k].execute.IsFunction()
    ensures HandleCommand(reg, i) != NotCallable
  {
  }
}
