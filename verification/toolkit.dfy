/**
 The definition validators of lib/toolkit/helper.ts: each either throws or hands back its
 argument unchanged.
 */
module Toolkit {
  import opened Values
  import opened Registry

  datatype ValidationError =
    | MissingData           // "Missing data field"
    | ExecuteNotFunction    // "Execute must be a function for slash command"
    | InvalidEventName      // "Invalid event name: ..."
    | HandlerNotFunction    // "The handler for event ... must be a function"

  /** An event definition: the event's name ("" when missing), the `once` flag and the handler. */
  datatype EventDefinition = EventDefinition(name: string, once: bool, handler: JsValue)

  /** `createSlashCommand(commandInterface)` */
  function CreateSlashCommand(c: Command): (r: Result<Command, ValidationError>)
    ensures r.Ok? <==> c.data.Some? && c.execute.IsFunction()
    ensures r.Ok? ==> r.value == c
    ensures c.data.None? ==> r == Err(MissingData)
    ensures c.data.Some? && !c.execute.IsFunction() ==> r == Err(ExecuteNotFunction)
  {
    if c.data.None? then Err(MissingData)
    else if !c.execute.IsFunction() then Err(ExecuteNotFunction)
    else Ok(c)
  }

  /** `createEvent(eventInterface)` */
  function CreateEvent(e: EventDefinition): (r: Result<EventDefinition, ValidationError>)
    ensures r.Ok? <==> e.name != "" && e.handler.IsFunction()
    ensures r.Ok? ==> r.value == e
    ensures e.name == "" ==> r == Err(InvalidEventName)
    ensures e.name != "" && !e.handler.IsFunction() ==> r == Err(HandlerNotFunction)
  {
    if e.name == "" then Err(InvalidEventName)
    else if !e.handler.IsFunction() then Err(HandlerNotFunction)
    else Ok(e)
  }

  /**
   A command that passes `createSlashCommand` also passes the registry's guard. A module
   whose default export it is gets registered under the command's name when its `data`
   serialises; plain `data` passes the validator but makes registration throw, so nothing
   is stored.
   */
  lemma ValidatedCommandRegisters(reg: Registry, c: Command, topLevel: Command, exports: seq<Export>)
    requires CreateSlashCommand(c).Ok?
    ensures Accepts(c)
    ensures var m := Module(Some(c), topLevel, exports);
      c.data.value.serialisable ==> Lookup(Register(reg, m), c.data.value.name) == Some(Stored(m))
    ensures var m := Module(Some(c), topLevel, exports);
      !c.data.value.serialisable ==> Register(reg, m) == reg
  {
    if c.data.value.serialisable {
      RegisterThenLookup(reg, Module(Some(c), topLevel, exports));
    }
  }
}
