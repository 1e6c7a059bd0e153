/**
 The example command `ping` (commands/ping.ts): `execute` replies with two buttons, and a
 button handler answers a click on either of them.
 */
module PingCommand {
  import opened Values
  import opened Registry

  const Name: string := "ping"

  const HelloButtonId: string := "ping-hello_button"
  const HiButtonId: string := "ping-hi_button"

  /** The custom identifiers of the buttons `execute` attaches, in row order. */
  const ButtonIds: seq<string> := [HelloButtonId, HiButtonId]

  const Prompt: string := "How do you want me to respond"

  /** The replies of `buttonHandler` for a clicked button. */
  function ButtonReplies(customId: string): (r: seq<string>)
    ensures |r| <= 1
  {
    if customId == HelloButtonId then ["hello world"]
    else if customId == HiButtonId then ["hi"]
    else []
  }

  /**
   Exactly the buttons `execute` creates get an answer, and each gets exactly one: the
   handler and the button row agree.
   */
  lemma ButtonRepliesCoverButtons(customId: string)
    ensures |ButtonReplies(customId)| == 1 <==> customId in ButtonIds
    ensures ButtonReplies(customId) == [] <==> customId !in ButtonIds
  {
  }

  // ---------------------------------------------------------------- the module as loaded

  const Origin: string := "commands/ping.ts"
  const Execute: Callable := Callable(Origin, "execute")
  const ButtonHandler: Callable := Callable(Origin, "buttonHandler")

  const Data: CommandData := CommandData(Name, "test command", [], true)

  /** The default export: no inline `handlers`. */
  const Definition: Command := Command(Some(Data), Fn(Execute), None)

  const NoTopLevel: Command := Command(None, FalsyValue, None)

  /** The module as written: the click handler is exported as `buttonHandler`. */
  const AsWritten: Module :=
    Module(Some(Definition), NoTopLevel, [Export("buttonHandler", Fn(ButtonHandler)), Export("default", TruthyValue)])

  /** The module with its click handler exported under the allow-listed name `handleButtonClick`. */
  const Corrected: Module :=
    Module(Some(Definition), NoTopLevel, [Export("handleButtonClick", Fn(ButtonHandler)), Export("default", TruthyValue)])
}
