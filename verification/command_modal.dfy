/**
 The example command `testmodal` (commands/modal.ts): `execute` shows a modal with one
 text input, and `handleModalSubmit` replies with what was typed into it.
 */
module ModalCommand {
  import opened Values
  import opened Registry

  const Name: string := "testmodal"
  const ModalId: string := "testmodal-testmodal"
  /** The custom id `execute` gives the text input when it builds the modal. */
  const TextInputId: string := "test-input"

  /** The custom id `handleModalSubmit` reads the submitted text from. */
  const ReadInputId: string := "test-input"

  const EmptyReply: string := "Submission is empty or missing."

  datatype TextInput = TextInput(customId: string, prompt: string)

  datatype Modal = Modal(customId: string, title: string, inputs: seq<TextInput>)

  /** The modal `execute` shows. */
  const Shown: Modal := Modal(ModalId, "Test Modal", [TextInput(TextInputId, "Enter some text")])

  /** The submitted fields of a modal whose every text input was filled with `text`. */
  function Submission(m: Modal, text: string): (fields: map<string, string>)
    ensures forall input :: input in m.inputs ==> input.customId in fields && fields[input.customId] == text
  {
    map input | input in m.inputs :: input.customId := text
  }

  /**
   The reply of `handleModalSubmit` for the submitted fields. Reading a field the
   submission does not have throws inside the vendor library, so there is no reply.
   */
  function SubmitReply(fields: map<string, string>): (r: Option<string>)
    ensures ReadInputId !in fields <==> r.None?
  {
    if ReadInputId !in fields then None
    else if fields[ReadInputId] != "" then Some("You submitted: " + fields[ReadInputId])
    else Some(EmptyReply)
  }

  /**
   Submitting the modal `execute` shows always reaches the field the handler reads: a
   non-empty text is echoed back, an empty one gets the fixed reply.
   */
  lemma SubmittingShownModal(text: string)
    ensures text != "" ==> SubmitReply(Submission(Shown, text)) == Some("You submitted: " + text)
    ensures text == "" ==> SubmitReply(Submission(Shown, text)) == Some(EmptyReply)
  {
    assert Shown.inputs[0] in Shown.inputs;
    HandlerReadsBuiltInput();
  }

  /** The handler reads the very text input the modal is built with. */
  lemma HandlerReadsBuiltInput()
    ensures ReadInputId == TextInputId
    ensures exists input :: input in Shown.inputs && input.customId == ReadInputId
  {
    assert Shown.inputs[0] in Shown.inputs;
  }

  // ---------------------------------------------------------------- the module as loaded

  const Origin: string := "commands/modal.ts"
  const Execute: Callable := Callable(Origin, "execute")
  const SubmitHandler: Callable := Callable(Origin, "handleModalSubmit")

  const Data: CommandData := CommandData(Name, "Shows a test modal for user input", [], true)

  const Definition: Command := Command(Some(Data), Fn(Execute), None)

  const NoTopLevel: Command := Command(None, FalsyValue, None)

  const AsWritten: Module :=
    Module(Some(Definition), NoTopLevel, [Export("handleModalSubmit", Fn(SubmitHandler)), Export("default", TruthyValue)])
}
