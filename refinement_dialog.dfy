/**
 * The refinement chat bubble (`src/components/RefinementDialog.tsx`): what it
 * shows for its props and which callback each user action reaches. The
 * instruction and the refining flag belong to the caller and arrive as props.
 */
module RefinementDialog {
  import opened Wrappers
  import opened Text

  /** The quick chips, in display order. */
  const ExamplePrompts: seq<string> := ["make responsive", "add dark mode", "use grid", "add animations"]

  datatype Props = Props(isOpen: bool, isRefining: bool, instruction: string)

  /** One quick chip: its React key, its text and whether it can be clicked. */
  datatype Chip = Chip(key: string, text: string, enabled: bool)

  /** The open dialog: the input's value and whether it accepts input, the chips,
      and whether the send button can be clicked. */
  datatype Dialog = Dialog(inputValue: string, inputEnabled: bool, chips: seq<Chip>, sendEnabled: bool)

  /** The send button is enabled when nothing is being refined and the
      instruction is not blank once trimmed. */
  predicate SendEnabled(p: Props): (enabled: bool)
    ensures enabled <==> !p.isRefining && !AllWhitespace(p.instruction)
  {
    TrimEmptyIffBlank(p.instruction);
    !p.isRefining && Trim(p.instruction) != ""
  }

  /** `handleKeyDown`: Enter submits unless a refinement is running. On an
      instruction that is not blank it agrees with the send button. */
  predicate KeySubmits(p: Props, key: string): (submits: bool)
    ensures !AllWhitespace(p.instruction) ==> (submits <==> key == "Enter" && SendEnabled(p))
  {
    key == "Enter" && !p.isRefining
  }

  function Chips(isRefining: bool): (chips: seq<Chip>)
    ensures |chips| == |ExamplePrompts|
    ensures forall i :: 0 <= i < |chips| ==>
      chips[i].key == chips[i].text == ExamplePrompts[i] && chips[i].enabled == !isRefining
  {
    seq(|ExamplePrompts|, i requires 0 <= i < |ExamplePrompts| => Chip(ExamplePrompts[i], ExamplePrompts[i], !isRefining))
  }

  /** A closed dialog renders nothing. An open one shows the instruction; the
      input and every chip are disabled exactly while refining; the chips are the
      four examples in order; the send button follows `SendEnabled`. */
  function Render(p: Props): (d: Option<Dialog>)
    ensures d.None? <==> !p.isOpen
    ensures d.Some? ==>
      && d.value.inputValue == p.instruction
      && d.value.inputEnabled == !p.isRefining
      && d.value.chips == Chips(p.isRefining)
      && (d.value.sendEnabled <==> !p.isRefining && !AllWhitespace(p.instruction))
  {
    if !p.isOpen then None
    else
      Some(Dialog(p.instruction, !p.isRefining, Chips(p.isRefining), SendEnabled(p)))
  }

  /** What the user can do to the dialog. */
  datatype UserEvent =
    | KeyDown(key: string)
    | Edit(value: string)
    | ChooseExample(index: int)
    | ClickSend
    | ClickClose
    | ClickBackdrop

  /** The callbacks the dialog calls on its owner. */
  datatype Callback = Submit | Close | ChangeInstruction(value: string)

  /** The callback an event reaches, if any. A disabled control receives no
      events, and a closed dialog has no controls at all. */
  function Dispatch(p: Props, e: UserEvent): (c: Option<Callback>)
    ensures !p.isOpen ==> c == None
    ensures c == Some(Submit) <==>
      p.isOpen && ((e.KeyDown? && KeySubmits(p, e.key)) || (e == ClickSend && SendEnabled(p)))
    ensures c == Some(Close) <==> p.isOpen && (e == ClickClose || e == ClickBackdrop)
    ensures c.Some? && c.value.ChangeInstruction? ==> p.isOpen && !p.isRefining
    ensures p.isOpen && !p.isRefining && e.Edit? ==> c == Some(ChangeInstruction(e.value))
    ensures p.isOpen && !p.isRefining && e.ChooseExample? && 0 <= e.index < |ExamplePrompts| ==>
      c == Some(ChangeInstruction(ExamplePrompts[e.index]))
  {
    if !p.isOpen then None
    else
      match e
      case KeyDown(key) => if KeySubmits(p, key) then Some(Submit) else None
      case Edit(value) => if p.isRefining then None else Some(ChangeInstruction(value))
      case ChooseExample(i) =>
        if p.isRefining || !(0 <= i < |ExamplePrompts|) then None
        else Some(ChangeInstruction(ExamplePrompts[i]))
      case ClickSend => if SendEnabled(p) then Some(Submit) else None
      case ClickClose => Some(Close)
      case ClickBackdrop => Some(Close)
  }

  /** Nothing is submitted while a refinement is running, by either path. */
  lemma NoSubmitWhileRefining(p: Props, e: UserEvent)
    requires p.isRefining
    ensures Dispatch(p, e) != Some(Submit)
  {
  }

  /** The two submit paths disagree on blank instructions: Enter submits an
      instruction that is empty or only whitespace, while the send button for
      the same props is disabled. */
  lemma EnterSubmitsBlankInstruction(p: Props)
    requires p.isOpen && !p.isRefining && AllWhitespace(p.instruction)
    ensures Dispatch(p, KeyDown("Enter")) == Some(Submit)
    ensures Dispatch(p, ClickSend) == None
    ensures !Render(p).value.sendEnabled
  {
    TrimEmptyIffBlank(p.instruction);
  }

  /** Whatever the send button submits has a non-blank instruction. */
  lemma ButtonSubmitsOnlyNonBlank(p: Props)
    requires Dispatch(p, ClickSend) == Some(Submit)
    ensures !AllWhitespace(p.instruction) && Trim(p.instruction) != ""
  {
    TrimEmptyIffBlank(p.instruction);
  }
}
