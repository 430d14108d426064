/**
 * The native side (`src-tauri/src/lib.rs`): how the `generate_code` command turns
 * the chat-completions exchange into its result, the `greet` command, and the
 * tray icon's show/hide toggle of the main window.
 */
module Backend {
  import opened Wrappers
  import opened Text

  // ---------------------------------------------------------------------------
  // generate_code: from the HTTP exchange to Ok(content) or Err(message)
  // ---------------------------------------------------------------------------

  /** A parsed JSON value, as `serde_json::Value` holds it; a number keeps its
      text. */
  datatype Json =
    | Null
    | Bool(b: bool)
    | Number(text: string)
    | Str(s: string)
    | Array(items: seq<Json>)
    | Object(fields: map<string, Json>)

  /** `value["key"]`: the member of an object, and `Null` for a missing member or
      for a value that is not an object. */
  function Member(v: Json, key: string): (r: Json)
    ensures r != Null ==> v.Object? && key in v.fields && r == v.fields[key]
    ensures v.Object? && key in v.fields ==> r == v.fields[key]
  {
    if v.Object? && key in v.fields then v.fields[key] else Null
  }

  /** `value[i]`: the element of an array, and `Null` for an index past the end
      or for a value that is not an array. */
  function Element(v: Json, i: nat): (r: Json)
    ensures r != Null ==> v.Array? && i < |v.items| && r == v.items[i]
    ensures v.Array? && i < |v.items| ==> r == v.items[i]
  {
    if v.Array? && i < |v.items| then v.items[i] else Null
  }

  /** `as_str().unwrap_or("")`: the text of a string value, and "" for any
      other value. */
  function StrOrEmpty(v: Json): (s: string)
    ensures v.Str? ==> s == v.s
    ensures !v.Str? ==> s == ""
  {
    if v.Str? then v.s else ""
  }

  /** `completion["choices"][0]["message"]["content"]`, read as a string. */
  function Content(completion: Json): (content: string)
    ensures content != "" ==>
      && completion.Object? && "choices" in completion.fields
      && completion.fields["choices"].Array? && |completion.fields["choices"].items| > 0
      && completion.fields["choices"].items[0].Object?
      && "message" in completion.fields["choices"].items[0].fields
      && completion.fields["choices"].items[0].fields["message"].Object?
      && "content" in completion.fields["choices"].items[0].fields["message"].fields
      && completion.fields["choices"].items[0].fields["message"].fields["content"] == Str(content)
  {
    StrOrEmpty(Member(Member(Element(Member(completion, "choices"), 0), "message"), "content"))
  }

  /** The smallest completion that carries the given content. */
  function Completion(content: string): Json {
    Object(map["choices" := Array([Object(map["message" := Object(map["content" := Str(content)])])])])
  }

  /** The content is read back from a completion exactly as it was put in, and
      any completion whose first choice's message content is a string yields
      that string. */
  lemma ContentRoundTrip(content: string, completion: Json)
    ensures Content(Completion(content)) == content
    ensures
      && completion.Object? && "choices" in completion.fields
      && completion.fields["choices"].Array? && |completion.fields["choices"].items| > 0
      && completion.fields["choices"].items[0].Object?
      && "message" in completion.fields["choices"].items[0].fields
      && completion.fields["choices"].items[0].fields["message"].Object?
      && "content" in completion.fields["choices"].items[0].fields["message"].fields
      && completion.fields["choices"].items[0].fields["message"].fields["content"].Str?
      ==> Content(completion) == completion.fields["choices"].items[0].fields["message"].fields["content"].s
  {
  }

  /** A completion whose path to the content breaks anywhere reads as "". */
  lemma ContentMissingIsEmpty(completion: Json)
    requires
      || !completion.Object? || "choices" !in completion.fields
      || !completion.fields["choices"].Array? || |completion.fields["choices"].items| == 0
    ensures Content(completion) == ""
  {
  }

  /** What the HTTP exchange produced: the request could not be sent, or a
      response came back with a status, its body decoded as JSON (or the
      decoding error) and its body read as text (or the reading error). */
  datatype Exchange =
    | SendFailed(reason: string)
    | Answered(status: int, json: Result<Json, string>, text: Result<string, string>)

  /** `StatusCode::is_success`: the 2xx range. */
  predicate IsSuccess(status: int) {
    200 <= status <= 299
  }

  const FailurePrefix := "Request failed with status: "

  /** The result of `generate_code` for an exchange. A failed send or an
      unreadable body yields that error's message; a success status yields the
      completion's content ("" when it is missing or not a string); any other
      status yields the response text after `FailurePrefix`. Only a success
      status with a decodable body is `Ok`. */
  function GenerateCodeResult(x: Exchange): (r: Result<string, string>)
    ensures r.Ok? <==> x.Answered? && IsSuccess(x.status) && x.json.Ok?
    ensures r.Ok? ==> r.value == Content(x.json.value)
    ensures x.SendFailed? ==> r == Err(x.reason)
    ensures x.Answered? && IsSuccess(x.status) && x.json.Err? ==> r == Err(x.json.error)
    ensures x.Answered? && !IsSuccess(x.status) && x.text.Err? ==> r == Err(x.text.error)
    ensures x.Answered? && !IsSuccess(x.status) && x.text.Ok? ==>
      r.Err? && StartsWith(r.error, FailurePrefix) && r.error[|FailurePrefix|..] == x.text.value
  {
    match x
    case SendFailed(reason) => Err(reason)
    case Answered(status, json, text) =>
      if IsSuccess(status) then
        match json
        case Ok(completion) => Ok(Content(completion))
        case Err(e) => Err(e)
      else
        match text
        case Ok(body) =>
          var m := FailurePrefix + body;
          assert m[..|FailurePrefix|] == FailurePrefix;
          Err(m)
        case Err(e) => Err(e)
  }

  /** A failure status never looks at the body as JSON, and which failure status
      it was does not show in the result. */
  lemma FailureIgnoresStatusAndJson(s1: int, s2: int, j1: Result<Json, string>, j2: Result<Json, string>, text: Result<string, string>)
    requires !IsSuccess(s1) && !IsSuccess(s2)
    ensures GenerateCodeResult(Answered(s1, j1, text)) == GenerateCodeResult(Answered(s2, j2, text))
  {
  }

  /** A successful generation whose completion carries a string hands back
      exactly that string, untouched. */
  lemma SuccessDeliversContent(status: int, content: string, text: Result<string, string>)
    requires IsSuccess(status)
    ensures GenerateCodeResult(Answered(status, Ok(Completion(content)), text)) == Ok(content)
  {
    ContentRoundTrip(content, Null);
  }

  // ---------------------------------------------------------------------------
  // greet
  // ---------------------------------------------------------------------------

  const GreetingOpening := "Hello, "

  const GreetingClosing := "! You've been greeted from Rust!"

  /** `greet`: the name between the fixed opening and closing. */
  function Greet(name: string): (g: string)
    ensures StartsWith(g, GreetingOpening) && EndsWith(g, GreetingClosing)
    ensures |g| == |GreetingOpening| + |name| + |GreetingClosing|
    ensures g[|GreetingOpening|..|g| - |GreetingClosing|] == name
  {
    var g := GreetingOpening + name + GreetingClosing;
    assert g[..|GreetingOpening|] == GreetingOpening;
    assert g[|GreetingOpening|..|g| - |GreetingClosing|] == name;
    assert g[|g| - |GreetingClosing|..] == GreetingClosing;
    g
  }

  /** Distinct names get distinct greetings. */
  lemma GreetInjective(a: string, b: string)
    requires Greet(a) == Greet(b)
    ensures a == b
  {
    assert a == Greet(a)[|GreetingOpening|..|Greet(a)| - |GreetingClosing|];
  }

  // ---------------------------------------------------------------------------
  // The tray icon
  // ---------------------------------------------------------------------------

  datatype MouseButton = Left | Right | Middle

  datatype MouseButtonState = Up | Down

  /** The tray icon events the handler can receive. */
  datatype TrayIconEvent =
    | Click(button: MouseButton, buttonState: MouseButtonState)
    | DoubleClick(button: MouseButton)
    | Enter
    | Move
    | Leave

  /** The handler reacts to a click with the left button, whether it is the
      press or the release, and to nothing else. */
  predicate Toggles(event: TrayIconEvent) {
    event.Click? && event.button == Left
  }

  /** The main window's visibility and focus. */
  class Window {
    var visible: bool
    var focused: bool

    constructor (visible: bool, focused: bool)
      ensures this.visible == visible && this.focused == focused
    {
      this.visible := visible;
      this.focused := focused;
    }

    method Hide()
      modifies this`visible
      ensures !visible
    {
      visible := false;
    }

    method Show()
      modifies this`visible
      ensures visible
    {
      visible := true;
    }

    method SetFocus()
      modifies this`focused
      ensures focused
    {
      focused := true;
    }
  }

  /** The visibility after one event, from the visibility before it. */
  function VisibleAfterEvent(visible: bool, event: TrayIconEvent): (v: bool)
    ensures v != visible <==> event.Click? && event.button == Left
  {
    if Toggles(event) then !visible else visible
  }

  /** The tray event handler. When there is a main window, a left click hides it
      if it is visible, and otherwise shows it and gives it focus; every other
      event, and any event when there is no main window, changes nothing. */
  method OnTrayIconEvent(event: TrayIconEvent, main: Window?)
    modifies main
    ensures main != null ==> main.visible == VisibleAfterEvent(old(main.visible), event)
    ensures main != null && Toggles(event) && !old(main.visible) ==> main.focused
    ensures main != null && !(Toggles(event) && !old(main.visible)) ==> main.focused == old(main.focused)
  {
    if event.Click? && event.button == Left {
      if main != null {
        if main.visible {
          main.Hide();
        } else {
          main.Show();
          main.SetFocus();
        }
      }
    }
  }

  /** The visibility after a run of events. */
  function VisibleAfter(visible: bool, events: seq<TrayIconEvent>): bool
    decreases |events|
  {
    if events == [] then visible
    else VisibleAfter(VisibleAfterEvent(visible, events[0]), events[1..])
  }

  /** How many of the events are left clicks. */
  function LeftClicks(events: seq<TrayIconEvent>): nat {
    if events == [] then 0
    else (if Toggles(events[0]) then 1 else 0) + LeftClicks(events[1..])
  }

  /** The tray is a toggle: after any run of events the window's visibility has
      flipped exactly when an odd number of them were left clicks. */
  lemma {:induction false} VisibilityFollowsParity(visible: bool, events: seq<TrayIconEvent>)
    ensures VisibleAfter(visible, events) == (visible != (LeftClicks(events) % 2 == 1))
    decreases |events|
  {
    if events != [] {
      VisibilityFollowsParity(VisibleAfterEvent(visible, events[0]), events[1..]);
    }
  }

  /** Two left clicks, whatever happens around them, leave the window as it was. */
  lemma DoubleToggleRestores(visible: bool, before: seq<TrayIconEvent>, between: seq<TrayIconEvent>, after: seq<TrayIconEvent>, b1: MouseButtonState, b2: MouseButtonState)
    requires LeftClicks(before) == 0 && LeftClicks(between) == 0 && LeftClicks(after) == 0
    ensures VisibleAfter(visible, before + [Click(Left, b1)] + between + [Click(Left, b2)] + after) == visible
  {
    var es := before + [Click(Left, b1)] + between + [Click(Left, b2)] + after;
    LeftClicksAppend(before, [Click(Left, b1)]);
    LeftClicksAppend(before + [Click(Left, b1)], between);
    LeftClicksAppend(before + [Click(Left, b1)] + between, [Click(Left, b2)]);
    LeftClicksAppend(before + [Click(Left, b1)] + between + [Click(Left, b2)], after);
    VisibilityFollowsParity(visible, es);
  }

  /** Left clicks add up over concatenation. */
  lemma {:induction false} LeftClicksAppend(a: seq<TrayIconEvent>, b: seq<TrayIconEvent>)
    ensures LeftClicks(a + b) == LeftClicks(a) + LeftClicks(b)
  {
    if a == [] {
      assert a + b == b;
    } else {
      assert (a + b)[1..] == a[1..] + b;
      LeftClicksAppend(a[1..], b);
    }
  }
}
