# mimic, modelled in Dafny

mimic is a desktop app that turns a screenshot into HTML with Tailwind CSS.
The user pastes or drops an image. The front end (`src/App.tsx`) sends it as a
data URL to the native `generate_code` command (`src-tauri/src/lib.rs`), which
asks the chat-completions API for code. The front end then strips any markdown
fence from the answer and shows the code beside a live preview. A tray icon
shows and hides the window. Two further components are in the repository: a
generation-history panel and a refinement chat bubble. `App.tsx` renders
neither of them, and they are modelled as the pure components they are.

The project has six modules:

- `Wrappers` (`wrappers.dfy`) holds `Option` and `Result`.
- `Text` (`text.dfy`) models JavaScript's `String.prototype.trim` over the
  ECMAScript whitespace and line-terminator set. It proves that trimming
  removes exactly the whitespace padding and nothing else.
- `App` (`app.dfy`) covers the front end:
  - `cleanCodeResponse`, written out as the three regular-expression
    replacements with their exact JavaScript semantics (the `/i` flag, the
    optional newline, `$` as end of input);
  - the preview document, and the choice of what the main area shows;
  - a `Session` class whose fields are the component's React state. Its
    methods are the handlers and the auto-generate effect.
- `HistoryPanel` (`history_panel.dfy`) covers the history entry record and
  the panel's derived display.
- `RefinementDialog` (`refinement_dialog.dfy`) covers what the chat bubble
  shows for its props, and which callback each user action reaches.
- `Backend` (`backend.dfy`) covers the native side:
  - the mapping from the HTTP exchange to `Ok(content)` or `Err(message)`, over
    a `serde_json`-style value with its `Null`-on-miss indexing;
  - `greet`;
  - the tray click handler, as a method on a `Window` object, with the
    left-click toggle proved as a parity law.

The `Session` methods take the place of the asynchronous steps:

- `GenerateCode` is `generateCode` up to the `invoke`. It returns the request
  that would be sent.
- `CompleteGeneration` is what happens when the invoke settles. It receives the
  backend's `Result`, which is `Backend.GenerateCodeResult` of the exchange.
- `ReceiveImage` is a drop or paste whose file has been read. It includes the
  effect on `pastedImage`, which React runs only when the value changes.

## Model

| member | source | states |
|---|---|---|
| Text.TrimStartKeepsSuffix | src/App.tsx:29 | trimming the start removes a prefix made only of whitespace, and what remains starts with a non-whitespace character |
| Text.TrimEndKeepsPrefix | src/App.tsx:29 | trimming the end removes a suffix made only of whitespace, and what remains ends with a non-whitespace character |
| Text.Trim | src/App.tsx:29 | `trim()` leaves no whitespace at either end and never lengthens the string |
| Text.TrimIsPadded | src/App.tsx:29 | the input is the trimmed string with whitespace before and after it |
| Text.TrimIsInfix | src/App.tsx:29 | the trimmed string is a contiguous piece of the input |
| Text.TrimStartSkips | src/App.tsx:29 | leading whitespace makes no difference to trimming the start |
| Text.TrimEndSkips | src/App.tsx:29 | trailing whitespace makes no difference to trimming the end |
| Text.TrimPadded | src/App.tsx:29 | whitespace around a trimmed string is exactly what `trim()` takes away |
| Text.TrimIdempotent | src/App.tsx:33 | trimming twice is trimming once, so the final `trim()` of a trimmed string changes nothing |
| Text.TrimEmptyIffBlank | src/components/RefinementDialog.tsx:97 | `trim()` gives "" exactly when the string is empty or only whitespace |
| App.StripHtmlFence | src/App.tsx:30 | the `^```html\n?` replacement never lengthens the string |
| App.StripHtmlFenceRemovesPrefix | src/App.tsx:30 | it removes a prefix, and only when the string opens with "```html" in any letter case; 8 characters go when a newline follows, 7 otherwise |
| App.StripHtmlFenceLine | src/App.tsx:30 | "```html" in any case followed by a newline is removed together with the newline |
| App.StripOpeningFence | src/App.tsx:31 | the `^```\n?` replacement never lengthens the string |
| App.StripOpeningFenceKeepsSuffix | src/App.tsx:31 | it removes a prefix |
| App.StripOpeningFenceRemoves | src/App.tsx:31 | it removes "```" plus a newline, or "```" alone, or nothing when there is no opening fence |
| App.StripOpeningFenceLine | src/App.tsx:31 | "```" followed by a newline is removed together with the newline |
| App.StripClosingFence | src/App.tsx:32 | the `\n?```$` replacement never lengthens the string |
| App.StripClosingFenceKeepsPrefix | src/App.tsx:32 | it removes a suffix |
| App.StripClosingFenceAfterNewline | src/App.tsx:32 | a final newline plus "```" is removed as a whole |
| App.StripClosingFenceBare | src/App.tsx:32 | a final "```" with no newline before it is removed alone |
| App.StripClosingFenceUnfenced | src/App.tsx:32 | a string not ending in "```" is unchanged |
| App.CleanCodeResponse | src/App.tsx:28-34 | the cleaned code has no whitespace at either end and is never longer than the response |
| App.CleanOffset | src/App.tsx:28-34 | the cleaned code occurs in the response at the returned position |
| App.CleanIsInfix | src/App.tsx:28-34 | cleaning only cuts: the result is a contiguous piece of the response |
| App.CleanUnfenced | src/App.tsx:28-34 | a response that, once trimmed, neither starts nor ends with "```" comes back exactly trimmed |
| App.CleanKeepsPlainCode | src/App.tsx:28-34 | a trimmed, unfenced response is returned unchanged |
| App.CleanHtmlFencedBlock | src/App.tsx:28-34 | whitespace + "```html" (any case) + newline + body + newline + "```" + whitespace cleans to exactly the body |
| App.CleanPlainFencedBlock | src/App.tsx:28-34 | the same round trip with a bare "```" fence |
| App.PreviewHTML | src/App.tsx:40-52 | the document is the fixed head, then the code verbatim, then the fixed tail |
| App.PreviewHeadLoadsTailwind | src/App.tsx:41-51 | the head loads the Tailwind CDN script and ends by opening `<body>` on its own line; the tail opens by closing it |
| App.PreviewRoundTrip | src/App.tsx:40-52 | the code read back from a preview document is the code put in, and a document that reads back is that preview |
| App.SelectView | src/App.tsx:255-353 | exactly one view: the spinner iff loading, the result iff not loading with non-empty code, "processing" iff neither but an image is present, else the drop zone |
| App.TabContent | src/App.tsx:324-335 | the code tab shows the code; the preview tab shows a document from which the code reads back unchanged |
| App.KeyAfterLoad | src/App.tsx:106-109 | a stored key that is present and non-empty replaces the current one, otherwise the current one stays; an empty key results only when the current one was empty |
| App.LoadTwiceIsLoadOnce | src/App.tsx:103-110 | loading the same store a second time changes nothing more |
| App.EditSurvivesReload | src/App.tsx:164-170 | a key written into the store by an edit is the key a later load takes |
| App.ShouldAutoGenerate | src/App.tsx:93 | the effect's guard holds exactly when the main area shows the "processing your screenshot" notice |
| App.IsImageType | src/App.tsx:118-135 | the drop and paste handlers accept a file exactly when its MIME type starts with "image/" |
| App.ImageTypesArePrefixed | src/App.tsx:118-135 | every "image/" type passes the MIME check, and every type that passes is "image/" followed by its subtype |
| App.Session.constructor | src/App.tsx:13-21 | the initial state: no store, not loading, empty code, no settings, empty key, no image, no error, code tab, drop zone shown |
| App.Session.LoadStore | src/App.tsx:103-110 | the store is kept and the key follows `KeyAfterLoad`; nothing else changes |
| App.Session.GenerateCode | src/App.tsx:58-71 | without a key: the missing-key error, the settings opened, no request, loading and code untouched; with one: a request with that key and image, loading on, code and error cleared |
| App.Session.CompleteGeneration | src/App.tsx:76-89 | loading ends; on success the cleaned code is shown on the preview tab, on failure the message is the error and the code stays empty; the result view appears iff the cleaned code is non-empty |
| App.Session.ReceiveImage | src/App.tsx:92-150 | a non-image file changes no field; an image becomes the pasted image; if the effect does not fire (same image, loading, or a result shown) nothing else changes; if it fires without a key the missing-key error is set and the settings open, with loading and code untouched; if it fires with a key the request goes out, loading starts, code and error are cleared and the settings stay as they were |
| App.Session.TryAnother | src/App.tsx:178-193 | offered only beside a result, so never while loading; image, code and error are cleared, the code tab chosen, and the drop zone shown |
| App.Session.ChangeApiKey | src/App.tsx:164-170 | the key takes the new value, and the store records it only if the store has been loaded |
| App.Session.ToggleSettings | src/App.tsx:209 | the settings panel flips between shown and hidden |
| App.Session.SelectTab | src/App.tsx:292-302 | the tab buttons select their tab |
| HistoryPanel.CodePreview | src/components/HistoryPanel.tsx:63 | the preview is the first min(60, length) characters of the code followed by "..." |
| HistoryPanel.ShortCodePreviewedInFull | src/components/HistoryPanel.tsx:63 | code of at most 60 characters is shown whole, then "..." |
| HistoryPanel.PreviewIgnoresTail | src/components/HistoryPanel.tsx:63 | nothing after the first 60 characters affects the preview |
| HistoryPanel.IsRefinement | src/components/HistoryPanel.tsx:43-55 | an absent or false `isRefinement` is falsy and marks nothing; only `true` marks |
| HistoryPanel.EntryFor | src/components/HistoryPanel.tsx:39-66 | an entry is keyed by the id, shows the image, the timestamp and the code preview, is marked iff `isRefinement` is true, and restores its own item |
| HistoryPanel.Entries | src/components/HistoryPanel.tsx:38-66 | one entry per item, in the given order, each built from its own item |
| HistoryPanel.EntriesAppend | src/components/HistoryPanel.tsx:38 | the entries of a concatenation are the concatenation of the entries |
| HistoryPanel.Render | src/components/HistoryPanel.tsx:23-41 | "Clear All" iff the history is non-empty, "No generations yet" iff empty, and clicking entry i restores item i unmodified |
| HistoryPanel.MarkingIgnoresParent | src/components/HistoryPanel.tsx:43-55 | refinement styling iff `isRefinement` is exactly true; an absent flag or a parent id alone does not mark an entry |
| RefinementDialog.Chips | src/components/RefinementDialog.tsx:13-18 | the chips are the four example prompts in order, each disabled while refining |
| RefinementDialog.SendEnabled | src/components/RefinementDialog.tsx:97 | the send button is enabled iff nothing is being refined and the instruction is not blank |
| RefinementDialog.KeySubmits | src/components/RefinementDialog.tsx:30-34 | Enter submits unless refining; on a non-blank instruction this agrees with the send button |
| RefinementDialog.Render | src/components/RefinementDialog.tsx:28-97 | nothing when closed; the input and chips are disabled iff refining; send is enabled iff not refining and the instruction is not blank |
| RefinementDialog.Dispatch | src/components/RefinementDialog.tsx:30-97 | Submit iff Enter while not refining or send while enabled; Close iff the close button or the backdrop; a chip sets exactly its example; edits pass their value; a closed dialog or disabled control does nothing |
| RefinementDialog.NoSubmitWhileRefining | src/components/RefinementDialog.tsx:31-97 | no action submits while a refinement runs |
| RefinementDialog.EnterSubmitsBlankInstruction | src/components/RefinementDialog.tsx:31-97 | Enter submits a blank instruction while the send button for the same props is disabled |
| RefinementDialog.ButtonSubmitsOnlyNonBlank | src/components/RefinementDialog.tsx:95-97 | the send button only submits a non-blank instruction |
| Backend.Member | src-tauri/src/lib.rs:49 | indexing by key yields the member of an object, and `Null` for anything else |
| Backend.Element | src-tauri/src/lib.rs:49 | indexing by position yields the element of an array, and `Null` past the end or for a non-array |
| Backend.StrOrEmpty | src-tauri/src/lib.rs:50-51 | a string value yields its text, any other value "" |
| Backend.Content | src-tauri/src/lib.rs:49-52 | a non-empty content comes only from a string at choices[0].message.content |
| Backend.ContentRoundTrip | src-tauri/src/lib.rs:49-52 | the content is read back from a completion exactly as it was put in; any string at choices[0].message.content is what is read |
| Backend.ContentMissingIsEmpty | src-tauri/src/lib.rs:49-51 | a completion without a non-empty choices array reads as "" |
| Backend.GenerateCodeResult | src-tauri/src/lib.rs:43-57 | Ok iff a 2xx status with a decodable body, carrying the content; a send or read error passes its message through; a non-2xx status gives "Request failed with status: " followed by the body text |
| Backend.FailureIgnoresStatusAndJson | src-tauri/src/lib.rs:54-57 | for a non-2xx status neither the exact status nor the body's JSON affects the result |
| Backend.SuccessDeliversContent | src-tauri/src/lib.rs:47-53 | a 2xx answer carrying a string content returns exactly that string |
| Backend.Greet | src-tauri/src/lib.rs:62-63 | the greeting is "Hello, " then the name verbatim then "! You've been greeted from Rust!" |
| Backend.GreetInjective | src-tauri/src/lib.rs:62-63 | different names get different greetings |
| Backend.Window.Hide | src-tauri/src/lib.rs:80 | the window is hidden |
| Backend.Window.Show | src-tauri/src/lib.rs:82 | the window is shown |
| Backend.Window.SetFocus | src-tauri/src/lib.rs:83 | the window has focus |
| Backend.OnTrayIconEvent | src-tauri/src/lib.rs:75-88 | a left click hides a visible main window, or shows and focuses a hidden one; any other event or button, or no main window, changes nothing |
| Backend.VisibleAfterEvent | src-tauri/src/lib.rs:76-84 | an event flips the visibility iff it is a click with the left button, in either button state (`Toggles`) |
| Backend.VisibilityFollowsParity | src-tauri/src/lib.rs:76-84 | after any run of events the visibility has flipped iff an odd number of them were left clicks |
| Backend.LeftClicksAppend | src-tauri/src/lib.rs:76-77 | left clicks add up over concatenation |
| Backend.DoubleToggleRestores | src-tauri/src/lib.rs:76-84 | two left clicks among other events leave the visibility as it was |

## Left out

- The network request in `generate_code` is not modelled: `reqwest`, the request body, the model name, the prompts and the bearer header. `Backend.Exchange` stands for its outcome: a send error, or a status together with the body decoded as JSON and read as text.
- The Tauri builder, plugins and `invoke` plumbing are not modelled. The command's `Result` is handed to `App.Session.CompleteGeneration` directly.
- A rejected invoke carries the backend's error string as the rejection value, and `String(error)` of a string is that string, so `CompleteGeneration` takes the `Err` message as it is.
- The `Store` API is reduced to a `map` from key to value. Loading and writing are not asynchronous in the model, and a write's completion is not awaited.
- `FileReader` is not modelled: `ReceiveImage` receives the MIME type and the finished data URL.
- A paste with several clipboard items is not modelled. Each image item is a separate `ReceiveImage`, and the interleaving of their asynchronous reads is not captured.
- Registering and removing the window listeners is not modelled, nor the setup effect re-running whenever `apiKey` changes.
- The copy button, the `copied` flag and its two-second timer are left out (clipboard I/O and a clock). So are the help toggle and the settings panel's markup.
- `src/components/PreviewPane.tsx`, `src/GhostIcon.tsx` and `generate-icons.mjs` are not part of this model. They are markup and an asset script.
- `HistoryItem.timestamp` is a TypeScript `number`, a double. The model uses an unbounded integer, since the panel only passes the value on for formatting.
- The `console.log`, `console.warn` and `console.error` calls in `App.tsx` are left out. They are diagnostics with no effect on state.
- `HistoryPanel.Entries`: the entry keeps the raw timestamp. `toLocaleString` formatting depends on the locale and the time zone, and is left out.
- JavaScript strings are sequences of UTF-16 code units, while the model uses Dafny characters. `substring(0, 60)` and the `trim` set agree with the model when no character lies outside the Basic Multilingual Plane.
- A JSON number is kept as its text, because the mapping never reads numbers.
- The `unwrap()` calls in the tray handler (`is_visible`, `hide`, `show`, `set_focus`) would panic on a window error. The model assumes these calls succeed.
- Neither panel is rendered by `App.tsx`, so the model has no history list, no restore-by-id and no refinement backend. The two components are modelled alone, as the props-to-output functions they are.
