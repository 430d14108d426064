/**
 * The screenshot-to-code front end (`src/App.tsx`): the response cleaner, the
 * preview document, the choice of what the main area shows, and the session
 * state that the component's React state fields make up.
 */
module App {
  import opened Wrappers
  import opened Text

  // ---------------------------------------------------------------------------
  // cleanCodeResponse: strip the markdown fence a model may wrap its code in
  // ---------------------------------------------------------------------------

  const Fence := "```"

  /** "html" in any letter case: the `/i` flag of the opening-fence pattern makes
      exactly the ASCII letters case-insensitive. */
  predicate IsHtmlWord(w: string) {
    && |w| == 4
    && (w[0] == 'h' || w[0] == 'H') && (w[1] == 't' || w[1] == 'T')
    && (w[2] == 'm' || w[2] == 'M') && (w[3] == 'l' || w[3] == 'L')
  }

  predicate StartsWithHtmlFence(s: string) {
    StartsWith(s, Fence) && |s| >= 7 && IsHtmlWord(s[3..7])
  }

  /** `replace(/^```html\n?/i, '')`: drops a leading "```html" in any letter case
      together with the newline right after it, if there is one. */
  function StripHtmlFence(s: string): (r: string)
    ensures |r| <= |s|
  {
    if StartsWithHtmlFence(s) then
      if |s| > 7 && s[7] == '\n' then s[8..] else s[7..]
    else
      s
  }

  /** `replace(/^```\n?/, '')`: drops a leading "```" together with the newline
      right after it, if there is one. */
  function StripOpeningFence(s: string): (r: string)
    ensures |r| <= |s|
  {
    if StartsWith(s, Fence) then
      if |s| > 3 && s[3] == '\n' then s[4..] else s[3..]
    else
      s
  }

  /** `replace(/\n?```$/, '')`: the leftmost match of the pattern wins, so a final
      "```" goes, together with the newline right before it, if there is one.
      Without the `m` flag `$` matches only at the very end of the string. */
  function StripClosingFence(s: string): (r: string)
    ensures |r| <= |s|
  {
    if EndsWith(s, "\n" + Fence) then s[..|s| - 4]
    else if EndsWith(s, Fence) then s[..|s| - 3]
    else s
  }

  /** The html-fence replacement removes a prefix, and one exactly when the string
      opens with "```html"; the newline after it goes too when there is one. */
  lemma StripHtmlFenceRemovesPrefix(s: string)
    ensures StripHtmlFence(s) == s[|s| - |StripHtmlFence(s)|..]
    ensures StripHtmlFence(s) == s <==> !StartsWithHtmlFence(s)
    ensures StartsWithHtmlFence(s) ==>
      |s| - |StripHtmlFence(s)| == if |s| > 7 && s[7] == '\n' then 8 else 7
  {
  }

  /** The opening-fence replacement removes a prefix. */
  lemma StripOpeningFenceKeepsSuffix(s: string)
    ensures StripOpeningFence(s) == s[|s| - |StripOpeningFence(s)|..]
  {
  }

  /** The closing-fence replacement removes a suffix. */
  lemma StripClosingFenceKeepsPrefix(s: string)
    ensures StripClosingFence(s) == s[..|StripClosingFence(s)|]
  {
  }

  /** The opening-fence replacement removes "```" followed by a newline when the
      string opens that way, "```" alone when it opens with "```" otherwise, and
      nothing else. */
  lemma StripOpeningFenceRemoves(s: string)
    ensures !StartsWith(s, Fence) ==> StripOpeningFence(s) == s
    ensures StartsWith(s, Fence + "\n") ==> s == Fence + "\n" + StripOpeningFence(s)
    ensures StartsWith(s, Fence) && !StartsWith(s, Fence + "\n") ==> s == Fence + StripOpeningFence(s)
  {
    if StartsWith(s, Fence + "\n") {
      assert s == s[..4] + s[4..];
    } else if StartsWith(s, Fence) {
      assert s == s[..3] + s[3..];
    }
  }

  /** The closing-fence replacement removes a newline followed by "```" when the
      string ends that way. */
  lemma StripClosingFenceAfterNewline(x: string)
    ensures StripClosingFence(x + "\n" + Fence) == x
  {
    var s := x + "\n" + Fence;
    assert s[|s| - 4..] == "\n" + Fence;
    assert s[..|s| - 4] == x;
  }

  /** It removes "```" alone when the string ends with "```" without a newline
      before it. */
  lemma StripClosingFenceBare(x: string)
    requires !EndsWith(x, "\n")
    ensures StripClosingFence(x + Fence) == x
  {
    var s := x + Fence;
    assert s[|s| - 3..] == Fence;
    assert s[..|s| - 3] == x;
  }

  /** It leaves a string that does not end with "```" alone. */
  lemma StripClosingFenceUnfenced(s: string)
    requires !EndsWith(s, Fence)
    ensures StripClosingFence(s) == s
  {
  }

  /** The html-fence replacement removes "```html" (any letter case) and the
      newline after it. */
  lemma StripHtmlFenceLine(w: string, x: string)
    requires IsHtmlWord(w)
    ensures StripHtmlFence(Fence + w + "\n" + x) == x
  {
    var s := Fence + w + "\n" + x;
    assert s[..3] == Fence && s[3..7] == w && s[7] == '\n';
    assert s[8..] == x;
  }

  /** The opening-fence replacement removes "```" and the newline after it. */
  lemma StripOpeningFenceLine(x: string)
    ensures StripOpeningFence(Fence + "\n" + x) == x
  {
    var s := Fence + "\n" + x;
    assert s[..3] == Fence && s[3] == '\n';
    assert s[4..] == x;
  }

  /** `cleanCodeResponse`: trim, drop at most one leading "```html" fence, then at
      most one leading "```" fence, then at most one closing "```" fence, and trim
      again. The result has no whitespace at either end and is never longer than
      the input. */
  function CleanCodeResponse(code: string): (r: string)
    ensures Trimmed(r)
    ensures |r| <= |code|
  {
    Trim(StripClosingFence(StripOpeningFence(StripHtmlFence(Trim(code)))))
  }

  /** Pieces of pieces are pieces. */
  lemma InfixTransitive(r: string, c: string, i: int, s: string, j: int)
    requires InfixAt(r, c, i) && InfixAt(c, s, j)
    ensures InfixAt(r, s, i + j)
  {
    forall k | 0 <= k < |r| ensures s[i + j + k] == r[k] {
      assert r[k] == c[i..i + |r|][k] == c[i + k];
      assert c[i + k] == s[j..j + |c|][i + k] == s[j + i + k];
    }
    assert s[i + j..i + j + |r|] == r;
  }

  /** Cutting a prefix, then a prefix, then a suffix, then a piece, out of a
      piece of a string leaves a piece of that string. */
  lemma CutsAreInfix(code: string, t: string, a: string, b: string, c: string, r: string, i0: int, i4: int)
    returns (i: int)
    requires InfixAt(t, code, i0)
    requires |a| <= |t| && |b| <= |a| && |c| <= |b|
    requires a == t[|t| - |a|..] && b == a[|a| - |b|..] && c == b[..|c|]
    requires InfixAt(r, c, i4)
    ensures InfixAt(r, code, i)
  {
    assert InfixAt(a, t, |t| - |a|);
    assert InfixAt(b, a, |a| - |b|);
    assert InfixAt(c, b, 0);
    InfixTransitive(r, c, i4, b, 0);
    InfixTransitive(r, b, i4, a, |a| - |b|);
    InfixTransitive(r, a, i4 + |a| - |b|, t, |t| - |a|);
    InfixTransitive(r, t, i4 + |t| - |b|, code, i0);
    i := i4 + |t| - |b| + i0;
  }

  /** Where in the response the cleaned code sits. */
  lemma CleanOffset(code: string) returns (i: int)
    ensures InfixAt(CleanCodeResponse(code), code, i)
  {
    var t := Trim(code);
    var a := StripHtmlFence(t);
    var b := StripOpeningFence(a);
    var c := StripClosingFence(b);
    var r := Trim(c);
    assert r == CleanCodeResponse(code);
    var i0 := TrimIsInfix(code);
    var i4 := TrimIsInfix(c);
    StripHtmlFenceRemovesPrefix(t);
    StripOpeningFenceKeepsSuffix(a);
    StripClosingFenceKeepsPrefix(b);
    i := CutsAreInfix(code, t, a, b, c, r, i0, i4);
  }

  /** The cleaner only ever cuts: its result is a contiguous piece of the input. */
  lemma CleanIsInfix(code: string)
    ensures exists i :: InfixAt(CleanCodeResponse(code), code, i)
  {
    var i := CleanOffset(code);
  }

  /** A response that, once trimmed, neither starts nor ends with a fence comes
      back exactly trimmed. */
  lemma CleanUnfenced(code: string)
    requires !StartsWith(Trim(code), Fence) && !EndsWith(Trim(code), Fence)
    ensures CleanCodeResponse(code) == Trim(code)
  {
    var t := Trim(code);
    assert !StartsWithHtmlFence(t);
    TrimIdempotent(code);
  }

  /** A trimmed response that neither starts nor ends with a fence is returned
      unchanged. */
  lemma CleanKeepsPlainCode(code: string)
    requires Trimmed(code) && !StartsWith(code, Fence) && !EndsWith(code, Fence)
    ensures CleanCodeResponse(code) == code
  {
    TrimPadded([], code, []);
    assert [] + code + [] == code;
    CleanUnfenced(code);
  }

  /** The newline that ends an opening fence line keeps a body that does not
      itself start with a fence from looking like one. */
  lemma NewlineBlocksFence(b: string)
    requires !StartsWith(b, Fence)
    ensures !StartsWith(b + "\n" + Fence, Fence)
  {
    var s := b + "\n" + Fence;
    if |b| < 3 {
      assert s[|b|] == '\n';
      assert s[..3][|b|] == '\n';
    } else {
      assert s[..3] == b[..3];
    }
  }

  /** The stages after the first trim, applied to an already trimmed string. */
  lemma CleanAfterTrim(code: string, t: string)
    requires Trim(code) == t
    ensures CleanCodeResponse(code)
         == Trim(StripClosingFence(StripOpeningFence(StripHtmlFence(t))))
  {
  }

  /** A block fenced as "```html" (any letter case) on its own line, with any
      whitespace around the whole response, cleans back to exactly its body, when
      the body has no whitespace at its ends and does not itself open with a fence. */
  lemma CleanHtmlFencedBlock(pre: string, w: string, body: string, post: string)
    requires AllWhitespace(pre) && AllWhitespace(post) && IsHtmlWord(w)
    requires Trimmed(body) && !StartsWith(body, Fence)
    ensures CleanCodeResponse(pre + Fence + w + "\n" + body + "\n" + Fence + post) == body
  {
    var inner := body + "\n" + Fence;
    var block := Fence + w + "\n" + inner;
    var code := pre + Fence + w + "\n" + body + "\n" + Fence + post;
    assert code == pre + block + post;
    TrimPadded(pre, block, post);
    StripHtmlFenceLine(w, inner);
    NewlineBlocksFence(body);
    StripClosingFenceAfterNewline(body);
    TrimPadded([], body, []);
    assert [] + body + [] == body;
    CleanAfterTrim(code, block);
  }

  /** The same for a block fenced as a bare "```" on its own line. */
  lemma CleanPlainFencedBlock(pre: string, body: string, post: string)
    requires AllWhitespace(pre) && AllWhitespace(post)
    requires Trimmed(body) && !StartsWith(body, Fence)
    ensures CleanCodeResponse(pre + Fence + "\n" + body + "\n" + Fence + post) == body
  {
    var inner := body + "\n" + Fence;
    var block := Fence + "\n" + inner;
    var code := pre + Fence + "\n" + body + "\n" + Fence + post;
    assert code == pre + block + post;
    TrimPadded(pre, block, post);
    assert !StartsWithHtmlFence(block) by { assert block[3] == '\n'; }
    StripOpeningFenceLine(inner);
    StripClosingFenceAfterNewline(body);
    TrimPadded([], body, []);
    assert [] + body + [] == body;
    CleanAfterTrim(code, block);
  }

  // ---------------------------------------------------------------------------
  // getPreviewHTML: the document the preview frame renders
  // ---------------------------------------------------------------------------

  const TailwindScript := "<script src=\"https://cdn.tailwindcss.com\"></script>"

  const HeadOpening :=
    "<!DOCTYPE html>\n<html lang=\"en\">\n<head>\n  <meta charset=\"UTF-8\">\n"
    + "  <meta name=\"viewport\" content=\"width=device-width, initial-scale=1.0\">\n"

  const PreviewHead := HeadOpening + "  " + TailwindScript + "\n</head>\n<body>\n"

  const PreviewTail := "\n</body>\n</html>"

  /** `getPreviewHTML`: the code sits verbatim between the fixed head, which loads
      the Tailwind CDN and ends by opening the body, and the fixed tail. */
  function PreviewHTML(code: string): (doc: string)
    ensures StartsWith(doc, PreviewHead) && EndsWith(doc, PreviewTail)
    ensures |doc| == |PreviewHead| + |code| + |PreviewTail|
    ensures doc[|PreviewHead|..|doc| - |PreviewTail|] == code
  {
    var doc := PreviewHead + code + PreviewTail;
    assert doc[..|PreviewHead|] == PreviewHead;
    assert doc[|PreviewHead|..|doc| - |PreviewTail|] == code;
    assert doc[|doc| - |PreviewTail|..] == PreviewTail;
    doc
  }

  /** Reads the code back out of a preview document; `None` for anything that is
      not one. */
  function PreviewBody(doc: string): (code: Option<string>)
    ensures code.Some? ==> |code.value| <= |doc|
  {
    if |PreviewHead| + |PreviewTail| <= |doc| && StartsWith(doc, PreviewHead) && EndsWith(doc, PreviewTail) then
      Some(doc[|PreviewHead|..|doc| - |PreviewTail|])
    else
      None
  }

  /** The head opens the body on its own line after loading Tailwind. */
  lemma PreviewHeadLoadsTailwind()
    ensures InfixAt(TailwindScript, PreviewHead, |HeadOpening| + 2)
    ensures EndsWith(PreviewHead, "<body>\n") && StartsWith(PreviewTail, "\n</body>")
  {
  }

  /** Extracting the code from a preview document gives back exactly that code,
      and a document the extraction accepts is the preview of what it extracts. */
  lemma PreviewRoundTrip(code: string, doc: string)
    ensures PreviewBody(PreviewHTML(code)) == Some(code)
    ensures PreviewBody(doc) == Some(code) ==> PreviewHTML(code) == doc
  {
    if PreviewBody(doc) == Some(code) {
      assert doc == doc[..|PreviewHead|] + doc[|PreviewHead|..|doc| - |PreviewTail|] + doc[|doc| - |PreviewTail|..];
    }
  }

  // ---------------------------------------------------------------------------
  // What the main area shows
  // ---------------------------------------------------------------------------

  /** JavaScript truthiness of a `string | null` state value. */
  predicate Present(s: Option<string>) {
    s.Some? && s.value != ""
  }

  datatype Tab = CodeTab | PreviewTab

  /** The four alternatives of the main area: the spinner, the screenshot beside
      the code or its preview, the "processing your screenshot" notice under the
      pasted image, and the drop zone. */
  datatype View = Spinner | CodeResult | Processing | DropZone

  /** Exactly one view is shown, chosen in priority order: loading, then a
      non-empty result, then a pasted image, else the drop zone. */
  function SelectView(loading: bool, generatedCode: string, pastedImage: Option<string>): (v: View)
    ensures v == Spinner <==> loading
    ensures v == CodeResult <==> !loading && generatedCode != ""
    ensures v == Processing <==> !loading && generatedCode == "" && Present(pastedImage)
    ensures v == DropZone <==> !loading && generatedCode == "" && !Present(pastedImage)
  {
    if loading then Spinner
    else if generatedCode != "" then CodeResult
    else if Present(pastedImage) then Processing
    else DropZone
  }

  /** What the right-hand pane shows under each tab: the code itself, or the
      preview document, from which the code can be read back unchanged. */
  function TabContent(tab: Tab, generatedCode: string): (content: string)
    ensures tab == CodeTab ==> content == generatedCode
    ensures tab == PreviewTab ==> PreviewBody(content) == Some(generatedCode)
  {
    match tab
    case CodeTab => generatedCode
    case PreviewTab => PreviewRoundTrip(generatedCode, ""); PreviewHTML(generatedCode)
  }

  // ---------------------------------------------------------------------------
  // The session: the component's state fields and the handlers that update them
  // ---------------------------------------------------------------------------

  const MissingApiKeyMessage := "Please enter your OpenAI API key in settings"

  /** The key under which the settings store keeps the API key. */
  const ApiKeyEntry := "apiKey"

  /** The arguments of one `generate_code` invocation of the backend. */
  datatype Request = Request(apiKey: string, imageData: string)

  /** The auto-generate effect's guard: an image is present, nothing is loading
      and no result is shown. It holds exactly when the main area shows the
      "processing your screenshot" notice. */
  predicate ShouldAutoGenerate(pastedImage: Option<string>, loading: bool, generatedCode: string): (fires: bool)
    ensures fires <==> SelectView(loading, generatedCode, pastedImage) == Processing
  {
    Present(pastedImage) && !loading && generatedCode == ""
  }

  /** Whether setting the pasted image to `image` runs the auto-generate effect
      and its guard lets it call `generateCode`: the effect depends on the pasted
      image alone, so it runs only when that value changes. */
  predicate EffectFires(previous: Option<string>, image: string, loading: bool, generatedCode: string) {
    previous != Some(image) && ShouldAutoGenerate(Some(image), loading, generatedCode)
  }

  const ImagePrefix := "image/"

  /** The MIME-type check of the paste and drop handlers. */
  predicate IsImageType(mimeType: string) {
    StartsWith(mimeType, ImagePrefix)
  }

  /** Every "image/..." type passes the check, and every type that passes is
      "image/" followed by its subtype. */
  lemma ImageTypesArePrefixed(subtype: string, mimeType: string)
    ensures IsImageType(ImagePrefix + subtype)
    ensures IsImageType(mimeType) ==> mimeType == ImagePrefix + mimeType[|ImagePrefix|..]
  {
    assert (ImagePrefix + subtype)[..|ImagePrefix|] == ImagePrefix;
    if IsImageType(mimeType) {
      assert mimeType == mimeType[..|ImagePrefix|] + mimeType[|ImagePrefix|..];
    }
  }

  /** The API key a store load leaves in place: the stored one when it is present
      and non-empty, otherwise the current one. */
  function KeyAfterLoad(current: string, persisted: map<string, string>): (key: string)
    ensures ApiKeyEntry in persisted && persisted[ApiKeyEntry] != "" ==> key == persisted[ApiKeyEntry]
    ensures !(ApiKeyEntry in persisted && persisted[ApiKeyEntry] != "") ==> key == current
    ensures key == "" ==> current == ""
  {
    if ApiKeyEntry in persisted && persisted[ApiKeyEntry] != "" then persisted[ApiKeyEntry] else current
  }

  /** Loading the same store twice is loading it once. */
  lemma LoadTwiceIsLoadOnce(current: string, persisted: map<string, string>)
    ensures KeyAfterLoad(KeyAfterLoad(current, persisted), persisted) == KeyAfterLoad(current, persisted)
  {
  }

  /** An edit written to a loaded store survives the store being read back. */
  lemma EditSurvivesReload(edited: string, persisted: map<string, string>)
    ensures KeyAfterLoad(edited, persisted[ApiKeyEntry := edited]) == edited
  {
  }

  class Session {
    var store: Option<map<string, string>>
    var loading: bool
    var generatedCode: string
    var showSettings: bool
    var apiKey: string
    var pastedImage: Option<string>
    var error: Option<string>
    var activeTab: Tab

    /** A result or the spinner is never shown while loading with a result or an
        error; the error banner only ever accompanies an empty result. */
    ghost predicate Valid()
      reads this
    {
      && (loading ==> generatedCode == "")
      && (error.Some? ==> !loading && generatedCode == "")
    }

    /** The main area's current view. */
    function View(): View
      reads this
    {
      SelectView(loading, generatedCode, pastedImage)
    }

    /** "Try Another" is rendered only beside a result. */
    predicate TryAnotherOffered()
      reads this
    {
      generatedCode != ""
    }

    /** The initial state of every field. */
    constructor ()
      ensures Valid()
      ensures store == None && !loading && generatedCode == "" && !showSettings
      ensures apiKey == "" && pastedImage == None && error == None && activeTab == CodeTab
      ensures View() == DropZone
    {
      store := None;
      loading := false;
      generatedCode := "";
      showSettings := false;
      apiKey := "";
      pastedImage := None;
      error := None;
      activeTab := CodeTab;
    }

    /** The settings store has been loaded: keep it, and take the stored API key
        when it is present and non-empty. */
    method LoadStore(persisted: map<string, string>)
      requires Valid()
      modifies this
      ensures Valid()
      ensures store == Some(persisted)
      ensures apiKey == KeyAfterLoad(old(apiKey), persisted)
      ensures loading == old(loading) && generatedCode == old(generatedCode)
      ensures showSettings == old(showSettings) && pastedImage == old(pastedImage)
      ensures error == old(error) && activeTab == old(activeTab)
    {
      store := Some(persisted);
      if ApiKeyEntry in persisted && persisted[ApiKeyEntry] != "" {
        apiKey := persisted[ApiKeyEntry];
      }
    }

    /** The synchronous part of `generateCode`, up to the backend invocation.
        Without an API key it reports the missing key, opens the settings and
        invokes nothing, leaving loading and the result alone; otherwise it starts
        loading, clears the result and the error, and returns the request to send.
        Its one caller, the auto-generate effect, calls it only while nothing is
        loading and no result is shown. */
    method GenerateCode(base64: string) returns (request: Option<Request>)
      requires Valid() && !loading && generatedCode == ""
      modifies this
      ensures Valid()
      ensures old(apiKey) == "" ==>
        && request == None && error == Some(MissingApiKeyMessage) && showSettings
        && loading == old(loading) && generatedCode == old(generatedCode)
      ensures old(apiKey) != "" ==>
        && request == Some(Request(old(apiKey), base64))
        && loading && generatedCode == "" && error == None && showSettings == old(showSettings)
      ensures apiKey == old(apiKey) && pastedImage == old(pastedImage)
      ensures activeTab == old(activeTab) && store == old(store)
    {
      if apiKey == "" {
        error := Some(MissingApiKeyMessage);
        showSettings := true;
        return None;
      }
      loading := true;
      generatedCode := "";
      error := None;
      request := Some(Request(apiKey, base64));
    }

    /** The completion of `generateCode` once the backend answers. On success the
        cleaned code becomes the result and the preview tab is selected; on failure
        the message becomes the error and the result stays empty; loading ends
        either way. */
    method CompleteGeneration(outcome: Result<string, string>)
      requires Valid() && loading
      modifies this
      ensures Valid()
      ensures !loading
      ensures outcome.Ok? ==>
        generatedCode == CleanCodeResponse(outcome.value) && activeTab == PreviewTab && error == None
      ensures outcome.Err? ==>
        error == Some(outcome.error) && generatedCode == "" && activeTab == old(activeTab)
      ensures pastedImage == old(pastedImage) && apiKey == old(apiKey)
      ensures showSettings == old(showSettings) && store == old(store)
      ensures View() == CodeResult <==> outcome.Ok? && CleanCodeResponse(outcome.value) != ""
    {
      match outcome {
        case Ok(code) =>
          generatedCode := CleanCodeResponse(code);
          activeTab := PreviewTab;
        case Err(message) =>
          error := Some(message);
      }
      loading := false;
    }

    /** A pasted or dropped file, once read as a data URL. A file that is not an
        image changes nothing. An image becomes the pasted image; when that changes
        the state value, the auto-generate effect runs and calls `generateCode` if
        its guard holds, with the outcomes of `GenerateCode`. Otherwise only the
        pasted image changes: a new image pasted while loading or while a result
        is shown starts nothing, and neither does the same image pasted again. */
    method ReceiveImage(mimeType: string, dataUrl: string) returns (request: Option<Request>)
      requires Valid()
      modifies this
      ensures Valid()
      ensures !IsImageType(mimeType) ==>
        && request == None && pastedImage == old(pastedImage)
        && loading == old(loading) && generatedCode == old(generatedCode)
        && error == old(error) && showSettings == old(showSettings)
      ensures IsImageType(mimeType) ==> pastedImage == Some(dataUrl)
      ensures IsImageType(mimeType) && !EffectFires(old(pastedImage), dataUrl, old(loading), old(generatedCode)) ==>
        && request == None
        && loading == old(loading) && generatedCode == old(generatedCode)
        && error == old(error) && showSettings == old(showSettings)
      ensures IsImageType(mimeType) && EffectFires(old(pastedImage), dataUrl, old(loading), old(generatedCode)) && old(apiKey) == "" ==>
        && request == None && error == Some(MissingApiKeyMessage) && showSettings
        && loading == old(loading) && generatedCode == old(generatedCode) && View() == Processing
      ensures IsImageType(mimeType) && EffectFires(old(pastedImage), dataUrl, old(loading), old(generatedCode)) && old(apiKey) != "" ==>
        && request == Some(Request(old(apiKey), dataUrl))
        && loading && generatedCode == "" && error == None && showSettings == old(showSettings)
        && View() == Spinner
      ensures apiKey == old(apiKey) && activeTab == old(activeTab) && store == old(store)
    {
      request := None;
      if IsImageType(mimeType) {
        var previous := pastedImage;
        pastedImage := Some(dataUrl);
        if previous != pastedImage && ShouldAutoGenerate(pastedImage, loading, generatedCode) {
          request := GenerateCode(dataUrl);
        }
      }
    }

    /** "Try Another", a button rendered only beside a result, hence never while
        loading: clears the image, the result and the error and returns to the
        code tab, so the drop zone is shown. The effect it triggers finds no image
        and does nothing. */
    method TryAnother()
      requires Valid() && TryAnotherOffered()
      modifies this
      ensures Valid()
      ensures pastedImage == None && generatedCode == "" && error == None && activeTab == CodeTab
      ensures !loading && loading == old(loading) && apiKey == old(apiKey)
      ensures showSettings == old(showSettings) && store == old(store)
      ensures View() == DropZone
    {
      pastedImage := None;
      generatedCode := "";
      error := None;
      activeTab := CodeTab;
    }

    /** An edit of the API key field: the key takes the new value, which is also
        written to the store if the store has been loaded. */
    method ChangeApiKey(newApiKey: string)
      requires Valid()
      modifies this
      ensures Valid()
      ensures apiKey == newApiKey
      ensures store == if old(store).Some? then Some(old(store).value[ApiKeyEntry := newApiKey]) else None
      ensures loading == old(loading) && generatedCode == old(generatedCode)
      ensures showSettings == old(showSettings) && pastedImage == old(pastedImage)
      ensures error == old(error) && activeTab == old(activeTab)
    {
      apiKey := newApiKey;
      if store.Some? {
        store := Some(store.value[ApiKeyEntry := newApiKey]);
      }
    }

    /** The settings button: shows or hides the settings panel. */
    method ToggleSettings()
      requires Valid()
      modifies this`showSettings
      ensures Valid()
      ensures showSettings == !old(showSettings)
    {
      showSettings := !showSettings;
    }

    /** The "Code" and "Preview" tab buttons. */
    method SelectTab(tab: Tab)
      requires Valid()
      modifies this`activeTab
      ensures Valid()
      ensures activeTab == tab
    {
      activeTab := tab;
    }
  }
}
