/**
 * The generation-history panel (`src/components/HistoryPanel.tsx`): the shape of
 * a history entry and what the panel derives from a list of them.
 */
module HistoryPanel {
  import opened Wrappers
  import opened Text

  /** One past generation. `parentId` and `isRefinement` are optional fields; a
      missing `isRefinement` reads as `undefined`, which is falsy. */
  datatype HistoryItem = HistoryItem(
    id: string,
    timestamp: int,
    image: string,
    code: string,
    parentId: Option<string>,
    isRefinement: Option<bool>)

  /** How many characters of the code an entry previews. */
  const PreviewLength := 60

  const Ellipsis := "..."

  function Min(a: int, b: int): int {
    if a <= b then a else b
  }

  /** `code.substring(0, 60)` followed by "...": the longest prefix of the code
      that has at most 60 characters, then the ellipsis, which is appended even
      when nothing was cut. */
  function CodePreview(code: string): (p: string)
    ensures EndsWith(p, Ellipsis)
    ensures |p| == Min(PreviewLength, |code|) + |Ellipsis|
    ensures StartsWith(code, p[..|p| - |Ellipsis|])
  {
    var p := code[..Min(PreviewLength, |code|)] + Ellipsis;
    assert p[..|p| - |Ellipsis|] == code[..Min(PreviewLength, |code|)];
    assert p[|p| - |Ellipsis|..] == Ellipsis;
    p
  }

  /** Code of at most 60 characters is previewed in full. */
  lemma ShortCodePreviewedInFull(code: string)
    requires |code| <= PreviewLength
    ensures CodePreview(code) == code + Ellipsis
  {
    assert code[..|code|] == code;
  }

  /** Only the first 60 characters matter: whatever follows them does not show. */
  lemma PreviewIgnoresTail(code: string, tail: string)
    requires |code| >= PreviewLength
    ensures CodePreview(code + tail) == CodePreview(code)
  {
    assert (code + tail)[..PreviewLength] == code[..PreviewLength];
  }

  /** Whether an entry is drawn as a refinement: indented with the blue border
      and carrying the refresh marker. Only an explicit `true` counts. */
  predicate IsRefinement(item: HistoryItem): (marked: bool)
    ensures !marked <==> item.isRefinement == None || item.isRefinement == Some(false)
  {
    match item.isRefinement
    case None => false
    case Some(flag) => flag
  }

  /** One rendered entry: its React key, the thumbnail source, the raw timestamp
      it formats, whether it is drawn as a refinement, the code preview, and the
      item its click hands to `onRestore`. */
  datatype Entry = Entry(
    key: string,
    thumbnail: string,
    timestamp: int,
    refinement: bool,
    preview: string,
    restores: HistoryItem)

  function EntryFor(item: HistoryItem): (e: Entry)
    ensures e.key == item.id && e.thumbnail == item.image && e.timestamp == item.timestamp
    ensures e.refinement <==> item.isRefinement == Some(true)
    ensures e.preview == CodePreview(item.code) && e.restores == item
  {
    Entry(item.id, item.image, item.timestamp, IsRefinement(item), CodePreview(item.code), item)
  }

  /** The `history.map(...)`: one entry per item, in the order given, each
      restoring its own item unmodified. */
  function Entries(history: seq<HistoryItem>): (es: seq<Entry>)
    ensures |es| == |history|
    ensures forall i :: 0 <= i < |history| ==> es[i] == EntryFor(history[i])
  {
    if history == [] then [] else [EntryFor(history[0])] + Entries(history[1..])
  }

  /** The list part of the panel. */
  datatype Body = NoGenerations | List(entries: seq<Entry>)

  /** The panel: whether "Clear All" is offered, and what is under the title. */
  datatype Panel = Panel(clearAll: bool, body: Body)

  /** The panel for a history. "Clear All" and the list appear exactly when there
      is history, "No generations yet" exactly when there is none; the list has
      one entry per item, in order, and clicking the entry at a position restores
      the item at that position. */
  function Render(history: seq<HistoryItem>): (p: Panel)
    ensures p.clearAll <==> |history| > 0
    ensures p.body == NoGenerations <==> |history| == 0
    ensures p.body.List? ==>
      && |p.body.entries| == |history|
      && forall i :: 0 <= i < |history| ==>
           p.body.entries[i].restores == history[i] && p.body.entries[i].key == history[i].id
  {
    if |history| > 0 then Panel(true, List(Entries(history))) else Panel(false, NoGenerations)
  }

  /** The marking depends on `isRefinement` alone: an entry with a parent but no
      `isRefinement: true` is drawn as a root, and an absent flag is a root too. */
  lemma MarkingIgnoresParent(item: HistoryItem, parent: Option<string>)
    ensures EntryFor(item.(parentId := parent)).refinement == EntryFor(item).refinement
    ensures item.isRefinement != Some(true) ==> !EntryFor(item).refinement
    ensures item.isRefinement == Some(true) ==> EntryFor(item).refinement
  {
  }

  /** Rendering is compositional: the entries of two histories one after the
      other are the entries of the first followed by those of the second. */
  lemma {:induction false} EntriesAppend(h1: seq<HistoryItem>, h2: seq<HistoryItem>)
    ensures Entries(h1 + h2) == Entries(h1) + Entries(h2)
  {
    if h1 != [] {
      assert (h1 + h2)[1..] == h1[1..] + h2;
      EntriesAppend(h1[1..], h2);
    }
  }
}
