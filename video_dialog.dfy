/** The video-generation dialog (src/components/video-generation-modal.tsx): a toggle-set
    of selected image urls kept as a duplicate-free list, and the validated, busy-flagged
    hand-off of that selection and a prompt to the caller's `onGenerate`. */
module VideoDialog {
  import opened Lists

  /** An image offered for selection, as the dialog receives it from its caller. */
  datatype SelectableImage = SelectableImage(id: string, url: string)

  /** What one press of the generate button does, in order: alerts shown to the user,
      changes of the busy flag, and calls of the caller's `onGenerate` and `onClose`. */
  datatype Effect = Alert(message: string) | SetBusy(busy: bool) | OnGenerate(images: seq<string>, prompt: string) | OnClose

  const SelectImageMessage: string := "Please select at least one image"
  const EnterPromptMessage: string := "Please enter a prompt"
  const FailureMessage: string := "Failed to generate video"

  /** The selectable images: the uploaded ones followed by the generated ones. */
  function AllImages(uploaded: seq<SelectableImage>, generated: seq<SelectableImage>): (r: seq<SelectableImage>)
    ensures |r| == |uploaded| + |generated|
    ensures r[..|uploaded|] == uploaded && r[|uploaded|..] == generated
    ensures forall x :: x in r <==> x in uploaded || x in generated
  {
    uploaded + generated
  }

  /** The urls of `images`, in order. */
  function Urls(images: seq<SelectableImage>): (r: seq<string>)
    ensures |r| == |images|
    ensures forall i :: 0 <= i < |images| ==> r[i] == images[i].url
  {
    seq(|images|, i requires 0 <= i < |images| => images[i].url)
  }

  /** The predicate that keeps every url other than `url`. */
  function UrlIsNot(url: string): string -> bool
  {
    (u: string) => u != url
  }

  /** One click on an image's checkbox: a selected url is removed, any other is appended. */
  function Toggle(selected: seq<string>, url: string): (r: seq<string>)
    ensures url in r <==> url !in selected
    ensures forall u :: u != url ==> (u in r <==> u in selected)
    ensures url !in selected ==> r == selected + [url]
    ensures url in selected ==> IsSubsequence(r, selected) && |r| < |selected|
    ensures NoDuplicates(selected) ==> NoDuplicates(r)
  {
    if url in selected then
      var r := Filter(selected, UrlIsNot(url));
      assert |r| < |selected| by {
        FilterShrinks(selected, UrlIsNot(url));
      }
      if NoDuplicates(selected) then FilterKeepsNoDuplicates(selected, UrlIsNot(url)); r else r
    else
      assert NoDuplicates(selected) ==> NoDuplicates(selected + [url]) by {
        if NoDuplicates(selected) {
          forall i, j | 0 <= i < j < |selected + [url]|
            ensures (selected + [url])[i] != (selected + [url])[j]
          {
            if j == |selected| {
              assert (selected + [url])[i] == selected[i];
            }
          }
        }
      }
      selected + [url]
  }

  /** The selection after clicking the checkboxes of `clicks` in turn. */
  function ToggleAll(selected: seq<string>, clicks: seq<string>): seq<string>
    decreases |clicks|
  {
    if clicks == [] then selected else ToggleAll(Toggle(selected, clicks[0]), clicks[1..])
  }

  /** Clicking an unselected image twice leaves the selection as it was. */
  lemma ToggleTwiceRestores(selected: seq<string>, url: string)
    requires url !in selected
    ensures Toggle(Toggle(selected, url), url) == selected
  {
    var keep := UrlIsNot(url);
    FilterAppend(selected, [url], keep);
    FilterAllKept(selected, keep);
    assert Filter([url], keep) == [] by {
      assert [url][1..] == [];
    }
  }

  /** No sequence of clicks creates a duplicate; in particular the selection, which starts empty, never holds one. */
  lemma {:induction false} ToggleAllKeepsNoDuplicates(selected: seq<string>, clicks: seq<string>)
    requires NoDuplicates(selected)
    ensures NoDuplicates(ToggleAll(selected, clicks))
    decreases |clicks|
  {
    if clicks != [] {
      ToggleAllKeepsNoDuplicates(Toggle(selected, clicks[0]), clicks[1..]);
    }
  }

  /** Clicking only the checkboxes the dialog shows, one per selectable image, selects only their urls. */
  lemma {:induction false} ToggleAllStaysWithin(selected: seq<string>, clicks: seq<string>,
                                                uploaded: seq<SelectableImage>, generated: seq<SelectableImage>)
    requires forall u :: u in selected ==> u in Urls(AllImages(uploaded, generated))
    requires forall u :: u in clicks ==> u in Urls(AllImages(uploaded, generated))
    ensures forall u :: u in ToggleAll(selected, clicks) ==> u in Urls(AllImages(uploaded, generated))
    decreases |clicks|
  {
    if clicks != [] {
      assert clicks[0] in clicks;
      forall u | u in clicks[1..]
        ensures u in Urls(AllImages(uploaded, generated))
      {
        assert u in clicks;
      }
      ToggleAllStaysWithin(Toggle(selected, clicks[0]), clicks[1..], uploaded, generated);
    }
  }

  /** The generate button is enabled only when not busy, with a selection and a prompt. */
  predicate GenerateEnabled(isGenerating: bool, selected: seq<string>, prompt: string)
  {
    !isGenerating && selected != [] && prompt != ""
  }

  /** The part of a press that runs before the awaited `onGenerate` settles: the
      validation alerts, or setting the busy flag and calling `onGenerate`. */
  function DispatchEffects(selected: seq<string>, prompt: string): seq<Effect>
  {
    if selected == [] then [Alert(SelectImageMessage)]
    else if prompt == "" then [Alert(EnterPromptMessage)]
    else [SetBusy(true), OnGenerate(selected, prompt)]
  }

  /** How the awaited part of a press ends: `onGenerate` rejects; or it fulfils and the
      caller's `onClose` then returns; or it fulfils and `onClose` throws, which the same
      `catch` handles. */
  datatype Outcome = GenerateRejected | Closed | CloseThrew

  /** The part of a press that runs once `onGenerate` has settled. */
  function SettleEffects(outcome: Outcome): seq<Effect>
  {
    match outcome
    case GenerateRejected => [Alert(FailureMessage), SetBusy(false)]
    case Closed => [OnClose, SetBusy(false)]
    case CloseThrew => [OnClose, Alert(FailureMessage), SetBusy(false)]
  }

  /** What pressing generate does, given how the awaited part ends. */
  function GenerateEffects(selected: seq<string>, prompt: string, outcome: Outcome): (trace: seq<Effect>)
    ensures selected == [] ==> trace == [Alert(SelectImageMessage)]
    ensures selected != [] && prompt == "" ==> trace == [Alert(EnterPromptMessage)]
    ensures selected != [] && prompt != "" ==>
      && |trace| == (if outcome.CloseThrew? then 5 else 4)
      && trace[0] == SetBusy(true) && trace[1] == OnGenerate(selected, prompt)
      && trace[|trace| - 1] == SetBusy(false)
    ensures selected != [] && prompt != "" && !outcome.GenerateRejected? ==> trace[2] == OnClose
    ensures selected != [] && prompt != "" && !outcome.Closed? ==> trace[|trace| - 2] == Alert(FailureMessage)
    ensures OnGenerate(selected, prompt) in trace <==> selected != [] && prompt != ""
    ensures forall e :: e in trace && e.OnGenerate? ==> e == OnGenerate(selected, prompt)
    ensures OnClose in trace <==> selected != [] && prompt != "" && !outcome.GenerateRejected?
    ensures Alert(FailureMessage) in trace <==> selected != [] && prompt != "" && !outcome.Closed?
    ensures trace == DispatchEffects(selected, prompt) + (if selected != [] && prompt != "" then SettleEffects(outcome) else [])
  {
    if selected == [] || prompt == "" then DispatchEffects(selected, prompt)
    else DispatchEffects(selected, prompt) + SettleEffects(outcome)
  }

  /** The button is enabled exactly when it is not busy and a press would get past validation. */
  lemma EnabledButtonDispatches(isGenerating: bool, selected: seq<string>, prompt: string)
    ensures GenerateEnabled(isGenerating, selected, prompt)
        <==> !isGenerating && DispatchEffects(selected, prompt) == [SetBusy(true), OnGenerate(selected, prompt)]
  {
  }

  /** The dialog's own state. */
  class VideoGenerationDialog {
    var selectedImages: seq<string>
    var prompt: string
    var isGenerating: bool

    ghost predicate Valid()
      reads this
    {
      NoDuplicates(selectedImages)
    }

    constructor ()
      ensures Valid()
      ensures selectedImages == [] && prompt == "" && !isGenerating
    {
      selectedImages := [];
      prompt := "";
      isGenerating := false;
    }

    /** `toggleImage`. */
    method ToggleImage(url: string)
      requires Valid()
      modifies this
      ensures Valid()
      ensures selectedImages == Toggle(old(selectedImages), url)
      ensures prompt == old(prompt) && isGenerating == old(isGenerating)
    {
      selectedImages := Toggle(selectedImages, url);
    }

    /** Typing in the prompt field. */
    method SetPrompt(text: string)
      requires Valid()
      modifies this
      ensures Valid()
      ensures prompt == text
      ensures selectedImages == old(selectedImages) && isGenerating == old(isGenerating)
    {
      prompt := text;
    }

    /** `handleGenerate` up to the awaited `onGenerate`: validation, then the busy flag is
        set and `onGenerate` is called; `dispatched` says whether the call was made. */
    method StartGenerate() returns (trace: seq<Effect>, dispatched: bool)
      requires Valid()
      modifies this
      ensures Valid()
      ensures dispatched <==> old(selectedImages) != [] && old(prompt) != ""
      ensures trace == DispatchEffects(old(selectedImages), old(prompt))
      ensures isGenerating == (dispatched || old(isGenerating))
      ensures dispatched ==> !GenerateEnabled(isGenerating, selectedImages, prompt)
      ensures selectedImages == old(selectedImages) && prompt == old(prompt)
    {
      if selectedImages == [] {
        trace, dispatched := [Alert(SelectImageMessage)], false;
        return;
      }
      if prompt == "" {
        trace, dispatched := [Alert(EnterPromptMessage)], false;
        return;
      }
      isGenerating := true;
      trace, dispatched := [SetBusy(true), OnGenerate(selectedImages, prompt)], true;
    }

    /** `handleGenerate` after the awaited `onGenerate` settles: `onClose` once it fulfilled,
        the failure alert when it rejected or `onClose` threw, and the busy flag cleared in
        every case. Clicks and typing may have run in between. */
    method FinishGenerate(outcome: Outcome) returns (trace: seq<Effect>)
      requires Valid()
      modifies this
      ensures Valid()
      ensures trace == SettleEffects(outcome)
      ensures OnClose in trace <==> !outcome.GenerateRejected?
      ensures Alert(FailureMessage) in trace <==> !outcome.Closed?
      ensures trace[|trace| - 1] == SetBusy(false) && !isGenerating
      ensures selectedImages == old(selectedImages) && prompt == old(prompt)
    {
      trace := [];
      if !outcome.GenerateRejected? {
        trace := trace + [OnClose];
      }
      if !outcome.Closed? {
        trace := trace + [Alert(FailureMessage)];
      }
      isGenerating := false;
      trace := trace + [SetBusy(false)];
    }
  }
}
