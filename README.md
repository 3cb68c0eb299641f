# Virtual Try On: image bookkeeping of the product form

This Dafny project models the in-memory image bookkeeping of the "Virtual Try On"
product-listing form, and proves properties about it:

- **Image store** (`ImageStore`, file `image_store.dfy`, from `src/components/product-form-new.tsx`).
  It has three parts:
  - the uploaded photos, appended and capped at eight, and removed by id;
  - the avatar-generated photos, each created *pending* and later *resolved* with the
    response url or a fixed fallback url, and removed by id;
  - a per-avatar map of custom images that shadow the static avatar catalogue.

  The component's state fields are the fields of class `ProductForm`. There is one method
  per handler, and each method states the new value of every field. The list updates are
  pure functions:
  - `AppendUploads` (append, then keep the first eight);
  - `RemoveUpload` and `RemoveGenerated` (filter by id);
  - `ResolveGenerated` (map over the entries);
  - `SetCustomImage` (map update);
  - `DisplayedImage` (custom image, or else the catalogue default).

  `Valid()` keeps these facts true after every handler:
  - at most eight uploads;
  - ids are distinct within each list;
  - a generated photo is pending exactly when it has no url;
  - a resolved url is never empty;
  - the selected avatar's id is a catalogue id (its image may be a custom one).
- **Video-selection dialog** (`VideoDialog`, file `video_dialog.dfy`, from
  `src/components/video-generation-modal.tsx`). The selection is a toggle-set of image urls,
  kept as a duplicate-free list (`Toggle`, `ToggleAll`). The selectable images are the
  uploaded ones followed by the generated ones (`AllImages`). `GenerateEffects` gives the
  effects of one press of "Generate Video", in order:
  - the alerts;
  - the busy flag being set and reset;
  - the calls of the caller's `onGenerate` and `onClose`.

  Class `VideoGenerationDialog` holds the dialog's own state. Its press handler is split at
  the awaited `onGenerate`: `StartGenerate` validates, sets the busy flag and calls
  `onGenerate`; `FinishGenerate` runs once that call settles. Between the two the dialog is
  busy, its button is disabled, and clicks and typing still change the selection and prompt.
- `lists.dfy` (`Lists`) defines JavaScript's array `filter` as `Filter`, and proves the facts
  the handlers use. Filtering keeps the relative order (`IsSubsequence`) and never adds a
  duplicate. Filtering distributes over concatenation. Filtering with a predicate every
  element satisfies is the identity. `wrappers.dfy` defines `Option`.

Inputs from outside the form are parameters of the methods. These are the chosen files
(with their fresh ids and object urls), the outcome of the avatar-generation call, and
how the awaited part of a press ends: the caller's `onGenerate` rejects, or it fulfils and
the caller's `onClose` returns or throws.

Two behaviours of the code are worth stating outright:

- A rejected avatar-generation call is not masked by the fallback. The handler has no
  `try`/`catch` around the fetch and the JSON parse
  (src/components/product-form-new.tsx:156-163), so a rejection ends the handler: the entry
  stays pending, and the avatar and photo selections stay set. `CompleteGenerateImage` with
  `Rejected` states exactly this. The form renders no remove button for a pending entry
  (src/components/product-form-new.tsx:443-475), so such an entry stays on screen as a spinner.
- The fallback is used when the response has no `url`, and also when its `url` is the empty
  string (JavaScript truthiness of `||`). In the same way, an empty custom avatar image falls
  back to the catalogue image.
- In the dialog, `onClose` runs inside the same `try` as the awaited `onGenerate`
  (src/components/video-generation-modal.tsx:49-54). When `onClose` throws, the `catch` shows
  the failure alert after `onClose` was already called. `GenerateEffects` and `FinishGenerate`
  include this case (`CloseThrew`).

## Model

| member | source | states |
|---|---|---|
| ImageStore.AppendUploads | src/components/product-form-new.tsx:84-94 | the new list has at most 8 entries and is the old list plus as many new photos as fit; when at most 8 were present, the old entries are an unchanged prefix; when 8 were present, nothing is added; every entry comes from the old list or the new photos |
| ImageStore.AppendUploadsKeepsDistinctIds | src/components/product-form-new.tsx:88-92 | appending photos whose ids are fresh and pairwise distinct keeps all upload ids distinct |
| ImageStore.RemoveUpload | src/components/product-form-new.tsx:96-98 | an entry survives exactly when it was present and its id differs from the removed id; survivors keep their relative order; removing an absent id changes nothing; distinct ids stay distinct |
| ImageStore.RemoveUploadDropsOne | src/components/product-form-new.tsx:96-98 | with distinct ids, removing the id at position k gives the list with exactly that position cut out |
| ImageStore.PendingImage | src/components/product-form-new.tsx:145-149 | the dispatched entry is pending, has no url, carries the fresh id and names the selected photo as its original |
| ImageStore.ResolvedUrl | src/components/product-form-new.tsx:171 | the stored url is never empty: it is the response url when present and non-empty, otherwise the fixed fallback url |
| ImageStore.ResolveGenerated | src/components/product-form-new.tsx:165-176 | the length, every id and every original id are unchanged; entries with another id are unchanged; the entry with the dispatched id is no longer generating and carries the url |
| ImageStore.ResolveIsPointUpdate | src/components/product-form-new.tsx:165-176 | with distinct ids, completing entry k replaces that one entry by its resolved form and leaves the list otherwise equal |
| ImageStore.ResolveAbsentIsNoOp | src/components/product-form-new.tsx:165-176 | a completion for an id no entry carries (reachable only through the generalised removal of a pending entry or an id collision) changes nothing; the entry does not come back |
| ImageStore.RemoveGenerated | src/components/product-form-new.tsx:464-467 | exactly the entries with the removed id are dropped; the rest keep their order; an absent id changes nothing; distinct ids stay distinct |
| ImageStore.SetCustomImage | src/components/product-form-new.tsx:120-123 | the avatar's key now maps to the new url; every other key keeps its value; no other key is added |
| ImageStore.DisplayedImage | src/components/product-form-new.tsx:756 | an avatar shows its non-empty custom image if it has one, and the catalogue default otherwise |
| ImageStore.CustomImageShadowsCatalogue | src/components/product-form-new.tsx:120-123 | after a custom image is set for an avatar, that avatar shows it, and every other avatar shows what it showed before |
| ImageStore.ProductForm.constructor | src/components/product-form-new.tsx:52-60 | the form starts with no photos, no custom images, no selections and the avatar dialog closed |
| ImageStore.ProductForm.HandleImageUpload | src/components/product-form-new.tsx:84-94 | with no file list nothing changes; otherwise the uploads become the capped append; all other fields are unchanged; the cap and the distinct ids are kept |
| ImageStore.ProductForm.HandleRemoveUpload | src/components/product-form-new.tsx:96-98 | the uploads lose the removed id; the generated photos, including those made from the removed photo, are unchanged, and so is every other field |
| ImageStore.ProductForm.HandleGenerate | src/components/product-form-new.tsx:100-103 | the photo becomes the selected photo and the avatar dialog opens; the image lists, the custom images and the selected avatar are unchanged |
| ImageStore.ProductForm.HandleAvatarSelect | src/components/product-form-new.tsx:105-107 | the catalogue avatar becomes the selected avatar; nothing else changes |
| ImageStore.ProductForm.CloseAvatarDialog | src/components/product-form-new.tsx:778-783 | the avatar dialog closes; nothing else changes |
| ImageStore.ProductForm.HandleModelImageUpload | src/components/product-form-new.tsx:111-136 | with no file nothing changes; otherwise only the avatar's key of the custom map is set, and the selected avatar's image changes only when its id is the avatar's id |
| ImageStore.ProductForm.HandleGenerateImage | src/components/product-form-new.tsx:138-151 | without a selected avatar or photo nothing changes and nothing is dispatched; otherwise the dialog closes and exactly one pending entry for the selected photo is appended at the end |
| ImageStore.ProductForm.CompleteGenerateImage | src/components/product-form-new.tsx:153-180 | a rejected call changes nothing; a response resolves the dispatched entry with a non-empty url, leaves all others and the length unchanged, and clears both selections |
| ImageStore.ProductForm.HandleRemoveGenerated | src/components/product-form-new.tsx:464-467 | the generated photos lose the removed id, in order; all other fields are unchanged |
| VideoDialog.AllImages | src/components/video-generation-modal.tsx:28 | the selectable images are the uploaded images followed by the generated images, each list in its original order |
| VideoDialog.Urls | src/components/video-generation-modal.tsx:72-83 | the checkbox urls are the images' urls, position by position |
| VideoDialog.Toggle | src/components/video-generation-modal.tsx:30-36 | the clicked url is selected afterwards exactly when it was not selected before; other urls keep their membership; an absent url is appended at the end; a present url is removed, keeping the order of the rest; no duplicate is introduced |
| VideoDialog.ToggleTwiceRestores | src/components/video-generation-modal.tsx:30-36 | clicking an unselected image twice restores the selection exactly |
| VideoDialog.ToggleAllKeepsNoDuplicates | src/components/video-generation-modal.tsx:24-36 | no sequence of clicks, starting from the initially empty selection, creates a duplicate |
| VideoDialog.ToggleAllStaysWithin | src/components/video-generation-modal.tsx:72-83 | clicking only the shown checkboxes selects only urls of the selectable images |
| VideoDialog.GenerateEffects | src/components/video-generation-modal.tsx:38-58 | an empty selection only alerts, and this check comes first; an empty prompt only alerts; otherwise the busy flag is set, onGenerate is called once with the selection and prompt, then onClose exactly when onGenerate fulfilled, the failure alert exactly when it rejected or onClose threw (after onClose in that case), and the busy flag is reset last, four effects in all or five when onClose threw; the press is its dispatch part followed by its settle part |
| VideoDialog.EnabledButtonDispatches | src/components/video-generation-modal.tsx:107-110 | the Generate Video button is enabled exactly when the dialog is not busy and a press would pass validation and call onGenerate |
| VideoDialog.VideoGenerationDialog.constructor | src/components/video-generation-modal.tsx:24-26 | the dialog starts with an empty selection, an empty prompt and not busy |
| VideoDialog.VideoGenerationDialog.ToggleImage | src/components/video-generation-modal.tsx:30-36 | the selection becomes its toggle and stays free of duplicates; prompt and busy flag are unchanged |
| VideoDialog.VideoGenerationDialog.SetPrompt | src/components/video-generation-modal.tsx:94-99 | the prompt becomes the typed text; nothing else changes |
| VideoDialog.VideoGenerationDialog.StartGenerate | src/components/video-generation-modal.tsx:38-50 | a press is dispatched exactly when the selection and the prompt are non-empty; its effects are the validation alert, or setting the busy flag and calling onGenerate; once dispatched the dialog is busy and the button disabled; selection and prompt are unchanged |
| VideoDialog.VideoGenerationDialog.FinishGenerate | src/components/video-generation-modal.tsx:50-57 | after onGenerate settles, onClose is called exactly when it fulfilled, and the failure alert is shown exactly when it rejected or onClose threw; the busy flag is reset last in every case; selection and prompt are unchanged |

## Left out

- The avatar-generation network call (src/components/product-form-new.tsx:154-163), its 2-second delay and the JSON parse. The call's outcome is a parameter of `CompleteGenerateImage`. That parameter is `Rejected`, or a parsed body whose `url` may be missing. A non-string `url` value is not modelled.
- Concurrency of the async handlers: both are split at their await into two methods (`HandleGenerateImage` and `CompleteGenerateImage`; `StartGenerate` and `FinishGenerate`). Any other handler may run between the two. Removals of other generated entries in between are covered by `ResolveGenerated`'s contract. The dispatched entry itself can be absent at completion only through the generalised `HandleRemoveGenerated` below or an id collision; `ResolveAbsentIsNoOp` covers that case. Interleavings are not enumerated.
- Id generation with `Math.random` and object urls from `URL.createObjectURL`. Both are treated as opaque fresh values. `HandleImageUpload` and `HandleGenerateImage` require the new ids to be fresh, and the form's `Valid()` keeps ids distinct.
- ImageStore.ProductForm.HandleRemoveGenerated: it accepts any id. In the form, the remove button exists only for resolved entries.
- The hard-coded video-url stub (src/components/product-form-new.tsx:212-233) has no logic.
- The other form fields (product name, brand, video url), the scroll tracking, the mobile menu and all rendering.
- The "Send" button has no handler, and no product-submission pipeline exists in the form. None is modelled.
- The four proxy handlers under app/api/proxy/ forward a fixed request and are not modelled.
- The image preview zoom and pan (src/components/image-preview-modal.tsx) is floating-point arithmetic tied to mouse events.
- `console.error` logging, and the dialog's Cancel button and close request, which only call the caller's `onClose`.
- The video dialog's images are parameters. Nothing in the shown source mounts the dialog, so its caller is not part of this model.
