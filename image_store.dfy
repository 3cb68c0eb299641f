/** The in-memory image bookkeeping of the product form (src/components/product-form-new.tsx):
    the uploaded photos (at most eight), the avatar-generated photos with their
    pending/resolved life cycle, and the custom images that shadow the avatar catalogue. */
module ImageStore {
  import opened Wrappers
  import opened Lists

  /** The upload grid has eight slots; extra files are dropped. */
  const MaxUploads: nat := 8

  /** The url a generated photo gets when the response carries no usable url. */
  const FallbackImageUrl: string :=
    "https://images.pexels.com/photos/35537/child-children-girl-happy.jpg?w=200&h=200&fit=crop"

  datatype UploadedImage = UploadedImage(id: string, url: string)

  /** A photo produced from the uploaded photo `originalId`: pending while `isGenerating`,
      resolved once the generation call has answered. */
  datatype GeneratedImage = GeneratedImage(id: string, originalId: string, url: Option<string>, isGenerating: bool)

  /** A catalogue entry; `title` is the source's `label` (a reserved word in Dafny). */
  datatype AvatarOption = AvatarOption(id: string, title: string, image: string)

  /** The static avatar catalogue. */
  const AvatarCatalogue: seq<AvatarOption> := [
    AvatarOption("men", "Men", "https://images.pexels.com/photos/2379005/pexels-photo-2379005.jpeg?w=200&h=200&fit=crop"),
    AvatarOption("women", "Women", "https://images.pexels.com/photos/1239291/pexels-photo-1239291.jpeg?w=200&h=200&fit=crop"),
    AvatarOption("boy", "Boy", "https://images.pexels.com/photos/35537/child-children-girl-happy.jpg?w=200&h=200&fit=crop"),
    AvatarOption("girl", "Girl", "https://images.pexels.com/photos/36029/aroni-arsa-children-little.jpg?w=200&h=200&fit=crop")
  ]

  /** The ids of the catalogue entries; the dialog offers only these avatars. */
  const CatalogueIds: set<string> := set a | a in AvatarCatalogue :: a.id

  /** What the awaited avatar-generation call delivers: the fetch or the JSON parse
      rejected, or a parsed body whose `url` field may be missing. */
  datatype GenerationResponse = Rejected | Json(url: Option<string>)

  function UploadId(img: UploadedImage): string { img.id }

  function GeneratedId(img: GeneratedImage): string { img.id }

  /** Keeps the uploaded photos whose id is not `id`. */
  function UploadIdIsNot(id: string): UploadedImage -> bool
  {
    (img: UploadedImage) => img.id != id
  }

  /** Keeps the generated photos whose id is not `id`. */
  function GeneratedIdIsNot(id: string): GeneratedImage -> bool
  {
    (img: GeneratedImage) => img.id != id
  }

  /** A generated photo is pending exactly when it has no url, and a resolved url is never empty. */
  predicate WellFormedGenerated(g: GeneratedImage)
  {
    && (g.isGenerating <==> g.url.None?)
    && (g.url.Some? ==> g.url.value != "")
  }

  // ---------------------------------------------------------------------------
  // Uploaded photos

  /** The upload update: the new photos are appended and the list is cut back
      to its first eight entries. */
  function AppendUploads(prev: seq<UploadedImage>, newImages: seq<UploadedImage>): (r: seq<UploadedImage>)
    ensures |r| <= MaxUploads
    ensures |prev| + |newImages| <= MaxUploads ==> r == prev + newImages
    ensures |prev| <= MaxUploads ==> |r| == if |prev| + |newImages| <= MaxUploads then |prev| + |newImages| else MaxUploads
    ensures |prev| <= MaxUploads ==> r[..|prev|] == prev && r[|prev|..] == newImages[..|r| - |prev|]
    ensures |prev| >= MaxUploads ==> r == prev[..MaxUploads]
    ensures forall x :: x in r ==> x in prev || x in newImages
  {
    var all := prev + newImages;
    if |all| <= MaxUploads then all else all[..MaxUploads]
  }

  /** Appending photos with fresh, pairwise distinct ids keeps the ids distinct. */
  lemma AppendUploadsKeepsDistinctIds(prev: seq<UploadedImage>, newImages: seq<UploadedImage>)
    requires DistinctKeys(prev, UploadId) && DistinctKeys(newImages, UploadId)
    requires forall x, y :: x in prev && y in newImages ==> x.id != y.id
    ensures DistinctKeys(AppendUploads(prev, newImages), UploadId)
  {
  }

  /** The upload removal: every uploaded photo with id `id` is dropped. */
  function RemoveUpload(prev: seq<UploadedImage>, id: string): (r: seq<UploadedImage>)
    ensures forall x :: x in r <==> x in prev && x.id != id
    ensures IsSubsequence(r, prev)
    ensures (forall x :: x in prev ==> x.id != id) ==> r == prev
    ensures DistinctKeys(prev, UploadId) ==> DistinctKeys(r, UploadId)
  {
    var keep := UploadIdIsNot(id);
    if forall x :: x in prev ==> x.id != id then FilterAllKept(prev, keep); Filter(prev, keep)
    else if DistinctKeys(prev, UploadId) then FilterKeepsDistinctKeys(prev, keep, UploadId); Filter(prev, keep)
    else Filter(prev, keep)
  }

  /** With distinct ids, every photo other than the one at position k survives removing its id. */
  lemma OthersKept(prev: seq<UploadedImage>, k: nat)
    requires k < |prev| && DistinctKeys(prev, UploadId)
    ensures forall x :: x in prev[..k] ==> UploadIdIsNot(prev[k].id)(x)
    ensures forall x :: x in prev[k + 1..] ==> UploadIdIsNot(prev[k].id)(x)
  {
  }

  /** Removing photos with distinct ids removes exactly one entry when the id is present. */
  lemma {:induction false} RemoveUploadDropsOne(prev: seq<UploadedImage>, k: nat)
    requires k < |prev| && DistinctKeys(prev, UploadId)
    ensures RemoveUpload(prev, prev[k].id) == prev[..k] + prev[k + 1..]
  {
    var keep := UploadIdIsNot(prev[k].id);
    var a, b := prev[..k], prev[k + 1..];
    assert prev == a + [prev[k]] + b;
    OthersKept(prev, k);
    FilterAllKept(a, keep);
    FilterAllKept(b, keep);
    FilterAppend(a + [prev[k]], b, keep);
    FilterAppend(a, [prev[k]], keep);
    assert Filter([prev[k]], keep) == [] by {
      assert [prev[k]][1..] == [];
    }
  }

  // ---------------------------------------------------------------------------
  // Generated photos

  /** The entry appended when a generation is dispatched: pending, no url. */
  function PendingImage(id: string, source: UploadedImage): (g: GeneratedImage)
    ensures g.isGenerating && g.url == None && g.originalId == source.id && g.id == id
    ensures WellFormedGenerated(g)
  {
    GeneratedImage(id, source.id, None, true)
  }

  /** The url stored on completion: the response url when it is present and non-empty
      (JavaScript truthiness), otherwise the fallback. */
  function ResolvedUrl(url: Option<string>): (u: string)
    ensures u != ""
    ensures url.Some? && url.value != "" ==> u == url.value
    ensures url.None? || url.value == "" ==> u == FallbackImageUrl
  {
    if url.Some? && url.value != "" then url.value else FallbackImageUrl
  }

  /** The completion update applied to one entry. */
  function Resolve(img: GeneratedImage, id: string, url: string): GeneratedImage
  {
    if img.id == id then img.(isGenerating := false, url := Some(url)) else img
  }

  /** The completion update: every entry with id `id` is marked resolved with `url`. */
  function ResolveGenerated(prev: seq<GeneratedImage>, id: string, url: string): (r: seq<GeneratedImage>)
    ensures |r| == |prev|
    ensures forall i :: 0 <= i < |prev| ==> r[i].id == prev[i].id && r[i].originalId == prev[i].originalId
    ensures forall i :: 0 <= i < |prev| && prev[i].id != id ==> r[i] == prev[i]
    ensures forall i :: 0 <= i < |prev| && prev[i].id == id ==> !r[i].isGenerating && r[i].url == Some(url)
  {
    seq(|prev|, i requires 0 <= i < |prev| => Resolve(prev[i], id, url))
  }

  /** With distinct ids, completing a dispatched generation is a point update of its one entry. */
  lemma ResolveIsPointUpdate(prev: seq<GeneratedImage>, k: nat, url: string)
    requires k < |prev| && DistinctKeys(prev, GeneratedId)
    ensures ResolveGenerated(prev, prev[k].id, url)
         == prev[k := GeneratedImage(prev[k].id, prev[k].originalId, Some(url), false)]
  {
  }

  /** A completion for an id no entry carries changes nothing: an entry removed while pending
      does not come back. */
  lemma ResolveAbsentIsNoOp(prev: seq<GeneratedImage>, id: string, url: string)
    requires forall g :: g in prev ==> g.id != id
    ensures ResolveGenerated(prev, id, url) == prev
  {
  }

  /** The generated-photo removal: every generated photo with id `id` is dropped. */
  function RemoveGenerated(prev: seq<GeneratedImage>, id: string): (r: seq<GeneratedImage>)
    ensures forall g :: g in r <==> g in prev && g.id != id
    ensures IsSubsequence(r, prev)
    ensures (forall g :: g in prev ==> g.id != id) ==> r == prev
    ensures DistinctKeys(prev, GeneratedId) ==> DistinctKeys(r, GeneratedId)
  {
    var keep := GeneratedIdIsNot(id);
    if forall g :: g in prev ==> g.id != id then FilterAllKept(prev, keep); Filter(prev, keep)
    else if DistinctKeys(prev, GeneratedId) then FilterKeepsDistinctKeys(prev, keep, GeneratedId); Filter(prev, keep)
    else Filter(prev, keep)
  }

  // ---------------------------------------------------------------------------
  // Avatar catalogue and custom images

  /** The custom-image update: `avatarId` now maps to `url`. */
  function SetCustomImage(prev: map<string, string>, avatarId: string, url: string): (r: map<string, string>)
    ensures r.Keys == prev.Keys + {avatarId}
    ensures avatarId in r && r[avatarId] == url
    ensures forall k :: k in prev && k != avatarId ==> r[k] == prev[k]
  {
    prev[avatarId := url]
  }

  /** The image the avatar dialog shows for `avatar`: its custom image when there is
      a non-empty one, otherwise the catalogue default. */
  function DisplayedImage(custom: map<string, string>, avatar: AvatarOption): (u: string)
    ensures avatar.id in custom && custom[avatar.id] != "" ==> u == custom[avatar.id]
    ensures avatar.id !in custom || custom[avatar.id] == "" ==> u == avatar.image
  {
    if avatar.id in custom && custom[avatar.id] != "" then custom[avatar.id] else avatar.image
  }

  /** Setting a custom image changes what one avatar shows, and only that one. */
  lemma CustomImageShadowsCatalogue(custom: map<string, string>, avatarId: string, url: string, avatar: AvatarOption)
    requires url != ""
    ensures avatar.id == avatarId ==> DisplayedImage(SetCustomImage(custom, avatarId, url), avatar) == url
    ensures avatar.id != avatarId ==>
      DisplayedImage(SetCustomImage(custom, avatarId, url), avatar) == DisplayedImage(custom, avatar)
  {
  }

  // ---------------------------------------------------------------------------
  // The form's state and its handlers

  /** The state fields of the `ProductForm` component that the image handlers update. */
  class ProductForm {
    var uploadedImages: seq<UploadedImage>
    var generatedImages: seq<GeneratedImage>
    var customAvatarImages: map<string, string>
    var selectedAvatar: Option<AvatarOption>
    var selectedImage: Option<UploadedImage>
    var isModalOpen: bool

    /** At most eight uploads, ids unique within each list, generated entries well formed,
        and the selected avatar's id is a catalogue id (its image may be a custom one). */
    ghost predicate Valid()
      reads this
    {
      && |uploadedImages| <= MaxUploads
      && DistinctKeys(uploadedImages, UploadId)
      && DistinctKeys(generatedImages, GeneratedId)
      && (forall g :: g in generatedImages ==> WellFormedGenerated(g))
      && (selectedAvatar.Some? ==> selectedAvatar.value.id in CatalogueIds)
    }

    constructor ()
      ensures Valid()
      ensures uploadedImages == [] && generatedImages == [] && customAvatarImages == map[]
      ensures selectedAvatar == None && selectedImage == None && !isModalOpen
    {
      uploadedImages := [];
      generatedImages := [];
      customAvatarImages := map[];
      selectedAvatar := None;
      selectedImage := None;
      isModalOpen := false;
    }

    /** `handleImageUpload`: `files` is None when the input delivered no file list;
        otherwise it holds one photo per file, each with a fresh id. */
    method HandleImageUpload(files: Option<seq<UploadedImage>>)
      requires Valid()
      requires files.Some? ==> DistinctKeys(files.value, UploadId)
      requires files.Some? ==> forall x, y :: x in uploadedImages && y in files.value ==> x.id != y.id
      modifies this
      ensures Valid()
      ensures uploadedImages == if files.None? then old(uploadedImages) else AppendUploads(old(uploadedImages), files.value)
      ensures generatedImages == old(generatedImages) && customAvatarImages == old(customAvatarImages)
      ensures selectedAvatar == old(selectedAvatar) && selectedImage == old(selectedImage)
      ensures isModalOpen == old(isModalOpen)
    {
      if files.Some? {
        AppendUploadsKeepsDistinctIds(uploadedImages, files.value);
        uploadedImages := AppendUploads(uploadedImages, files.value);
      }
    }

    /** `handleRemoveUpload`: the generated photos are left alone, even those made from this one. */
    method HandleRemoveUpload(id: string)
      requires Valid()
      modifies this
      ensures Valid()
      ensures uploadedImages == RemoveUpload(old(uploadedImages), id)
      ensures generatedImages == old(generatedImages) && customAvatarImages == old(customAvatarImages)
      ensures selectedAvatar == old(selectedAvatar) && selectedImage == old(selectedImage)
      ensures isModalOpen == old(isModalOpen)
    {
      uploadedImages := RemoveUpload(uploadedImages, id);
    }

    /** `handleGenerate`: the wand button of an uploaded photo selects it and opens the avatar dialog. */
    method HandleGenerate(image: UploadedImage)
      requires Valid()
      modifies this
      ensures Valid()
      ensures selectedImage == Some(image) && isModalOpen
      ensures uploadedImages == old(uploadedImages) && generatedImages == old(generatedImages)
      ensures customAvatarImages == old(customAvatarImages) && selectedAvatar == old(selectedAvatar)
    {
      selectedImage := Some(image);
      isModalOpen := true;
    }

    /** `handleAvatarSelect`: the dialog calls it with one of the catalogue's avatars. */
    method HandleAvatarSelect(avatar: AvatarOption)
      requires Valid()
      requires avatar in AvatarCatalogue
      modifies this
      ensures Valid()
      ensures selectedAvatar == Some(avatar)
      ensures uploadedImages == old(uploadedImages) && generatedImages == old(generatedImages)
      ensures customAvatarImages == old(customAvatarImages) && selectedImage == old(selectedImage)
      ensures isModalOpen == old(isModalOpen)
    {
      selectedAvatar := Some(avatar);
    }

    /** The avatar dialog's Cancel button (and its close request). */
    method CloseAvatarDialog()
      requires Valid()
      modifies this
      ensures Valid()
      ensures !isModalOpen
      ensures uploadedImages == old(uploadedImages) && generatedImages == old(generatedImages)
      ensures customAvatarImages == old(customAvatarImages)
      ensures selectedAvatar == old(selectedAvatar) && selectedImage == old(selectedImage)
    {
      isModalOpen := false;
    }

    /** `handleModelImageUpload` for the catalogue avatar `avatarId`: `file` is the object url
        of the chosen file, None when none was chosen. */
    method HandleModelImageUpload(file: Option<string>, avatarId: string)
      requires Valid()
      requires avatarId in CatalogueIds
      modifies this
      ensures Valid()
      ensures customAvatarImages == if file.None? then old(customAvatarImages)
                                    else SetCustomImage(old(customAvatarImages), avatarId, file.value)
      ensures selectedAvatar == if file.Some? && old(selectedAvatar).Some? && old(selectedAvatar).value.id == avatarId
                                then Some(old(selectedAvatar).value.(image := file.value))
                                else old(selectedAvatar)
      ensures uploadedImages == old(uploadedImages) && generatedImages == old(generatedImages)
      ensures selectedImage == old(selectedImage) && isModalOpen == old(isModalOpen)
    {
      if file.None? {
        return;
      }
      var imageUrl := file.value;
      customAvatarImages := SetCustomImage(customAvatarImages, avatarId, imageUrl);
      if selectedAvatar.Some? && selectedAvatar.value.id == avatarId {
        selectedAvatar := Some(selectedAvatar.value.(image := imageUrl));
      }
    }

    /** First phase of `handleGenerateImage`, up to the awaited call: with an avatar and a
        photo selected, close the dialog and append a pending entry with the fresh id
        `freshId`; returns the id to complete, or None when nothing was dispatched. */
    method HandleGenerateImage(freshId: string) returns (dispatched: Option<string>)
      requires Valid()
      requires forall g :: g in generatedImages ==> g.id != freshId
      modifies this
      ensures Valid()
      ensures old(selectedAvatar).None? || old(selectedImage).None? ==>
        dispatched == None && generatedImages == old(generatedImages) && isModalOpen == old(isModalOpen)
      ensures old(selectedAvatar).Some? && old(selectedImage).Some? ==>
        && dispatched == Some(freshId)
        && generatedImages == old(generatedImages) + [PendingImage(freshId, old(selectedImage).value)]
        && !isModalOpen
      ensures uploadedImages == old(uploadedImages) && customAvatarImages == old(customAvatarImages)
      ensures selectedAvatar == old(selectedAvatar) && selectedImage == old(selectedImage)
    {
      if selectedAvatar.None? || selectedImage.None? {
        return None;
      }
      isModalOpen := false;
      var pending := PendingImage(freshId, selectedImage.value);
      generatedImages := generatedImages + [pending];
      dispatched := Some(freshId);
    }

    /** Second phase of `handleGenerateImage`, after the awaited call for entry `id`.
        A rejected call ends the handler: the entry stays pending and the selections stay.
        Otherwise the entry is resolved and both selections are cleared. */
    method CompleteGenerateImage(id: string, response: GenerationResponse)
      requires Valid()
      modifies this
      ensures Valid()
      ensures response.Rejected? ==>
        generatedImages == old(generatedImages) && selectedAvatar == old(selectedAvatar) && selectedImage == old(selectedImage)
      ensures response.Json? ==>
        && generatedImages == ResolveGenerated(old(generatedImages), id, ResolvedUrl(response.url))
        && selectedAvatar == None && selectedImage == None
      ensures uploadedImages == old(uploadedImages) && customAvatarImages == old(customAvatarImages)
      ensures isModalOpen == old(isModalOpen)
    {
      if response.Rejected? {
        return;
      }
      var url := ResolvedUrl(response.url);
      var prev := generatedImages;
      generatedImages := ResolveGenerated(prev, id, url);
      forall i, j | 0 <= i < j < |generatedImages|
        ensures GeneratedId(generatedImages[i]) != GeneratedId(generatedImages[j])
      {
        assert GeneratedId(prev[i]) != GeneratedId(prev[j]);
      }
      forall g | g in generatedImages
        ensures WellFormedGenerated(g)
      {
        var i :| 0 <= i < |generatedImages| && generatedImages[i] == g;
        assert prev[i] in prev;
      }
      selectedImage := None;
      selectedAvatar := None;
    }

    /** The remove button of a generated photo. */
    method HandleRemoveGenerated(id: string)
      requires Valid()
      modifies this
      ensures Valid()
      ensures generatedImages == RemoveGenerated(old(generatedImages), id)
      ensures uploadedImages == old(uploadedImages) && customAvatarImages == old(customAvatarImages)
      ensures selectedAvatar == old(selectedAvatar) && selectedImage == old(selectedImage)
      ensures isModalOpen == old(isModalOpen)
    {
      generatedImages := RemoveGenerated(generatedImages, id);
    }
  }
}
