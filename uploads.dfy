/**
 * The file bookkeeping of `createPost` (src/lib/appwrite/api.ts:121-181) and
 * the image clean-up of `deletePost` (api.ts:435-469). Storage calls are
 * parameters: each selected file's upload result and the preview lookup.
 */
module Uploads {
  import opened Wrappers
  import opened Documents
  import Tags

  /** `uploadedFiles.filter(f => f).map(file => file.$id)`: ids of the uploads that succeeded. */
  function UploadedIds(uploads: seq<Option<string>>): (r: seq<string>)
    ensures |r| <= |uploads|
    ensures forall id :: id in r <==> Some(id) in uploads
    decreases |uploads|
  {
    if uploads == [] then []
    else
      var rest := UploadedIds(uploads[1..]);
      assert uploads == [uploads[0]] + uploads[1..];
      match uploads[0]
      case Some(id) => [id] + rest
      case None => rest
  }

  /** The ids, in order, whose preview URL could be built. */
  function Previewable(ids: seq<string>, preview: string -> Option<string>): (r: seq<string>)
    ensures |r| <= |ids|
    decreases |ids|
  {
    if ids == [] then []
    else
      var last := ids[|ids| - 1];
      assert ids == ids[..|ids| - 1] + [last];
      Previewable(ids[..|ids| - 1], preview) + (if preview(last).Some? then [last] else [])
  }

  /** The kept ids are exactly the listed ids that have a preview URL. */
  lemma {:induction false} PreviewableMembers(ids: seq<string>, preview: string -> Option<string>, id: string)
    ensures id in Previewable(ids, preview) <==> id in ids && preview(id).Some?
    decreases |ids|
  {
    if ids != [] {
      var init := ids[..|ids| - 1];
      assert ids == init + [ids[|ids| - 1]];
      PreviewableMembers(init, preview, id);
    }
  }

  lemma PreviewableSnoc(ids: seq<string>, id: string, preview: string -> Option<string>)
    ensures Previewable(ids + [id], preview)
         == Previewable(ids, preview) + (if preview(id).Some? then [id] else [])
  {
    assert (ids + [id])[..|ids|] == ids;
  }

  /**
   * The `forEach` at api.ts:138-143: walks `fileUrls` and `fileIds` together
   * and pushes the pair when the URL is truthy. The two outputs keep the same
   * length, and entry i of each comes from the same uploaded file.
   */
  method CollectValid(fileIds: seq<string>, preview: string -> Option<string>)
    returns (validUrls: seq<string>, validIds: seq<string>)
    ensures validIds == Previewable(fileIds, preview)
    ensures |validUrls| == |validIds|
    ensures forall i :: 0 <= i < |validIds| ==> preview(validIds[i]) == Some(validUrls[i])
  {
    var fileUrls := seq(|fileIds|, i requires 0 <= i < |fileIds| => preview(fileIds[i]));
    validUrls, validIds := [], [];
    var idx := 0;
    while idx < |fileUrls|
      invariant 0 <= idx <= |fileUrls|
      invariant validIds == Previewable(fileIds[..idx], preview)
      invariant |validUrls| == |validIds|
      invariant forall i :: 0 <= i < |validIds| ==> preview(validIds[i]) == Some(validUrls[i])
    {
      var id := fileIds[idx];
      var url := fileUrls[idx];
      assert url == preview(id);
      assert fileIds[..idx + 1] == fileIds[..idx] + [id];
      PreviewableSnoc(fileIds[..idx], id, preview);
      if url.Some? {
        validUrls := validUrls + [url.value];
        validIds := validIds + [id];
      }
      idx := idx + 1;
    }
    assert fileIds[..|fileIds|] == fileIds;
  }

  /** How `databases.createDocument` answers: a document, a falsy value, or a thrown error. */
  datatype StoreReply = Stored | Falsy | Threw

  /** What `createPost` ends with. */
  datatype CreateOutcome =
    | NothingSelected                      // `!uploadedFiles.length`: no file was selected
    | NoValidUrls(deleted: seq<string>)    // every stored upload is deleted again, no post
    | CreateFailed(deleted: seq<string>)   // no post; `deleted` are the files removed again
    | Created(imageUrls: seq<string>, imageIds: seq<string>, tags: seq<string>, creator: Ref)

  /**
   * `createPost`: `uploads[i]` is the id of the i-th selected file once
   * stored (`None` when its upload failed), `preview` the URL lookup, and
   * `reply` the answer of the document write.
   */
  method CreatePost(uploads: seq<Option<string>>, preview: string -> Option<string>,
                    tags: Option<string>, userId: string, reply: StoreReply)
    returns (out: CreateOutcome)
    ensures uploads == [] <==> out.NothingSelected?
    ensures out.NoValidUrls? <==> uploads != [] && Previewable(UploadedIds(uploads), preview) == []
    ensures out.NoValidUrls? ==> out.deleted == UploadedIds(uploads)
    ensures out.CreateFailed? ==> reply != Stored
    ensures out.CreateFailed? && reply == Falsy ==> out.deleted == Previewable(UploadedIds(uploads), preview)
    ensures out.CreateFailed? && reply == Threw ==> out.deleted == []
    ensures out.Created? <==> uploads != [] && Previewable(UploadedIds(uploads), preview) != [] && reply == Stored
    ensures out.Created? ==>
      && |out.imageUrls| == |out.imageIds| > 0
      && out.imageIds == Previewable(UploadedIds(uploads), preview)
      && (forall i :: 0 <= i < |out.imageIds| ==> preview(out.imageIds[i]) == Some(out.imageUrls[i]))
      && out.tags == Tags.ParseTags(tags)
      && out.creator == Lst([Str(userId)])
  {
    if |uploads| == 0 {
      return NothingSelected;
    }
    var fileIds := UploadedIds(uploads);
    var validUrls, validIds := CollectValid(fileIds, preview);
    if |validUrls| == 0 {
      return NoValidUrls(fileIds);
    }
    var parsedTags := Tags.ParseTags(tags);
    match reply
    case Threw =>
      // the rejection goes straight to the `catch`: the valid files stay in storage
      out := CreateFailed([]);
    case Falsy =>
      out := CreateFailed(validIds);
    case Stored =>
      out := Created(validUrls, validIds, parsedTags, Lst([Str(userId)]));
  }

  /** The `imageId` argument of `deletePost`: an array, a single id, or nothing. */
  datatype ImageArg = Ids(ids: seq<string>) | One(id: string) | NoImage

  /** `id ? deleteFile(id) : null` over the array (or the one-element array). */
  function NonEmpty(ids: seq<string>): (r: seq<string>)
    ensures forall id :: id in r <==> id in ids && id != ""
    ensures |r| <= |ids|
    decreases |ids|
  {
    if ids == [] then []
    else
      assert ids == [ids[0]] + ids[1..];
      (if ids[0] != "" then [ids[0]] else []) + NonEmpty(ids[1..])
  }

  /**
   * The files `deletePost` asks storage to delete: none without a post id,
   * none when the document deletion fails (`docDeleted` false), none without
   * an image argument, otherwise every non-empty id of the argument.
   */
  function FilesToDelete(postId: Option<string>, docDeleted: bool, arg: ImageArg): (r: seq<string>)
    ensures !HasText(postId) || !docDeleted ==> r == []
    ensures forall id :: id in r ==> id != ""
    ensures HasText(postId) && docDeleted && arg.Ids? ==> forall id :: id in r <==> id in arg.ids && id != ""
    ensures arg.NoImage? ==> r == []
    ensures HasText(postId) && docDeleted && arg.One? ==> r == (if arg.id != "" then [arg.id] else [])
  {
    if !HasText(postId) || !docDeleted then []
    else
      match arg
      case Ids(ids) => NonEmpty(ids)
      case One(id) => NonEmpty([id])
      case NoImage => []
  }
}
