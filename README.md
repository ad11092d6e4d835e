# Photo-sharing client: reference shaping and interaction state

The application is a React client over a hosted document store. Users,
posts and save records are documents, and images are storage files. Most of
the client's code awaits backend calls or renders markup. Underneath are a
few sequential rules, and this project states and proves them over abstract
document records:

- **References.** A `creator` or a save's `post` arrives as an id string, an
  array holding the id, or an object carrying `$id`. `getCreatorId` and the
  preamble of `getUserById` reduce it to an id (`Refs`).
- **Creator resolution.** Every list reader and `getPostById` run the same
  block over each post. It leaves the post alone when the creator is already
  a user object or has no id, and otherwise replaces only `creator` with the
  fetched user. When that fetch fails, the block as written blanks the
  creator (see "## Findings"). The readers are modelled over the corrected
  rule, which keeps the post (`Resolver`).
- **Tags.** Tags are parsed by removing spaces and splitting on commas
  (`Tags`).
- **Post creation and deletion.** `createPost` keeps the preview URLs and
  file ids of a new post index-aligned (`Uploads`). `deletePost` chooses
  which files to remove (`Uploads`).
- **Saved posts.** Save records are turned into posts. Unresolvable saves
  are dropped, and posts are deduplicated by id, keeping the newest save
  (`SavedPosts`).
- **Follow lists.** Following uses add-if-absent and unfollowing uses
  remove-all. Each is a pure function of the user collection and an
  imperative `UserCollection` class proved against it (`Follows`).
- **Client state.** Several components keep state:
  - the like toggle and the save decision (`PostStats`);
  - the image picker with its 10-file cap (`FileUploader`);
  - the wrap-around image carousel (`Carousel`, `PostCard`, `PostDetails`);
  - the delete-confirmation flow and related posts (`PostDetails`);
  - the grid's thumbnail and name fallbacks (`GridPostList`);
  - the non-blank comment rule (`CommentForm`).

The backend is a set of partial maps from `$id` to document. A missing key
stands for a failed fetch, because the client cannot tell "not found" from
any other rejection. JavaScript truthiness is modelled explicitly:
`Documents.Truthy` for reference values and `Wrappers.HasText` for optional
strings.

## Model

| member | source | states |
|---|---|---|
| `Refs.CreatorId` | src/lib/appwrite/api.ts:321-332 | A string comes back as itself. An array gives its first element when that is truthy, and null when it is empty or its first element is falsy. An object gives its `$id` when truthy. Anything else gives null, and a truthy result that is not a string can only come from an array. |
| `Refs.NormalizeUserArg` | src/lib/appwrite/api.ts:789-806 | An object with a truthy `$id` is taken as the user itself, and only then. An array is replaced by its first element. Only a non-empty string id (taken directly or from the head of an array) goes on to a fetch. |
| `Refs.GetUserById` | src/lib/appwrite/api.ts:789-820 | An invalid argument gives nothing, and a populated object is returned as it is. An id gives the stored user as an object, or nothing when the fetch fails, since the function swallows its own errors. |
| `Refs.GetUserByIdHasId` | src/lib/appwrite/api.ts:789-820 | In a collection keyed by `$id`, whatever comes back carries a truthy `$id`. |
| `Resolver.ResolveCreatorAsWritten` | src/lib/appwrite/api.ts:245-259 | The block as written: it changes only `creator`. The post is untouched when the creator is populated or no id is extracted. Otherwise the creator becomes the lookup result, and `undefined` when the lookup fails. |
| `Resolver.FailedFetchBlanksCreator` | src/lib/appwrite/api.ts:252-258 | A post whose creator id is not stored gets a falsy creator from the block as written. The corrected rule returns it unchanged. |
| `Resolver.ResolveCreator` | src/lib/appwrite/api.ts:245-259 | The intended rule: only `creator` may change. The post is untouched when the creator is populated, has no id, or cannot be fetched. Otherwise the creator becomes exactly the fetched user object, and a truthy creator stays truthy. |
| `Resolver.AsWrittenAgreesOnSuccess` | src/lib/appwrite/api.ts:245-259 | The as-written and the corrected block agree whenever the lookup succeeds or no id exists. |
| `Resolver.SameResultForEveryShape` | src/lib/appwrite/api.ts:248-252 | An id given as a string, as the head of an array, or as an unnamed object resolves to the same stored user. |
| `Resolver.ResolveCreatorIdempotent` | src/lib/appwrite/api.ts:245-259 | Resolving an already resolved post changes nothing in a keyed collection, except for the corner named by the next row. |
| `Resolver.UnnamedObjectInArrayIsRefetched` | src/lib/appwrite/api.ts:245-259 | An unnamed user object inside an array is handed back unfetched by the first pass and fetched by a second pass. |
| `Resolver.ResolveCreators` | src/lib/appwrite/api.ts:241-260 | The intended batch: one post per input post, in order, each resolved on its own by the corrected rule. |
| `Resolver.ResolveCreatorsAsWritten` | src/lib/appwrite/api.ts:241-260 | The batch as written: one post per input post, in order, each passed through the block as written. |
| `Resolver.AsWrittenBatchBlanksFailures` | src/lib/appwrite/api.ts:241-260 | The batch as written differs from the intended batch exactly at the posts whose creator id cannot be fetched. There the creator is blanked and the intended batch keeps the post unchanged. Nothing but the creator differs anywhere. |
| `Resolver.ResolveCreatorsKeepsOrder` | src/lib/appwrite/api.ts:241-260 | Every position keeps its post's `$id`, and no field other than `creator` changes. |
| `Resolver.ResolveCreatorsAppend` | src/lib/appwrite/api.ts:241-260 | Resolving a concatenation resolves each part: the posts do not influence each other. |
| `Resolver.OneFailureDoesNotSpoilBatch` | src/lib/appwrite/api.ts:241-260 | The intended batch: a post whose creator cannot be fetched comes back unchanged, and its neighbours are still resolved. |
| `Resolver.ResolveListing` | src/lib/appwrite/api.ts:230-270 | A failed listing gives nothing. Otherwise the envelope and its total are kept, and the documents are exactly the batch-resolved posts, one for one with the same ids. |
| `Resolver.GetPostById` | src/lib/appwrite/api.ts:335-368 | An absent or empty id rejects. A missing post resolves to nothing. Otherwise the result is the stored post passed through creator resolution, so only its creator can differ. |
| `Resolver.GetUserLikedPosts` | src/lib/appwrite/api.ts:672-716 | No user id gives nothing. Otherwise the result is exactly the listed posts whose likes contain the id, in listing order, with creators resolved and the total kept. |
| `Seqs.Filter` | src/lib/appwrite/api.ts:685-687 | The kept elements are exactly those satisfying the predicate, in their original order. |
| `Seqs.FilterCounts` | src/lib/appwrite/api.ts:685-687 | Every occurrence of a kept element survives the filter and no occurrence of a dropped one does. |
| `Seqs.AddIfAbsent` | src/lib/appwrite/api.ts:905-908 | Afterwards the element is present and the old list is a prefix. The list is unchanged when the element was already present, and otherwise grows by that element at the end. |
| `Seqs.RemoveAll` | src/lib/appwrite/api.ts:966 | The element is gone, and every other element keeps its count and order. A list without the element is unchanged, and a list with it gets shorter. |
| `Seqs.RemoveAllAfterAddIfAbsent` | src/lib/appwrite/api.ts:966 | Removing an element that was just added to a list without it gives the list back. |
| `Seqs.RemoveIndex` | src/components/shared/FileUploader.tsx:42-43 | An in-range index removes that one element and shifts the rest down in order. An out-of-range index changes nothing. |
| `Tags.RemoveSpaces` | src/lib/appwrite/api.ts:152 | No space remains, and every other character keeps its count. |
| `Tags.Split` | src/lib/appwrite/api.ts:152 | There is one more piece than there are separators, and no piece contains the separator. |
| `Tags.JoinSplit` | src/lib/appwrite/api.ts:152 | Joining the pieces with the separator gives the text back. |
| `Tags.SplitJoin` | src/lib/appwrite/api.ts:152 | Splitting joined pieces that are free of the separator gives the pieces back. |
| `Tags.ParseTags` | src/lib/appwrite/api.ts:152 | Absent tags give `[]`. Otherwise there is one tag more than there are commas, and no tag holds a space or a comma. |
| `Tags.ParseTagsJoin` | src/lib/appwrite/api.ts:152 | The tags joined with commas are the input without its spaces. |
| `Tags.ParseTagsExample` | src/lib/appwrite/api.ts:396 | `"travel, food,nature"` gives `["travel","food","nature"]`. |
| `Uploads.UploadedIds` | src/lib/appwrite/api.ts:129-130 | The ids are exactly those of the uploads that succeeded. |
| `Uploads.Previewable` | src/lib/appwrite/api.ts:138-143 | At most one id is kept per uploaded id. Its membership and its growth are stated by the next two rows. |
| `Uploads.PreviewableMembers` | src/lib/appwrite/api.ts:138-143 | The kept ids are exactly the uploaded ids that have a preview URL. |
| `Uploads.PreviewableSnoc` | src/lib/appwrite/api.ts:138-143 | One more file adds its id at the end exactly when its preview URL exists. |
| `Uploads.CollectValid` | src/lib/appwrite/api.ts:135-143 | The loop yields URL and id lists of equal length, and entry i of each belongs to the same file. |
| `Uploads.CreatePost` | src/lib/appwrite/api.ts:121-181 | With no files there is no post. With no previewable upload there is no post, and the uploaded ids are deleted. A post is created iff the document write succeeds, with aligned URL and id lists of equal length, the parsed tags and the creator `[userId]`. A falsy write deletes the valid files, and a rejected write deletes none. |
| `Uploads.FilesToDelete` | src/lib/appwrite/api.ts:435-469 | Nothing is deleted without a post id or after a failed document deletion. Otherwise exactly the non-empty ids of the array, or of the single id, are deleted. |
| `Uploads.NonEmpty` | src/lib/appwrite/api.ts:452-458 | The ids handed to `deleteFile` are exactly the truthy ones, at most one per listed id. |
| `SavedPosts.SavePostId` | src/lib/appwrite/api.ts:541-552 | An object gives its truthy `$id`. An array gives its head when that is a non-empty string. A string must be non-empty. Anything else is rejected. |
| `SavedPosts.SavePostIdAgreesWithCreatorId` | src/lib/appwrite/api.ts:541-552 | For a non-empty string id, the save extraction yields the id iff `getCreatorId` yields it. |
| `SavedPosts.SavedCreator` | src/lib/appwrite/api.ts:563-570 | A truthy stored creator with a truthy id becomes the fetched user, or null when the fetch fails. A falsy stored creator or a missing id gives null. |
| `SavedPosts.ResolveSave` | src/lib/appwrite/api.ts:537-579 | A save resolves iff its post id is usable and stored. The post then carries its own `saveId` and the attached creator, and nothing else changes. |
| `SavedPosts.ResolvedSaves` | src/lib/appwrite/api.ts:536-584 | A save yields at most one post. The members are stated by the next row. |
| `SavedPosts.ResolvedSavesMembers` | src/lib/appwrite/api.ts:536-584 | The resolved posts are exactly the results of the saves that resolve. |
| `SavedPosts.FirstWithId` | src/components/shared/PostStats.tsx:40-42 | `find` by `$id` returns a post iff one has the id, and that post is in the list and has the id. |
| `SavedPosts.FirstById` | src/lib/appwrite/api.ts:584-598 | Deduplication never lengthens the list. What survives is stated by the next row. |
| `SavedPosts.FirstByIdKeepsFirsts` | src/lib/appwrite/api.ts:584-598 | The survivors have distinct, non-empty ids and keep their relative order. They are exactly the first occurrence of each id. |
| `SavedPosts.EveryIdRepresented` | src/lib/appwrite/api.ts:584-598 | Every non-empty id of the input appears among the survivors. |
| `SavedPosts.DedupById` | src/lib/appwrite/api.ts:587-596 | The `Map` loop computes exactly the first-occurrence deduplication. |
| `SavedPosts.GetSavedPosts` | src/lib/appwrite/api.ts:524-607 | A failed listing gives nothing. Otherwise the documents are the deduplicated resolved saves, and the listing's total is kept. |
| `SavedPosts.SavedPostsCarryTheirSave` | src/lib/appwrite/api.ts:573-598 | No post id appears twice, and each post carries the id of a save record that points at it. |
| `SavedPosts.FirstSaveFor` | src/lib/appwrite/api.ts:527-579 | The save found is a listed save that resolves to a post with the requested id. |
| `SavedPosts.FirstResolvedIsFirstSave` | src/lib/appwrite/api.ts:536-584 | The first resolved post with an id is the result of the first save that resolves to that id. |
| `SavedPosts.NewestSaveWins` | src/lib/appwrite/api.ts:527-598 | For every post id, in any listing, the surviving post is the one resolved from the first save that resolves to that id, and it carries that save's id. Saves are listed newest first, so this is the newest save. An id that no save resolves to does not appear. |
| `SavedPosts.UnresolvableSaveDropped` | src/lib/appwrite/api.ts:549-561 | A save with an unusable post reference, or a post that is gone, contributes nothing. |
| `SavedPosts.ResolvedSavesAppend` | src/lib/appwrite/api.ts:536-584 | Saves resolve independently of each other. |
| `Follows.ParseList` | src/lib/appwrite/api.ts:892-902 | An array is used as it is, and any other non-text value gives `[]`. Text is parsed, and a parse error gives `[]`. Parsed text that is an array gives exactly that array. Parsed text that is a string or some other value gives that string or a non-list marker. |
| `Follows.ContainsInfix` | src/lib/appwrite/api.ts:906 | Every contiguous piece of a string is found by `includes`. |
| `Follows.ContainsNoLonger` | src/lib/appwrite/api.ts:906 | `includes` never finds a longer string. |
| `Follows.AddTo` | src/lib/appwrite/api.ts:905-908 | An array gains the id exactly when absent. A string that contains the id is written back unchanged. A string without the id, or any other value, fails, as `push` or `includes` throws. |
| `Follows.RemoveFrom` | src/lib/appwrite/api.ts:965-966 | Only an array can be filtered. The result lacks the id, keeps the other ids' counts, and keeps their order. |
| `Follows.PatchFollowing` | src/lib/appwrite/api.ts:910-917 | The update changes only the one user's `following`. |
| `Follows.PatchFollowers` | src/lib/appwrite/api.ts:925-932 | The update changes only the one user's `followers`. |
| `Follows.Follow` | src/lib/appwrite/api.ts:881-938 | Only the two users' documents can change. In them only the follower's `following` and the followed user's `followers` can change. A successful call returns the followed user's new document. A failed fetch of either user changes nothing. |
| `Follows.Unfollow` | src/lib/appwrite/api.ts:941-994 | Only the two users' documents can change. In them only the follower's `following` and the unfollowed user's `followers` can change. A successful call returns the unfollowed user's new document. A failed fetch of either user changes nothing. |
| `Follows.FollowRecordsBothSides` | src/lib/appwrite/api.ts:881-938 | After a successful follow, `following` records the followed id and `followers` records the follower id, as an array member or a piece of stored text. The returned document is the followed user. |
| `Follows.FollowAppendsOnlyWhenAbsent` | src/lib/appwrite/api.ts:904-917 | Parsed text that is neither an array nor a string never gets this far. An array grows by the followed id at the end when it was absent and is unchanged otherwise. A string is written back as it was, and it contains the id. |
| `Follows.FollowersAppendOnlyWhenAbsent` | src/lib/appwrite/api.ts:919-932 | After a successful follow, the followed user's `followers` array grows by the follower id at the end when it was absent and is unchanged otherwise. A string is written back as it was, and it contains the follower id. No other field of that document changes. |
| `Follows.FollowOnText` | src/lib/appwrite/api.ts:905-908 | When `following` parses to a string, a string without the followed id makes the call fail with nothing written. A string with the id is written back unchanged. |
| `Follows.UnfollowNeedsList` | src/lib/appwrite/api.ts:965-966 | A `following` that does not parse to an array makes the unfollow fail before anything is written. |
| `Follows.FollowIdempotent` | src/lib/appwrite/api.ts:904-923 | With both lists stored as arrays, following again changes neither the store nor the returned document. |
| `Follows.UnfollowRemovesAll` | src/lib/appwrite/api.ts:963-979 | After a successful unfollow, both lists are arrays. Every occurrence of the other user is removed from each list, and the remaining ids keep their counts and order in both. |
| `Follows.UnfollowAbsentKeepsList` | src/lib/appwrite/api.ts:963-972 | Unfollowing someone not followed writes `following` back with its ids as they were. |
| `Follows.UnfollowUndoesFollow` | src/lib/appwrite/api.ts:904-972 | With both lists stored as arrays, unfollowing right after a first follow restores the original `following` ids. |
| `Follows.UserCollection.FollowUser` | src/lib/appwrite/api.ts:881-938 | The imperative follow, with its fetches, `includes`/`push` on an array or a string, and two writes, leaves the store and the result that `Follow` specifies. |
| `Follows.UserCollection.UnfollowUser` | src/lib/appwrite/api.ts:941-994 | The imperative unfollow leaves the store and the result that `Unfollow` specifies. |
| `Carousel.Next` | src/components/shared/PostCard.tsx:70 | An in-range index stays in range and moves to `(i + 1) mod len`. |
| `Carousel.Previous` | src/components/shared/PostCard.tsx:64 | An in-range index stays in range and moves to `(i - 1) mod len`. |
| `Carousel.NextPreviousInverse` | src/components/shared/PostCard.tsx:61-71 | Previous undoes next, and next undoes previous. |
| `Carousel.Walk` | src/components/shared/PostCard.tsx:61-71 | Under any sequence of presses the index stays in `[0, len)`. |
| `Carousel.WalkIsNetModLen` | src/components/shared/PostCard.tsx:61-71 | Any sequence of presses lands at `(start + forward presses - back presses) mod len`. |
| `Carousel.FullCycle` | src/components/shared/PostCard.tsx:67-71 | `len` presses of next return to the start. |
| `PostCard.CardImages` | src/components/shared/PostCard.tsx:23-25 | The image list is never empty. It is a non-empty `imageUrls`, else the truthy `imageUrl`, else the placeholder. |
| `PostCard.RenderCard` | src/components/shared/PostCard.tsx:21-185 | Nothing renders iff the creator is falsy. Arrows and counter appear iff there are several images, and the counter reads `index+1 / len`. The edit link shows iff the user is the creator's `$id`. |
| `PostCard.StringCreatorHidesEdit` | src/components/shared/PostCard.tsx:106-108 | A creator stored as a bare id string renders, but never with the edit link. |
| `PostCard.CardCarousel.constructor` | src/components/shared/PostCard.tsx:17-25 | The carousel starts at index 0 of the card's images. |
| `PostCard.CardCarousel.HandleNext` | src/components/shared/PostCard.tsx:67-71 | The index moves to `Next`, that is `(i + 1) mod len`, and stays valid. |
| `PostCard.CardCarousel.HandlePrevious` | src/components/shared/PostCard.tsx:61-65 | The index moves to `Previous`, that is `(i - 1) mod len`, and stays valid. |
| `PostCard.CardCarousel.View` | src/components/shared/PostCard.tsx:27 | The card shows the image at the current index. |
| `PostDetails.DetailImages` | src/_root/pages/PostDetails.tsx:133-135 | The list is a non-empty `imageUrls`, else the truthy `imageUrl`, else empty. It is empty exactly when neither exists. |
| `PostDetails.DetailImagesMatchCard` | src/_root/pages/PostDetails.tsx:133-135 | The page and the card derive the same images, except that where the page has none the card shows the placeholder. |
| `PostDetails.CurrentImage` | src/_root/pages/PostDetails.tsx:137 | It is the indexed image when it exists and is non-empty, else the post's `imageUrl`. |
| `PostDetails.NoImagesFallsBack` | src/_root/pages/PostDetails.tsx:133-137 | A post without images shows its `imageUrl` field. |
| `PostDetails.RelatedPosts` | src/_root/pages/PostDetails.tsx:59-61 | The result is the creator's posts without the route's post, in order, and nothing while the list is not loaded. |
| `PostDetails.RelatedPostsWithoutRoute` | src/_root/pages/PostDetails.tsx:59-61 | Without a route id nothing is removed. |
| `PostDetails.DeleteImageArg` | src/_root/pages/PostDetails.tsx:71 | The id array is passed whenever present (even empty), else the single id, else nothing. |
| `PostDetails.DeleteFromPageRemovesImages` | src/_root/pages/PostDetails.tsx:70-71 | Deleting from the page removes every non-empty stored image id of the post, and removes nothing without a route id. |
| `PostDetails.DetailsPage.constructor` | src/_root/pages/PostDetails.tsx:24-26 | The page starts at image 0 with the dialog closed and no delete issued. |
| `PostDetails.DetailsPage.View` | src/_root/pages/PostDetails.tsx:136-186 | Rendering fails iff the creator is null or undefined, because of the unguarded `creator.$id`. Otherwise arrows show iff there are several images, edit and delete show together iff the user owns the post, and the dialog shows iff the flag is set. |
| `PostDetails.DetailsPage.HandleNext` | src/_root/pages/PostDetails.tsx:143-145 | With several images, the index wraps forward and stays valid. Nothing else changes. |
| `PostDetails.DetailsPage.HandlePrevious` | src/_root/pages/PostDetails.tsx:139-141 | With several images, the index wraps back and stays valid. Nothing else changes. |
| `PostDetails.DetailsPage.HandleDeletePost` | src/_root/pages/PostDetails.tsx:63-65 | The dialog opens and nothing is deleted. |
| `PostDetails.DetailsPage.CancelDeletePost` | src/_root/pages/PostDetails.tsx:98-100 | The dialog closes and nothing is deleted. |
| `PostDetails.DetailsPage.ConfirmDeletePost` | src/_root/pages/PostDetails.tsx:67-96 | The dialog closes and exactly one delete is issued, for the route id and the post's image argument. |
| `PostDetails.FailedFetchBreaksDetails` | src/_root/pages/PostDetails.tsx:184 | A post whose creator id cannot be fetched, resolved as written, makes the details page fail to render. |
| `GridPostList.Thumbnail` | src/components/shared/GridPostList.tsx:24-26 | The thumbnail is the first of a non-empty `imageUrls`, else the truthy `imageUrl`, else the placeholder. |
| `GridPostList.ThumbnailIsFirstCardImage` | src/components/shared/GridPostList.tsx:24-26 | The grid shows the image the feed card opens on. |
| `GridPostList.CreatorName` | src/components/shared/GridPostList.tsx:49 | The name is the creator's truthy name, else "Unknown". It is never empty. |
| `GridPostList.CreatorAvatar` | src/components/shared/GridPostList.tsx:42-45 | The avatar is the creator's truthy `imageUrl`, else the placeholder. |
| `GridPostList.Item` | src/components/shared/GridPostList.tsx:28-54 | An item is keyed by `$id`, with the post's thumbnail. The user row appears iff `showUser`, and the stats iff `showStats`. |
| `GridPostList.GridItems` | src/components/shared/GridPostList.tsx:13-29 | There is one item per post, in order. Each item is that post's `Item`: keyed by `$id`, with its thumbnail, and with the creator's avatar and name when the user row is shown. Both flags default to true. |
| `GridPostList.SavedGridKeysDistinct` | src/components/shared/GridPostList.tsx:29 | A grid of saved posts has distinct keys. |
| `PostStats.ToggledLikes` | src/components/shared/PostStats.tsx:57-63 | Membership of the user flips, and other ids keep their counts. A present like is removed everywhere, keeping order. An absent like is appended, adding exactly one. |
| `PostStats.ToggleTwiceRestores` | src/components/shared/PostStats.tsx:59-63 | From a list without the user, two toggles restore the list. |
| `PostStats.ToggleTwiceFromLiked` | src/components/shared/PostStats.tsx:59-63 | From a list with the user, two toggles leave the list without the user, plus one like at the end. |
| `PostStats.ToggleParity` | src/components/shared/PostStats.tsx:59-63 | After n toggles the like is present iff the parity says so. |
| `PostStats.ToggleKeepsOthers` | src/components/shared/PostStats.tsx:59-63 | However often one user toggles, every other id keeps its count. |
| `PostStats.ToggleNeverDoubles` | src/components/shared/PostStats.tsx:59-63 | One toggle leaves the user's like in the list at most once. |
| `PostStats.ToggleCountsOnce` | src/components/shared/PostStats.tsx:59-63 | After at least one toggle the user's like is counted at most once, whatever duplicates the stored list held. |
| `PostStats.StatsState.constructor` | src/components/shared/PostStats.tsx:23-27 | The local likes start as the post's array, else `[]`, unsaved and with no save id. |
| `PostStats.StatsState.SyncSaved` | src/components/shared/PostStats.tsx:39-50 | The post counts as saved iff some saved post has its `$id`. The save id is the first match's truthy `saveId`, else null. |
| `PostStats.StatsState.HandleLikePost` | src/components/shared/PostStats.tsx:52-67 | The likes become the toggled list, and exactly that list is sent. The user's like flips. The count shown at PostStats.tsx:103 goes up by one on a like and down on an unlike. |
| `PostStats.StatsState.HandleSavePost` | src/components/shared/PostStats.tsx:69-81 | A saved post with a save id is unsaved and that save is deleted. Otherwise a save is requested and the post counts as saved. |
| `FileUploader.SliceFront` | src/components/shared/FileUploader.tsx:22 | `slice(0, end)` gives a prefix, of length `end` when `end` is between 0 and the length. |
| `FileUploader.Dropped` | src/components/shared/FileUploader.tsx:19-30 | The old files are a prefix, and the added part is a prefix of the drop. Under the cap everything is added. At most 10 before gives at most 10 after, and exactly 10 when the sum exceeds 10. |
| `FileUploader.Urls` | src/components/shared/FileUploader.tsx:27 | There is one preview per file, in order. |
| `FileUploader.UrlsRemoveIndex` | src/components/shared/FileUploader.tsx:42-43 | Removing by index commutes with taking previews. |
| `FileUploader.Picker.constructor` | src/components/shared/FileUploader.tsx:13-14 | There are no files, and the previews hold only a truthy `mediaUrl`. |
| `FileUploader.Picker.OnDrop` | src/components/shared/FileUploader.tsx:16-39 | The files become `Dropped`, and the previews grow by the previews of exactly the added files. The cap and alignment are kept, and `fieldChange` gets the new files. |
| `FileUploader.Picker.HandleRemoveImage` | src/components/shared/FileUploader.tsx:41-48 | The same index is removed from both lists, and an out-of-range index is ignored. Without `mediaUrl` the lists stay aligned, and `fieldChange` gets the new files. |
| `FileUploader.Picker.HandleRemoveAligned` | src/components/shared/FileUploader.tsx:41-48 | The corrected removal: the clicked preview and the file it shows are removed, so alignment is kept. |
| `FileUploader.AlignedAfterRemove` | src/components/shared/FileUploader.tsx:41-43 | Removing a preview and the file it shows keeps the trailing previews equal to the files' previews. |
| `FileUploader.RemoveMisaligned` | src/components/shared/FileUploader.tsx:41-43 | With a `mediaUrl`, the button on the first file's preview removes the second file. The kept file is then shown with the removed file's preview. |
| `CommentForm.Trim` | src/components/shared/CommentForm.tsx:16 | Trimming gives `""` iff the text is all white space. Otherwise the result starts and ends with a visible character. |
| `CommentForm.PaddedTextSurvivesTrim` | src/components/shared/CommentForm.tsx:16 | Text with a visible character is never blank, however it is padded. |
| `CommentForm.CommentBox.constructor` | src/components/shared/CommentForm.tsx:12 | The box starts empty. |
| `CommentForm.CommentBox.OnChange` | src/components/shared/CommentForm.tsx:32 | The text becomes what was typed. |
| `CommentForm.CommentBox.HandleSubmit` | src/components/shared/CommentForm.tsx:14-20 | Blank text is not submitted and stays. Otherwise the untrimmed text is submitted and the box is cleared. |
| `CommentForm.CommentBox.SubmitDisabled` | src/components/shared/CommentForm.tsx:41 | The button is disabled iff the text is blank or a submission is loading. |

## Left out

- Resolver.ResolveCreators: uses the corrected rule of the first "## Findings"
  row. In the source, a post whose creator id cannot be fetched gets an
  undefined creator; `Resolver.ResolveCreatorsAsWritten` and
  `Resolver.AsWrittenBatchBlanksFailures` state that behaviour.
- Resolver.OneFailureDoesNotSpoilBatch: states the intended batch. As
  written, the failed post comes back with its creator blanked, not
  unchanged (`Resolver.AsWrittenBatchBlanksFailures`).
- Resolver.ResolveListing: its documents come from the corrected batch, so a
  failed creator fetch keeps the stored creator, where api.ts:252-256 blanks
  it.
- Resolver.GetPostById: resolves with the corrected rule, so a failed creator
  fetch keeps the stored creator, where api.ts:357-361 blanks it.
- Resolver.GetUserLikedPosts: its documents come from the corrected batch,
  so a failed creator fetch keeps the stored creator, where api.ts:701-705
  blanks it.
- Backend I/O is not modelled: the SDK calls, sign-up/in/out, comments
  (`createComment`, `getPostComments`, `deleteComment`), `likePost`,
  `savePost`, `deleteSavedPost`, `updatePost`, `updateUser` and
  `getCurrentUser`. Reads are partial maps and writes are map updates. Only
  the rules applied around them are modelled.
- Query construction (`Query.*`, cursors, limits) is a pass-through to the
  backend's own pagination and search.
- `getFilePreview` URL construction, `uploadFile` and `deleteFile` are
  parameters or lists of ids to delete. The rollback orchestration of
  `updatePost` and `updateUser` is not modelled.
- `Promise.all` concurrency: every task writes its own slot, so the model is
  a sequential map that keeps order and length.
- `JSON.parse` inside `parseList` is a parameter. A parsed array with
  non-string items is not modelled. A parsed string is modelled: `includes`
  is a substring test, `push` and `filter` throw. Any other parsed value
  (number, boolean, null, object) counts as a failure of the call, because it
  has no `includes` or `filter`.
- FollowIdempotent: holds only when both lists are stored as arrays. A
  string written back is re-parsed from its content on the next call, so
  the source promises nothing there.
- UnfollowUndoesFollow: holds only when both lists are stored as arrays, for
  the same reason.
- The two follow writes are not atomic, and a failing write between them is
  not modelled. Both writes are assumed to succeed. A list-parsing failure
  after the first write is modelled and leaves that write in place.
- A `likes` field that is a string rather than an
  array is treated as absent, whereas `includes` on a string in
  `getUserLikedPosts` would do a substring test.
- PostStats.StatsState.HandleSavePost: the refetch that refreshes
  `savedPostId` after a save or unsave is react-query caching. The model
  refreshes it only through `SyncSaved`.
- PostCard and PostDetails keep their post fixed for the lifetime of the
  state. A post that changes under an existing index is not modelled.
- Rendering, styling, toasts, navigation, the comments modal, LikedPosts and
  `useDropzone` MIME filtering are not modelled.
- `multiFormatDateString`, `checkIsLiked` and `convertFileToUrl` are not part
  of this model. `convertFileToUrl` is the opaque `toUrl` parameter.
- `createPost` and `updatePost` share the tag expression. The model cites
  `createPost` for it.
- FileUploader.Picker.OnDrop: the cap counts files only. With a
  `mediaUrl`, 10 files show 11 previews. This is kept as written.

## Findings

| source | as written | input that shows it | evidently intended | confidence | as-written member | corrected member |
|---|---|---|---|---|---|---|
| src/lib/appwrite/api.ts:252-258 | `getUserById` catches its own errors and resolves `undefined`, so the `catch { return post }` around the resolution never runs, and a failed fetch sets `creator: undefined` | a post whose `creator` is `"u1"` while user `u1` cannot be fetched: the post comes back with a falsy creator, and PostCard renders nothing for it | on a failed fetch the post keeps its stored creator | not executed | `Resolver.FailedFetchBlanksCreator` | `Resolver.ResolveCreator` |
| src/components/shared/FileUploader.tsx:41-43 | the preview index is used as a file index, although a `mediaUrl` preview leads the URL list | `mediaUrl = m`, files `[a, b]`, previews `[m, url(a), url(b)]`; the remove button on `url(a)` (index 1) removes `b`, leaving files `[a]` with previews `[m, url(b)]` | the clicked preview and the file it shows are removed | not executed | `FileUploader.RemoveMisaligned` | `FileUploader.Picker.HandleRemoveAligned` |

The first row also reaches the details page. Its profile link reads
`post?.creator.$id` (src/_root/pages/PostDetails.tsx:184) with no `?.` after
`creator`, so the blanked creator makes the page throw while rendering.
`PostDetails.DetailsPage.View` models that failure, and
`PostDetails.FailedFetchBreaksDetails` shows it for a post resolved as written.
