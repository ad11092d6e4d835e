/**
 * The image picker (src/components/shared/FileUploader.tsx): two parallel
 * state lists, the selected `files` and their preview `fileUrls`, the latter
 * led by the post's existing `mediaUrl` when editing.
 */
module FileUploader {
  import opened Wrappers
  import Seqs

  /** The cap on selected files (FileUploader.tsx:19-21). */
  const MAX_FILES: int := 10

  /** `s.slice(0, end)` with JavaScript's reading of a negative or too large end. */
  function SliceFront<T>(s: seq<T>, end: int): (r: seq<T>)
    ensures |r| <= |s| && r == s[..|r|]
    ensures 0 <= end ==> |r| == if end < |s| then end else |s|
  {
    if end < 0 then (if |s| + end < 0 then [] else s[..|s| + end])
    else if end < |s| then s[..end]
    else s
  }

  /**
   * The new `files` after a drop (FileUploader.tsx:19-30): everything is
   * appended while the total stays within the cap, otherwise only as many as
   * `10 - files.length` allows.
   */
  function Dropped<F>(files: seq<F>, accepted: seq<F>): (r: seq<F>)
    ensures |files| <= |r| <= |files| + |accepted| && r[..|files|] == files
    ensures r[|files|..] == accepted[..|r| - |files|]
    ensures |files| + |accepted| <= MAX_FILES ==> r == files + accepted
    ensures |files| <= MAX_FILES ==> |r| <= MAX_FILES
    ensures |files| <= MAX_FILES < |files| + |accepted| ==> |r| == MAX_FILES
  {
    if |files| + |accepted| > MAX_FILES then
      var newFiles := SliceFront(accepted, MAX_FILES - |files|);
      files + newFiles
    else files + accepted
  }

  /** `files.map(convertFileToUrl)`. */
  function Urls<F>(toUrl: F -> string, files: seq<F>): (r: seq<string>)
    ensures |r| == |files|
    ensures forall i :: 0 <= i < |files| ==> r[i] == toUrl(files[i])
  {
    seq(|files|, i requires 0 <= i < |files| => toUrl(files[i]))
  }

  lemma UrlsAppend<F>(toUrl: F -> string, a: seq<F>, b: seq<F>)
    ensures Urls(toUrl, a + b) == Urls(toUrl, a) + Urls(toUrl, b)
  {
  }

  /** Removing by index commutes with taking previews. */
  lemma UrlsRemoveIndex<F>(toUrl: F -> string, files: seq<F>, i: int)
    ensures Seqs.RemoveIndex(Urls(toUrl, files), i) == Urls(toUrl, Seqs.RemoveIndex(files, i))
  {
  }

  /**
   * The picker's state. `lead` is `[mediaUrl]` for a truthy `mediaUrl` and
   * empty otherwise (FileUploader.tsx:13-14); `toUrl` is
   * `convertFileToUrl`.
   */
  class Picker<F> {
    const toUrl: F -> string
    const lead: seq<string>
    var files: seq<F>
    var fileUrls: seq<string>

    /**
     * The previews after the leading ones are exactly the previews of the
     * files, in order.
     */
    predicate Aligned()
      reads this
    {
      && |files| <= |fileUrls| <= |files| + |lead|
      && fileUrls[|fileUrls| - |files|..] == Urls(toUrl, files)
    }

    /**
     * What every operation keeps: the cap, the number of extra previews, and
     * without a `mediaUrl`, one preview per file in order.
     */
    predicate Valid()
      reads this
    {
      && |lead| <= 1
      && |files| <= MAX_FILES
      && |files| <= |fileUrls| <= |files| + |lead|
      && (lead == [] ==> fileUrls == Urls(toUrl, files))
    }

    constructor(mediaUrl: Option<string>, convert: F -> string)
      ensures toUrl == convert
      ensures lead == (if HasText(mediaUrl) then [mediaUrl.value] else [])
      ensures files == [] && fileUrls == lead
      ensures Valid() && Aligned()
    {
      toUrl := convert;
      lead := if HasText(mediaUrl) then [mediaUrl.value] else [];
      files := [];
      fileUrls := if HasText(mediaUrl) then [mediaUrl.value] else [];
    }

    /**
     * `onDrop`: the files are appended up to the cap, their previews are
     * appended to `fileUrls`, and `changed` is what `fieldChange` receives.
     */
    method OnDrop(acceptedFiles: seq<F>) returns (changed: seq<F>)
      requires Valid()
      modifies this
      ensures Valid()
      ensures files == Dropped(old(files), acceptedFiles)
      ensures fileUrls == old(fileUrls) + Urls(toUrl, files[|old(files)|..])
      ensures |fileUrls| - |old(fileUrls)| == |files| - |old(files)|
      ensures old(Aligned()) ==> Aligned()
      ensures changed == files
    {
      var newFiles: seq<F>;
      if |files| + |acceptedFiles| > MAX_FILES {
        var remaining := MAX_FILES - |files|;
        newFiles := SliceFront(acceptedFiles, remaining);
      } else {
        newFiles := acceptedFiles;
      }
      var updatedFiles := files + newFiles;
      assert updatedFiles[|files|..] == newFiles;
      UrlsAppend(toUrl, files, newFiles);
      var urls := fileUrls[|fileUrls| - |files|..];
      assert (fileUrls + Urls(toUrl, newFiles))[|fileUrls + Urls(toUrl, newFiles)| - |updatedFiles|..]
          == urls + Urls(toUrl, newFiles);
      files := updatedFiles;
      changed := updatedFiles;
      fileUrls := fileUrls + Urls(toUrl, newFiles);
    }

    /**
     * `handleRemoveImage` as written: the same index is removed from both
     * lists, an out-of-range index leaves a list as it is.
     */
    method HandleRemoveImage(indexToRemove: int) returns (changed: seq<F>)
      requires Valid()
      modifies this
      ensures Valid()
      ensures files == Seqs.RemoveIndex(old(files), indexToRemove)
      ensures fileUrls == Seqs.RemoveIndex(old(fileUrls), indexToRemove)
      ensures changed == files
    {
      if lead == [] {
        UrlsRemoveIndex(toUrl, files, indexToRemove);
      }
      files := Seqs.RemoveIndex(files, indexToRemove);
      fileUrls := Seqs.RemoveIndex(fileUrls, indexToRemove);
      changed := files;
    }

    /**
     * Removal as the preview buttons intend it: `indexToRemove` is the index
     * of the clicked preview, so the file removed is the one it shows, and a
     * click on the leading `mediaUrl` preview removes no file.
     */
    method HandleRemoveAligned(indexToRemove: int) returns (changed: seq<F>)
      requires Valid() && Aligned()
      modifies this
      ensures Valid() && Aligned()
      ensures fileUrls == Seqs.RemoveIndex(old(fileUrls), indexToRemove)
      ensures files == Seqs.RemoveIndex(old(files), indexToRemove - (|old(fileUrls)| - |old(files)|))
      ensures changed == files
    {
      var offset := |fileUrls| - |files|;
      var kept := Seqs.RemoveIndex(files, indexToRemove - offset);
      var urls := Seqs.RemoveIndex(fileUrls, indexToRemove);
      AlignedAfterRemove(toUrl, fileUrls, files, indexToRemove);
      assert urls[|urls| - |kept|..] == Urls(toUrl, kept);
      if lead == [] {
        assert |urls| == |kept|;
        assert urls == urls[0..];
      }
      files := kept;
      fileUrls := urls;
      changed := files;
    }
  }

  /**
   * Removing preview `i` and the file it shows keeps the previews after the
   * leading ones equal to the previews of the files.
   */
  lemma AlignedAfterRemove<F>(toUrl: F -> string, urls: seq<string>, files: seq<F>, i: int)
    requires |files| <= |urls| && urls[|urls| - |files|..] == Urls(toUrl, files)
    ensures var off := |urls| - |files|;
      var u := Seqs.RemoveIndex(urls, i);
      var f := Seqs.RemoveIndex(files, i - off);
      && |f| <= |u| && |u| - |f| <= off
      && u[|u| - |f|..] == Urls(toUrl, f)
  {
    var off := |urls| - |files|;
    var u := Seqs.RemoveIndex(urls, i);
    var f := Seqs.RemoveIndex(files, i - off);
    if 0 <= i < off {
      assert f == files;
      forall k | 0 <= k < |f| ensures u[|u| - |f|..][k] == Urls(toUrl, f)[k] {
        assert u[off - 1 + k] == urls[off + k];
      }
    } else if off <= i < |urls| {
      UrlsRemoveIndex(toUrl, files, i - off);
      forall k | 0 <= k < |f| ensures u[|u| - |f|..][k] == Urls(toUrl, f)[k] {
        if off + k < i {
          assert u[off + k] == urls[off + k];
        } else {
          assert u[off + k] == urls[off + k + 1];
        }
      }
    }
  }

  /**
   * With a `mediaUrl`, the preview at index 1 shows the first file, but its
   * button removes the second file: afterwards the remaining file `a` is
   * shown with the preview of the removed file `b`.
   */
  lemma RemoveMisaligned<F>(toUrl: F -> string, media: string, a: F, b: F)
    requires toUrl(a) != toUrl(b)
    ensures var files := [a, b];
      var urls := [media, toUrl(a), toUrl(b)];
      && urls[1] == toUrl(files[0])
      && Seqs.RemoveIndex(files, 1) == [a]
      && Seqs.RemoveIndex(urls, 1) == [media, toUrl(b)]
      && Seqs.RemoveIndex(urls, 1)[1..] != Urls(toUrl, Seqs.RemoveIndex(files, 1))
  {
    var urls := [media, toUrl(a), toUrl(b)];
    assert Seqs.RemoveIndex(urls, 1) == [media, toUrl(b)];
    assert Urls(toUrl, [a]) == [toUrl(a)];
  }
}
