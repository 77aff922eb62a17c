/**
 * Deleting an uploaded image by URL: the key is the text after the last
 * `/`, one delete request is sent for it, and any failure reads as `false`.
 * The upload store is a function parameter.
 */
module UploadServer {
  import opened Text
  import opened Options

  /** The store's answer to a delete request: a reply with its `success`
      flag, or a thrown error. */
  datatype StoreReply = Reply(success: bool) | Threw

  /** The key: `split('/').pop() || ''`. The last piece of a split always
      exists, so the `|| ''` fallback only ever turns "" into "". */
  function ExtractKey(fileUrl: string): (key: string)
  {
    LastPiece(fileUrl, '/')
  }

  /** `deleteImage`: the result, and the keys of the delete requests sent. */
  datatype Outcome = Outcome(deleted: bool, requested: seq<string>)

  function DeleteImage(fileUrl: string, store: seq<string> -> StoreReply): (r: Outcome)
    ensures fileUrl == [] ==> r == Outcome(false, [])
    ensures fileUrl != [] ==> r.requested == [ExtractKey(fileUrl)]
    ensures fileUrl != [] && store([ExtractKey(fileUrl)]).Threw? ==> !r.deleted
    ensures fileUrl != [] && store([ExtractKey(fileUrl)]).Reply? ==> r.deleted == store([ExtractKey(fileUrl)]).success
  {
    if fileUrl == [] then Outcome(false, [])
    else
      var key := ExtractKey(fileUrl);
      match store([key])
      case Threw => Outcome(false, [key])
      case Reply(success) => Outcome(success, [key])
  }

  /** The key is what follows the last `/`, or the whole URL when it has
      none: it holds no `/` and the URL ends with it. */
  lemma ExtractKeyIsLastSegment(fileUrl: string)
    ensures var key := ExtractKey(fileUrl);
      && '/' !in key
      && |key| <= |fileUrl| && fileUrl[|fileUrl| - |key|..] == key
      && (|key| == |fileUrl| || fileUrl[|fileUrl| - |key| - 1] == '/')
  {
    LastPieceIsSuffix(fileUrl, '/');
  }

  /** Without a `/` the key is the whole input, so a bare key passes through. */
  lemma ExtractKeyOfBareKey(fileUrl: string)
    requires '/' !in fileUrl
    ensures ExtractKey(fileUrl) == fileUrl
  {
    SplitNoSep(fileUrl, '/');
  }

  /** A URL ending in `/` yields the empty key, and that is what the delete
      request asks for. */
  lemma TrailingSlashGivesEmptyKey(prefix: string, store: seq<string> -> StoreReply)
    ensures ExtractKey(prefix + "/") == ""
    ensures DeleteImage(prefix + "/", store).requested == [""]
  {
    LastPieceAfterSep(prefix, "", '/');
    assert prefix + "/" == prefix + ['/'] + "";
  }

  /** The key of a typical file URL. */
  lemma KeyOfFileUrl()
    ensures ExtractKey("https://utfs.io/f/abc") == "abc"
  {
    assert "https://utfs.io/f/abc" == "https://utfs.io/f" + ['/'] + "abc";
    LastPieceAfterSep("https://utfs.io/f", "abc", '/');
  }
}
