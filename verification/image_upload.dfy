/**
 * The picture attachment rules: which local URIs are accepted, the storage
 * path an upload is written to, the shape of an upload's result, and the
 * storage path a delete request is turned into. Storage calls are replaced by
 * their outcomes and `Date.now()` by a parameter.
 */
module ImageUpload {
  import opened Wrappers
  import JsText

  const FileScheme := "file://"
  const ContentScheme := "content://"

  /** `validateImage`: a non-empty URI with the `file://` or `content://` scheme. */
  function ValidateImage(imageUri: string): (ok: bool)
    ensures imageUri == "" ==> !ok
    ensures ok <==> FileScheme <= imageUri || ContentScheme <= imageUri
  {
    if imageUri == "" then false
    else if !(FileScheme <= imageUri) && !(ContentScheme <= imageUri) then false
    else true
  }

  // ---------------------------------------------------------------------------
  // Upload

  const Folder := "denunciations/"
  const Extension := ".jpg"

  /** The object name of an upload: record id, `_`, upload time in milliseconds, `.jpg`. */
  function UploadName(denunciationId: string, now: nat): string {
    denunciationId + "_" + JsText.NatToDecimal(now) + Extension
  }

  /** Where an upload is stored: inside the denunciations folder, named after the record and the time. */
  function UploadPath(denunciationId: string, now: nat): (path: string)
    ensures Folder <= path
    ensures path[|path| - |Extension|..] == Extension
  {
    Folder + UploadName(denunciationId, now)
  }

  /** The text after the last `_` identifies the time, the text before it the record. */
  lemma {:induction false} UnderscoreSplit(a1: string, d1: string, a2: string, d2: string)
    requires a1 + "_" + d1 == a2 + "_" + d2
    requires '_' !in d1 && '_' !in d2
    ensures a1 == a2 && d1 == d2
  {
    var m := a1 + "_" + d1;
    assert d1 == m[|m| - |d1|..];
    assert m[|m| - |d1| - 1] == '_';
    JsText.AfterLastUnique(m, '_', d1);
    assert d2 == m[|m| - |d2|..];
    assert m[|m| - |d2| - 1] == '_';
    JsText.AfterLastUnique(m, '_', d2);
    assert a1 == m[..|a1|] && a2 == m[..|a2|];
  }

  /** Two uploads share a path only if they are for the same record at the same millisecond. */
  lemma {:induction false} UploadPathInjective(id1: string, t1: nat, id2: string, t2: nat)
    requires UploadPath(id1, t1) == UploadPath(id2, t2)
    ensures id1 == id2 && t1 == t2
  {
    var d1, d2 := JsText.NatToDecimal(t1), JsText.NatToDecimal(t2);
    var p := UploadPath(id1, t1);
    var m1, m2 := id1 + "_" + d1, id2 + "_" + d2;
    assert p == Folder + m1 + Extension;
    assert p == Folder + m2 + Extension;
    assert |m1| == |m2|;
    assert m1 == p[|Folder|..|p| - |Extension|] == m2;
    assert '_' !in d1 && '_' !in d2 by {
      assert forall i :: 0 <= i < |d1| ==> JsText.IsDigit(d1[i]);
      assert forall i :: 0 <= i < |d2| ==> JsText.IsDigit(d2[i]);
    }
    UnderscoreSplit(id1, d1, id2, d2);
    JsText.DecimalInjective(t1, t2);
  }

  /** `ImageUploadResult`: a success flag with an optional URL and an optional error text. */
  datatype UploadResult = UploadResult(success: bool, imageUrl: Option<string>, error: Option<string>)

  /** The two shapes a result takes: success with a URL, or failure with an error text. */
  predicate WellShaped(r: UploadResult) {
    || (r.success && r.imageUrl.Some? && r.error.None?)
    || (!r.success && r.imageUrl.None? && r.error.Some?)
  }

  /** What the storage did: stored the file and produced its download URL, or threw (message possibly empty). */
  datatype StorageOutcome = Stored(downloadUrl: string) | StorageFailed(message: string)

  /** An upload attempt: its result, and the storage path written to, if storage was used at all. */
  datatype Upload = Upload(result: UploadResult, storagePath: Option<string>)

  const NoUriMsg := "URI da imagem não fornecida"
  const UploadFailedMsg := "Erro no upload da imagem"

  /** `uploadImage`; `storage` is what the storage service does with the file. */
  function UploadImage(imageUri: string, denunciationId: string, now: nat, storage: StorageOutcome): (r: Upload)
    ensures WellShaped(r.result)
    ensures imageUri == "" ==> r == Upload(UploadResult(false, None, Some(NoUriMsg)), None)
    ensures imageUri != "" ==> r.storagePath == Some(UploadPath(denunciationId, now))
    ensures imageUri != "" ==> (r.result.success <==> storage.Stored?)
    ensures imageUri != "" && storage.Stored? ==> r.result.imageUrl == Some(storage.downloadUrl)
    ensures imageUri != "" && storage.StorageFailed? ==>
      r.result.error == Some(if storage.message != "" then storage.message else UploadFailedMsg)
  {
    if imageUri == "" then Upload(UploadResult(false, None, Some(NoUriMsg)), None)
    else
      var path := UploadPath(denunciationId, now);
      match storage
      case Stored(url) => Upload(UploadResult(true, Some(url), None), Some(path))
      case StorageFailed(m) =>
        Upload(UploadResult(false, None, Some(if m != "" then m else UploadFailedMsg)), Some(path))
  }

  /**
   * The upload does not apply `validateImage`: a non-empty URI that it rejects
   * (an `http://` one, say) still goes to storage, at the usual upload path.
   */
  lemma UploadSkipsSchemeCheck(imageUri: string, denunciationId: string, now: nat, storage: StorageOutcome)
    requires imageUri != "" && !ValidateImage(imageUri)
    ensures UploadImage(imageUri, denunciationId, now, storage).storagePath == Some(UploadPath(denunciationId, now))
    ensures !ValidateImage("http://x")
  {
    assert "http://x"[0] != FileScheme[0];
  }

  // ---------------------------------------------------------------------------
  // Delete

  /** `imageUrl.split('/')` → last piece → `.split('?')[0]`. */
  function DeleteFileName(imageUrl: string): (name: string)
    ensures '/' !in name && '?' !in name
  {
    var last := JsText.LastPiece(JsText.Split(imageUrl, '/'));
    var name := JsText.Split(last, '?')[0];
    JsText.SplitFirst(last, '?');
    assert name <= last;
    name
  }

  /** The file name is the text after the last `/`, cut at its first `?`. */
  lemma DeleteFileNameSpec(imageUrl: string)
    ensures DeleteFileName(imageUrl)
         == JsText.BeforeFirst(JsText.AfterLast(imageUrl, '/'), '?')
  {
    JsText.SplitLast(imageUrl, '/');
    var last := JsText.LastPiece(JsText.Split(imageUrl, '/'));
    assert last == JsText.AfterLast(imageUrl, '/');
    JsText.SplitFirst(last, '?');
  }

  /** The path `deleteImage` removes: the file name, placed in the denunciations folder. */
  function DeletePath(imageUrl: string): (path: string)
    ensures Folder <= path
    ensures '/' !in path[|Folder|..] && '?' !in path[|Folder|..]
  {
    var name := DeleteFileName(imageUrl);
    assert (Folder + name)[|Folder|..] == name;
    Folder + name
  }

  /** A delete request: whether `true` is returned, and the storage path removed, if storage was used. */
  datatype Delete = Delete(ok: bool, storagePath: Option<string>)

  /** `deleteImage`; `removed` tells whether the storage removal succeeded. */
  function DeleteImage(imageUrl: string, removed: bool): (r: Delete)
    ensures imageUrl == "" ==> r == Delete(true, None)
    ensures imageUrl != "" ==> r.storagePath == Some(DeletePath(imageUrl)) && r.ok == removed
  {
    if imageUrl == "" then Delete(true, None) else Delete(removed, Some(DeletePath(imageUrl)))
  }

  /**
   * For a URL whose last segment is the plain object name followed by a query
   * without `/`, the delete path is the upload path.
   */
  lemma {:induction false} DeleteOfPlainUrl(base: string, denunciationId: string, now: nat, query: string)
    requires '/' !in denunciationId && '?' !in denunciationId && '/' !in query
    ensures DeletePath(base + "/" + UploadName(denunciationId, now) + "?" + query)
         == UploadPath(denunciationId, now)
  {
    var name := UploadName(denunciationId, now);
    var url := base + "/" + name + "?" + query;
    var tail := name + "?" + query;
    var digits := JsText.NatToDecimal(now);
    assert '/' !in name && '?' !in name by {
      assert forall i :: 0 <= i < |digits| ==> JsText.IsDigit(digits[i]);
      assert name == denunciationId + "_" + digits + Extension;
    }
    assert tail == url[|url| - |tail|..];
    assert url[|url| - |tail| - 1] == '/';
    JsText.AfterLastUnique(url, '/', tail);
    assert tail[|name|] == '?';
    JsText.BeforeFirstUnique(tail, '?', name);
    DeleteFileNameSpec(url);
  }

  // ---------------------------------------------------------------------------
  // Deleting by download URL

  /** Characters `encodeURIComponent` leaves unchanged. */
  predicate UriUnreserved(c: char) {
    || ('a' <= c <= 'z') || ('A' <= c <= 'Z') || ('0' <= c <= '9')
    || c == '-' || c == '_' || c == '.' || c == '!' || c == '~' || c == '*' || c == '\'' || c == '(' || c == ')'
  }

  /** A storage path made of unreserved characters and `/`. */
  predicate PlainPath(path: string) {
    forall i :: 0 <= i < |path| ==> UriUnreserved(path[i]) || path[i] == '/'
  }

  /** `encodeURIComponent` of a plain path: each `/` becomes `%2F`, every other character stays. */
  function EncodePath(path: string): (r: string)
    requires PlainPath(path)
    ensures '/' !in r && '?' !in r
    ensures |r| >= |path|
    ensures '/' in path ==> |r| > |path|
  {
    if path == [] then []
    else (if path[0] == '/' then "%2F" else [path[0]]) + EncodePath(path[1..])
  }

  /** Turns each `%2F` back into `/`. */
  function DecodeSlashes(s: string): string {
    if s == [] then []
    else if |s| >= 3 && s[..3] == "%2F" then "/" + DecodeSlashes(s[3..])
    else [s[0]] + DecodeSlashes(s[1..])
  }

  /** Decoding undoes the encoding of a plain path. */
  lemma {:induction false} DecodeEncode(path: string)
    requires PlainPath(path)
    ensures DecodeSlashes(EncodePath(path)) == path
  {
    if path != [] {
      DecodeEncode(path[1..]);
      var rest := EncodePath(path[1..]);
      if path[0] == '/' {
        var s := "%2F" + rest;
        assert EncodePath(path) == s;
        assert s[..3] == "%2F" && s[3..] == rest;
      } else {
        var s := [path[0]] + rest;
        assert EncodePath(path) == s;
        assert s[0] != '%' && s[1..] == rest;
      }
    }
  }

  const DownloadQuery := "?alt=media&token="

  /**
   * The download URL the storage service returns for an object: the bucket's
   * address, `/o/`, the percent-encoded object path, then the access token.
   */
  function DownloadUrl(bucketAddress: string, path: string, token: string): string
    requires PlainPath(path)
  {
    bucketAddress + "/o/" + EncodePath(path) + DownloadQuery + token
  }

  /** An upload path is plain when the record id is. */
  lemma UploadPathIsPlain(denunciationId: string, now: nat)
    requires forall i :: 0 <= i < |denunciationId| ==> UriUnreserved(denunciationId[i])
    ensures PlainPath(UploadPath(denunciationId, now))
  {
    var digits := JsText.NatToDecimal(now);
    assert forall i :: 0 <= i < |digits| ==> JsText.IsDigit(digits[i]);
    assert UploadPath(denunciationId, now) == Folder + denunciationId + "_" + digits + Extension;
  }

  /** The file name taken from a download URL is the still-encoded object path. */
  lemma {:induction false} DownloadUrlFileName(bucketAddress: string, path: string, token: string)
    requires PlainPath(path) && '/' !in token
    ensures DeleteFileName(DownloadUrl(bucketAddress, path, token)) == EncodePath(path)
  {
    var encoded := EncodePath(path);
    var url := DownloadUrl(bucketAddress, path, token);
    var tail := encoded + DownloadQuery + token;
    assert url == bucketAddress + "/o" + "/" + tail;
    assert '/' !in tail;
    assert tail == url[|url| - |tail|..];
    assert url[|url| - |tail| - 1] == '/';
    JsText.AfterLastUnique(url, '/', tail);
    assert tail[|encoded|] == '?';
    JsText.BeforeFirstUnique(tail, '?', encoded);
    DeleteFileNameSpec(url);
  }

  /**
   * As written, `deleteImage` given the download URL of an upload names a
   * different object: the encoded path, placed in the folder a second time.
   */
  lemma DeletePathMissesUpload(bucketAddress: string, denunciationId: string, now: nat, token: string)
    requires forall i :: 0 <= i < |denunciationId| ==> UriUnreserved(denunciationId[i])
    requires '/' !in token
    ensures PlainPath(UploadPath(denunciationId, now))
    ensures DeletePath(DownloadUrl(bucketAddress, UploadPath(denunciationId, now), token))
         == Folder + EncodePath(UploadPath(denunciationId, now))
    ensures DeletePath(DownloadUrl(bucketAddress, UploadPath(denunciationId, now), token))
         != UploadPath(denunciationId, now)
  {
    var path := UploadPath(denunciationId, now);
    UploadPathIsPlain(denunciationId, now);
    DownloadUrlFileName(bucketAddress, path, token);
    assert path[|Folder| - 1] == '/';
  }

  /** The object a download URL names: its last segment, cut at `?`, with `%2F` decoded. */
  function StoragePathOfUrl(imageUrl: string): (path: string)
    ensures '?' !in path
  {
    var name := DeleteFileName(imageUrl);
    DecodeNoQuestionMark(name);
    DecodeSlashes(name)
  }

  lemma {:induction false} DecodeNoQuestionMark(s: string)
    requires '?' !in s
    ensures '?' !in DecodeSlashes(s)
  {
    if s != [] {
      if |s| >= 3 && s[..3] == "%2F" {
        DecodeNoQuestionMark(s[3..]);
      } else {
        DecodeNoQuestionMark(s[1..]);
      }
    }
  }

  /** Corrected delete: the object named by the download URL of an upload is that upload's path. */
  lemma StoragePathOfDownloadUrl(bucketAddress: string, denunciationId: string, now: nat, token: string)
    requires forall i :: 0 <= i < |denunciationId| ==> UriUnreserved(denunciationId[i])
    requires '/' !in token
    ensures PlainPath(UploadPath(denunciationId, now))
    ensures StoragePathOfUrl(DownloadUrl(bucketAddress, UploadPath(denunciationId, now), token))
         == UploadPath(denunciationId, now)
  {
    var path := UploadPath(denunciationId, now);
    UploadPathIsPlain(denunciationId, now);
    DownloadUrlFileName(bucketAddress, path, token);
    DecodeEncode(path);
  }

  /** `deleteImage` with the corrected path: an empty URL is a no-op, otherwise the named object is removed. */
  function DeleteImageByUrl(imageUrl: string, removed: bool): (r: Delete)
    ensures imageUrl == "" ==> r == Delete(true, None)
    ensures imageUrl != "" ==> r.storagePath == Some(StoragePathOfUrl(imageUrl)) && r.ok == removed
  {
    if imageUrl == "" then Delete(true, None) else Delete(removed, Some(StoragePathOfUrl(imageUrl)))
  }
}
