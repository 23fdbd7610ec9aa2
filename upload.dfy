/**
 * `POST /api/upload`: the multipart form must hold a `file` whose content
 * type starts with "image/"; the file is stored under the name
 * "image-<timestamp>.<extension>", the extension being the lower-cased text
 * after the last '.' of the original name, and the response carries the URL
 * the storage helper returns.
 *
 * The clock (`Date.now()`) and the storage helper's result are parameters;
 * the file's bytes are not modelled.
 */
module Upload {
  import opened JsText

  /** A file part of the form: its original name and declared content type. */
  datatype UploadedFile = UploadedFile(name: string, contentType: string)

  /** What the route hands to the storage helper. */
  datatype StoreRequest = StoreRequest(fileName: string, contentType: string)

  datatype UploadResponse = Uploaded(url: string) | UploadError(status: int, error: string)

  const NoFileMessage := "No file uploaded"
  const NotImageMessage := "Only image files are allowed"
  const UploadFailedMessage := "Failed to upload file"

  /** `name.split('.').pop()?.toLowerCase() || ''`: split never yields an empty array, so `pop` always has a value. */
  function Extension(name: string): string {
    Lower(AfterLast(name, '.'))
  }

  /** `image-${timestamp}.${fileExtension}`. */
  function StoredName(now: nat, ext: string): string {
    "image-" + NatToDecimal(now) + "." + ext
  }

  /** The extension is what follows the last '.', lower-cased. */
  lemma ExtensionOfDotted(base: string, ext: string)
    requires '.' !in ext
    ensures Extension(base + "." + ext) == Lower(ext)
  {
    AfterLastOf(base, '.', ext);
  }

  /** A name with no '.' is its own extension, lower-cased. */
  lemma ExtensionWithoutDot(name: string)
    requires '.' !in name
    ensures Extension(name) == Lower(name)
  {
    ExtensionOfDotted_NoDot(name);
  }

  lemma {:induction false} ExtensionOfDotted_NoDot(name: string)
    requires '.' !in name
    ensures AfterLast(name, '.') == name
  {
    if name != [] {
      assert '.' !in name[..|name| - 1] by { assert forall c :: c in name[..|name| - 1] ==> c in name; }
      ExtensionOfDotted_NoDot(name[..|name| - 1]);
      assert name == name[..|name| - 1] + [name[|name| - 1]];
    }
  }

  /** An extension holds no '.' and is already lower case. */
  lemma ExtensionShape(name: string)
    ensures '.' !in Extension(name)
    ensures Lower(Extension(name)) == Extension(name)
  {
    var raw := AfterLast(name, '.');
    LowerIdempotent(raw);
    forall i | 0 <= i < |raw| ensures LowerChar(raw[i]) != '.' {
      assert raw[i] in raw;
    }
  }

  /** The stored name keeps the extension: reading it back from the new name gives the original's. */
  lemma StoredNameKeepsExtension(name: string, now: nat)
    ensures Extension(StoredName(now, Extension(name))) == Extension(name)
  {
    var ext := Extension(name);
    ExtensionShape(name);
    assert StoredName(now, ext) == ("image-" + NatToDecimal(now)) + "." + ext;
    ExtensionOfDotted("image-" + NatToDecimal(now), ext);
  }

  /** Every stored name starts with "image-" and ends with ".<extension>". */
  lemma StoredNameShape(now: nat, ext: string)
    ensures StartsWith(StoredName(now, ext), "image-")
    ensures StoredName(now, ext)[|StoredName(now, ext)| - |ext| - 1..] == "." + ext
  {
    var n := StoredName(now, ext);
    assert n == "image-" + (NatToDecimal(now) + "." + ext);
    assert n[..6] == "image-";
    assert n == ("image-" + NatToDecimal(now)) + ("." + ext);
  }

  /**
   * POST /api/upload. `form` is None when the body is not a multipart form
   * and `file` None when the form has no file part; `stored` is the URL the
   * storage helper returns, None when it throws. The request to the helper
   * is returned alongside the response.
   */
  function PostUpload(form: Option<Option<UploadedFile>>, now: nat, stored: Option<string>): (r: (Option<StoreRequest>, UploadResponse))
    ensures form.None? ==> r == (None, UploadError(500, UploadFailedMessage))
    ensures form == Some(None) ==> r == (None, UploadError(400, NoFileMessage))
    ensures form.Some? && form.value.Some? && !StartsWith(form.value.value.contentType, "image/") ==>
      r == (None, UploadError(400, NotImageMessage))
    ensures r.0.Some? <==> form.Some? && form.value.Some? && StartsWith(form.value.value.contentType, "image/")
    ensures r.0.Some? ==>
      && r.0.value == StoreRequest(StoredName(now, Extension(form.value.value.name)), form.value.value.contentType)
      && (r.1 == if stored.Some? then Uploaded(stored.value) else UploadError(500, UploadFailedMessage))
  {
    match form
    case None => (None, UploadError(500, UploadFailedMessage))
    case Some(None) => (None, UploadError(400, NoFileMessage))
    case Some(Some(file)) =>
      if !StartsWith(file.contentType, "image/") then (None, UploadError(400, NotImageMessage))
      else
        (Some(StoreRequest(StoredName(now, Extension(file.name)), file.contentType)),
         if stored.Some? then Uploaded(stored.value) else UploadError(500, UploadFailedMessage))
  }

  /** A photo called "Photo.JPG" has the extension "jpg". */
  lemma PhotoExample()
    ensures Extension("Photo.JPG") == "jpg"
  {
    ExtensionOfDotted("Photo", "JPG");
    assert "Photo" + "." + "JPG" == "Photo.JPG";
  }
}
