/**
 * The image upload endpoint: the form must carry a file and a session id,
 * the file must be a JPEG, PNG, GIF or WebP image of at most 5 MB; it is
 * then stored under a key that groups uploads by user (or as a guest's) and
 * session, and the public URL of that key is returned.
 */
module Upload {
  import opened Strings
  import opened Env

  /** The uploaded file as the form gives it: its name, MIME type and size in bytes. */
  datatype UploadedFile = UploadedFile(name: string, mimeType: string, size: nat)

  /** The form fields `file`, `userId` and `sessionId`; a missing field is `None`. */
  datatype UploadForm = UploadForm(file: Option<UploadedFile>, userId: Option<string>, sessionId: Option<string>)

  datatype UploadReply =
    | Uploaded(url: string, key: string, fileName: string)
    | Rejected(status: nat, error: string)
    | Failed(error: string, details: string)

  const NoFile: string := "No file provided"
  const NoSession: string := "sessionId is required"
  const InvalidType: string := "Invalid file type. Supported: JPEG, PNG, GIF, WebP"
  const TooLarge: string := "File too large. Maximum size is 5MB"
  const UploadFailed: string := "Failed to upload image"

  const ValidTypes: seq<string> := ["image/jpeg", "image/jpg", "image/png", "image/gif", "image/webp"]
  const MaxSize: nat := 5 * 1024 * 1024

  /** A form field that is missing or empty is falsy. */
  predicate Present(field: Option<string>) {
    field.Some? && field.value != ""
  }

  // ------------------------------------------------------------ names and keys

  /** `name.split('.').pop()`: the last piece of the name split at its dots. */
  function LastPieceOf(name: string): (r: string)
    ensures '.' !in r && EndsWith(name, r)
    ensures |r| < |name| ==> name[|name| - |r| - 1] == '.'
  {
    var parts := Split(name, '.');
    var last := parts[|parts| - 1];
    if |parts| >= 2 then
      JoinEndsWithLast(parts, ".");
      DotBeforeSuffix(name, last);
      last
    else
      assert Join(parts, ".") == last;
      assert name[|name| - |last|..] == last;
      last
  }

  /** A text ending in a dot and a suffix holds that suffix, after a dot. */
  lemma DotBeforeSuffix(s: string, last: string)
    requires EndsWith(s, "." + last)
    ensures EndsWith(s, last) && |last| < |s| && s[|s| - |last| - 1] == '.'
  {
    assert s[|s| - |last| - 1] == ("." + last)[0];
    EndsWithShorter(s, "." + last, last);
  }

  /** `name.split('.').pop() || 'jpg'`: the text after the last dot (the whole name without one), or `jpg` when that is empty. */
  function Extension(name: string): (r: string)
    ensures r != "" && '.' !in r
    ensures r == "jpg" || EndsWith(name, r)
  {
    OrElse(LastPieceOf(name), "jpg")
  }

  /** A suffix of a suffix is a suffix. */
  lemma EndsWithShorter(s: string, longer: string, shorter: string)
    requires EndsWith(s, longer) && EndsWith(longer, shorter)
    ensures EndsWith(s, shorter)
  {
    assert s[|s| - |shorter|..] == longer[|longer| - |shorter|..];
  }

  /** The last piece of the name starts right after its last dot. */
  lemma LastPieceAt(s: string, i: nat)
    requires LastIndexOfChar(s, '.') == Some(i)
    ensures LastPieceOf(s) == s[i + 1..]
  {
    SuffixAfterLast(s, LastPieceOf(s), i, '.');
  }

  /** A separator-free suffix that is the whole text or follows a separator starts after the last separator. */
  lemma SuffixAfterLast(s: string, p: string, i: nat, sep: char)
    requires sep !in p && EndsWith(s, p) && (|p| < |s| ==> s[|s| - |p| - 1] == sep)
    requires i < |s| && s[i] == sep && sep !in s[i + 1..]
    ensures p == s[i + 1..]
  {
    var n := |s| - |p|;
    assert p == s[n..];
    assert forall k | n <= k < |s| :: s[k] == p[k - n];
    assert forall k | i < k < |s| :: s[k] == s[i + 1..][k - i - 1];
  }

  /** The extension of a name with a dot and something after the last one is that something. */
  lemma ExtensionAfterLastDot(name: string, i: nat)
    requires LastIndexOfChar(name, '.') == Some(i) && i + 1 < |name|
    ensures Extension(name) == name[i + 1..]
  {
    LastPieceAt(name, i);
  }

  /** A name ending in a dot, or an empty name, gets `jpg`. */
  lemma ExtensionDefault(name: string)
    requires name == "" || name[|name| - 1] == '.'
    ensures Extension(name) == "jpg"
  {
    if name != "" {
      LastPieceAt(name, |name| - 1);
    }
  }

  /** `users/<userId>` for a signed-in user, `guests` otherwise. */
  function KeyPrefix(userId: Option<string>): string {
    if Present(userId) then "users/" + userId.value else "guests"
  }

  /** The object key `<prefix>/<sessionId>/<uuid>.<extension>`. */
  function ObjectKey(userId: Option<string>, sessionId: string, fileName: string): (r: string)
    ensures EndsWith(r, "/" + fileName)
    ensures Present(userId) ==> StartsWith(r, "users/" + userId.value + "/" + sessionId + "/")
    ensures !Present(userId) ==> StartsWith(r, "guests/" + sessionId + "/")
  {
    var head := KeyPrefix(userId) + "/" + sessionId;
    var r := head + "/" + fileName;
    assert r == head + ("/" + fileName);
    EndsWithConcat(head, "/" + fileName);
    assert r[..|head + "/"|] == head + "/";
    r
  }

  /** Splitting at a separator that the first part does not contain peels that part off. */
  lemma SplitCons(s: string, a: string, sep: char, b: string)
    requires sep !in a && s == a + [sep] + b
    ensures Split(s, sep) == [a] + Split(b, sep)
  {
    var found := IndexOfChar(s, sep, 0);
    assert s[|a|] == sep;
    assert forall k | 0 <= k < |a| :: s[k] == a[k];
    assert found == Some(|a|) by {
      assert found.Some?;
      assert found.value <= |a|;
      assert found.value >= |a|;
    }
    assert s[..|a|] == a && s[|a| + 1..] == b;
  }

  /** With no `/` inside its parts, the key splits back into its user, session and file name. */
  lemma ObjectKeyParts(userId: Option<string>, sessionId: string, fileName: string)
    requires '/' !in sessionId && '/' !in fileName
    requires Present(userId) ==> '/' !in userId.value
    ensures Present(userId) ==> Split(ObjectKey(userId, sessionId, fileName), '/') == ["users", userId.value, sessionId, fileName]
    ensures !Present(userId) ==> Split(ObjectKey(userId, sessionId, fileName), '/') == ["guests", sessionId, fileName]
  {
    var key := ObjectKey(userId, sessionId, fileName);
    if Present(userId) {
      assert "users/" == "users" + "/";
      Nest(KeyPrefix(userId), sessionId, fileName, '/');
      Nest("users", userId.value, sessionId + "/" + fileName, '/');
      SplitFour(key, "users", userId.value, sessionId, fileName, '/');
    } else {
      Nest("guests", sessionId, fileName, '/');
      SplitThree(key, "guests", sessionId, fileName, '/');
    }
  }

  /** Regrouping three pieces joined by a separator to the right. */
  lemma Nest(a: string, b: string, c: string, sep: char)
    ensures a + [sep] + b + [sep] + c == a + [sep] + (b + [sep] + c)
  {
  }

  /** Three pieces joined by a separator none of them holds split back into those pieces. */
  lemma SplitThree(s: string, a: string, b: string, c: string, sep: char)
    requires sep !in a && sep !in b && sep !in c
    requires s == a + [sep] + (b + [sep] + c)
    ensures Split(s, sep) == [a, b, c]
  {
    var rest := b + [sep] + c;
    assert Split(c, sep) == [c];
    SplitCons(rest, b, sep, c);
    SplitCons(s, a, sep, rest);
  }

  /** Four pieces joined by a separator none of them holds split back into those pieces. */
  lemma SplitFour(s: string, a: string, b: string, c: string, d: string, sep: char)
    requires sep !in a && sep !in b && sep !in c && sep !in d
    requires s == a + [sep] + (b + [sep] + (c + [sep] + d))
    ensures Split(s, sep) == [a, b, c, d]
  {
    var rest := b + [sep] + (c + [sep] + d);
    SplitThree(rest, b, c, d, sep);
    SplitCons(s, a, sep, rest);
  }

  /** The public URL of a key: `https://<bucket>.s3.<region>.amazonaws.com/<key>`. */
  function ObjectUrl(bucket: string, region: string, key: string): (r: string)
    ensures StartsWith(r, "https://" + bucket + ".s3.")
    ensures EndsWith(r, ".amazonaws.com/" + key)
  {
    var head := "https://" + bucket + ".s3.";
    var r := head + region + (".amazonaws.com/" + key);
    assert r[..|head|] == head;
    EndsWithConcat(head + region, ".amazonaws.com/" + key);
    r
  }

  // ------------------------------------------------------------ the request

  /**
   * `POST`: the checks run in order (file, session id, type, size) and the
   * first one that fails is answered with 400; a failed store write is
   * answered with 500 (`Failed`) carrying the store's error; otherwise the
   * key and URL of the stored file. `uuid` is the generated name and
   * `putError` the store's error, if any.
   */
  function Post(form: UploadForm, config: Config, uuid: string, putError: Option<string>): (r: UploadReply)
    ensures form.file.None? ==> r == Rejected(400, NoFile)
    ensures form.file.Some? && !Present(form.sessionId) ==> r == Rejected(400, NoSession)
    ensures form.file.Some? && Present(form.sessionId) && form.file.value.mimeType !in ValidTypes ==>
      r == Rejected(400, InvalidType)
    ensures (form.file.Some? && Present(form.sessionId) && form.file.value.mimeType in ValidTypes
             && form.file.value.size > MaxSize) ==> r == Rejected(400, TooLarge)
    ensures r.Uploaded? <==>
      form.file.Some? && Present(form.sessionId) && form.file.value.mimeType in ValidTypes
      && form.file.value.size <= MaxSize && putError.None?
    ensures r.Rejected? ==> r.status == 400
    ensures r.Failed? <==> !r.Rejected? && putError.Some?
    ensures r.Failed? ==> r == Failed(UploadFailed, putError.value)
    ensures r.Uploaded? ==>
      && r.fileName == uuid + "." + Extension(form.file.value.name)
      && r.key == ObjectKey(form.userId, form.sessionId.value, r.fileName)
      && r.url == ObjectUrl(config.s3BucketName, config.awsRegion, r.key)
  {
    if form.file.None? then Rejected(400, NoFile)
    else if !Present(form.sessionId) then Rejected(400, NoSession)
    else if form.file.value.mimeType !in ValidTypes then Rejected(400, InvalidType)
    else if form.file.value.size > MaxSize then Rejected(400, TooLarge)
    else
      var fileName := uuid + "." + Extension(form.file.value.name);
      var key := ObjectKey(form.userId, form.sessionId.value, fileName);
      if putError.Some? then Failed(UploadFailed, putError.value)
      else Uploaded(ObjectUrl(config.s3BucketName, config.awsRegion, key), key, fileName)
  }

  /** A file of exactly 5 MB passes the size check. */
  lemma LimitInclusive(form: UploadForm, config: Config, uuid: string)
    requires form.file.Some? && Present(form.sessionId) && form.file.value.mimeType in ValidTypes
    requires form.file.value.size == 5 * 1024 * 1024
    ensures Post(form, config, uuid, None).Uploaded?
  {
  }
}
