/**
 * The image-parsing endpoint: the format of the uploaded image is read from
 * a data URL, recognised as a web URL, or guessed from the magic prefix of
 * raw base64 (section 4 of RFC 4648) and wrapped in a data URL (section 3
 * of RFC 2397); the format must pass an allow-list; the vision models are
 * tried in order; errors map to HTTP statuses.
 */
module ParseImage {
  import opened Strings
  import opened Types
  import opened Env

  /** What format detection yields: the URL for the vision model and the detected format, or a refusal. */
  datatype Detection = Detected(imageUrl: string, format: string) | Refused(error: string, message: string)

  datatype ImageResponse =
    | Problem(text: string)
    | Failure(status: nat, error: string, message: string)

  const UnsupportedError: string := "Unsupported image format"
  const HeicMessage: string :=
    "HEIC/HEIF format is not supported. Please convert your image to PNG, JPEG, GIF, or WebP format. "
    + "You can do this by opening the image in an image editor and saving it as PNG or JPEG."
  const AvifMessage: string :=
    "AVIF format is not supported. Please convert your image to PNG, JPEG, GIF, or WebP format. "
    + "You can do this by opening the image in an image editor and saving it as PNG or JPEG."
  const UnknownError: string := "Unknown image format"
  const UnknownMessage: string :=
    "Could not detect the image format. Please ensure your image is in PNG, JPEG, GIF, or WebP format. "
    + "If you're using HEIC/HEIF (common on iPhones), please convert it to PNG or JPEG first."
  const UnsupportedPrefix: string :=
    "You uploaded an unsupported image. Please make sure your image has of one the following formats: "
    + "['png', 'jpeg', 'gif', 'webp']. Detected format: "
  const CouldNotExtract: string :=
    "Could not extract problem from image. Please try again or type the problem manually."
  const AllModelsFailed: string :=
    "All vision models failed. Your API key may not have access to vision models."

  /** ISO base-media brands in hex: `ftypheif`, `ftypmif1` and `ftypavif`. */
  const HeifBrand: string := "6674797068656966"
  const Mif1Brand: string := "667479706d696631"
  const AvifBrand: string := "6674797061766966"

  // ------------------------------------------------------------ format detection

  /**
   * `s.match(/data:([^;]+);/)` scanning from `i`: the capture of the leftmost
   * match, the text after a "data:" up to the next ';' when that text is not
   * empty.
   */
  function MimeCaptureFrom(s: string, i: nat): (r: Option<string>)
    ensures r.Some? ==> |r.value| > 0 && ';' !in r.value && Contains(s, "data:" + r.value + ";")
    decreases |s| - i
  {
    if i + 5 > |s| then None
    else if !At(s, "data:", i) then MimeCaptureFrom(s, i + 1)
    else match IndexOfChar(s, ';', i + 5)
      case Some(j) =>
        if j > i + 5 then
          var m := s[i + 5..j];
          assert s[i..j + 1] == "data:" + m + ";";
          assert At(s, "data:" + m + ";", i);
          Some(m)
        else MimeCaptureFrom(s, i + 1)
      case None => MimeCaptureFrom(s, i + 1)
  }

  function MimeCapture(s: string): Option<string> {
    MimeCaptureFrom(s, 0)
  }

  /**
   * Detection for raw base64, given the hex rendering of the decoded first 32
   * characters and the ASCII rendering of the decoded first 20: HEIC, then
   * AVIF are refused, then PNG, JPEG, GIF and WebP are recognised in that
   * order, anything else is refused.
   */
  function RawFormat(image: string, binaryStart: string, textStart: string): Detection {
    var base64Start := Prefix(image, 50);
    if StartsWith(base64Start, "AAAA") || Contains(binaryStart, HeifBrand) || Contains(binaryStart, Mif1Brand) then
      Refused(UnsupportedError, HeicMessage)
    else if Contains(binaryStart, AvifBrand) || Contains(textStart, "avif") then
      Refused(UnsupportedError, AvifMessage)
    else if StartsWith(base64Start, "iVBORw0KGgo") || StartsWith(binaryStart, "89504e47") then
      Detected("data:image/png;base64," + image, "image/png")
    else if StartsWith(base64Start, "/9j") || StartsWith(binaryStart, "ffd8ff") then
      Detected("data:image/jpeg;base64," + image, "image/jpeg")
    else if StartsWith(base64Start, "R0lGOD") || StartsWith(binaryStart, "47494638") then
      Detected("data:image/gif;base64," + image, "image/gif")
    else if StartsWith(base64Start, "UklGR") || StartsWith(binaryStart, "52494646") then
      Detected("data:image/webp;base64," + image, "image/webp")
    else Refused(UnknownError, UnknownMessage)
  }

  /** Format detection: data URLs and web URLs are kept verbatim, raw base64 goes by its magic prefix. */
  function FormatOf(image: string, binaryStart: string, textStart: string): Detection {
    if StartsWith(image, "data:") then
      Detected(image, match MimeCapture(image) case Some(m) => m case None => "unknown")
    else if StartsWith(image, "http://") || StartsWith(image, "https://") then Detected(image, "http-url")
    else RawFormat(image, binaryStart, textStart)
  }

  /** A data URL without ';' yields no capture. */
  lemma {:induction false} NoSemicolonNoCapture(s: string, i: nat)
    requires ';' !in s
    ensures MimeCaptureFrom(s, i) == None
    decreases |s| - i
  {
    if i + 5 <= |s| {
      if At(s, "data:", i) {
        assert IndexOfChar(s, ';', i + 5) == None;
      }
      NoSemicolonNoCapture(s, i + 1);
    }
  }

  /**
   * A data URL is passed on verbatim; its format is the text between "data:"
   * and the first ';' when that text is not empty, and "unknown" when there
   * is no ';' at all.
   */
  lemma DataUrlVerbatim(image: string, binaryStart: string, textStart: string)
    requires StartsWith(image, "data:")
    ensures FormatOf(image, binaryStart, textStart).Detected?
    ensures FormatOf(image, binaryStart, textStart).imageUrl == image
    ensures forall j :: 5 < j < |image| && image[j] == ';' && ';' !in image[5..j] ==>
      FormatOf(image, binaryStart, textStart).format == image[5..j]
    ensures ';' !in image ==> FormatOf(image, binaryStart, textStart).format == "unknown"
  {
    forall j | 5 < j < |image| && image[j] == ';' && ';' !in image[5..j]
      ensures FormatOf(image, binaryStart, textStart).format == image[5..j]
    {
      assert forall k | 5 <= k < j :: image[k] == image[5..j][k - 5];
      assert IndexOfChar(image, ';', 5) == Some(j);
    }
    if ';' !in image {
      NoSemicolonNoCapture(image, 0);
    }
  }

  /** A raw image whose base64 text starts with "AAAA" is refused as HEIC, whatever else it holds. */
  lemma HeicCheckedFirst(image: string, binaryStart: string, textStart: string)
    requires StartsWith(image, "AAAA")
    ensures FormatOf(image, binaryStart, textStart) == Refused(UnsupportedError, HeicMessage)
  {
    assert image[0] == 'A';
    PrefixStartsWith(image, 50, "AAAA");
  }

  /**
   * The magic prefixes of raw base64 in their order: with no HEIC or AVIF
   * signature, a PNG prefix wins over the others, then JPEG, then GIF, then
   * WebP.
   */
  lemma MagicPrefixOrder(image: string, binaryStart: string, textStart: string)
    requires !StartsWith(image, "data:") && !StartsWith(image, "http://") && !StartsWith(image, "https://")
    requires !StartsWith(image, "AAAA") && !Contains(binaryStart, HeifBrand) && !Contains(binaryStart, Mif1Brand)
    requires !Contains(binaryStart, AvifBrand) && !Contains(textStart, "avif")
    ensures StartsWith(image, "iVBORw0KGgo") ==>
      FormatOf(image, binaryStart, textStart) == Detected("data:image/png;base64," + image, "image/png")
    ensures !StartsWith(image, "iVBORw0KGgo") && !StartsWith(binaryStart, "89504e47") && StartsWith(image, "/9j") ==>
      FormatOf(image, binaryStart, textStart) == Detected("data:image/jpeg;base64," + image, "image/jpeg")
  {
    PrefixStartsWith(image, 50, "AAAA");
    PrefixStartsWith(image, 50, "iVBORw0KGgo");
    PrefixStartsWith(image, 50, "/9j");
  }

  /**
   * The HEIC/HEIF brands in the decoded start of raw base64 refuse it as
   * HEIC, whatever its base64 text starts with.
   */
  lemma HeicBrandsRefused(image: string, binaryStart: string, textStart: string)
    requires !StartsWith(image, "data:") && !StartsWith(image, "http://") && !StartsWith(image, "https://")
    requires Contains(binaryStart, HeifBrand) || Contains(binaryStart, Mif1Brand)
    ensures FormatOf(image, binaryStart, textStart) == Refused(UnsupportedError, HeicMessage)
  {
  }

  /**
   * Raw base64 without a HEIC signature but with the AVIF brand in its
   * decoded bytes, or "avif" in its decoded text, is refused with the AVIF
   * message.
   */
  lemma AvifRefused(image: string, binaryStart: string, textStart: string)
    requires !StartsWith(image, "data:") && !StartsWith(image, "http://") && !StartsWith(image, "https://")
    requires !StartsWith(image, "AAAA") && !Contains(binaryStart, HeifBrand) && !Contains(binaryStart, Mif1Brand)
    requires Contains(binaryStart, AvifBrand) || Contains(textStart, "avif")
    ensures FormatOf(image, binaryStart, textStart) == Refused(UnsupportedError, AvifMessage)
  {
    PrefixStartsWith(image, 50, "AAAA");
  }

  /**
   * After PNG and JPEG, raw base64 with a GIF signature becomes a GIF data
   * URL, then one with a WebP signature a WebP data URL, and anything else is
   * refused as an unknown format.
   */
  lemma LaterMagicPrefixes(image: string, binaryStart: string, textStart: string)
    requires !StartsWith(image, "data:") && !StartsWith(image, "http://") && !StartsWith(image, "https://")
    requires !StartsWith(image, "AAAA") && !Contains(binaryStart, HeifBrand) && !Contains(binaryStart, Mif1Brand)
    requires !Contains(binaryStart, AvifBrand) && !Contains(textStart, "avif")
    requires !StartsWith(image, "iVBORw0KGgo") && !StartsWith(binaryStart, "89504e47")
    requires !StartsWith(image, "/9j") && !StartsWith(binaryStart, "ffd8ff")
    ensures StartsWith(image, "R0lGOD") || StartsWith(binaryStart, "47494638") ==>
      FormatOf(image, binaryStart, textStart) == Detected("data:image/gif;base64," + image, "image/gif")
    ensures (!StartsWith(image, "R0lGOD") && !StartsWith(binaryStart, "47494638")
             && (StartsWith(image, "UklGR") || StartsWith(binaryStart, "52494646"))) ==>
      FormatOf(image, binaryStart, textStart) == Detected("data:image/webp;base64," + image, "image/webp")
    ensures (!StartsWith(image, "R0lGOD") && !StartsWith(binaryStart, "47494638")
             && !StartsWith(image, "UklGR") && !StartsWith(binaryStart, "52494646")) ==>
      FormatOf(image, binaryStart, textStart) == Refused(UnknownError, UnknownMessage)
  {
    PrefixStartsWith(image, 50, "AAAA");
    PrefixStartsWith(image, 50, "iVBORw0KGgo");
    PrefixStartsWith(image, 50, "/9j");
    PrefixStartsWith(image, 50, "R0lGOD");
    PrefixStartsWith(image, 50, "UklGR");
  }

  /** The handler's detection steps, assigning the image URL and the detected format branch by branch. */
  method DetectFormat(image: string, binaryStart: string, textStart: string) returns (d: Detection)
    ensures d == FormatOf(image, binaryStart, textStart)
  {
    var imageUrl: string;
    var detectedFormat := "unknown";
    if StartsWith(image, "data:") {
      imageUrl := image;
      var mimeMatch := MimeCapture(image);
      if mimeMatch.Some? {
        detectedFormat := mimeMatch.value;
      }
    } else if StartsWith(image, "http://") || StartsWith(image, "https://") {
      imageUrl := image;
      detectedFormat := "http-url";
    } else {
      var base64Start := Prefix(image, 50);
      if StartsWith(base64Start, "AAAA") || Contains(binaryStart, HeifBrand) || Contains(binaryStart, Mif1Brand) {
        return Refused(UnsupportedError, HeicMessage);
      }
      if Contains(binaryStart, AvifBrand) || Contains(textStart, "avif") {
        return Refused(UnsupportedError, AvifMessage);
      }
      if StartsWith(base64Start, "iVBORw0KGgo") || StartsWith(binaryStart, "89504e47") {
        detectedFormat := "image/png";
        imageUrl := "data:image/png;base64," + image;
      } else if StartsWith(base64Start, "/9j") || StartsWith(binaryStart, "ffd8ff") {
        detectedFormat := "image/jpeg";
        imageUrl := "data:image/jpeg;base64," + image;
      } else if StartsWith(base64Start, "R0lGOD") || StartsWith(binaryStart, "47494638") {
        detectedFormat := "image/gif";
        imageUrl := "data:image/gif;base64," + image;
      } else if StartsWith(base64Start, "UklGR") || StartsWith(binaryStart, "52494646") {
        detectedFormat := "image/webp";
        imageUrl := "data:image/webp;base64," + image;
      } else {
        return Refused(UnknownError, UnknownMessage);
      }
    }
    return Detected(imageUrl, detectedFormat);
  }

  // ------------------------------------------------------------ allow-list

  const AllowedFormats: seq<string> := ["image/png", "image/jpeg", "image/jpg", "image/gif", "image/webp"]
  /** The subtype of each allowed format, in the same order. */
  const AllowedSubtypes: seq<string> := ["png", "jpeg", "jpg", "gif", "webp"]

  lemma AllowedFormatsAreImageSubtypes()
    ensures |AllowedFormats| == |AllowedSubtypes|
    ensures forall k :: 0 <= k < |AllowedFormats| ==> AllowedFormats[k] == "image/" + AllowedSubtypes[k]
  {
  }

  /** The lowercased last '/'-segment of the format, cut at its first space. */
  function FormatExtension(format: string): (r: string)
    ensures '/' !in r && ' ' !in r
  {
    var parts := Split(ToLower(format), '/');
    var last := parts[|parts| - 1];
    var words := Split(last, ' ');
    assert ' ' !in words[0];
    assert forall c | c in words[0] :: c in last by {
      assert last == Join(words, [' ']);
      JoinStartsWithFirst(words, [' ']);
    }
    words[0]
  }

  /** The allow-list test: the extension equals an allowed subtype, or is "jpg" against "jpeg". */
  predicate IsAllowed(format: string) {
    var ext := FormatExtension(format);
    exists k | 0 <= k < |AllowedSubtypes| :: ext == AllowedSubtypes[k] || (ext == "jpg" && AllowedSubtypes[k] == "jpeg")
  }

  /** A format passes exactly when its extension is png, jpeg, jpg, gif or webp. */
  lemma AllowListIff(format: string)
    ensures IsAllowed(format) <==> FormatExtension(format) in {"png", "jpeg", "jpg", "gif", "webp"}
  {
    var ext := FormatExtension(format);
    if ext in {"png", "jpeg", "jpg", "gif", "webp"} {
      var k := if ext == "png" then 0 else if ext == "jpeg" then 1 else if ext == "jpg" then 2 else if ext == "gif" then 3 else 4;
      assert ext == AllowedSubtypes[k];
    }
  }

  /** A web URL's format "http-url" never passes the allow-list. */
  lemma HttpUrlNotAllowed()
    ensures FormatExtension("http-url") == "http-url" && !IsAllowed("http-url")
  {
    assert ToLower("http-url") == "http-url";
    assert IndexOfChar("http-url", '/', 0) == None;
    assert IndexOfChar("http-url", ' ', 0) == None;
  }

  /** A data URL without a ';' keeps the format "unknown", which never passes the allow-list. */
  lemma UnknownNotAllowed()
    ensures FormatExtension("unknown") == "unknown" && !IsAllowed("unknown")
  {
    assert ToLower("unknown") == "unknown";
    assert IndexOfChar("unknown", '/', 0) == None;
    assert IndexOfChar("unknown", ' ', 0) == None;
  }

  /** Every format detected from raw base64 is an allowed image format and its URL is a base64 data URL. */
  lemma RawDetectionsAllowed(image: string, binaryStart: string, textStart: string)
    requires RawFormat(image, binaryStart, textStart).Detected?
    ensures var d := RawFormat(image, binaryStart, textStart);
      d.format in AllowedFormats && d.imageUrl == "data:" + d.format + ";base64," + image && IsAllowed(d.format)
  {
    var sub := RawSubtype(image, binaryStart, textStart);
    AllowedFormatsAreImageSubtypes();
    assert "data:image/" + sub + ";base64," + image == "data:" + ("image/" + sub) + ";base64," + image;
    ImageSubtypeAllowed(sub);
  }

  /** A raw detection wraps the image under one of the allowed subtypes. */
  lemma RawSubtype(image: string, binaryStart: string, textStart: string) returns (sub: string)
    requires RawFormat(image, binaryStart, textStart).Detected?
    ensures sub in AllowedSubtypes
    ensures RawFormat(image, binaryStart, textStart) == Detected("data:image/" + sub + ";base64," + image, "image/" + sub)
  {
    var d := RawFormat(image, binaryStart, textStart);
    DataUrlHeads();
    if d.format == "image/png" {
      sub := AllowedSubtypes[0];
    } else if d.format == "image/jpeg" {
      sub := AllowedSubtypes[1];
    } else if d.format == "image/gif" {
      sub := AllowedSubtypes[3];
    } else {
      sub := AllowedSubtypes[4];
    }
  }

  /** The data URL heads of the raw formats are "data:image/", the subtype, and ";base64,". */
  lemma DataUrlHeads()
    ensures "data:image/png;base64," == "data:image/" + "png" + ";base64,"
    ensures "data:image/jpeg;base64," == "data:image/" + "jpeg" + ";base64,"
    ensures "data:image/gif;base64," == "data:image/" + "gif" + ";base64,"
    ensures "data:image/webp;base64," == "data:image/" + "webp" + ";base64,"
  {
  }

  lemma ImageSubtypeAllowed(sub: string)
    requires sub in AllowedSubtypes
    ensures FormatExtension("image/" + sub) == sub && IsAllowed("image/" + sub)
  {
    var f := "image/" + sub;
    assert '/' !in sub && ' ' !in sub;
    ToLowerConcat("image/", sub);
    assert ToLower(sub) == sub;
    assert ToLower(f) == f;
    assert f[5] == '/' && forall k | 0 <= k < 5 :: f[k] != '/';
    assert IndexOfChar(f, '/', 0) == Some(5);
    assert f[6..] == sub;
    assert Split(sub, '/') == [sub];
    assert Split(f, '/') == [f[..5]] + Split(sub, '/');
    assert Split(sub, ' ') == [sub];
    var k :| 0 <= k < |AllowedSubtypes| && AllowedSubtypes[k] == sub;
  }

  // ------------------------------------------------------------ vision models

  const VisionModels: seq<string> := ["gpt-4o", "gpt-4o-mini", "gpt-4-turbo", "gpt-4-vision-preview"]

  /** An error that only says the model is not accessible: the next model is tried. */
  predicate IsModelAccessError(message: string) {
    Contains(message, "model") || Contains(message, "not found") || Contains(message, "not available")
    || Contains(message, "does not exist")
  }

  /**
   * The model loop over the remaining `models`, given the last error so far:
   * the reply of the first model that answers and the number of calls; a
   * non-model error is rethrown at once; when every model fails with a model
   * error the last error is thrown.
   */
  function TryModels(models: seq<string>, imageUrl: string, vision: (string, string) -> Reply,
                     lastError: Option<string>): (r: (Reply, nat))
    ensures r.1 <= |models|
    ensures models != [] ==> r.1 >= 1
    decreases |models|
  {
    if models == [] then (Thrown(if lastError.Some? then lastError.value else AllModelsFailed), 0)
    else match vision(models[0], imageUrl)
      case Completion(c) => (Completion(c), 1)
      case Thrown(e) =>
        if !IsModelAccessError(e) then (Thrown(e), 1)
        else
          var rest := TryModels(models[1..], imageUrl, vision, Some(e));
          (rest.0, rest.1 + 1)
  }

  /** The handler's model loop: it stops at the first success and rethrows a non-model error. */
  method FirstWorkingModel(models: seq<string>, imageUrl: string, vision: (string, string) -> Reply)
    returns (reply: Reply, calls: nat)
    ensures (reply, calls) == TryModels(models, imageUrl, vision, None)
  {
    var lastError: Option<string> := None;
    var response: Option<string> := None;
    calls := 0;
    var k := 0;
    while k < |models|
      invariant 0 <= k <= |models| && calls == k
      invariant response.None?
      invariant TryModels(models, imageUrl, vision, None)
        == (TryModels(models[k..], imageUrl, vision, lastError).0, TryModels(models[k..], imageUrl, vision, lastError).1 + k)
    {
      assert models[k..][0] == models[k] && models[k..][1..] == models[k + 1..];
      var attempt := vision(models[k], imageUrl);
      calls := calls + 1;
      if attempt.Completion? {
        response := Some(attempt.content);
        break;
      }
      lastError := Some(attempt.message);
      if !IsModelAccessError(attempt.message) {
        return Thrown(attempt.message), calls;
      }
      k := k + 1;
    }
    if response.None? {
      assert models[k..] == [];
      return Thrown(if lastError.Some? then lastError.value else AllModelsFailed), calls;
    }
    reply := Completion(response.value);
  }

  /** Every model before the `k`-th failed with a model error. */
  predicate ModelErrorsBefore(models: seq<string>, imageUrl: string, vision: (string, string) -> Reply, k: nat)
    requires k <= |models|
  {
    forall i | 0 <= i < k :: vision(models[i], imageUrl).Thrown? && IsModelAccessError(vision(models[i], imageUrl).message)
  }

  /**
   * The models are tried in order: after model errors on the first `k`
   * models, the loop's outcome is that of the rest, with the last of those
   * errors remembered and `k` calls counted.
   */
  lemma {:induction false} SkipModelErrors(models: seq<string>, imageUrl: string, vision: (string, string) -> Reply,
                                           lastError: Option<string>, k: nat)
    requires k <= |models| && ModelErrorsBefore(models, imageUrl, vision, k)
    ensures var last := if k == 0 then lastError else Some(vision(models[k - 1], imageUrl).message);
      var rest := TryModels(models[k..], imageUrl, vision, last);
      TryModels(models, imageUrl, vision, lastError) == (rest.0, rest.1 + k)
    decreases k
  {
    if k > 0 {
      var e := vision(models[0], imageUrl).message;
      assert ModelErrorsBefore(models[1..], imageUrl, vision, k - 1) by {
        forall i | 0 <= i < k - 1
          ensures vision(models[1..][i], imageUrl).Thrown? && IsModelAccessError(vision(models[1..][i], imageUrl).message)
        {
          assert models[1..][i] == models[i + 1];
        }
      }
      SkipModelErrors(models[1..], imageUrl, vision, Some(e), k - 1);
      assert models[1..][k - 1..] == models[k..];
      if k > 1 {
        assert models[1..][k - 2] == models[k - 1];
      }
    }
  }

  /** The first model that answers, after model errors on all before it, is the one used; `k + 1` calls are made. */
  lemma FirstAnswerUsed(models: seq<string>, imageUrl: string, vision: (string, string) -> Reply, k: nat)
    requires k < |models| && ModelErrorsBefore(models, imageUrl, vision, k)
    requires vision(models[k], imageUrl).Completion?
    ensures TryModels(models, imageUrl, vision, None) == (vision(models[k], imageUrl), k + 1)
  {
    SkipModelErrors(models, imageUrl, vision, None, k);
  }

  /** A non-model error, after model errors on all models before it, is rethrown and no later model is tried. */
  lemma OtherErrorRethrown(models: seq<string>, imageUrl: string, vision: (string, string) -> Reply, k: nat)
    requires k < |models| && ModelErrorsBefore(models, imageUrl, vision, k)
    requires vision(models[k], imageUrl).Thrown? && !IsModelAccessError(vision(models[k], imageUrl).message)
    ensures TryModels(models, imageUrl, vision, None) == (vision(models[k], imageUrl), k + 1)
  {
    SkipModelErrors(models, imageUrl, vision, None, k);
  }

  /** When every model fails with a model error, the last model's error is thrown after trying them all. */
  lemma LastErrorThrown(models: seq<string>, imageUrl: string, vision: (string, string) -> Reply)
    requires models != [] && ModelErrorsBefore(models, imageUrl, vision, |models|)
    ensures TryModels(models, imageUrl, vision, None) == (vision(models[|models| - 1], imageUrl), |models|)
  {
    SkipModelErrors(models, imageUrl, vision, None, |models|);
  }

  // ------------------------------------------------------------ the request

  /** The status, error and message of a caught exception, by substring in this order. */
  function ErrorResponse(message: string): (r: ImageResponse)
    ensures r.Failure? && r.status in {401, 429, 403, 503, 500}
  {
    if Contains(message, "API key") || Contains(message, "authentication") then
      Failure(401, AuthError, AuthMessage)
    else if Contains(message, "rate limit") || Contains(message, "429") then
      Failure(429, RateError, RateMessage)
    else if Contains(message, "model") || Contains(message, "gpt-4") || Contains(message, "not found")
         || Contains(message, "not available") || Contains(message, "vision") then
      Failure(403, VisionError, VisionUnavailableMessage)
    else if Contains(message, "network") || Contains(message, "fetch") then
      Failure(503, NetworkError, NetworkMessage)
    else
      Failure(500, ParseError, message)
  }

  const AuthError: string := "Authentication failed"
  const AuthMessage: string := "Invalid OpenAI API key. Please check your .env.local file."
  const RateError: string := "Rate limit exceeded"
  const RateMessage: string := "Too many requests. Please try again in a moment."
  const VisionError: string := "Vision model not available"
  const NetworkError: string := "Network error"
  const NetworkMessage: string := "Failed to connect to OpenAI API. Please check your internet connection."
  const ParseError: string := "Failed to parse image"

  const VisionUnavailableMessage: string :=
    "Your OpenAI API key does not have access to vision models. Please check your OpenAI subscription or "
    + "upgrade your plan to use image parsing. You can still type your math problems manually."

  /** The response once the model loop is over: the extracted text, the fixed text for an empty reply, or the mapped error. */
  function Outcome(tried: (Reply, nat)): (ImageResponse, nat) {
    match tried.0
    case Thrown(e) => (ErrorResponse(e), tried.1)
    case Completion(c) => (Problem(OrElse(c, CouldNotExtract)), tried.1)
  }

  /** The response once the format is detected: refusals and disallowed formats are 400 before any model call. */
  function Examine(d: Detection, vision: (string, string) -> Reply): (out: (ImageResponse, nat))
    ensures d.Refused? ==> out == (Failure(400, d.error, d.message), 0)
    ensures d.Detected? && !IsAllowed(d.format) ==> out == (Failure(400, UnsupportedError, UnsupportedPrefix + d.format), 0)
    ensures d.Detected? && IsAllowed(d.format) ==> 1 <= out.1 <= |VisionModels|
    ensures d.Detected? && IsAllowed(d.format) ==>
      var reply := TryModels(VisionModels, d.imageUrl, vision, None).0;
      (reply == Completion("") ==> out.0 == Problem(CouldNotExtract))
      && (reply.Completion? && reply.content != "" ==> out.0 == Problem(reply.content))
      && (reply.Thrown? ==> out.0 == ErrorResponse(reply.message))
  {
    match d
    case Refused(e, m) => (Failure(400, e, m), 0)
    case Detected(url, format) =>
      if !IsAllowed(format) then (Failure(400, UnsupportedError, UnsupportedPrefix + format), 0)
      else Outcome(TryModels(VisionModels, url, vision, None))
  }

  /**
   * The handler as one expression: the response and the number of vision
   * calls. `decodeHex` and `decodeAscii` stand for decoding base64 and
   * rendering the bytes as hex or ASCII.
   */
  function Respond(config: Config, image: Option<string>, decodeHex: string -> string, decodeAscii: string -> string,
                   vision: (string, string) -> Reply): (out: (ImageResponse, nat))
    ensures ValidateEnv(config).Missing? ==> out == (Failure(500, "Server configuration error", ValidateEnv(config).message), 0)
    ensures ValidateEnv(config).Valid? && (image.None? || image.value == "") ==> out == (Failure(400, "Image data is required", ""), 0)
    ensures ValidateEnv(config).Valid? && image.Some? && image.value != "" ==>
      out == Examine(FormatOf(image.value, decodeHex(Prefix(image.value, 32)), decodeAscii(Prefix(image.value, 20))), vision)
  {
    match ValidateEnv(config)
    case Missing(msg) => (Failure(500, "Server configuration error", msg), 0)
    case Valid =>
      if image.None? || image.value == "" then (Failure(400, "Image data is required", ""), 0)
      else
        var s := image.value;
        Examine(FormatOf(s, decodeHex(Prefix(s, 32)), decodeAscii(Prefix(s, 20))), vision)
  }

  /** `POST /api/parse-image`. */
  method Post(config: Config, image: Option<string>, decodeHex: string -> string, decodeAscii: string -> string,
              vision: (string, string) -> Reply) returns (r: ImageResponse, calls: nat)
    ensures (r, calls) == Respond(config, image, decodeHex, decodeAscii, vision)
  {
    var check := ValidateEnv(config);
    if check.Missing? {
      return Failure(500, "Server configuration error", check.message), 0;
    }
    if image.None? || image.value == "" {
      return Failure(400, "Image data is required", ""), 0;
    }
    var s := image.value;
    var d := DetectFormat(s, decodeHex(Prefix(s, 32)), decodeAscii(Prefix(s, 20)));
    if d.Refused? {
      return Failure(400, d.error, d.message), 0;
    }
    if !IsAllowed(d.format) {
      return Failure(400, UnsupportedError, UnsupportedPrefix + d.format), 0;
    }
    var reply;
    reply, calls := FirstWorkingModel(VisionModels, d.imageUrl, vision);
    if reply.Thrown? {
      return ErrorResponse(reply.message), calls;
    }
    r := Problem(OrElse(reply.content, CouldNotExtract));
  }

  /** A web URL always ends in a 400 naming the format "http-url", before any vision call. */
  lemma UrlInputsRefused(config: Config, url: string, decodeHex: string -> string, decodeAscii: string -> string,
                         vision: (string, string) -> Reply)
    requires ValidateEnv(config).Valid?
    requires StartsWith(url, "http://") || StartsWith(url, "https://")
    ensures Respond(config, Some(url), decodeHex, decodeAscii, vision)
      == (Failure(400, UnsupportedError, UnsupportedPrefix + "http-url"), 0)
  {
    UrlDetected(url, decodeHex(Prefix(url, 32)), decodeAscii(Prefix(url, 20)));
    HttpUrlNotAllowed();
  }

  lemma UrlDetected(url: string, binaryStart: string, textStart: string)
    requires StartsWith(url, "http://") || StartsWith(url, "https://")
    ensures url != "" && FormatOf(url, binaryStart, textStart) == Detected(url, "http-url")
  {
    assert url[0] == 'h';
  }

  /** A data URL without ';' always ends in a 400 naming the format "unknown", before any vision call. */
  lemma DataUrlWithoutSemicolonRefused(config: Config, image: string, decodeHex: string -> string,
                                       decodeAscii: string -> string, vision: (string, string) -> Reply)
    requires ValidateEnv(config).Valid?
    requires StartsWith(image, "data:") && ';' !in image
    ensures Respond(config, Some(image), decodeHex, decodeAscii, vision)
      == (Failure(400, UnsupportedError, UnsupportedPrefix + "unknown"), 0)
  {
    DataUrlVerbatim(image, decodeHex(Prefix(image, 32)), decodeAscii(Prefix(image, 20)));
    UnknownNotAllowed();
  }

  /**
   * At most one call per vision model; no call unless the configuration is
   * valid, the image is present and its format detected and allowed; every
   * failure carries a status of the handler's table.
   */
  lemma CallBound(config: Config, image: Option<string>, decodeHex: string -> string, decodeAscii: string -> string,
                  vision: (string, string) -> Reply)
    ensures var (r, calls) := Respond(config, image, decodeHex, decodeAscii, vision);
      && calls <= |VisionModels|
      && (ValidateEnv(config).Missing? ==> r.Failure? && r.status == 500 && calls == 0)
      && (ValidateEnv(config).Valid? && (image.None? || image.value == "") ==> r.Failure? && r.status == 400 && calls == 0)
      && (calls > 0 ==> image.Some? && FormatOf(image.value, decodeHex(Prefix(image.value, 32)),
                                                decodeAscii(Prefix(image.value, 20))).Detected?)
      && (r.Failure? ==> r.status in {400, 401, 403, 429, 500, 503})
  {
  }

  /**
   * The two error lists disagree: "does not exist" makes the loop try the
   * next model, but the status table does not count it as a model error.
   */
  lemma DoesNotExistIsNotForbidden()
    ensures IsModelAccessError("does not exist")
    ensures ErrorResponse("does not exist").status == 500
  {
    assert At("does not exist", "does not exist", 0);
    UnlistedErrorIs500("does not exist");
  }

  /**
   * A message holding none of 'A', 'a', 'r', '4', 'm', 'g', 'v', 'w', 'f'
   * contains none of the status words and maps to 500 with its own text.
   */
  lemma UnlistedErrorIs500(message: string)
    requires forall k | 0 <= k < |message| :: message[k] !in "Aar4mgvwf"
    ensures ErrorResponse(message) == Failure(500, ParseError, message)
  {
    CharAbsent(message, "API key", 0);
    CharAbsent(message, "authentication", 0);
    CharAbsent(message, "rate limit", 0);
    CharAbsent(message, "429", 0);
    CharAbsent(message, "model", 0);
    CharAbsent(message, "gpt-4", 0);
    CharAbsent(message, "not available", 4);
    CharAbsent(message, "vision", 0);
    CharAbsent(message, "network", 3);
    CharAbsent(message, "fetch", 0);
    CharAbsent(message, "not found", 4);
  }
}
