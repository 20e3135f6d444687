/** The request checks of the identify endpoints (server.js validateImageData and
    validateLanguage; the serverless identify handlers repeat them inline): the image
    must be a base64 data URL of at most 10 MiB of decoded data, and the target
    language, when given, must be one of five labels. */
module Validation {
  import opened Text

  const DataImagePrefix: string := "data:image/"

  /** 10 * 1024 * 1024 bytes. */
  const MaxImageBytes: int := 10485760

  /** The image checks, in the order they are made. */
  datatype ImageError = MissingImage | NotDataUrl | MissingPayload | TooLarge

  function ImageErrorMessage(e: ImageError): string {
    match e
    case MissingImage => "Image data is required and must be a string"
    case NotDataUrl => "Invalid image format. Expected data URL."
    case MissingPayload => "Invalid image data format"
    case TooLarge => "Image too large. Maximum size is 10MB."
  }

  /** `imageData.split(',')[1]`, with the empty segment read as missing. */
  function Payload(imageData: string): Option<string> {
    match SecondSegment(imageData, ',')
    case Some(p) => if p == "" then None else Some(p)
    case None => None
  }

  /** `(length * 3) / 4 > maxSize`, computed exactly: base64 carries 3 bytes per 4 characters. */
  predicate OverSize(payload: string)
    ensures OverSize(payload) <==> |payload| > 13981013
  {
    |payload| * 3 > MaxImageBytes * 4
  }

  /** The image check; `imageData` is None when the field is absent or not a string.
      None means the image is accepted. */
  function ValidateImageData(imageData: Option<string>): (e: Option<ImageError>)
    ensures e == Some(MissingImage) <==> imageData.None? || imageData.value == ""
    ensures e == Some(NotDataUrl) <==>
              imageData.Some? && imageData.value != "" && !StartsWith(imageData.value, DataImagePrefix)
    ensures e == Some(MissingPayload) <==>
              imageData.Some? && StartsWith(imageData.value, DataImagePrefix) && Payload(imageData.value).None?
    ensures e == Some(TooLarge) <==>
              imageData.Some? && StartsWith(imageData.value, DataImagePrefix)
              && Payload(imageData.value).Some? && OverSize(Payload(imageData.value).value)
  {
    if imageData.None? || imageData.value == "" then Some(MissingImage)
    else if !StartsWith(imageData.value, DataImagePrefix) then Some(NotDataUrl)
    else match Payload(imageData.value)
      case None => Some(MissingPayload)
      case Some(p) => if OverSize(p) then Some(TooLarge) else None
  }

  /** An image is accepted exactly when it is a data URL whose first comma-separated
      payload is non-empty and holds at most 13981013 base64 characters, the longest
      payload whose three-quarters does not exceed 10 MiB. */
  lemma {:induction false} AcceptedImages(imageData: string)
    ensures ValidateImageData(Some(imageData)).None? <==>
              StartsWith(imageData, DataImagePrefix) && ',' in imageData
              && 0 < |BeforeFirst(AfterFirst(imageData, ','), ',')| <= 13981013
  {
    if StartsWith(imageData, DataImagePrefix) {
      assert imageData[0] == 'd';
      assert imageData != "";
    }
  }

  /** A well-formed data URL `data:image/<type>;base64,<payload>` is accepted whenever the
      payload is non-empty, comma-free and within the size bound. */
  lemma {:induction false} DataUrlAccepted(mediaType: string, payload: string)
    requires ',' !in mediaType && ',' !in payload
    requires 0 < |payload| <= 13981013
    ensures ValidateImageData(Some(DataImagePrefix + mediaType + "," + payload)).None?
  {
    var s := DataImagePrefix + mediaType + "," + payload;
    var cut := |DataImagePrefix + mediaType|;
    assert s[..|DataImagePrefix|] == DataImagePrefix;
    assert s[..cut] == DataImagePrefix + mediaType;
    assert s[cut] == ',';
    assert ',' !in s[..cut];
    assert BeforeFirst(s, ',') == s[..cut];
    assert AfterFirst(s, ',') == payload by {
      assert s == BeforeFirst(s, ',') + [','] + AfterFirst(s, ',');
      assert s == s[..cut] + [','] + payload;
    }
    assert BeforeFirst(payload, ',') == payload;
  }

  const English: string := "English"
  const Korean: string := "Korean (\U{D55C}\U{AD6D}\U{C5B4})"
  const Spanish: string := "Spanish (Espa\U{00F1}ol)"
  const French: string := "French (Fran\U{00E7}ais)"
  const Chinese: string := "Chinese (\U{4E2D}\U{6587})"

  const AllowedLanguages: seq<string> := [English, Korean, Spanish, French, Chinese]

  const InvalidLanguageMessage: string := "Invalid language specified"

  /** An absent (falsy) language, or exactly one of the listed labels, is accepted;
      the comparison is exact, with no case folding or trimming. */
  predicate ValidateLanguage(language: string)
    ensures ValidateLanguage(language) && language != "" ==> IsAsciiUpper(language[0]) && |language| >= 7
  {
    language == "" || language in AllowedLanguages
  }

  /** Only the five labels themselves pass; a label differing in case, as in "english", does not. */
  lemma LanguageCheckIsExact()
    ensures forall l :: l in AllowedLanguages ==> ValidateLanguage(l)
    ensures !ValidateLanguage("english") && !ValidateLanguage("Korean") && !ValidateLanguage(" English")
    ensures |AllowedLanguages| == 5
  {
    assert "english"[0] != English[0];
    assert "Korean" != Korean by { assert |"Korean"| != |Korean|; }
    assert " English"[0] != English[0];
    assert " English"[0] != Korean[0] && " English"[0] != Spanish[0];
    assert " English"[0] != French[0] && " English"[0] != Chinese[0];
    assert "english"[0] != Korean[0] && "english"[0] != Spanish[0];
    assert "english"[0] != French[0] && "english"[0] != Chinese[0];
    assert "Korean" != Spanish by { assert |"Korean"| != |Spanish|; }
    assert "Korean" != French by { assert |"Korean"| != |French|; }
    assert "Korean" != Chinese by { assert |"Korean"| != |Chinese|; }
    assert "Korean" != English by { assert |"Korean"| != |English|; }
  }
}
