/** Slug checks and URL encoding (lib/slug-validation.js). A slug is a non-empty
    string over `a-z`, `0-9`, `_` and `-`; before a slug goes into a URL it is passed
    through `encodeURIComponent`, which writes every character outside its unreserved
    set as the percent-escaped bytes of its UTF-8 encoding (section 2.1 of RFC 3986
    for percent-encoding, section 3 of RFC 3629 for UTF-8). */
module SlugValidation {

  predicate IsSlugChar(c: char) {
    ('a' <= c <= 'z') || ('0' <= c <= '9') || c == '_' || c == '-'
  }

  /** `/^[a-z0-9_-]+$/.test(slug)` for a truthy string, read one character at a time. */
  function IsValidSlug(slug: string): (ok: bool)
    ensures ok <==> slug != "" && forall i :: 0 <= i < |slug| ==> IsSlugChar(slug[i])
  {
    if slug == "" then false
    else IsSlugChar(slug[0]) && (|slug| == 1 || IsValidSlug(slug[1..]))
  }

  datatype Validated = Valid | Invalid(message: string)

  /** validateSlug: the thrown message, or Valid when nothing is thrown. */
  function ValidateSlug(slug: string, paramName: string): (v: Validated)
    ensures v == Valid <==> IsValidSlug(slug)
    ensures slug == "" ==> v == Invalid(paramName + " is required")
    ensures slug != "" && !IsValidSlug(slug) ==>
              v == Invalid(paramName + " must contain only lowercase letters, numbers, underscores, and hyphens (a-z0-9_-)")
  {
    if slug == "" then Invalid(paramName + " is required")
    else if !IsValidSlug(slug) then
      Invalid(paramName + " must contain only lowercase letters, numbers, underscores, and hyphens (a-z0-9_-)")
    else Valid
  }

  /** The parameter name used when none is given. */
  const DefaultParamName: string := "slug"

  // ---- encodeURIComponent ----

  /** The characters encodeURIComponent leaves as they are. */
  predicate IsUnreserved(c: char) {
    ('A' <= c <= 'Z') || ('a' <= c <= 'z') || ('0' <= c <= '9')
    || c == '-' || c == '_' || c == '.' || c == '!' || c == '~' || c == '*' || c == '\'' || c == '(' || c == ')'
  }

  /** The UTF-8 encoding of one Unicode scalar value. */
  function Utf8(c: char): (bytes: seq<int>)
    ensures 1 <= |bytes| <= 4
    ensures forall i :: 0 <= i < |bytes| ==> 0 <= bytes[i] < 256
    ensures (c as int < 0x80) <==> |bytes| == 1
    ensures |bytes| == 1 ==> bytes[0] == c as int
  {
    var cp := c as int;
    if cp < 0x80 then [cp]
    else if cp < 0x800 then [0xC0 + cp / 64, 0x80 + cp % 64]
    else if cp < 0x10000 then [0xE0 + cp / 4096, 0x80 + (cp / 64) % 64, 0x80 + cp % 64]
    else [0xF0 + cp / 262144, 0x80 + (cp / 4096) % 64, 0x80 + (cp / 64) % 64, 0x80 + cp % 64]
  }

  function HexDigit(n: int): (c: char)
    requires 0 <= n < 16
    ensures ('0' <= c <= '9') || ('A' <= c <= 'F')
  {
    if n < 10 then ('0' as int + n) as char else ('A' as int + n - 10) as char
  }

  function HexValue(c: char): int {
    if '0' <= c <= '9' then c as int - '0' as int
    else if 'A' <= c <= 'F' then c as int - 'A' as int + 10
    else if 'a' <= c <= 'f' then c as int - 'a' as int + 10
    else 0
  }

  lemma HexRoundTrip(n: int)
    requires 0 <= n < 16
    ensures HexValue(HexDigit(n)) == n
  {
  }

  /** `%XY` for each byte, with upper-case hexadecimal digits. */
  function Escape(bytes: seq<int>): (t: string)
    requires forall i :: 0 <= i < |bytes| ==> 0 <= bytes[i] < 256
    ensures |t| == 3 * |bytes|
  {
    if bytes == [] then []
    else ['%', HexDigit(bytes[0] / 16), HexDigit(bytes[0] % 16)] + Escape(bytes[1..])
  }

  function EncodeChar(c: char): (t: string)
    ensures IsUnreserved(c) ==> t == [c]
    ensures !IsUnreserved(c) ==> |t| >= 3 && t[0] == '%'
  {
    if IsUnreserved(c) then [c] else Escape(Utf8(c))
  }

  function EncodeUriComponent(s: string): (t: string)
    ensures |t| >= |s|
  {
    if s == [] then [] else EncodeChar(s[0]) + EncodeUriComponent(s[1..])
  }

  /** encodeSlugForUrl: '' for a falsy slug, otherwise encodeURIComponent. */
  function EncodeSlugForUrl(slug: string): (t: string)
    ensures slug == "" ==> t == ""
    ensures slug != "" ==> t == EncodeUriComponent(slug)
  {
    if slug == "" then "" else EncodeUriComponent(slug)
  }

  /** Strings of unreserved characters are left unchanged by the encoding ... */
  lemma {:induction false} UnreservedUnchanged(s: string)
    requires forall i :: 0 <= i < |s| ==> IsUnreserved(s[i])
    ensures EncodeUriComponent(s) == s
  {
    if s != [] {
      UnreservedUnchanged(s[1..]);
    }
  }

  /** ... and only those: any other character makes the encoding strictly longer. */
  lemma {:induction false} EncodingLengthensReserved(s: string)
    ensures EncodeUriComponent(s) == s <==> forall i :: 0 <= i < |s| ==> IsUnreserved(s[i])
    ensures |EncodeUriComponent(s)| == |s| <==> forall i :: 0 <= i < |s| ==> IsUnreserved(s[i])
  {
    if s != [] {
      EncodingLengthensReserved(s[1..]);
      if IsUnreserved(s[0]) {
        assert forall i :: 1 <= i < |s| ==> s[i] == s[1..][i - 1];
      }
    }
  }

  /** Every valid slug is its own URL encoding, so the encoded slug can be compared with
      the stored one character for character. */
  lemma ValidSlugEncodesToItself(slug: string)
    requires IsValidSlug(slug)
    ensures EncodeSlugForUrl(slug) == slug
  {
    UnreservedUnchanged(slug);
  }

  // ---- decoding, the inverse of the escape layer ----

  /** Percent-decoding to bytes: `%XY` is one byte, any other character stands for
      its own (ASCII) code. */
  function DecodeBytes(t: string): seq<int>
    decreases |t|
  {
    if t == [] then []
    else if t[0] == '%' && |t| >= 3 then [16 * HexValue(t[1]) + HexValue(t[2])] + DecodeBytes(t[3..])
    else [t[0] as int] + DecodeBytes(t[1..])
  }

  function Utf8String(s: string): seq<int> {
    if s == [] then [] else Utf8(s[0]) + Utf8String(s[1..])
  }

  lemma {:induction false} DecodeEscaped(bytes: seq<int>, rest: string)
    requires forall i :: 0 <= i < |bytes| ==> 0 <= bytes[i] < 256
    ensures DecodeBytes(Escape(bytes) + rest) == bytes + DecodeBytes(rest)
  {
    if bytes != [] {
      var b := bytes[0];
      HexRoundTrip(b / 16);
      HexRoundTrip(b % 16);
      var t := Escape(bytes) + rest;
      assert t == ['%', HexDigit(b / 16), HexDigit(b % 16)] + (Escape(bytes[1..]) + rest);
      assert t[0] == '%' && t[1] == HexDigit(b / 16) && t[2] == HexDigit(b % 16);
      assert t[3..] == Escape(bytes[1..]) + rest;
      DecodeEscaped(bytes[1..], rest);
      assert 16 * HexValue(t[1]) + HexValue(t[2]) == b;
      assert DecodeBytes(t) == [b] + DecodeBytes(t[3..]);
      assert [b] + bytes[1..] == bytes;
      assert [b] + (bytes[1..] + DecodeBytes(rest)) == bytes + DecodeBytes(rest);
    } else {
      assert Escape(bytes) + rest == rest;
    }
  }

  /** Decoding the encoding yields exactly the UTF-8 bytes of the input: the encoding
      loses nothing. */
  lemma {:induction false} EncodingDecodesToUtf8(s: string)
    ensures DecodeBytes(EncodeUriComponent(s)) == Utf8String(s)
  {
    if s != [] {
      var c := s[0];
      var tail := EncodeUriComponent(s[1..]);
      EncodingDecodesToUtf8(s[1..]);
      if IsUnreserved(c) {
        assert EncodeUriComponent(s) == [c] + tail;
        assert (([c] + tail)[1..]) == tail;
      } else {
        DecodeEscaped(Utf8(c), tail);
      }
    }
  }
}
