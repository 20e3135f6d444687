/** The removal of markdown code fences around the HTML the language model returns,
    shared by both blog generators (api/generate-blog.js and
    api-handlers/generate-blog.js). */
module BlogFences {
  import opened Text

  const Fence: string := "```"
  const HtmlFence: string := "```html"

  /** `.replace(/<marker>\n?/g, '')`: every occurrence of the marker, found left to right
      without overlap, is removed together with one newline right after it, so the
      text never grows. */
  function RemoveMarker(s: string, marker: string): (r: string)
    requires marker != []
    ensures |r| <= |s|
    decreases |s|
  {
    if s == [] then []
    else if StartsWith(s, marker) then
      var rest := s[|marker|..];
      if rest != [] && rest[0] == '\n' then RemoveMarker(rest[1..], marker) else RemoveMarker(rest, marker)
    else [s[0]] + RemoveMarker(s[1..], marker)
  }

  /** The content kept after the model's reply: trimmed, with fences removed when it
      starts with one. Content that opened with a fence, html or plain, comes out with no
      fence left in it; content that did not is only trimmed. */
  function StripFences(text: string): (r: string)
    ensures StartsWith(Trim(text), Fence) ==> !HasFence(r)
    ensures !StartsWith(Trim(text), Fence) ==> r == Trim(text)
    ensures r == [] || (!IsWhitespace(r[0]) && !IsWhitespace(r[|r| - 1]))
  {
    Unfence(Trim(text))
  }

  /** The fence removal applied to the trimmed reply: a fenced reply loses every fence
      and is trimmed again; any other is kept as it is. */
  function Unfence(content: string): (r: string)
    ensures StartsWith(content, Fence) ==> !HasFence(r)
    ensures !StartsWith(content, Fence) ==> r == content
    ensures StartsWith(content, Fence) ==> r == [] || (!IsWhitespace(r[0]) && !IsWhitespace(r[|r| - 1]))
  {
    if StartsWith(content, HtmlFence) then
      var once := RemoveMarker(content, HtmlFence);
      NoFenceAfterRemoval(once);
      TrimHasNoFence(RemoveMarker(once, Fence));
      Trim(RemoveMarker(once, Fence))
    else if StartsWith(content, Fence) then
      NoFenceAfterRemoval(content);
      TrimHasNoFence(RemoveMarker(content, Fence));
      Trim(RemoveMarker(content, Fence))
    else
      assert HtmlFence[..3] == Fence;
      content
  }

  /** Three backticks start at position `i`. */
  predicate FenceAt(s: string, i: int) {
    0 <= i <= |s| - 3 && s[i] == '`' && s[i + 1] == '`' && s[i + 2] == '`'
  }

  ghost predicate HasFence(s: string) {
    exists i :: FenceAt(s, i)
  }

  lemma {:induction false} FirstKept(s: string, marker: string)
    requires marker != [] && s != [] && !StartsWith(s, marker)
    ensures RemoveMarker(s, marker) == [s[0]] + RemoveMarker(s[1..], marker)
  {
  }

  /** After the fence removal no three backticks remain: a kept backtick is never
      followed by a removed fence, since the fence would have started one character
      earlier. */
  lemma {:induction false} NoFenceAfterRemoval(s: string)
    ensures !HasFence(RemoveMarker(s, Fence))
    decreases |s|
  {
    if s == [] {
    } else if StartsWith(s, Fence) {
      var rest := s[3..];
      if rest != [] && rest[0] == '\n' {
        NoFenceAfterRemoval(rest[1..]);
      } else {
        NoFenceAfterRemoval(rest);
      }
    } else {
      var r' := RemoveMarker(s[1..], Fence);
      NoFenceAfterRemoval(s[1..]);
      FirstKept(s, Fence);
      var r := [s[0]] + r';
      forall i | 0 <= i <= |r| - 3
        ensures !FenceAt(r, i)
      {
        if i > 0 {
          assert !FenceAt(r', i - 1);
          assert r[i] == r'[i - 1] && r[i + 1] == r'[i] && r[i + 2] == r'[i + 1];
        } else {
          NoFenceAtFrontAfterKept(s);
        }
      }
    }
  }

  /** When the first character is kept, the kept text cannot open with a fence. */
  lemma NoFenceAtFrontAfterKept(s: string)
    requires s != [] && !StartsWith(s, Fence)
    ensures !FenceAt([s[0]] + RemoveMarker(s[1..], Fence), 0)
  {
    var r' := RemoveMarker(s[1..], Fence);
    if s[0] == '`' && |s| > 1 {
      if s[1] != '`' {
        FirstKept(s[1..], Fence);
      } else {
        if |s| >= 3 {
          assert s[..3] == [s[0], s[1], s[2]];
        }
        FirstKept(s[1..], Fence);
        assert s[1..][1..] == s[2..];
        if |s| > 2 {
          FirstKept(s[2..], Fence);
        }
      }
    }
  }

  /** A string whose characters sit, in order, at positions `k`, `k + 1`, ... of a
      fence-free string has no fence either. */
  lemma InfixHasNoFence(s: string, r: string, k: nat)
    requires k + |r| <= |s| && !HasFence(s)
    requires forall j :: 0 <= j < |r| ==> r[j] == s[k + j]
    ensures !HasFence(r)
  {
    forall i | 0 <= i <= |r| - 3
      ensures !FenceAt(r, i)
    {
      assert !FenceAt(s, k + i);
    }
  }

  lemma TrimHasNoFence(s: string)
    requires !HasFence(s)
    ensures !HasFence(Trim(s))
  {
    var t, r := TrimStart(s), Trim(s);
    var k := |s| - |t|;
    forall j | 0 <= j < |r| ensures r[j] == s[k + j] {
      assert r[j] == t[j] && t[j] == s[k..][j];
    }
    InfixHasNoFence(s, r, k);
  }

  lemma {:induction false} RemoveMarkerSkipsPlain(body: string, tail: string, marker: string)
    requires marker != [] && marker[0] == '`' && '`' !in body
    ensures RemoveMarker(body + tail, marker) == body + RemoveMarker(tail, marker)
  {
    if body != [] {
      assert (body + tail)[0] != '`';
      FirstKept(body + tail, marker);
      assert (body + tail)[1..] == body[1..] + tail;
      RemoveMarkerSkipsPlain(body[1..], tail, marker);
    } else {
      assert body + tail == tail;
    }
  }

  /** A marker followed by a newline is removed together with the newline. */
  lemma LeadingMarker(marker: string, rest: string)
    requires marker != []
    ensures RemoveMarker(marker + "\n" + rest, marker) == RemoveMarker(rest, marker)
  {
    var t := marker + "\n" + rest;
    assert t[..|marker|] == marker;
    assert t[|marker|..] == "\n" + rest;
    assert t[|marker|..][1..] == rest;
  }

  /** Text shorter than the marker is kept whole. */
  lemma {:induction false} ShortTextKept(t: string, marker: string)
    requires marker != [] && |t| < |marker|
    ensures RemoveMarker(t, marker) == t
  {
    if t != [] {
      ShortTextKept(t[1..], marker);
    }
  }

  /** A closing "\n```" loses its fence and keeps the newline. */
  lemma ClosingFenceRemoved()
    ensures RemoveMarker("\n" + Fence, Fence) == "\n"
  {
    var t := "\n" + Fence;
    assert t[..3][0] != Fence[0];
    FirstKept(t, Fence);
    assert t[1..] == Fence;
    assert Fence[3..] == "";
  }

  lemma TrimDropsNewline(body: string)
    requires body == [] || (!IsWhitespace(body[0]) && !IsWhitespace(body[|body| - 1]))
    ensures Trim(body + "\n") == body
  {
    var s := body + "\n";
    assert IsWhitespace(s[|s| - 1]);
    assert s[..|s| - 1] == body;
    if body == [] {
      assert TrimStart(s) == TrimStart([]);
    } else {
      assert s[0] == body[0];
      assert TrimStart(s) == s;
      assert TrimEnd(s) == TrimEnd(body);
      assert TrimEnd(body) == body;
    }
  }

  /** The fenced text itself is left unchanged by trimming. */
  lemma FencedTextTrimmed(text: string)
    requires text != [] && text[0] == '`' && text[|text| - 1] == '`'
    ensures Trim(text) == text
  {
    TrimUnchanged(text);
  }

  /** The html marker does not occur in the body and its closing fence. */
  lemma BodyKeepsThroughHtmlMarker(body: string)
    requires '`' !in body
    ensures RemoveMarker(body + ("\n" + Fence), HtmlFence) == body + ("\n" + Fence)
  {
    RemoveMarkerSkipsPlain(body, "\n" + Fence, HtmlFence);
    ShortTextKept("\n" + Fence, HtmlFence);
  }

  /** The closing fence is removed and the newline before it kept. */
  lemma ClosingFenceDropped(body: string)
    requires '`' !in body
    ensures RemoveMarker(body + ("\n" + Fence), Fence) == body + "\n"
  {
    RemoveMarkerSkipsPlain(body, "\n" + Fence, Fence);
    ClosingFenceRemoved();
  }

  /** A reply wrapped as "```html\n<body>\n```" yields the body itself, provided the body
      has no backticks and no surrounding whitespace. */
  lemma HtmlFenceRoundTrip(body: string)
    requires '`' !in body
    requires body == [] || (!IsWhitespace(body[0]) && !IsWhitespace(body[|body| - 1]))
    ensures StripFences(HtmlFence + "\n" + body + "\n" + Fence) == body
  {
    var rest := body + ("\n" + Fence);
    var text := HtmlFence + "\n" + rest;
    assert text == HtmlFence + "\n" + body + "\n" + Fence;
    assert text[0] == '`' && text[|text| - 1] == '`';
    FencedTextTrimmed(text);
    assert text[..|HtmlFence|] == HtmlFence;
    assert StripFences(text) == Unfence(text);
    LeadingMarker(HtmlFence, rest);
    BodyKeepsThroughHtmlMarker(body);
    ClosingFenceDropped(body);
    TrimDropsNewline(body);
  }

  /** The same for a plain "```\n<body>\n```" fence. */
  lemma PlainFenceRoundTrip(body: string)
    requires '`' !in body
    requires body == [] || (!IsWhitespace(body[0]) && !IsWhitespace(body[|body| - 1]))
    ensures StripFences(Fence + "\n" + body + "\n" + Fence) == body
  {
    var rest := body + ("\n" + Fence);
    var text := Fence + "\n" + rest;
    assert text == Fence + "\n" + body + "\n" + Fence;
    assert text[0] == '`' && text[|text| - 1] == '`';
    FencedTextTrimmed(text);
    assert text[..3] == Fence;
    assert !StartsWith(text, HtmlFence) by {
      assert text[3] == '\n';
      assert HtmlFence[3] == 'h';
    }
    assert StripFences(text) == Unfence(text);
    LeadingMarker(Fence, rest);
    ClosingFenceDropped(body);
    TrimDropsNewline(body);
  }
}
