/** `createSlug`, shared by both blog generators (api/generate-blog.js and
    api-handlers/generate-blog.js define it identically): a dish name becomes a URL
    slug. Lower-casing is modelled on ASCII letters only. */
module BlogSlug {
  import opened Text
  import SlugValidation

  predicate IsSlugAlnum(c: char) {
    ('a' <= c <= 'z') || ('0' <= c <= '9')
  }

  /** Drops the leading run of characters outside `[a-z0-9]`. */
  function DropRun(s: string): (r: string)
    ensures |r| <= |s|
    ensures r == [] || IsSlugAlnum(r[0])
  {
    if s != [] && !IsSlugAlnum(s[0]) then DropRun(s[1..]) else s
  }

  /** Every character is a lower-case letter, a digit or a hyphen. */
  predicate OverSlugAlphabet(s: string) {
    forall i :: 0 <= i < |s| ==> IsSlugAlnum(s[i]) || s[i] == '-'
  }

  /** No two hyphens are adjacent. */
  predicate NoDoubleHyphen(s: string) {
    forall i :: 0 <= i < |s| - 1 ==> !(s[i] == '-' && s[i + 1] == '-')
  }

  /** `.replace(/[^a-z0-9]+/g, '-')`: every maximal run outside `[a-z0-9]` becomes one hyphen. */
  function Collapse(s: string): (r: string)
    ensures OverSlugAlphabet(r) && NoDoubleHyphen(r)
    ensures s != [] && !IsSlugAlnum(s[0]) ==> r != [] && r[0] == '-'
    ensures s != [] && IsSlugAlnum(s[0]) ==> r != [] && r[0] == s[0]
    ensures s == [] <==> r == []
    decreases |s|
  {
    if s == [] then []
    else if IsSlugAlnum(s[0]) then [s[0]] + Collapse(s[1..])
    else "-" + Collapse(DropRun(s))
  }

  /** `.replace(/(^-|-$)/g, '')`: one leading and one trailing hyphen are removed; a
      lone hyphen is removed once. */
  function StripEdgeHyphens(t: string): (r: string)
    ensures |r| <= |t|
    ensures t == [] || t[0] != '-' ==> StartsWith(t, r)
  {
    var a := if t != [] && t[0] == '-' then 1 else 0;
    var b := if |t| > a && t[|t| - 1] == '-' then |t| - 1 else |t|;
    t[a..b]
  }

  /** A slug holds only lower-case letters, digits and single inner hyphens. */
  function CreateSlug(name: string): (slug: string)
    ensures SlugShaped(slug)
  {
    StripKeepsShape(Collapse(Lower(name)));
    StripEdgeHyphens(Collapse(Lower(name)))
  }

  /** The shape of every slug: only `a-z`, `0-9` and single hyphens between them. */
  predicate SlugShaped(s: string) {
    OverSlugAlphabet(s) && NoDoubleHyphen(s) && (s == [] || (s[0] != '-' && s[|s| - 1] != '-'))
  }

  lemma StripKeepsShape(t: string)
    requires OverSlugAlphabet(t) && NoDoubleHyphen(t)
    ensures SlugShaped(StripEdgeHyphens(t))
  {
    var a := if t != [] && t[0] == '-' then 1 else 0;
    var b := if |t| > a && t[|t| - 1] == '-' then |t| - 1 else |t|;
    var r := StripEdgeHyphens(t);
    assert r == t[a..b];
    forall i | 0 <= i < |r| ensures r[i] == t[a + i] && (IsSlugAlnum(r[i]) || r[i] == '-') {
    }
    forall i | 0 <= i < |r| - 1 ensures !(r[i] == '-' && r[i + 1] == '-') {
      assert r[i] == t[a + i] && r[i + 1] == t[a + i + 1];
    }
    if r != [] {
      // a stripped leading hyphen is followed by a non-hyphen, and likewise at the end
      assert r[0] == t[a] && r[|r| - 1] == t[b - 1];
      if a == 1 {
        assert t[a - 1] == '-';
      }
      if b < |t| {
        assert t[b] == '-';
      }
    }
  }

  /** Strings without characters outside `[a-z0-9-]` and without doubled hyphens are left
      as they are by the collapse. */
  lemma ShapedTail(s: string)
    requires s != [] && OverSlugAlphabet(s) && NoDoubleHyphen(s)
    ensures OverSlugAlphabet(s[1..]) && NoDoubleHyphen(s[1..])
  {
    var t := s[1..];
    assert forall i :: 0 <= i < |t| ==> t[i] == s[i + 1];
  }

  /** A hyphen followed by a letter or digit (or by nothing) is a run of length one. */
  lemma DropSingleHyphen(s: string)
    requires s != [] && s[0] == '-' && (|s| == 1 || IsSlugAlnum(s[1]))
    ensures DropRun(s) == s[1..]
  {
    assert DropRun(s) == DropRun(s[1..]);
  }

  /** Strings without characters outside `[a-z0-9-]` and without doubled hyphens are left
      as they are by the collapse. */
  lemma {:induction false} CollapseFixesShaped(s: string)
    requires OverSlugAlphabet(s) && NoDoubleHyphen(s)
    ensures Collapse(s) == s
  {
    if s != [] {
      var t := s[1..];
      ShapedTail(s);
      CollapseFixesShaped(t);
      if !IsSlugAlnum(s[0]) {
        assert s[0] == '-';
        assert |s| == 1 || IsSlugAlnum(s[1]);
        DropSingleHyphen(s);
        assert Collapse(s) == "-" + Collapse(t);
      } else {
        assert Collapse(s) == [s[0]] + Collapse(t);
      }
      assert s == [s[0]] + t;
    }
  }

  lemma {:induction false} LowerFixesLower(s: string)
    requires forall i :: 0 <= i < |s| ==> !IsAsciiUpper(s[i])
    ensures Lower(s) == s
  {
  }

  /** createSlug is idempotent: a slug is its own slug. */
  lemma {:induction false} CreateSlugIdempotent(name: string)
    ensures CreateSlug(CreateSlug(name)) == CreateSlug(name)
  {
    var s := CreateSlug(name);
    LowerFixesLower(s);
    CollapseFixesShaped(s);
  }

  /** Only ASCII letters and digits survive, in their original order (lower-cased). */
  function Alnums(s: string): (r: string)
    ensures forall i :: 0 <= i < |r| ==> IsSlugAlnum(r[i])
  {
    if s == [] then [] else (if IsSlugAlnum(s[0]) then [s[0]] else []) + Alnums(s[1..])
  }

  lemma {:induction false} AlnumsAppend(a: string, b: string)
    ensures Alnums(a + b) == Alnums(a) + Alnums(b)
  {
    if a != [] {
      assert (a + b)[1..] == a[1..] + b;
      AlnumsAppend(a[1..], b);
    } else {
      assert a + b == b;
    }
  }

  lemma {:induction false} DropRunKeepsAlnums(s: string)
    ensures Alnums(DropRun(s)) == Alnums(s)
  {
    if s != [] && !IsSlugAlnum(s[0]) {
      DropRunKeepsAlnums(s[1..]);
    }
  }

  lemma {:induction false} CollapseKeepsAlnums(s: string)
    ensures Alnums(Collapse(s)) == Alnums(s)
    decreases |s|
  {
    if s != [] {
      if IsSlugAlnum(s[0]) {
        CollapseKeepsAlnums(s[1..]);
        AlnumsAppend([s[0]], Collapse(s[1..]));
      } else {
        CollapseKeepsAlnums(DropRun(s));
        AlnumsAppend("-", Collapse(DropRun(s)));
        DropRunKeepsAlnums(s);
      }
    }
  }

  lemma StripKeepsAlnums(t: string)
    ensures Alnums(StripEdgeHyphens(t)) == Alnums(t)
  {
    var a := if t != [] && t[0] == '-' then 1 else 0;
    var b := if |t| > a && t[|t| - 1] == '-' then |t| - 1 else |t|;
    assert t == t[..a] + t[a..b] + t[b..];
    AlnumsAppend(t[..a] + t[a..b], t[b..]);
    AlnumsAppend(t[..a], t[a..b]);
    if a == 1 {
      assert t[..a] == "-";
    }
    if b < |t| {
      assert t[b..] == "-";
    }
  }

  /** The letters and digits of a slug are exactly those of the lower-cased name, in order. */
  lemma CreateSlugKeepsAlnums(name: string)
    ensures Alnums(CreateSlug(name)) == Alnums(Lower(name))
  {
    CollapseKeepsAlnums(Lower(name));
    StripKeepsAlnums(Collapse(Lower(name)));
  }

  /** The slug is empty exactly when the name has no ASCII letter or digit, as with a
      name written only in Hangul; otherwise it is a valid slug. */
  lemma {:induction false} EmptySlugIffNoAlnum(name: string)
    ensures CreateSlug(name) == "" <==> Alnums(Lower(name)) == ""
    ensures CreateSlug(name) != "" ==> SlugValidation.IsValidSlug(CreateSlug(name))
  {
    var s := CreateSlug(name);
    CreateSlugKeepsAlnums(name);
    if s != "" {
      assert IsSlugAlnum(s[0]);
      assert Alnums(s) == [s[0]] + Alnums(s[1..]);
    }
  }

  /** A name written only in Hangul, such as "김치찌개" (kimchi stew), has an empty slug. */
  lemma HangulNameHasEmptySlug()
    ensures CreateSlug("\U{AE40}\U{CE58}\U{CC0C}\U{AC1C}") == ""
  {
    var name := "\U{AE40}\U{CE58}\U{CC0C}\U{AC1C}";
    EmptySlugIffNoAlnum(name);
    assert Lower(name) == name;
  }
}
