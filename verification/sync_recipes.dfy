/** Rebuilding the recipe index from the published blog files (api/sync-recipes.js):
    the directory listing is filtered to the html posts, each post gives one index entry
    (its slug from the file name, its title from the page), the entries are ordered
    newest first and recipes.json is written with one PUT. The derivation of the entries
    is shared with the Supabase variant, module SyncRecipesStore. */
module SyncRecipes {
  import opened Text
  import BP = BlogPublisher
  import BlogSlug
  import Cors

  // ---- which listed files are posts ----

  /** One element of a GitHub contents listing. */
  datatype ListItem = ListItem(itemType: string, name: string, path: string)

  const HtmlSuffix: string := ".html"

  predicate IsBlogFile(item: ListItem) {
    item.itemType == "file" && EndsWith(item.name, HtmlSuffix)
  }

  /** `items.filter(...)`: the posts, in listing order. */
  function Filter(items: seq<ListItem>): (files: seq<ListItem>)
    ensures forall x :: x in files <==> x in items && IsBlogFile(x)
    ensures |files| <= |items|
    ensures (forall i :: 0 <= i < |items| ==> IsBlogFile(items[i])) ==> files == items
  {
    if items == [] then []
    else (if IsBlogFile(items[0]) then [items[0]] else []) + Filter(items[1..])
  }

  /** The listing's posts; a listing that is not a JSON array (None) has none. */
  function BlogFiles(listing: Option<seq<ListItem>>): (files: seq<ListItem>)
    ensures listing.None? ==> files == []
    ensures listing.Some? ==> forall x :: x in files <==> x in listing.value && IsBlogFile(x)
  {
    if listing.None? then [] else Filter(listing.value)
  }

  // ---- slug and title of one post ----

  /** `name.replace('.html', '')`: only the first occurrence is removed, so putting it
      back at the same place gives the name again. */
  function SlugOf(name: string): (slug: string)
    ensures Find(name, HtmlSuffix).None? ==> slug == name
    ensures Find(name, HtmlSuffix).Some? ==>
              var i := Find(name, HtmlSuffix).value;
              i <= |slug| && name == slug[..i] + HtmlSuffix + slug[i..]
  {
    var slug := ReplaceFirst(name, HtmlSuffix, "");
    if Find(name, HtmlSuffix).Some? then
      var i := Find(name, HtmlSuffix).value;
      assert slug[..i] == name[..i] && slug[i..] == name[i + |HtmlSuffix|..];
      assert name == name[..i] + name[i..i + |HtmlSuffix|] + name[i + |HtmlSuffix|..];
      slug
    else slug
  }

  /** A name without a dot followed by ".html" gives back the name. */
  lemma SlugOfPostName(s: string)
    requires '.' !in s
    ensures SlugOf(s + HtmlSuffix) == s
  {
    var t := s + HtmlSuffix;
    assert StartsWith(t[|s|..], HtmlSuffix);
    forall j | 0 <= j < |s|
      ensures !StartsWith(t[j..], HtmlSuffix)
    {
      assert t[j] == s[j] != '.';
    }
    var f := Find(t, HtmlSuffix);
    assert StartsWith(t[f.value..], HtmlSuffix);
    assert f.value == |s|;
    assert t[..|s|] == s;
  }

  /** A post written under `CreateSlug(name) + ".html"` is read back with that slug. */
  lemma SlugOfCreatedPost(name: string)
    ensures SlugOf(BlogSlug.CreateSlug(name) + HtmlSuffix) == BlogSlug.CreateSlug(name)
  {
    var slug := BlogSlug.CreateSlug(name);
    assert forall i :: 0 <= i < |slug| ==> slug[i] != '.';
    SlugOfPostName(slug);
  }

  /** `<tag` in any letter case at `i`; `tag` is lower case. */
  predicate OpensAt(content: string, i: nat, tag: string)
    requires i <= |content|
  {
    StartsWithIgnoringCase(content[i..], "<" + tag)
  }

  /** The rest of `/<tag[^>]*>([^<]+)<\/tag>/i` after `<tag`, returning the capture.
      `[^>]*` can only stop at the first '>', and `[^<]+` only at the next '<', which must
      open the closing tag. */
  function Enclosed(rest: string, close: string): (r: Option<string>)
    ensures r.Some? ==> r.value != [] && '<' !in r.value
  {
    match IndexOf(rest, '>')
    case None => None
    case Some(g) =>
      var inner := rest[g + 1..];
      match IndexOf(inner, '<')
      case None => None
      case Some(l) =>
        if l > 0 && StartsWithIgnoringCase(inner[l..], close) then Some(inner[..l]) else None
  }

  /** The capture of a match starting at `i`, None when no match starts there. */
  function MatchAt(content: string, i: nat, tag: string): (r: Option<string>)
    requires i <= |content|
    ensures r.Some? ==> r.value != [] && '<' !in r.value
  {
    if i + |tag| + 1 <= |content| && OpensAt(content, i, tag) then Enclosed(content[i + |tag| + 1..], "</" + tag + ">")
    else None
  }

  /** Where the leftmost match starts, searching from `i`. */
  function MatchPosition(content: string, tag: string, i: nat): (r: Option<nat>)
    requires i <= |content|
    ensures r.Some? ==> i <= r.value <= |content| && MatchAt(content, r.value, tag).Some?
    ensures r.Some? ==> forall k :: i <= k < r.value ==> MatchAt(content, k, tag).None?
    ensures r.None? ==> forall k :: i <= k <= |content| ==> MatchAt(content, k, tag).None?
    decreases |content| - i
  {
    if MatchAt(content, i, tag).Some? then Some(i)
    else if i == |content| then None
    else MatchPosition(content, tag, i + 1)
  }

  /** `content.match(...)[1]` of the leftmost match, None when nothing matches. */
  function Capture(content: string, tag: string): (r: Option<string>)
    ensures r.Some? ==> r.value != [] && '<' !in r.value
  {
    match MatchPosition(content, tag, 0)
    case Some(j) => MatchAt(content, j, tag)
    case None => None
  }

  /** The trimmed capture of the first `<title>` element, else of the first `<h1>`
      element, else the slug. A capture of blanks trims to "". A captured title holds
      no tag and no edge whitespace; the slug is used only when neither element matches. */
  function TitleOf(content: string, slug: string): (title: string)
    ensures Capture(content, "title").Some? || Capture(content, "h1").Some? ==>
              '<' !in title && (title == [] || (!IsWhitespace(title[0]) && !IsWhitespace(title[|title| - 1])))
    ensures Capture(content, "title").None? && Capture(content, "h1").None? ==> title == slug
  {
    match Capture(content, "title")
    case Some(t) => TrimKeepsNoTag(t); Trim(t)
    case None =>
      match Capture(content, "h1")
      case Some(h) => TrimKeepsNoTag(h); Trim(h)
      case None => slug
  }

  /** Trimming only removes characters, so a capture without '<' stays without one. */
  lemma TrimKeepsNoTag(t: string)
    requires '<' !in t
    ensures '<' !in Trim(t)
  {
    var u := TrimStart(t);
    assert u == t[|t| - |u|..];
    assert '<' !in u;
    assert Trim(t) == u[..|Trim(t)|];
  }

  /** A match can only start at a '<' followed by the tag's first letter in either case. */
  lemma MatchStartsAtTag(content: string, i: nat, tag: string)
    requires i <= |content| && tag != []
    requires MatchAt(content, i, tag).Some?
    ensures i + 1 < |content| && content[i] == '<' && LowerChar(content[i + 1]) == tag[0]
  {
    var s := content[i..];
    assert OpensAt(content, i, tag);
    assert Lower(s[..|tag| + 1])[0] == LowerChar(s[0]) == '<';
    assert Lower(s[..|tag| + 1])[1] == LowerChar(s[1]) == tag[0];
  }

  /** A lower-case `<tag` opens a match. */
  lemma OpenTagFound(content: string, i: nat, tag: string)
    requires LowerTag(tag)
    requires i + |tag| + 1 <= |content| && content[i..i + |tag| + 1] == "<" + tag
    ensures OpensAt(content, i, tag)
  {
    assert forall k :: 0 <= k < |tag| + 1 ==> !IsAsciiUpper(("<" + tag)[k]);
    BlogSlug.LowerFixesLower("<" + tag);
    assert content[i..][..|tag| + 1] == "<" + tag;
  }

  /** The first `c` of `a + [c] + b` is the one after `a`. */
  lemma {:induction false} FirstOccurrence(a: string, c: char, b: string)
    requires c !in a
    ensures IndexOf(a + [c] + b, c) == Some(|a|)
    decreases |a|
  {
    var s := a + [c] + b;
    if a != [] {
      assert s[1..] == a[1..] + [c] + b;
      FirstOccurrence(a[1..], c, b);
    }
  }

  /** Only the letters of `tag` are folded, and it has no upper-case ones. */
  predicate LowerTag(tag: string) {
    forall k :: 0 <= k < |tag| ==> !IsAsciiUpper(tag[k])
  }

  /** A lower-case closing tag is found in any letter case. */
  lemma ClosingTagFound(tag: string, more: string)
    requires LowerTag(tag)
    ensures StartsWithIgnoringCase("</" + tag + ">" + more, "</" + tag + ">")
  {
    var close := "</" + tag + ">";
    assert forall k :: 0 <= k < |close| ==> !IsAsciiUpper(close[k]);
    BlogSlug.LowerFixesLower(close);
    assert (close + more)[..|close|] == close;
  }

  /** `>` then `text` then a closing tag completes a match capturing `text`. */
  lemma EnclosedText(text: string, tail: string, close: string)
    requires text != [] && '<' !in text
    requires tail != [] && tail[0] == '<' && StartsWithIgnoringCase(tail, close)
    ensures Enclosed(['>'] + (text + tail), close) == Some(text)
  {
    var inner := text + tail;
    FirstOccurrence([], '>', inner);
    assert [] + ['>'] + inner == ['>'] + inner;
    assert (['>'] + inner)[1..] == inner;
    assert tail == ['<'] + tail[1..];
    FirstOccurrence(text, '<', tail[1..]);
    assert text + ['<'] + tail[1..] == inner;
    assert inner[..|text|] == text && inner[|text|..] == tail;
  }

  /** The element `<tag>text</tag>` at `i` is matched there, capturing `text`. */
  lemma ElementMatched(content: string, i: nat, tag: string, text: string, more: string)
    requires LowerTag(tag)
    requires text != [] && '<' !in text
    requires i + |tag| + 1 <= |content| && content[i..i + |tag| + 1] == "<" + tag
    requires content[i + |tag| + 1..] == ['>'] + (text + ("</" + tag + ">" + more))
    ensures MatchAt(content, i, tag) == Some(text)
  {
    OpenTagFound(content, i, tag);
    ClosingTagFound(tag, more);
    EnclosedText(text, "</" + tag + ">" + more, "</" + tag + ">");
  }

  /** A match at `i` with none before it is the leftmost match. */
  lemma FirstMatchAt(content: string, tag: string, i: nat)
    requires tag != [] && i <= |content| && MatchAt(content, i, tag).Some?
    requires forall k :: 0 <= k < i ==> content[k] != '<'
    ensures Capture(content, tag) == MatchAt(content, i, tag)
  {
    var p := MatchPosition(content, tag, 0);
    assert p.Some?;
    if p.value < i {
      MatchStartsAtTag(content, p.value, tag);
      assert false;
    }
    assert p.value == i;
  }

  /** The first element `<tag>t</tag>` of a page with no '<' before it is the capture. */
  lemma ElementCaptured(prefix: string, tag: string, t: string, rest: string)
    requires LowerTag(tag) && tag != []
    requires '<' !in prefix
    requires t != [] && '<' !in t
    ensures Capture(prefix + ("<" + tag + ">") + t + ("</" + tag + ">") + rest, tag) == Some(t)
  {
    var page := prefix + ("<" + tag + ">") + t + ("</" + tag + ">") + rest;
    ElementLayout(prefix, tag, t, rest);
    forall k | 0 <= k < |prefix| ensures page[k] != '<' {
      assert page[k] == page[..|prefix|][k] == prefix[k];
    }
    ElementMatched(page, |prefix|, tag, t, rest);
    FirstMatchAt(page, tag, |prefix|);
  }

  /** Where the parts of `prefix<tag>t</tag>rest` sit. */
  lemma ElementLayout(prefix: string, tag: string, t: string, rest: string)
    ensures var page := prefix + ("<" + tag + ">") + t + ("</" + tag + ">") + rest;
            var i := |prefix|;
            i + |tag| + 1 <= |page| && page[..i] == prefix
            && page[i..i + |tag| + 1] == "<" + tag
            && page[i + |tag| + 1..] == ['>'] + (t + ("</" + tag + ">" + rest))
  {
  }

  /** The first `<title>` element names the post, whatever follows it. */
  lemma TitleFromTitleElement(prefix: string, t: string, rest: string, slug: string)
    requires '<' !in prefix
    requires t != [] && '<' !in t
    ensures TitleOf(prefix + "<title>" + t + "</title>" + rest, slug) == Trim(t)
  {
    assert "<title>" == "<" + "title" + ">" && "</title>" == "</" + "title" + ">";
    ElementCaptured(prefix, "title", t, rest);
  }

  /** Without any '<' the page has neither element, and the slug is the title. */
  lemma PlainPageTitledBySlug(content: string, slug: string)
    requires '<' !in content
    ensures TitleOf(content, slug) == slug
  {
    forall k | 0 <= k <= |content|
      ensures MatchAt(content, k, "title").None? && MatchAt(content, k, "h1").None?
    {
      if MatchAt(content, k, "title").Some? {
        MatchStartsAtTag(content, k, "title");
      }
      if MatchAt(content, k, "h1").Some? {
        MatchStartsAtTag(content, k, "h1");
      }
    }
  }

  /** A page in which no '<' is followed by 't' or 'T' has no `<title>` match. */
  lemma NoTitleTag(content: string)
    requires forall k :: 0 <= k < |content| - 1 && content[k] == '<' ==> LowerChar(content[k + 1]) != 't'
    ensures Capture(content, "title").None?
  {
    forall k | 0 <= k <= |content|
      ensures MatchAt(content, k, "title").None?
    {
      if MatchAt(content, k, "title").Some? {
        MatchStartsAtTag(content, k, "title");
      }
    }
  }

  /** On a page without a `<title` tag, the first `<h1>` element names the post. */
  lemma TitleFromHeading(prefix: string, h: string, rest: string, slug: string)
    requires '<' !in prefix
    requires h != [] && '<' !in h
    requires var page := prefix + "<h1>" + h + "</h1>" + rest;
             forall k :: 0 <= k < |page| - 1 && page[k] == '<' ==> LowerChar(page[k + 1]) != 't'
    ensures TitleOf(prefix + "<h1>" + h + "</h1>" + rest, slug) == Trim(h)
  {
    NoTitleTag(prefix + "<h1>" + h + "</h1>" + rest);
    assert "<h1>" == "<" + "h1" + ">" && "</h1>" == "</" + "h1" + ">";
    ElementCaptured(prefix, "h1", h, rest);
  }

  // ---- one entry per post ----

  /** What reading one post gave: the decoded page and the commit date ("" when the
      listing carries none), a non-ok answer, or a throw anywhere in the file's step. */
  datatype FileRead = FileOk(content: string, commitDate: string) | FileNotOk | FileThrew

  /** `${site}/blogs/${slug}.html` */
  function PostUrl(site: string, slug: string): (url: string)
    ensures StartsWith(url, site + "/blogs/") && EndsWith(url, HtmlSuffix)
  {
    var url := site + "/blogs/" + slug + HtmlSuffix;
    assert url[..|site + "/blogs/"|] == site + "/blogs/";
    assert url[|url| - 5..] == HtmlSuffix;
    url
  }

  /** On the fixed public site the url is the one the blog generator files the post under. */
  lemma PostUrlOnPublicSite(slug: string)
    ensures PostUrl(BP.PublicSiteUrl, slug) == BP.BlogUrl(slug)
  {
  }

  /** The date part of an ISO timestamp. */
  function DatePart(timestamp: string): (d: string)
    ensures StartsWith(timestamp, d) && 'T' !in d
  {
    BeforeFirst(timestamp, 'T')
  }

  /** The entry one post contributes; a post whose step threw contributes none. */
  function EntryOf(file: ListItem, read: FileRead, site: string, today: string): (e: Option<BP.Recipe>)
    ensures e.None? <==> read.FileThrew?
    ensures e.Some? ==> e.value.slug == SlugOf(file.name) && e.value.name == e.value.title
                        && e.value.url == PostUrl(site, e.value.slug)
    ensures read.FileNotOk? ==> e.value.title == SlugOf(file.name) && e.value.createdAt == today
    ensures read.FileOk? ==> e.value.title == TitleOf(read.content, SlugOf(file.name))
    ensures read.FileOk? ==> e.value.createdAt == if read.commitDate == "" then today else DatePart(read.commitDate)
  {
    var slug := SlugOf(file.name);
    match read
    case FileThrew => None
    case FileNotOk => Some(BP.Recipe(slug, slug, slug, PostUrl(site, slug), today))
    case FileOk(content, commitDate) =>
      var title := TitleOf(content, slug);
      var createdAt := if commitDate == "" then today else DatePart(commitDate);
      Some(BP.Recipe(slug, title, title, PostUrl(site, slug), createdAt))
  }

  function AsSeq(e: Option<BP.Recipe>): seq<BP.Recipe> {
    if e.Some? then [e.value] else []
  }

  /** The entries of the posts in listing order, `fetches[i]` being what reading `files[i]` gave. */
  function Entries(files: seq<ListItem>, fetches: seq<FileRead>, site: string, today: string): (r: seq<BP.Recipe>)
    requires |fetches| == |files|
    ensures |r| <= |files|
    ensures forall k :: 0 <= k < |r| ==> r[k].name == r[k].title && r[k].url == PostUrl(site, r[k].slug)
    decreases |files|
  {
    if files == [] then []
    else
      var n := |files| - 1;
      Entries(files[..n], fetches[..n], site, today) + AsSeq(EntryOf(files[n], fetches[n], site, today))
  }

  /** The number of posts whose step did not throw. */
  function Kept(fetches: seq<FileRead>): nat {
    if fetches == [] then 0
    else Kept(fetches[..|fetches| - 1]) + (if fetches[|fetches| - 1].FileThrew? then 0 else 1)
  }

  /** One entry per post that did not throw. */
  lemma {:induction false} EntriesCount(files: seq<ListItem>, fetches: seq<FileRead>, site: string, today: string)
    requires |fetches| == |files|
    ensures |Entries(files, fetches, site, today)| == Kept(fetches)
    decreases |files|
  {
    if files != [] {
      var n := |files| - 1;
      EntriesCount(files[..n], fetches[..n], site, today);
    }
  }

  /** When no step throws, the entries follow the posts one for one, in listing order. */
  lemma {:induction false} EntriesFollowFiles(files: seq<ListItem>, fetches: seq<FileRead>, site: string, today: string)
    requires |fetches| == |files|
    requires forall i :: 0 <= i < |fetches| ==> !fetches[i].FileThrew?
    ensures var r := Entries(files, fetches, site, today);
            |r| == |files| && forall i :: 0 <= i < |files| ==> r[i] == EntryOf(files[i], fetches[i], site, today).value
    decreases |files|
  {
    if files != [] {
      var n := |files| - 1;
      EntriesFollowFiles(files[..n], fetches[..n], site, today);
      var prev := Entries(files[..n], fetches[..n], site, today);
      var e := EntryOf(files[n], fetches[n], site, today);
      assert Entries(files, fetches, site, today) == prev + [e.value];
      forall i | 0 <= i < n
        ensures prev[i] == EntryOf(files[i], fetches[i], site, today).value
      {
        assert files[..n][i] == files[i] && fetches[..n][i] == fetches[i];
      }
    }
  }

  /** The `for ... of` loop: each post's entry is pushed unless its step threw. */
  method BuildEntries(files: seq<ListItem>, fetches: seq<FileRead>, site: string, today: string)
    returns (recipes: seq<BP.Recipe>)
    requires |fetches| == |files|
    ensures recipes == Entries(files, fetches, site, today)
  {
    recipes := [];
    var i := 0;
    while i < |files|
      invariant i <= |files|
      invariant recipes == Entries(files[..i], fetches[..i], site, today)
    {
      var entry := EntryOf(files[i], fetches[i], site, today);
      if entry.Some? {
        recipes := recipes + [entry.value];
      }
      assert files[..i + 1][..i] == files[..i];
      assert fetches[..i + 1][..i] == fetches[..i];
      i := i + 1;
    }
    assert files[..i] == files && fetches[..i] == fetches;
  }

  // ---- newest first ----

  /** Strict lexicographic order of two strings; on "YYYY-MM-DD" dates it is the
      chronological order the comparator `new Date(b) - new Date(a)` uses. */
  predicate Earlier(a: string, b: string)
    decreases |a|
  {
    if a == [] then b != []
    else if b == [] then false
    else a[0] < b[0] || (a[0] == b[0] && Earlier(a[1..], b[1..]))
  }

  lemma {:induction false} EarlierAsymmetric(a: string, b: string)
    ensures Earlier(a, b) ==> !Earlier(b, a)
    decreases |a|
  {
    if a != [] && b != [] && a[0] == b[0] {
      EarlierAsymmetric(a[1..], b[1..]);
    }
  }

  lemma {:induction false} EarlierTransitive(a: string, b: string, c: string)
    requires Earlier(a, b) && Earlier(b, c)
    ensures Earlier(a, c)
    decreases |a|
  {
    if a != [] && a[0] == b[0] && b[0] == c[0] {
      EarlierTransitive(a[1..], b[1..], c[1..]);
    }
  }

  lemma {:induction false} EarlierTotal(a: string, b: string)
    ensures a == b || Earlier(a, b) || Earlier(b, a)
    decreases |a|
  {
    if a != [] && b != [] && a[0] == b[0] {
      EarlierTotal(a[1..], b[1..]);
      if a[1..] == b[1..] {
        assert a == [a[0]] + a[1..] && b == [b[0]] + b[1..];
      }
    }
  }

  predicate Older(a: BP.Recipe, b: BP.Recipe) {
    Earlier(a.createdAt, b.createdAt)
  }

  /** No entry is older than one after it. */
  predicate NewestFirst(s: seq<BP.Recipe>) {
    forall i, j :: 0 <= i < j < |s| ==> !Older(s[i], s[j])
  }

  /** Places `e` before the first entry strictly older than it, so that entries of the
      same date keep the order they came in (Array.prototype.sort is stable). */
  function InsertByDate(sorted: seq<BP.Recipe>, e: BP.Recipe): (r: seq<BP.Recipe>)
    ensures multiset(r) == multiset(sorted) + multiset{e}
  {
    if sorted == [] then [e]
    else if Older(sorted[0], e) then [e] + sorted
    else
      assert sorted == [sorted[0]] + sorted[1..];
      [sorted[0]] + InsertByDate(sorted[1..], e)
  }

  /** An entry that is not older than `a` is not older than anything `a` is not older than. */
  lemma NotOlderChain(a: BP.Recipe, b: BP.Recipe, c: BP.Recipe)
    requires !Older(a, c) && Older(a, b)
    ensures !Older(b, c)
  {
    EarlierTotal(a.createdAt, c.createdAt);
    if Earlier(c.createdAt, a.createdAt) {
      EarlierTransitive(c.createdAt, a.createdAt, b.createdAt);
    }
    EarlierAsymmetric(c.createdAt, b.createdAt);
  }

  lemma {:induction false} InsertKeepsOrder(sorted: seq<BP.Recipe>, e: BP.Recipe)
    requires NewestFirst(sorted)
    ensures NewestFirst(InsertByDate(sorted, e))
    decreases |sorted|
  {
    if sorted == [] {
    } else if Older(sorted[0], e) {
      forall j | 0 <= j < |sorted|
        ensures !Older(e, sorted[j])
      {
        if j == 0 {
          EarlierAsymmetric(sorted[0].createdAt, e.createdAt);
        } else {
          NotOlderChain(sorted[0], e, sorted[j]);
        }
      }
      ConsNewestFirst(e, sorted);
    } else {
      var tail := InsertByDate(sorted[1..], e);
      InsertKeepsOrder(sorted[1..], e);
      HeadStaysFirst(sorted, e, tail);
      ConsNewestFirst(sorted[0], tail);
    }
  }

  /** Putting an entry not older than any of a newest-first list in front keeps it newest first. */
  lemma ConsNewestFirst(h: BP.Recipe, tail: seq<BP.Recipe>)
    requires NewestFirst(tail)
    requires forall j :: 0 <= j < |tail| ==> !Older(h, tail[j])
    ensures NewestFirst([h] + tail)
  {
    var r := [h] + tail;
    forall i, j | 0 <= i < j < |r|
      ensures !Older(r[i], r[j])
    {
      assert r[j] == tail[j - 1];
      if i > 0 {
        assert r[i] == tail[i - 1];
      }
    }
  }

  /** When `e` goes after the head, the head is not older than anything in the rest. */
  lemma HeadStaysFirst(sorted: seq<BP.Recipe>, e: BP.Recipe, tail: seq<BP.Recipe>)
    requires NewestFirst(sorted) && sorted != [] && !Older(sorted[0], e)
    requires tail == InsertByDate(sorted[1..], e)
    ensures forall j :: 0 <= j < |tail| ==> !Older(sorted[0], tail[j])
  {
    forall j | 0 <= j < |tail|
      ensures !Older(sorted[0], tail[j])
    {
      assert tail[j] in multiset(tail);
      assert tail[j] in multiset(sorted[1..]) || tail[j] == e;
      if tail[j] != e {
        var k :| 0 <= k < |sorted[1..]| && sorted[1..][k] == tail[j];
        assert sorted[k + 1] == tail[j];
      }
    }
  }

  /** `recipes.sort(...)` by insertion, one entry at a time in their original order. */
  function SortNewestFirst(s: seq<BP.Recipe>): (r: seq<BP.Recipe>)
    ensures multiset(r) == multiset(s)
  {
    if s == [] then []
    else
      assert s == s[..|s| - 1] + [s[|s| - 1]];
      InsertByDate(SortNewestFirst(s[..|s| - 1]), s[|s| - 1])
  }

  /** The sort orders the entries newest first and keeps every one of them. */
  lemma {:induction false} SortedNewestFirst(s: seq<BP.Recipe>)
    ensures NewestFirst(SortNewestFirst(s)) && multiset(SortNewestFirst(s)) == multiset(s)
    decreases |s|
  {
    if s != [] {
      SortedNewestFirst(s[..|s| - 1]);
      InsertKeepsOrder(SortNewestFirst(s[..|s| - 1]), s[|s| - 1]);
    }
  }

  /** The sort leaves an index that is already newest first as it is. */
  lemma {:induction false} SortKeepsSorted(s: seq<BP.Recipe>)
    requires NewestFirst(s)
    ensures SortNewestFirst(s) == s
    decreases |s|
  {
    if s != [] {
      var n := |s| - 1;
      assert NewestFirst(s[..n]);
      SortKeepsSorted(s[..n]);
      AppendOldest(s[..n], s[n]);
      assert s[..n] + [s[n]] == s;
    }
  }

  lemma {:induction false} AppendOldest(sorted: seq<BP.Recipe>, e: BP.Recipe)
    requires forall i :: 0 <= i < |sorted| ==> !Older(sorted[i], e)
    ensures InsertByDate(sorted, e) == sorted + [e]
    decreases |sorted|
  {
    if sorted != [] {
      AppendOldest(sorted[1..], e);
      assert [sorted[0]] + (sorted[1..] + [e]) == sorted + [e];
    }
  }

  // ---- the handler ----

  /** The listing request: answered ok with a JSON value (None when not an array),
      answered with a failing status, or thrown. */
  datatype Listing = Listed(items: Option<seq<ListItem>>) | ListFailed(status: int) | ListThrew

  /** The GET of recipes.json for its sha: ok (with the sha, "" when absent), not ok,
      or thrown. */
  datatype ShaRead = ShaFetched(sha: string) | ShaNotOk | ShaThrew

  /** What GitHub answers, request by request; `commitSha` is the PUT's `commit.sha`
      ("" when absent). */
  datatype GitHub = GitHub(listing: Listing, fetches: seq<FileRead>, shaRead: ShaRead, put: BP.Response, commitSha: string)

  /** One read per listed post. */
  predicate Answers(gh: GitHub) {
    gh.listing.Listed? ==> |gh.fetches| == |BlogFiles(gh.listing.items)|
  }

  datatype Summary = Summary(slug: string, title: string)

  function Summaries(recipes: seq<BP.Recipe>): (r: seq<Summary>)
    ensures |r| == |recipes|
    ensures forall i :: 0 <= i < |r| ==> r[i] == Summary(recipes[i].slug, recipes[i].title)
  {
    seq(|recipes|, i requires 0 <= i < |recipes| => Summary(recipes[i].slug, recipes[i].title))
  }

  /** Replies carrying a thrown error's message stand for it by `Failed`; the message
      itself is left out. */
  datatype Body =
    | NoBody
    | ErrorOnly(error: string)
    | ErrorWithMessage(error: string, message: string)
    | Failed(error: string)
    | NothingToSync(message: string, recipesCount: nat)
    | Synced(recipesCount: nat, commitSha: string, recipes: seq<Summary>)

  datatype HttpReply = HttpReply(status: int, headers: map<string, string>, body: Body)

  /** The reply and the body of the index PUT, if one was sent. */
  datatype SyncRun = SyncRun(reply: HttpReply, put: Option<BP.IndexPut>)

  const HandlerCors: map<string, string> :=
    map[Cors.AllowOrigin := "*", Cors.AllowMethods := "GET, POST, OPTIONS", Cors.AllowHeaders := "Content-Type"]

  const MethodMessage: string := "Method not allowed. Use GET or POST."
  const CredentialsError: string := "GitHub credentials not configured"
  const CredentialsMessage: string := "GITHUB_TOKEN and GITHUB_REPO must be set in environment variables"
  const ListError: string := "Failed to list blog files"
  const SyncError: string := "Failed to sync recipes"
  const NoDirectoryMessage: string := "No blogs directory found. recipes.json will be created when first blog is generated."
  const NoFilesMessage: string := "No blog files found. recipes.json will be created when first blog is generated."

  function Reply(status: int, body: Body): HttpReply {
    HttpReply(status, HandlerCors, body)
  }

  /** The sha sent with the PUT: the fetched file's, "" when the GET was not ok or threw. */
  function IndexSha(read: ShaRead): (sha: string)
    ensures sha != "" ==> read.ShaFetched? && sha == read.sha
  {
    if read.ShaFetched? then read.sha else ""
  }

  /** The index the handler writes: the posts' entries, newest first. */
  function SyncedIndex(files: seq<ListItem>, fetches: seq<FileRead>, site: string, today: string): seq<BP.Recipe>
    requires |fetches| == |files|
  {
    SortNewestFirst(Entries(files, fetches, site, today))
  }

  /** One request; `today` is the ISO date of the call. */
  function Sync(httpMethod: string, env: BP.GitHubEnv, today: string, gh: GitHub): (run: SyncRun)
    requires Answers(gh)
    ensures run.reply.headers == HandlerCors
  {
    if httpMethod == "OPTIONS" then SyncRun(Reply(200, NoBody), None)
    else if httpMethod != "POST" && httpMethod != "GET" then SyncRun(Reply(405, ErrorOnly(MethodMessage)), None)
    else if env.token == "" || env.repo == "" then
      SyncRun(Reply(500, ErrorWithMessage(CredentialsError, CredentialsMessage)), None)
    else if gh.listing.ListThrew? then SyncRun(Reply(500, Failed(ListError)), None)
    else if gh.listing.ListFailed? then
      if gh.listing.status == 404 then SyncRun(Reply(200, NothingToSync(NoDirectoryMessage, 0)), None)
      else SyncRun(Reply(500, Failed(ListError)), None)
    else
      var files := BlogFiles(gh.listing.items);
      if files == [] then SyncRun(Reply(200, NothingToSync(NoFilesMessage, 0)), None)
      else
        var recipes := SyncedIndex(files, gh.fetches, BP.PublicSiteUrl, today);
        var put := BP.PutOf(BP.IndexState(recipes, IndexSha(gh.shaRead)));
        if BP.Succeeded(gh.put) then
          SyncRun(Reply(200, Synced(|recipes|, gh.commitSha, Summaries(recipes))), Some(put))
        else SyncRun(Reply(500, Failed(SyncError)), Some(put))
  }

  /** A preflight is an empty 200; a method other than GET and POST is a 405; missing
      credentials are a 500; none of these writes anything. */
  lemma RequestChecks(httpMethod: string, env: BP.GitHubEnv, today: string, gh: GitHub)
    requires Answers(gh)
    ensures httpMethod == "OPTIONS" ==> Sync(httpMethod, env, today, gh) == SyncRun(Reply(200, NoBody), None)
    ensures httpMethod != "OPTIONS" && httpMethod != "GET" && httpMethod != "POST" ==>
              Sync(httpMethod, env, today, gh) == SyncRun(Reply(405, ErrorOnly(MethodMessage)), None)
    ensures (httpMethod == "GET" || httpMethod == "POST") && (env.token == "" || env.repo == "") ==>
              Sync(httpMethod, env, today, gh).reply.status == 500 && Sync(httpMethod, env, today, gh).put.None?
  {
  }

  /** The index is written exactly when an accepted request with credentials finds at
      least one post; a missing blogs directory or a listing without posts is a 200 with
      recipesCount 0. */
  lemma WritesOnlyWithPosts(httpMethod: string, env: BP.GitHubEnv, today: string, gh: GitHub)
    requires Answers(gh)
    requires httpMethod == "GET" || httpMethod == "POST"
    requires env.token != "" && env.repo != ""
    ensures var run := Sync(httpMethod, env, today, gh);
            run.put.Some? <==> gh.listing.Listed? && BlogFiles(gh.listing.items) != []
    ensures var run := Sync(httpMethod, env, today, gh);
            (gh.listing == ListFailed(404) || (gh.listing.Listed? && BlogFiles(gh.listing.items) == [])) ==>
              run.reply.status == 200 && run.reply.body.NothingToSync? && run.reply.body.recipesCount == 0
  {
  }

  /** The written index holds one entry per post that did not throw, newest first. */
  lemma SyncedIndexContents(files: seq<ListItem>, fetches: seq<FileRead>, site: string, today: string)
    requires |fetches| == |files|
    ensures var index := SyncedIndex(files, fetches, site, today);
            NewestFirst(index) && multiset(index) == multiset(Entries(files, fetches, site, today))
            && |index| == Kept(fetches)
  {
    var entries := Entries(files, fetches, site, today);
    SortedNewestFirst(entries);
    EntriesCount(files, fetches, site, today);
    assert |multiset(SortNewestFirst(entries))| == |multiset(entries)|;
  }

  /** The PUT carries the posts' index (see SyncedIndexContents) and a sha exactly when
      the index file was fetched and had one. */
  lemma PutContents(httpMethod: string, env: BP.GitHubEnv, today: string, gh: GitHub)
    requires Answers(gh)
    requires httpMethod == "GET" || httpMethod == "POST"
    requires env.token != "" && env.repo != ""
    requires gh.listing.Listed? && BlogFiles(gh.listing.items) != []
    ensures var put := Sync(httpMethod, env, today, gh).put.value;
            put.recipes == SyncedIndex(BlogFiles(gh.listing.items), gh.fetches, BP.PublicSiteUrl, today)
    ensures var put := Sync(httpMethod, env, today, gh).put.value;
            put.sha.Some? <==> gh.shaRead.ShaFetched? && gh.shaRead.sha != ""
  {
    var index := SyncedIndex(BlogFiles(gh.listing.items), gh.fetches, BP.PublicSiteUrl, today);
    var put := BP.PutOf(BP.IndexState(index, IndexSha(gh.shaRead)));
    assert Sync(httpMethod, env, today, gh).put == Some(put);
  }

  /** The reply is a 200 listing what was written exactly when the PUT succeeded. */
  lemma ReplyFollowsPut(httpMethod: string, env: BP.GitHubEnv, today: string, gh: GitHub)
    requires Answers(gh)
    requires Sync(httpMethod, env, today, gh).put.Some?
    ensures var run := Sync(httpMethod, env, today, gh);
            run.reply.status == 200 <==> BP.Succeeded(gh.put)
    ensures var run := Sync(httpMethod, env, today, gh);
            BP.Succeeded(gh.put) ==>
              run.reply.body.Synced? && run.reply.body.recipesCount == |run.put.value.recipes|
              && run.reply.body.recipes == Summaries(run.put.value.recipes)
    ensures var run := Sync(httpMethod, env, today, gh);
            !BP.Succeeded(gh.put) ==> run.reply.body == Failed(SyncError)
  {
  }
}
