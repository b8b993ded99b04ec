/**
 * The home page's document listing (`getDocs`): a directory listing of the
 * docs folder becomes one summary per markdown file, with the slug taken from
 * the file name and the title, date and tags taken from the parsed front
 * matter, falling back to defaults. Any failure turns the whole result into
 * the empty listing.
 *
 * The directory read, the file reads and the front-matter parser are inputs:
 * `listing` is what `readdir` returned (`None` when it threw), and `files`
 * maps each file name whose read and parse succeeded to the parser's
 * `(data, content)` pair; a listed markdown file missing from `files` is a
 * read or parse failure.
 */
module DocsListing {
  import opened Opt
  import opened Text
  import Seqs

  /** The front-matter fields the listing looks at; `None` is an absent key. */
  datatype FrontMatter = FrontMatter(title: Option<string>, date: Option<string>, tags: Option<seq<string>>)

  /** What the front-matter parser returns for one file. */
  datatype Parsed = Parsed(data: FrontMatter, content: string)

  /** One card of the listing; the body is deliberately not part of it. */
  datatype Summary = Summary(slug: string, title: string, date: Option<string>, tags: seq<string>)

  const Extension: string := ".md"

  predicate IsMarkdown(name: string) {
    EndsWith(name, Extension)
  }

  /** The names the listing keeps, in directory order. */
  function MarkdownFiles(names: seq<string>): seq<string> {
    Seqs.Filter(names, IsMarkdown)
  }

  /** `file.replace('.md', '')`: the first occurrence of the extension is deleted. */
  function Slug(name: string): string {
    ReplaceFirst(name, Extension, "")
  }

  /** JavaScript truthiness of a string-valued front-matter key. */
  predicate Truthy(v: Option<string>) {
    v.Some? && v.value != ""
  }

  /** `content.split('\n')[0].replace('#', '').trim()`. */
  function FallbackTitle(content: string): string {
    Trim(ReplaceFirst(FirstLine(content), "#", ""))
  }

  /** `data.title || <fallback>`. */
  function Title(p: Parsed): string {
    if Truthy(p.data.title) then p.data.title.value else FallbackTitle(p.content)
  }

  /** `data.date || null`. */
  function Date(data: FrontMatter): Option<string> {
    if Truthy(data.date) then data.date else None
  }

  /** `data.tags || []`: an array is always truthy, so only an absent key defaults. */
  function Tags(data: FrontMatter): seq<string> {
    if data.tags.Some? then data.tags.value else []
  }

  function Summarize(name: string, p: Parsed): Summary {
    Summary(Slug(name), Title(p), Date(p.data), Tags(p.data))
  }

  /** Every markdown file of the listing was read and parsed. */
  predicate AllRead(md: seq<string>, files: map<string, Parsed>) {
    forall i :: 0 <= i < |md| ==> md[i] in files
  }

  function SummarizeAll(md: seq<string>, files: map<string, Parsed>): (r: seq<Summary>)
    requires AllRead(md, files)
    ensures |r| == |md|
    ensures forall i :: 0 <= i < |md| ==> r[i] == Summarize(md[i], files[md[i]])
  {
    if md == [] then [] else [Summarize(md[0], files[md[0]])] + SummarizeAll(md[1..], files)
  }

  /** `getDocs()`. */
  function GetDocs(listing: Option<seq<string>>, files: map<string, Parsed>): (r: seq<Summary>)
    ensures listing.None? ==> r == []
    ensures listing.Some? && !AllRead(MarkdownFiles(listing.value), files) ==> r == []
    ensures listing.Some? && AllRead(MarkdownFiles(listing.value), files) ==>
      var md := MarkdownFiles(listing.value);
      |r| == |md| && forall i :: 0 <= i < |md| ==> r[i] == Summarize(md[i], files[md[i]])
  {
    match listing
    case None => []
    case Some(names) =>
      var md := MarkdownFiles(names);
      if AllRead(md, files) then SummarizeAll(md, files) else []
  }

  // ---------------------------------------------------------------------------
  // Properties of the listing
  // ---------------------------------------------------------------------------

  /** A successful listing has one summary per markdown file and none for any other entry. */
  lemma OneSummaryPerMarkdownFile(names: seq<string>, files: map<string, Parsed>)
    requires AllRead(MarkdownFiles(names), files)
    ensures forall n :: n in names && IsMarkdown(n) ==>
      exists d :: d in GetDocs(Some(names), files) && d == Summarize(n, files[n])
    ensures forall d :: d in GetDocs(Some(names), files) ==>
      exists n :: n in names && IsMarkdown(n) && n in files && d == Summarize(n, files[n])
  {
    var md := MarkdownFiles(names);
    var r := GetDocs(Some(names), files);
    forall n | n in names && IsMarkdown(n)
      ensures exists d :: d in r && d == Summarize(n, files[n])
    {
      var j :| 0 <= j < |names| && names[j] == n;
      assert n in md;
      var i :| 0 <= i < |md| && md[i] == n;
      assert r[i] in r;
    }
    forall d | d in r
      ensures exists n :: n in names && IsMarkdown(n) && n in files && d == Summarize(n, files[n])
    {
      var i :| 0 <= i < |r| && r[i] == d;
      assert md[i] in names && IsMarkdown(md[i]);
    }
  }

  lemma {:induction false} SummarizeAllConcat(ma: seq<string>, mb: seq<string>, files: map<string, Parsed>)
    requires AllRead(ma + mb, files)
    ensures AllRead(ma, files) && AllRead(mb, files)
    ensures SummarizeAll(ma + mb, files) == SummarizeAll(ma, files) + SummarizeAll(mb, files)
  {
    assert forall i :: 0 <= i < |ma| ==> ma[i] == (ma + mb)[i];
    assert forall i :: 0 <= i < |mb| ==> mb[i] == (ma + mb)[|ma| + i];
    if ma != [] {
      assert (ma + mb)[1..] == ma[1..] + mb;
      SummarizeAllConcat(ma[1..], mb, files);
    } else {
      assert ma + mb == mb;
    }
  }

  /** Summaries follow the directory order: listing `a` then `b` gives the summaries of `a` then those of `b`. */
  lemma ListingOrder(a: seq<string>, b: seq<string>, files: map<string, Parsed>)
    requires AllRead(MarkdownFiles(a + b), files)
    ensures AllRead(MarkdownFiles(a), files) && AllRead(MarkdownFiles(b), files)
    ensures GetDocs(Some(a + b), files) == GetDocs(Some(a), files) + GetDocs(Some(b), files)
  {
    Seqs.FilterConcat(a, b, IsMarkdown);
    SummarizeAllConcat(MarkdownFiles(a), MarkdownFiles(b), files);
  }

  /** One unreadable markdown file empties the whole listing, whatever else was read. */
  lemma UnreadableFileEmptiesListing(names: seq<string>, files: map<string, Parsed>, bad: string)
    requires bad in names && IsMarkdown(bad) && bad !in files
    ensures GetDocs(Some(names), files) == []
  {
    var md := MarkdownFiles(names);
    var j :| 0 <= j < |names| && names[j] == bad;
    assert bad in md;
    var i :| 0 <= i < |md| && md[i] == bad;
    assert !AllRead(md, files);
  }

  /** An entry whose name does not end in `.md` never needs to be readable. */
  lemma NonMarkdownIgnored(names: seq<string>, files: map<string, Parsed>, other: string)
    requires !IsMarkdown(other)
    ensures GetDocs(Some(names + [other]), files) == GetDocs(Some(names), files)
  {
    Seqs.FilterConcat(names, [other], IsMarkdown);
    assert MarkdownFiles([other]) == [];
    assert MarkdownFiles(names + [other]) == MarkdownFiles(names);
  }

  // ---------------------------------------------------------------------------
  // Properties of the slug
  // ---------------------------------------------------------------------------

  /** A name in which `.md` occurs only as the suffix loses exactly its last three characters. */
  lemma SlugOfPlainName(name: string)
    requires IsMarkdown(name)
    requires forall j :: OccursAt(name, Extension, j) ==> j == |name| - 3
    ensures Slug(name) == name[..|name| - 3]
    ensures Slug(name) + Extension == name
  {
    assert OccursAt(name, Extension, |name| - 3);
    assert IsFirstOccurrence(name, Extension, |name| - 3);
    assert name[|name| - 3 + 3..] == [];
  }

  /** With an earlier `.md` in the name, that earlier one is deleted and any later one stays. */
  lemma SlugDeletesFirstOccurrence(stem: string, rest: string)
    requires forall j :: !OccursAt(stem, Extension, j)
    ensures Slug(stem + Extension + rest) == stem + rest
  {
    var s := stem + Extension + rest;
    assert s[|stem|..|stem| + 3] == Extension;
    forall k | 0 <= k < |stem| ensures !OccursAt(s, Extension, k) {
      if k + 3 <= |stem| {
        assert s[k..k + 3] == stem[k..k + 3];
        assert !OccursAt(stem, Extension, k);
      } else {
        assert s[|stem|] == '.';
        assert Extension[1] == 'm' && Extension[2] == 'd';
        assert s[k..k + 3][|stem| - k] == s[|stem|];
      }
    }
    assert IsFirstOccurrence(s, Extension, |stem|);
    assert s[..|stem|] == stem;
    assert s[|stem| + 3..] == rest;
  }

  /** `notes.md.md` has the slug `notes.md`: only the first `.md` goes. */
  lemma DoubleExtensionSlug()
    ensures Slug("notes.md.md") == "notes.md"
  {
    NoOccurrence("notes", Extension);
    SlugDeletesFirstOccurrence("notes", ".md");
    assert "notes" + Extension + ".md" == "notes.md.md";
    assert "notes" + ".md" == "notes.md";
  }

  /** `guide.md` has the slug `guide`. */
  lemma PlainSlug()
    ensures Slug("guide.md") == "guide"
  {
    NoOccurrence("guide", Extension);
    SlugDeletesFirstOccurrence("guide", "");
    assert "guide" + Extension + "" == "guide.md";
  }

  /** `a.md.bak` does not end in `.md`, so it is not listed at all. */
  lemma BackupNotListed()
    ensures !IsMarkdown("a.md.bak")
  {
    assert "a.md.bak"[8 - 3..] == "bak";
  }

  // ---------------------------------------------------------------------------
  // Properties of the title, date and tags
  // ---------------------------------------------------------------------------

  /** A truthy front-matter title is used verbatim; the body is not consulted. */
  lemma FrontMatterTitleWins(p: Parsed, q: Parsed)
    requires p.data.title == q.data.title && Truthy(p.data.title)
    ensures Title(p) == p.data.title.value == Title(q)
  {
  }

  /** An absent or empty front-matter title falls back to the body, because the test is truthiness. */
  lemma EmptyTitleFallsBack(p: Parsed)
    requires p.data.title == None || p.data.title == Some("")
    ensures Title(p) == FallbackTitle(p.content)
  {
  }

  /** The first line of `line`, a line feed and anything after it, is `line`. */
  lemma {:induction false} FirstLineOf(line: string, body: string)
    requires '\n' !in line
    ensures FirstLine(line + "\n" + body) == line
  {
    if line == [] {
      assert line + "\n" + body == "\n" + body;
    } else {
      assert (line + "\n" + body)[1..] == line[1..] + "\n" + body;
      FirstLineOf(line[1..], body);
    }
  }

  /** Without a line feed, the whole content is the first line. */
  lemma {:induction false} FirstLineOfSingle(line: string)
    requires '\n' !in line
    ensures FirstLine(line) == line
  {
    if line != [] {
      FirstLineOfSingle(line[1..]);
    }
  }

  /** Removing the first `#` of a line that starts with one drops just that character. */
  lemma DropLeadingHash(line: string)
    ensures ReplaceFirst("#" + line, "#", "") == line
  {
    var s := "#" + line;
    assert OccursAt(s, "#", 0);
    assert IsFirstOccurrence(s, "#", 0);
    assert s[1..] == line;
    assert s[..0] + "" + s[0 + 1..] == line;
  }

  /** A first line `#rest` gives the title `rest` trimmed: only the first `#` goes. */
  lemma HeadingTitle(line: string, body: string)
    requires '\n' !in line
    ensures FallbackTitle("#" + line + "\n" + body) == Trim(line)
  {
    assert '\n' !in "#" + line;
    FirstLineOf("#" + line, body);
    DropLeadingHash(line);
  }

  /** The same for content that is a single heading line. */
  lemma HeadingOnlyTitle(line: string)
    requires '\n' !in line
    ensures FallbackTitle("#" + line) == Trim(line)
  {
    assert '\n' !in "#" + line;
    FirstLineOfSingle("#" + line);
    DropLeadingHash(line);
  }

  /** A markdown heading `# t` over text without surrounding spaces gives the title `t`. */
  lemma HeadingText(t: string)
    requires '\n' !in t
    requires t == [] || (!IsSpace(t[0]) && !IsSpace(t[|t| - 1]))
    ensures FallbackTitle("# " + t) == t
  {
    assert "# " + t == "#" + (" " + t);
    HeadingOnlyTitle(" " + t);
    TrimLeadingBlank(t);
  }

  /** The same heading followed by a body. */
  lemma HeadingTextWithBody(t: string, body: string)
    requires '\n' !in t
    requires t == [] || (!IsSpace(t[0]) && !IsSpace(t[|t| - 1]))
    ensures FallbackTitle("# " + t + "\n" + body) == t
  {
    assert "# " + t + "\n" + body == "#" + (" " + t) + "\n" + body;
    HeadingTitle(" " + t, body);
    TrimLeadingBlank(t);
  }

  /** `#t`, with no blank, gives `t` too. */
  lemma HashText(t: string)
    requires '\n' !in t
    requires t == [] || (!IsSpace(t[0]) && !IsSpace(t[|t| - 1]))
    ensures FallbackTitle("#" + t) == t
  {
    HeadingOnlyTitle(t);
    TrimUnpadded(t);
  }

  /** `# Hi` gives `Hi`. */
  lemma HeadingExample()
    ensures FallbackTitle("# Hi") == "Hi"
  {
    assert "# Hi" == "# " + "Hi";
    HeadingText("Hi");
  }

  /** `# Hi` followed by a blank line and a body gives `Hi`. */
  lemma HeadingWithBodyExample()
    ensures FallbackTitle("# Hi\n\nHello") == "Hi"
  {
    assert "# Hi\n\nHello" == "# " + "Hi" + "\n" + "\nHello";
    HeadingTextWithBody("Hi", "\nHello");
  }

  /** `## Hi` gives `# Hi`: only the first `#` is removed. */
  lemma DoubleHeadingExample()
    ensures FallbackTitle("## Hi") == "# Hi"
  {
    assert "## Hi" == "#" + "# Hi";
    HashText("# Hi");
  }

  /** Missing or falsy date and tags take their defaults; present ones pass through. */
  lemma Defaults(data: FrontMatter)
    ensures data.date == None || data.date == Some("") ==> Date(data) == None
    ensures Truthy(data.date) ==> Date(data) == data.date
    ensures data.tags == None ==> Tags(data) == []
    ensures data.tags.Some? ==> Tags(data) == data.tags.value
  {
  }
}
