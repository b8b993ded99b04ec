/**
 * The prototypes page: `getPrototypes` keeps the directory entries of the
 * prototypes folder, and each card shows a display name derived from the
 * directory name (`-` becomes a space, word-initial characters are
 * upper-cased) and links to the raw directory name.
 *
 * The directory read is an input: `listing` is what `readdir` with file types
 * returned, `None` when it threw.
 */
module PrototypeListing {
  import opened Opt
  import opened Text
  import Seqs

  /** A directory entry as `readdir(..., { withFileTypes: true })` reports it. */
  datatype Dirent = Dirent(name: string, isDirectory: bool)

  predicate IsDirectory(d: Dirent) {
    d.isDirectory
  }

  function Name(d: Dirent): string {
    d.name
  }

  /**
   * `getPrototypes()`: a failed read gives no prototypes; otherwise every
   * listed name is a directory entry's name and every directory entry's name
   * is listed, and no more names than entries. `ListingOrder`,
   * `DirectoryListed` and `FilesDropped` add that each directory gives
   * exactly one name, in directory order.
   */
  function GetPrototypes(listing: Option<seq<Dirent>>): (r: seq<string>)
    ensures listing.None? ==> r == []
    ensures listing.Some? ==> |r| <= |listing.value|
    ensures listing.Some? ==> forall i :: 0 <= i < |r| ==>
      exists d :: d in listing.value && d.isDirectory && d.name == r[i]
    ensures listing.Some? ==> forall d :: d in listing.value && d.isDirectory ==> d.name in r
  {
    match listing
    case None => []
    case Some(entries) =>
      var dirs := Seqs.Filter(entries, IsDirectory);
      var names := Seqs.Map(dirs, Name);
      assert forall i :: 0 <= i < |names| ==> exists d :: d in entries && d.isDirectory && d.name == names[i] by {
        forall i | 0 <= i < |names|
          ensures exists d :: d in entries && d.isDirectory && d.name == names[i]
        {
          assert dirs[i] in entries && IsDirectory(dirs[i]);
        }
      }
      assert forall d :: d in entries && d.isDirectory ==> d.name in names by {
        forall d | d in entries && d.isDirectory
          ensures d.name in names
        {
          var j :| 0 <= j < |entries| && entries[j] == d;
          assert IsDirectory(entries[j]);
          var i :| 0 <= i < |dirs| && dirs[i] == d;
          assert names[i] == d.name;
        }
      }
      names
  }

  /** Listing order is kept: entries `a` then `b` give the names of `a` then those of `b`. */
  lemma ListingOrder(a: seq<Dirent>, b: seq<Dirent>)
    ensures GetPrototypes(Some(a + b)) == GetPrototypes(Some(a)) + GetPrototypes(Some(b))
  {
    Seqs.FilterConcat(a, b, IsDirectory);
    Seqs.MapConcat(Seqs.Filter(a, IsDirectory), Seqs.Filter(b, IsDirectory), Name);
  }

  /** A directory appended to the listing adds its own name once, at the end. */
  lemma DirectoryListed(entries: seq<Dirent>, dir: string)
    ensures GetPrototypes(Some(entries + [Dirent(dir, true)])) == GetPrototypes(Some(entries)) + [dir]
  {
    var d := Dirent(dir, true);
    assert Seqs.Filter([d], IsDirectory) == [d];
    assert Seqs.Map([d], Name) == [dir];
    assert GetPrototypes(Some([d])) == [dir];
    ListingOrder(entries, [d]);
  }

  /** A plain file in the prototypes folder is not a prototype. */
  lemma FilesDropped(entries: seq<Dirent>, file: string)
    ensures GetPrototypes(Some(entries + [Dirent(file, false)])) == GetPrototypes(Some(entries))
  {
    ListingOrder(entries, [Dirent(file, false)]);
    assert Seqs.Filter([Dirent(file, false)], IsDirectory) == [];
  }

  // ---------------------------------------------------------------------------
  // Display name: prototype.replace(/-/g, ' ').replace(/\b\w/g, l => l.toUpperCase())
  // ---------------------------------------------------------------------------

  /** `replace(/-/g, ' ')`. */
  function DashesToSpaces(s: string): (r: string)
    ensures |r| == |s|
    ensures forall i :: 0 <= i < |s| ==> r[i] == (if s[i] == '-' then ' ' else s[i])
  {
    if s == [] then [] else [if s[0] == '-' then ' ' else s[0]] + DashesToSpaces(s[1..])
  }

  /** `\b\w` matches at `i`: a word character at the start or just after a non-word character. */
  predicate WordStart(s: string, i: int)
    requires 0 <= i < |s|
  {
    IsWordChar(s[i]) && (i == 0 || !IsWordChar(s[i - 1]))
  }

  /**
   * `replace(/\b\w/g, l => l.toUpperCase())` on the rest of a string whose
   * previous character was a word character exactly when `afterWord` holds.
   */
  function CapitalizeWords(s: string, afterWord: bool): (r: string)
    ensures |r| == |s|
    ensures |s| > 0 ==> r[0] == if IsWordChar(s[0]) && !afterWord then UpperChar(s[0]) else s[0]
    ensures forall i :: 0 < i < |s| ==> r[i] == if WordStart(s, i) then UpperChar(s[i]) else s[i]
  {
    if s == [] then []
    else
      var c := if IsWordChar(s[0]) && !afterWord then UpperChar(s[0]) else s[0];
      var rest := CapitalizeWords(s[1..], IsWordChar(s[0]));
      assert forall i :: 1 < i < |s| ==> (WordStart(s, i) <==> WordStart(s[1..], i - 1));
      [c] + rest
  }

  /** The card title of a prototype directory. */
  function DisplayName(dir: string): (r: string)
    ensures |r| == |dir|
    ensures forall i :: 0 <= i < |dir| ==>
      var t := DashesToSpaces(dir);
      r[i] == if WordStart(t, i) then UpperChar(t[i]) else t[i]
  {
    CapitalizeWords(DashesToSpaces(dir), false)
  }

  /** The display name has no `-`: each one became a single space. */
  lemma DisplayNameHasNoDash(dir: string)
    ensures '-' !in DisplayName(dir)
    ensures forall i :: 0 <= i < |dir| && dir[i] == '-' ==> DisplayName(dir)[i] == ' '
  {
    var r, t := DisplayName(dir), DashesToSpaces(dir);
    forall i | 0 <= i < |r| ensures r[i] != '-' {
      assert t[i] != '-';
    }
  }

  /** Characters other than word starts are only changed from `-` to a space. */
  lemma DisplayNameKeepsOthers(dir: string, i: int)
    requires 0 <= i < |dir| && dir[i] != '-'
    requires !WordStart(DashesToSpaces(dir), i)
    ensures DisplayName(dir)[i] == dir[i]
  {
  }

  lemma {:induction false} NoDashesUnchanged(s: string)
    requires '-' !in s
    ensures DashesToSpaces(s) == s
  {
    if s != [] {
      NoDashesUnchanged(s[1..]);
    }
  }

  /** Re-deriving the display name of a display name changes nothing. */
  lemma DisplayNameIdempotent(dir: string)
    ensures DisplayName(DisplayName(dir)) == DisplayName(dir)
  {
    var r := DisplayName(dir);
    var t := DashesToSpaces(dir);
    DisplayNameHasNoDash(dir);
    NoDashesUnchanged(r);
    var rr := DisplayName(r);
    forall i | 0 <= i < |r| ensures rr[i] == r[i] {
      assert IsWordChar(r[i]) == IsWordChar(t[i]);
      assert i > 0 ==> IsWordChar(r[i - 1]) == IsWordChar(t[i - 1]);
      assert WordStart(r, i) == WordStart(t, i);
      UpperCharIdempotent(t[i]);
    }
  }

  /** The dash replacement works piece by piece. */
  lemma {:induction false} DashesConcat(a: string, b: string)
    ensures DashesToSpaces(a + b) == DashesToSpaces(a) + DashesToSpaces(b)
  {
    if a == [] {
      assert a + b == b;
    } else {
      assert (a + b)[1..] == a[1..] + b;
      DashesConcat(a[1..], b);
    }
  }

  /** Two dash-free words joined by `-` are shown joined by a space. */
  lemma SpacedAround(a: string, b: string)
    requires '-' !in a && '-' !in b
    ensures DashesToSpaces(a + "-" + b) == a + " " + b
  {
    DashesConcat(a, "-" + b);
    DashesConcat("-", b);
    NoDashesUnchanged(a);
    NoDashesUnchanged(b);
    assert a + "-" + b == a + ("-" + b);
    assert a + " " + b == a + (" " + b);
  }

  /** Every character of `s` is a lower-case ASCII letter. */
  predicate LowerWord(s: string) {
    |s| > 0 && forall k :: 0 <= k < |s| ==> 'a' <= s[k] <= 'z'
  }

  /** Two lower-case words separated by a space get their initials upper-cased and nothing else. */
  lemma CapitalizeTwoWords(a: string, b: string)
    requires LowerWord(a) && LowerWord(b)
    ensures CapitalizeWords(a + " " + b, false) == [UpperChar(a[0])] + a[1..] + " " + [UpperChar(b[0])] + b[1..]
  {
    var s := a + " " + b;
    var r := CapitalizeWords(s, false);
    var e := [UpperChar(a[0])] + a[1..] + " " + [UpperChar(b[0])] + b[1..];
    assert |e| == |s|;
    forall i | 0 <= i < |s|
      ensures r[i] == e[i]
    {
      if i < |a| {
        assert s[i] == a[i] && IsWordChar(a[i]);
        if i > 0 {
          assert s[i - 1] == a[i - 1] && IsWordChar(a[i - 1]);
        }
      } else if i == |a| {
        assert s[i] == ' ';
      } else {
        assert s[i] == b[i - |a| - 1] && IsWordChar(s[i]);
        if i > |a| + 1 {
          assert s[i - 1] == b[i - |a| - 2] && IsWordChar(s[i - 1]);
        } else {
          assert s[i - 1] == ' ';
        }
      }
    }
  }

  /** A two-word folder name `a-b` is shown as `A B`. */
  lemma TwoWordName(a: string, b: string)
    requires LowerWord(a) && LowerWord(b)
    ensures DisplayName(a + "-" + b) == [UpperChar(a[0])] + a[1..] + " " + [UpperChar(b[0])] + b[1..]
  {
    assert '-' !in a by {
      forall k | 0 <= k < |a| ensures a[k] != '-' { }
    }
    assert '-' !in b by {
      forall k | 0 <= k < |b| ensures b[k] != '-' { }
    }
    SpacedAround(a, b);
    CapitalizeTwoWords(a, b);
  }

  /** `bouncing-ball` is two lower-case words joined by `-`. */
  lemma BouncingBallWords()
    ensures LowerWord("bouncing") && LowerWord("ball")
    ensures "bouncing-ball" == "bouncing" + "-" + "ball"
  {
  }

  /** `Bouncing Ball` is those two words with their initials upper-cased. */
  lemma BouncingBallTitle()
    ensures "Bouncing Ball" == [UpperChar('b')] + "bouncing"[1..] + " " + [UpperChar('b')] + "ball"[1..]
  {
  }

  /** `bouncing-ball` is shown as `Bouncing Ball`. */
  lemma BouncingBallName()
    ensures DisplayName("bouncing-ball") == "Bouncing Ball"
  {
    BouncingBallWords();
    BouncingBallTitle();
    TwoWordName("bouncing", "ball");
  }

  // ---------------------------------------------------------------------------
  // Cards
  // ---------------------------------------------------------------------------

  /** What a prototype card shows and where it leads. */
  datatype Card = Card(href: string, title: string)

  const RoutePrefix: string := "/prototypes/"

  function CardFor(dir: string): Card {
    Card(RoutePrefix + dir, DisplayName(dir))
  }

  /** One card per listed prototype, in order; the link uses the raw directory name, not the display name. */
  function Cards(dirs: seq<string>): (r: seq<Card>)
    ensures |r| == |dirs|
    ensures forall i :: 0 <= i < |dirs| ==>
      StartsWith(r[i].href, RoutePrefix) && r[i].href[|RoutePrefix|..] == dirs[i] && r[i].title == DisplayName(dirs[i])
  {
    var r := Seqs.Map(dirs, CardFor);
    assert forall i :: 0 <= i < |dirs| ==> (RoutePrefix + dirs[i])[|RoutePrefix|..] == dirs[i];
    r
  }
}
