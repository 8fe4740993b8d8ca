/**
 * The library scan of MusicPlayerApp as a specification on values: the
 * filesystem is a finite tree, and the scan of a directory is the depth-first,
 * listing-order sequence of the plain files whose lower-cased name ends with
 * one of the configured extensions.
 */
module FileTree {
  import opened Wrappers

  /** A filesystem entry as java.io.File sees it.  A directory whose listing
      cannot be read (listFiles returns null) is `Unreadable`; every entry that
      is not a directory (regular files, devices, ...) is `Plain`. */
  datatype Node =
    | Plain(name: string)
    | Dir(name: string, listing: seq<Node>)
    | Unreadable(name: string)

  /** File.isDirectory */
  predicate IsDirectory(n: Node) {
    n.Dir? || n.Unreadable?
  }

  /** File.listFiles: the children of a readable directory, null otherwise */
  function ListFiles(n: Node): (r: Option<seq<Node>>)
    ensures r.Some? <==> n.Dir?
    ensures r.Some? ==> forall i :: 0 <= i < |r.value| ==> r.value[i] < n
  {
    match n
    case Dir(_, files) => Some(files)
    case _ => None
  }

  /** The extensions searchMusicFiles passes to every root: no leading dot. */
  const Extensions: seq<string> := ["mp3", "wav"]

  /** Lower-casing of one character, restricted to ASCII letters. */
  function LowerChar(c: char): (r: char)
    ensures !('A' <= r <= 'Z')
    ensures !('A' <= c <= 'Z') ==> r == c
  {
    if 'A' <= c <= 'Z' then (c as int - 'A' as int + 'a' as int) as char else c
  }

  /** String.toLowerCase over ASCII: the result holds no upper-case letter,
      keeps every other character, and equals `s` up to case. */
  function LowerName(s: string): (r: string)
    ensures |r| == |s|
    ensures forall i :: 0 <= i < |r| ==> !('A' <= r[i] <= 'Z')
    ensures forall i :: 0 <= i < |s| && !('A' <= s[i] <= 'Z') ==> r[i] == s[i]
    ensures forall i :: 0 <= i < |s| ==> LowerChar(r[i]) == LowerChar(s[i])
  {
    seq(|s|, i requires 0 <= i < |s| => LowerChar(s[i]))
  }

  /** String.endsWith */
  predicate EndsWith(s: string, suffix: string) {
    |suffix| <= |s| && s[|s| - |suffix|..] == suffix
  }

  /** The test of a plain file: its lower-cased name ends with some extension. */
  predicate HasExtension(name: string, extensions: seq<string>) {
    exists k :: 0 <= k < |extensions| && EndsWith(LowerName(name), extensions[k])
  }

  /** Lower-casing twice is lower-casing once. */
  lemma LowerNameIdempotent(s: string)
    ensures LowerName(LowerName(s)) == LowerName(s)
  {
  }

  /** The extension test ignores case: two names that agree up to case,
      such as "Track.MP3" and "track.mp3", both match or both do not. */
  lemma HasExtensionIgnoresCase(a: string, b: string, extensions: seq<string>)
    requires |a| == |b|
    requires forall i :: 0 <= i < |a| ==> LowerChar(a[i]) == LowerChar(b[i])
    ensures HasExtension(a, extensions) == HasExtension(b, extensions)
  {
  }

  /** A name already lower-cased matches exactly when the name does. */
  lemma HasExtensionOfLowerName(name: string, extensions: seq<string>)
    ensures HasExtension(LowerName(name), extensions) == HasExtension(name, extensions)
  {
  }

  /** Only the name is lower-cased: an extension holding an upper-case letter,
      such as "MP3", never matches any name. */
  lemma UpperCaseExtensionNeverMatches(name: string, ext: string, k: nat)
    requires k < |ext| && 'A' <= ext[k] <= 'Z'
    ensures !EndsWith(LowerName(name), ext)
  {
  }

  /** What searchFilesInDirectory appends for one scanned directory entry:
      a directory is scanned in place, a plain file is kept at most once. */
  function Entry(file: Node, extensions: seq<string>): (r: seq<Node>)
    decreases file, 3
  {
    if IsDirectory(file) then CollectNode(file, extensions)
    else if HasExtension(file.name, extensions) then [file]
    else []
  }

  /** What searchFilesInDirectory appends for a non-null argument. */
  function CollectNode(dir: Node, extensions: seq<string>): (r: seq<Node>)
    decreases dir, 2
  {
    match dir
    case Dir(_, files) => CollectListing(files, extensions)
    case _ => []
  }

  /** What the loop over one directory listing appends, entry by entry. */
  function CollectListing(files: seq<Node>, extensions: seq<string>): (r: seq<Node>)
    decreases files, 1
  {
    if files == [] then []
    else CollectListing(files[..|files| - 1], extensions) + Entry(files[|files| - 1], extensions)
  }

  /** What searchFilesInDirectory(dir, extensions) appends to musicFiles;
      `None` is a null argument. */
  function Collect(dir: Option<Node>, extensions: seq<string>): (r: seq<Node>) {
    match dir
    case None => []
    case Some(n) => CollectNode(n, extensions)
  }

  /** What searchMusicFiles appends: the scans of the roots, in order. */
  function ScanRoots(roots: seq<Node>): (r: seq<Node>) {
    if roots == [] then []
    else ScanRoots(roots[..|roots| - 1]) + Collect(Some(roots[|roots| - 1]), Extensions)
  }

  // ---------------------------------------------------------------------------
  // Reference definition: an unfiltered depth-first walk, then a filter.

  /** Every plain file below a directory, depth-first in listing order. */
  function Walk(dir: Node): (r: seq<Node>)
    decreases dir, 1
  {
    match dir
    case Dir(_, files) => WalkListing(files)
    case _ => []
  }

  function WalkListing(files: seq<Node>): (r: seq<Node>)
    decreases files, 0
  {
    if files == [] then []
    else
      var last := files[|files| - 1];
      WalkListing(files[..|files| - 1]) + (if IsDirectory(last) then Walk(last) else [last])
  }

  /** The files of a sequence whose names carry one of the extensions. */
  function Matching(files: seq<Node>, extensions: seq<string>): (r: seq<Node>) {
    if files == [] then []
    else
      var last := files[|files| - 1];
      Matching(files[..|files| - 1], extensions)
      + (if HasExtension(last.name, extensions) then [last] else [])
  }

  // ---------------------------------------------------------------------------
  // Properties of the scan.

  lemma {:induction false} MatchingAppend(a: seq<Node>, b: seq<Node>, extensions: seq<string>)
    ensures Matching(a + b, extensions) == Matching(a, extensions) + Matching(b, extensions)
    decreases |b|
  {
    if b == [] {
      assert a + b == a;
    } else {
      var b' := b[..|b| - 1];
      assert (a + b)[..|a + b| - 1] == a + b';
      MatchingAppend(a, b', extensions);
    }
  }

  /** The scan is the unfiltered walk, filtered by extension. */
  lemma {:induction false} CollectIsFilteredWalk(dir: Node, extensions: seq<string>)
    ensures CollectNode(dir, extensions) == Matching(Walk(dir), extensions)
    decreases dir, 1
  {
    match dir
    case Dir(_, files) => CollectListingIsFilteredWalk(files, extensions);
    case _ =>
  }

  lemma {:induction false} CollectListingIsFilteredWalk(files: seq<Node>, extensions: seq<string>)
    ensures CollectListing(files, extensions) == Matching(WalkListing(files), extensions)
    decreases files, 0
  {
    if files != [] {
      var init, last := files[..|files| - 1], files[|files| - 1];
      CollectListingIsFilteredWalk(init, extensions);
      var tail := if IsDirectory(last) then Walk(last) else [last];
      MatchingAppend(WalkListing(init), tail, extensions);
      if IsDirectory(last) {
        CollectIsFilteredWalk(last, extensions);
      } else {
        assert Matching(tail, extensions) == Matching([], extensions) + (if HasExtension(last.name, extensions) then [last] else []) by {
          assert tail[..|tail| - 1] == [];
        }
      }
    }
  }

  /** The walk reaches plain files only: directories are entered, never listed. */
  lemma {:induction false} WalkOnlyPlain(dir: Node)
    ensures forall i :: 0 <= i < |Walk(dir)| ==> Walk(dir)[i].Plain?
    decreases dir, 1
  {
    match dir
    case Dir(_, files) => WalkListingOnlyPlain(files);
    case _ =>
  }

  lemma {:induction false} WalkListingOnlyPlain(files: seq<Node>)
    ensures forall i :: 0 <= i < |WalkListing(files)| ==> WalkListing(files)[i].Plain?
    decreases files, 0
  {
    if files != [] {
      var last := files[|files| - 1];
      WalkListingOnlyPlain(files[..|files| - 1]);
      if IsDirectory(last) {
        WalkOnlyPlain(last);
      }
    }
  }

  /** Each occurrence of a matching file is kept once; nothing else is kept. */
  lemma {:induction false} MatchingCount(files: seq<Node>, extensions: seq<string>, f: Node)
    ensures multiset(Matching(files, extensions))[f]
            == if HasExtension(f.name, extensions) then multiset(files)[f] else 0
  {
    if files != [] {
      var init, last := files[..|files| - 1], files[|files| - 1];
      MatchingCount(init, extensions, f);
      assert files == init + [last];
    }
  }

  /** The scan keeps exactly the plain files with a matching name, each as
      many times as the walk meets it and no more: no directory is ever
      appended, and a name that matches several extensions is appended once. */
  lemma CollectCount(dir: Node, extensions: seq<string>, f: Node)
    ensures multiset(CollectNode(dir, extensions))[f]
            == if f.Plain? && HasExtension(f.name, extensions) then multiset(Walk(dir))[f] else 0
  {
    CollectIsFilteredWalk(dir, extensions);
    MatchingCount(Walk(dir), extensions, f);
    if !f.Plain? {
      WalkOnlyPlain(dir);
      assert f !in Walk(dir);
    }
  }

  /** Every appended entry is a plain file whose name carries an extension. */
  lemma CollectSound(dir: Node, extensions: seq<string>)
    ensures forall i :: 0 <= i < |CollectNode(dir, extensions)| ==>
              CollectNode(dir, extensions)[i].Plain?
              && HasExtension(CollectNode(dir, extensions)[i].name, extensions)
  {
    forall i | 0 <= i < |CollectNode(dir, extensions)|
      ensures CollectNode(dir, extensions)[i].Plain?
      ensures HasExtension(CollectNode(dir, extensions)[i].name, extensions)
    {
      var f := CollectNode(dir, extensions)[i];
      assert f in multiset(CollectNode(dir, extensions));
      CollectCount(dir, extensions, f);
    }
  }

  lemma {:induction false} MatchingNone(files: seq<Node>, extensions: seq<string>)
    requires forall i :: 0 <= i < |files| ==> !HasExtension(files[i].name, extensions)
    ensures Matching(files, extensions) == []
  {
    if files != [] {
      MatchingNone(files[..|files| - 1], extensions);
    }
  }

  /** A tree without any matching file reachable through readable
      directories (in particular an empty or unreadable one) yields nothing. */
  lemma CollectEmptyWithoutMatches(dir: Node, extensions: seq<string>)
    requires forall i :: 0 <= i < |Walk(dir)| ==> !HasExtension(Walk(dir)[i].name, extensions)
    ensures CollectNode(dir, extensions) == []
  {
    CollectIsFilteredWalk(dir, extensions);
    MatchingNone(Walk(dir), extensions);
  }

  /** A listing split in two is scanned as the two halves one after the
      other: each subdirectory's matches stand at that subdirectory's place. */
  lemma {:induction false} CollectListingAppend(a: seq<Node>, b: seq<Node>, extensions: seq<string>)
    ensures CollectListing(a + b, extensions) == CollectListing(a, extensions) + CollectListing(b, extensions)
    decreases |b|
  {
    if b == [] {
      assert a + b == a;
    } else {
      var b' := b[..|b| - 1];
      assert (a + b)[..|a + b| - 1] == a + b';
      CollectListingAppend(a, b', extensions);
    }
  }

  /** The roots are scanned one after another, in the order listRoots gives. */
  lemma {:induction false} ScanRootsAppend(a: seq<Node>, b: seq<Node>)
    ensures ScanRoots(a + b) == ScanRoots(a) + ScanRoots(b)
    decreases |b|
  {
    if b == [] {
      assert a + b == a;
    } else {
      var b' := b[..|b| - 1];
      assert (a + b)[..|a + b| - 1] == a + b';
      ScanRootsAppend(a, b');
    }
  }

  /** The match is a bare, case-insensitive suffix test. */
  lemma ExtensionExamples()
    ensures HasExtension("Track.MP3", Extensions)
    ensures HasExtension("foomp3", Extensions)
    ensures !HasExtension("c.txt", Extensions)
  {
    assert LowerName("Track.MP3")[6..] == "mp3";
    assert EndsWith(LowerName("Track.MP3"), Extensions[0]);
    assert LowerName("foomp3")[3..] == "mp3";
    assert EndsWith(LowerName("foomp3"), Extensions[0]);
    assert LowerName("c.txt")[4] == 't';
  }

  /** Names already in lower case are unchanged by lower-casing. */
  lemma LowerNameOfLower(s: string)
    requires forall i :: 0 <= i < |s| ==> !('A' <= s[i] <= 'Z')
    ensures LowerName(s) == s
  {
  }

  lemma ExampleMp3()
    ensures Entry(Plain("a.mp3"), Extensions) == [Plain("a.mp3")]
  {
    LowerNameOfLower("a.mp3");
    assert "a.mp3"[2..] == Extensions[0];
  }

  lemma ExampleWav()
    ensures Entry(Plain("b.wav"), Extensions) == [Plain("b.wav")]
  {
    LowerNameOfLower("b.wav");
    assert "b.wav"[2..] == Extensions[1];
  }

  lemma ExampleTxt()
    ensures Entry(Plain("c.txt"), Extensions) == []
  {
    ExtensionExamples();
  }

  /** The sub-folder of the example scans to its one wav file. */
  lemma ExampleSubFolder()
    ensures Entry(Dir("sub", [Plain("b.wav")]), Extensions) == [Plain("b.wav")]
  {
    ExampleWav();
    assert [Plain("b.wav")][..0] == [];
  }

  /** /music/a.mp3, /music/sub/b.wav and /music/c.txt scan to a.mp3, b.wav. */
  lemma MusicFolderExample()
    ensures Collect(Some(Dir("music", [Plain("a.mp3"), Dir("sub", [Plain("b.wav")]), Plain("c.txt")])), Extensions)
            == [Plain("a.mp3"), Plain("b.wav")]
  {
    var a, b, c := Plain("a.mp3"), Plain("b.wav"), Plain("c.txt");
    var files := [a, Dir("sub", [b]), c];
    assert CollectListing(files[..1], Extensions) == [a] by {
      ExampleMp3();
      assert files[..1][..0] == [];
    }
    assert CollectListing(files[..2], Extensions) == [a, b] by {
      ExampleSubFolder();
      assert files[..2][..1] == files[..1];
    }
    assert CollectListing(files, Extensions) == [a, b] by {
      ExampleTxt();
      assert files[..3] == files;
      assert files[..3][..2] == files[..2];
    }
  }
}
