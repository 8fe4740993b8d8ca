# MusicPlayerApp: library scan and playback bookkeeping

MusicPlayerApp is a Swing music player. At start-up it walks every filesystem root to find music files. It shows them in a table and plays the selected one on a worker thread. This project models the two pieces of logic in `MusicPlayerApp` and proves what they do:

- **The library scan** (`searchMusicFiles`, `searchFilesInDirectory`). The filesystem is a finite tree of `FileTree.Node` values. A `Node` is a plain file, a readable directory with its listing, or a directory whose listing is null (`Unreadable`). `FileTree.Collect` gives, as a value, what one scan appends. It is the depth-first, listing-order sequence of non-directories whose ASCII-lower-cased name ends with `"mp3"` or `"wav"`. The suffix has no dot, so `foomp3` matches. `MusicPlayer.MusicPlayerApp.SearchFilesInDirectory` is the recursive method with its two nested loops and the `break`. It appends to the `musicFiles` field in place, and it is proved to append exactly `Collect`. An independent definition serves as a cross-check: the unfiltered walk (`Walk`) filtered by extension (`Matching`). It is proved equal to `Collect`, and the lemmas about soundness, completeness and multiplicity follow from that.
- **Playback bookkeeping** (`stopMusic`, `playMusic`, the play-button guard). The class keeps the fields `stopRequested`, `currentPlayer` and `currentThread`. It also keeps a ghost log of the external calls made on the handles: `Player.close`, `Thread.interrupt` and `Thread.start`. `Playback.Stop` and `Playback.Play` give each operation's effect as a value: the new fields and the calls made. The methods are proved to match them. The lemmas prove that stopping releases each handle exactly once and that a second stop does nothing. They also prove that playing always stops first.

Modules: `Wrappers` (Option, for null), `FileTree` (the scan as a specification), `Playback` (the handles, events and state transitions), `MusicPlayer` (the `MusicPlayerApp` class).

Behaviour of the code that the model keeps:
- A root that is not a directory is never tested against the extensions. Only entries of a directory listing are tested.
- Sibling order is the order of the listing held in the tree, as `listFiles` returns it.
- `stopMusic` closes the `Player`, not the `FileInputStream`. The worker closes the stream itself.

## Model

| member | source | states |
|---|---|---|
| `FileTree.ListFiles` | src/es/studium/pracitca2/MusicPlayerApp.java:88-89 | `listFiles` yields a listing exactly for a readable directory (null for a plain file or an unreadable directory), and every child it lists is strictly smaller than the directory, so the recursion terminates |
| `FileTree.LowerName` | src/es/studium/pracitca2/MusicPlayerApp.java:95 | the lower-cased name has the same length, holds no upper-case letter, keeps every other character, and agrees with the name up to case |
| `FileTree.LowerNameIdempotent` | src/es/studium/pracitca2/MusicPlayerApp.java:95 | lower-casing a lower-cased name changes nothing |
| `FileTree.HasExtensionIgnoresCase` | src/es/studium/pracitca2/MusicPlayerApp.java:95 | the extension test is case-insensitive: two names that agree up to case both match or both do not |
| `FileTree.HasExtensionOfLowerName` | src/es/studium/pracitca2/MusicPlayerApp.java:95 | a name matches exactly when its lower-cased form matches |
| `FileTree.UpperCaseExtensionNeverMatches` | src/es/studium/pracitca2/MusicPlayerApp.java:95 | only the name is lower-cased, so an extension holding an upper-case letter (such as `MP3`) matches no name |
| `FileTree.CollectIsFilteredWalk` | src/es/studium/pracitca2/MusicPlayerApp.java:86-104 | what the scan of a directory appends equals the depth-first, listing-order walk of its files filtered by the lower-cased suffix test |
| `FileTree.CollectListingIsFilteredWalk` | src/es/studium/pracitca2/MusicPlayerApp.java:90-101 | the same equality for one directory listing, entry by entry, with a subdirectory's walk inserted at the subdirectory's position |
| `FileTree.WalkOnlyPlain` | src/es/studium/pracitca2/MusicPlayerApp.java:91-92 | the walk yields only non-directories: directories are entered, never listed |
| `FileTree.MatchingCount` | src/es/studium/pracitca2/MusicPlayerApp.java:94-98 | the extension filter keeps each file occurrence exactly once if its name matches some extension, and never otherwise |
| `FileTree.CollectCount` | src/es/studium/pracitca2/MusicPlayerApp.java:90-98 | a node occurs in the scan result exactly as often as the walk meets it if it is a plain file with a matching name, and never otherwise (no directory is ever appended) |
| `FileTree.CollectSound` | src/es/studium/pracitca2/MusicPlayerApp.java:91-96 | every appended entry is a non-directory whose lower-cased name ends with one of the extensions |
| `FileTree.CollectEmptyWithoutMatches` | src/es/studium/pracitca2/MusicPlayerApp.java:87-89 | a tree with no matching file reachable through readable directories (empty, unreadable, or holding only other files) appends nothing |
| `FileTree.CollectListingAppend` | src/es/studium/pracitca2/MusicPlayerApp.java:90-92 | scanning a listing split in two appends the first half's matches followed by the second half's |
| `FileTree.ScanRootsAppend` | src/es/studium/pracitca2/MusicPlayerApp.java:78-81 | the roots are scanned one after another: the scan of `a + b` is the scan of `a` followed by the scan of `b` |
| `FileTree.ExtensionExamples` | src/es/studium/pracitca2/MusicPlayerApp.java:95 | the test is a bare case-insensitive suffix: `Track.MP3` and `foomp3` match, `c.txt` does not |
| `FileTree.LowerNameOfLower` | src/es/studium/pracitca2/MusicPlayerApp.java:95 | lower-casing leaves a name with no upper-case letter unchanged |
| `FileTree.MusicFolderExample` | src/es/studium/pracitca2/MusicPlayerApp.java:86-104 | `/music` holding `a.mp3`, `sub/b.wav` and `c.txt` scans to `a.mp3`, `b.wav`, in that order |
| `MusicPlayer.MusicPlayerApp.SearchFilesInDirectory` | src/es/studium/pracitca2/MusicPlayerApp.java:86-104 | appends to `musicFiles` exactly `Collect(dir, extensions)`, keeps the old entries in place and touches no other field; a null, non-directory or unreadable argument appends nothing. The inner loop over the extensions appends a matching file once: its invariant says nothing was appended for the extensions tried so far, and the `break` at line 97 leaves the loop right after the one append |
| `MusicPlayer.MusicPlayerApp.SearchMusicFiles` | src/es/studium/pracitca2/MusicPlayerApp.java:77-83 | appends the scans of the roots with the extensions `{"mp3", "wav"}`, concatenated in root order |
| `MusicPlayer.MusicPlayerApp.constructor` | src/es/studium/pracitca2/MusicPlayerApp.java:21-31 | a new application holds exactly the scan of the roots, no player, no thread, a clear flag and an empty call log |
| `MusicPlayer.MusicPlayerApp.StopMusic` | src/es/studium/pracitca2/MusicPlayerApp.java:136-146 | sets the flag and clears both handles. It logs a close of the previous player and an interrupt of the previous thread, each only when that handle was non-null |
| `MusicPlayer.MusicPlayerApp.PlayMusic` | src/es/studium/pracitca2/MusicPlayerApp.java:114-133 | for a valid index: stops first, then clears the flag and installs a fresh worker for `musicFiles[index]`. The log holds the stop's releases followed by the worker's start |
| `MusicPlayer.MusicPlayerApp.OnPlayButton` | src/es/studium/pracitca2/MusicPlayerApp.java:54-62 | with no row selected (-1) nothing changes; otherwise it plays the selected file as `PlayMusic` does |
| `MusicPlayer.MusicPlayerApp.WorkerOpensPlayer` | src/es/studium/pracitca2/MusicPlayerApp.java:122-123 | the worker stores a fresh player on its own file in `currentPlayer`, whether or not it is still the current thread |
| `Playback.StopReleasesOnce` | src/es/studium/pracitca2/MusicPlayerApp.java:136-146 | after a stop nothing is playing and the flag is set. A non-null player is closed exactly once and a non-null thread interrupted exactly once, player first. No other call is made |
| `Playback.StopIdempotent` | src/es/studium/pracitca2/MusicPlayerApp.java:136-146 | a second stop changes no field and makes no call |
| `Playback.PlayStopsFirst` | src/es/studium/pracitca2/MusicPlayerApp.java:114-132 | every call made before the new worker's start releases a handle of the previous session, and every such handle is released. Afterwards the new worker is current, the flag is clear and no player is installed |
| `Playback.PlayThenPlay` | src/es/studium/pracitca2/MusicPlayerApp.java:114-146 | playing A then B leaves only B's worker current. The second play interrupts A's worker and then starts B's, and makes no other call |

## Left out

- The Swing interface is not modelled: `initComponents`, `updateTable`, `start`, `main`, the table and the stop-button listener (which only calls `stopMusic`). The table is assumed to show one row per entry of `musicFiles`, which is why `OnPlayButton` requires `-1 <= selectedRow < |musicFiles|`.
- A null result of `File.listRoots()` is not modelled: the source would throw a NullPointerException at line 79, since only `listFiles` is null-checked. `SearchMusicFiles` and the constructor take a sequence of roots, which cannot be null.
- The real filesystem is not modelled: `File.listRoots`, `isDirectory`, `listFiles` and `getName` become a finite tree value and a sequence of roots passed in. A finite acyclic tree cannot express symlink cycles. Paths are not modelled, and a collected entry is the tree node itself.
- LowerName: models `String.toLowerCase` for ASCII letters only; Java's locale-sensitive Unicode case mapping is not modelled.
- The worker thread's body is not modelled beyond storing its player: opening the `FileInputStream`, the `Player.play(1)` frame loop, `fis.close()` and `printStackTrace`. This is foreign audio code and thread-side I/O.
- Concurrency is not modelled. Each method runs as one atomic step. The cross-thread read of the non-volatile `stopRequested` and the race between the worker's write of `currentPlayer` and `stopMusic` are outside the model. `WorkerOpensPlayer` can be applied at any point, but the model proves nothing about interleavings.
- Thread creation, `start()` and `interrupt()` are treated as opaque: a new `Worker` object and a logged event. Their effect on the running thread is not modelled.
