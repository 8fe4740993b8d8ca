/**
 * The MusicPlayerApp object: the list of music files found at start-up and
 * the playback fields, updated in place by the scan, stop and play methods.
 */
module MusicPlayer {
  import opened Wrappers
  import opened FileTree
  import opened Playback

  class MusicPlayerApp {
    var musicFiles: seq<Node>
    var currentPlayer: AudioPlayer?
    var currentThread: Worker?
    var stopRequested: bool
    /** The external calls made on the player and thread handles so far. */
    ghost var log: seq<Event>

    /** The playback fields as a value. */
    function State(): Session
      reads this
    {
      Session(stopRequested, currentPlayer, currentThread)
    }

    /** Builds the application and scans the given filesystem roots. */
    constructor (roots: seq<Node>)
      ensures musicFiles == ScanRoots(roots)
      ensures State() == Session(false, null, null) && log == []
    {
      musicFiles := [];
      currentPlayer := null;
      currentThread := null;
      stopRequested := false;
      log := [];
      new;
      SearchMusicFiles(roots);
    }

    /** Scans every root, in order, for "mp3" and "wav" files. */
    method SearchMusicFiles(roots: seq<Node>)
      modifies this`musicFiles
      ensures musicFiles == old(musicFiles) + ScanRoots(roots)
    {
      for r := 0 to |roots|
        invariant musicFiles == old(musicFiles) + ScanRoots(roots[..r])
      {
        SearchFilesInDirectory(Some(roots[r]), Extensions);
        assert roots[..r + 1][..r] == roots[..r];
      }
      assert roots[..|roots|] == roots;
    }

    /** Appends the matching files below `dir` to musicFiles, depth-first in
        listing order; a null, plain or unreadable `dir` appends nothing. */
    method SearchFilesInDirectory(dir: Option<Node>, extensions: seq<string>)
      modifies this`musicFiles
      ensures musicFiles == old(musicFiles) + Collect(dir, extensions)
      decreases if dir.Some? then dir.value else Plain([])
    {
      if dir.Some? && IsDirectory(dir.value) {
        var files := ListFiles(dir.value);
        if files.Some? {
          var listing := files.value;
          for i := 0 to |listing|
            invariant musicFiles == old(musicFiles) + CollectListing(listing[..i], extensions)
          {
            var file := listing[i];
            ghost var before := musicFiles;
            if IsDirectory(file) {
              SearchFilesInDirectory(Some(file), extensions);
            } else {
              for j := 0 to |extensions|
                invariant musicFiles == before
                invariant forall k :: 0 <= k < j ==> !EndsWith(LowerName(file.name), extensions[k])
              {
                if EndsWith(LowerName(file.name), extensions[j]) {
                  musicFiles := musicFiles + [file];
                  break;
                }
              }
            }
            assert musicFiles == before + Entry(file, extensions);
            assert listing[..i + 1][..i] == listing[..i];
          }
          assert listing[..|listing|] == listing;
        }
      }
    }

    /** Stops the current playback: sets the flag, closes and clears the
        player, interrupts and clears the thread. */
    method StopMusic()
      modifies this`stopRequested, this`currentPlayer, this`currentThread, this`log
      ensures State() == Stop(old(State())).after
      ensures log == old(log) + Stop(old(State())).events
    {
      stopRequested := true;
      if currentPlayer != null {
        log := log + [Closed(currentPlayer)];
        currentPlayer := null;
      }
      if currentThread != null {
        log := log + [Interrupted(currentThread)];
        currentThread := null;
      }
    }

    /** Plays the file at `index`: stops the current playback, clears the flag
        and starts a fresh worker for that file. */
    method PlayMusic(index: int)
      requires 0 <= index < |musicFiles|
      modifies this`stopRequested, this`currentPlayer, this`currentThread, this`log
      ensures currentThread != null && fresh(currentThread)
      ensures currentThread.file == musicFiles[index]
      ensures State() == Play(old(State()), currentThread).after
      ensures log == old(log) + Play(old(State()), currentThread).events
    {
      var file := musicFiles[index];
      StopMusic();
      stopRequested := false;
      var worker := new Worker(file);
      currentThread := worker;
      log := log + [Started(worker)];
    }

    /** The play button: plays the selected row if one is selected.  The
        table shows one row per music file, so a selection is a valid index. */
    method OnPlayButton(selectedRow: int)
      requires -1 <= selectedRow < |musicFiles|
      modifies this`stopRequested, this`currentPlayer, this`currentThread, this`log
      ensures selectedRow == -1 ==> State() == old(State()) && log == old(log)
      ensures selectedRow != -1 ==>
                currentThread != null && fresh(currentThread)
                && currentThread.file == musicFiles[selectedRow]
                && State() == Play(old(State()), currentThread).after
                && log == old(log) + Play(old(State()), currentThread).events
    {
      if selectedRow != -1 {
        PlayMusic(selectedRow);
      }
    }

    /** The worker's first step: it opens a player on its file and stores it in
        currentPlayer, whether or not it is still the current thread. */
    method WorkerOpensPlayer(worker: Worker)
      modifies this`currentPlayer
      ensures currentPlayer != null && fresh(currentPlayer)
      ensures currentPlayer.source == worker.file
    {
      currentPlayer := new AudioPlayer(worker.file);
    }
  }
}
