/**
 * The playback bookkeeping of MusicPlayerApp on values: the three fields
 * stopMusic and playMusic update (the stop flag, the decoder handle, the
 * worker-thread handle) and the external calls they make on the handles
 * (Player.close, Thread.interrupt, Thread.start), recorded as events.
 */
module Playback {
  import opened FileTree

  /** A javazoom Player opened on the stream of one music file. */
  class AudioPlayer {
    const source: Node

    constructor (source: Node)
      ensures this.source == source
    {
      this.source := source;
    }
  }

  /** A worker thread; its body plays the file it captured when it was created. */
  class Worker {
    const file: Node

    constructor (file: Node)
      ensures this.file == file
    {
      this.file := file;
    }
  }

  /** An external call made on a handle. */
  datatype Event =
    | Closed(player: AudioPlayer)
    | Interrupted(thread: Worker)
    | Started(thread: Worker)

  /** The fields stopRequested, currentPlayer and currentThread; null is null. */
  datatype Session = Session(stopRequested: bool, player: AudioPlayer?, thread: Worker?)

  /** The state after an operation and the external calls it made, in order. */
  datatype Transition = Transition(after: Session, events: seq<Event>)

  /** No playback is active and a stop has been requested. */
  predicate Idle(s: Session) {
    s.stopRequested && s.player == null && s.thread == null
  }

  /** stopMusic: set the flag, close a non-null player and clear it, then
      interrupt a non-null thread and clear it. */
  function Stop(s: Session): (t: Transition) {
    var closing := if s.player != null then [Closed(s.player)] else [];
    var interrupting := if s.thread != null then [Interrupted(s.thread)] else [];
    Transition(Session(true, null, null), closing + interrupting)
  }

  /** The field updates of playMusic once the file is fetched: stopMusic, clear
      the flag, install the new worker and start it. */
  function Play(s: Session, worker: Worker): (t: Transition) {
    var stopped := Stop(s);
    Transition(Session(false, stopped.after.player, worker), stopped.events + [Started(worker)])
  }

  /** Is `e` a release (close or interrupt) of one of the handles of `s`? */
  predicate Releases(s: Session, e: Event) {
    (s.player != null && e == Closed(s.player)) || (s.thread != null && e == Interrupted(s.thread))
  }

  /** After stopMusic nothing is playing, and each handle it held has been
      released exactly once, the player before the thread; nothing else
      was called. */
  lemma StopReleasesOnce(s: Session, e: Event)
    ensures Idle(Stop(s).after)
    ensures multiset(Stop(s).events)[e] == if Releases(s, e) then 1 else 0
    ensures s.player != null && s.thread != null ==>
              Stop(s).events == [Closed(s.player), Interrupted(s.thread)]
  {
  }

  /** A second stopMusic changes nothing and calls nothing. */
  lemma StopIdempotent(s: Session)
    ensures Stop(Stop(s).after) == Transition(Stop(s).after, [])
  {
  }

  /** playMusic first releases every handle of the previous session, and only
      then starts the new worker; afterwards exactly that worker is current,
      the flag is clear and no player is installed yet. */
  lemma PlayStopsFirst(s: Session, worker: Worker)
    ensures var t := Play(s, worker);
      t.after == Session(false, null, worker)
      && |t.events| >= 1 && t.events[|t.events| - 1] == Started(worker)
      && (forall i :: 0 <= i < |t.events| - 1 ==> Releases(s, t.events[i]))
      && (forall e :: Releases(s, e) ==> e in t.events[..|t.events| - 1])
  {
  }

  /** Playing A and then B without a stop in between leaves only B's worker
      current, and A's worker is interrupted before B's is started. */
  lemma PlayThenPlay(s: Session, a: Worker, b: Worker)
    ensures var second := Play(Play(s, a).after, b);
      second.after.thread == b && !second.after.stopRequested
      && second.events == [Interrupted(a), Started(b)]
  {
  }
}
