// The episode recorder: pairing of camera images into frames, the episode counter, and the queue to the save
// worker. Functions give the new state; the class updates its fields in place.
module Recorder {
  import opened Options
  import opened JointSpace

  datatype Image = Image(stamp: real, tag: int)

  /** A primary image and one image of every secondary camera. */
  datatype Frame = Frame(primary: Image, secs: map<string, Image>)

  /** An episode on its way to the dataset: its index, the frame count announced, the frames. */
  datatype Episode = Episode(index: nat, n: nat, frames: seq<Frame>)

  /** `total0` is the number of episodes in the dataset when it was opened; `median` is numpy's. */
  datatype Config = Config(
    primary: string, secondaries: seq<string>, pairTol: real, stale: real, minFrames: nat, total0: nat,
    median: seq<real> -> real)

  /** The image side. `seen`, `skipped` and `lost` only count, for the accounting. */
  datatype Capture = Capture(
    hist: map<string, seq<Image>>, est: map<string, seq<real>>, pending: Option<Image>,
    frames: nat, buffer: seq<Frame>, dropped: nat, seen: nat, skipped: nat, lost: nat)

  /** The episode side: `bufIndex` is the index the writer's buffer was created with. */
  datatype Books = Books(
    recording: bool, index: nat, next: Option<nat>, bufIndex: nat,
    queue: seq<Episode>, inFlight: Option<Episode>, saved: seq<Episode>)

  /** `last` is when each camera's last image arrived. */
  datatype State = State(cap: Capture, books: Books, last: map<string, real>)

  /** What start() finds: lerobot loaded, joint states complete, the time, whether the dataset would open. */
  datatype Ask = Ask(loaded: bool, joints: bool, now: real, opens: bool)

  // ------------------------------------------------------------------------------ pairing

  function Get<V>(m: map<string, seq<V>>, k: string): seq<V> {
    if k in m then m[k] else []
  }

  /** deque(maxlen=n).append: the last n of xs + [x]. */
  function Lately<T>(xs: seq<T>, x: T, n: nat): (r: seq<T>)
    requires n > 0
    ensures 0 < |r| <= n && r[|r| - 1] == x
    ensures |xs| < n ==> r == xs + [x]
  {
    var ys := xs + [x];
    if |ys| > n then ys[|ys| - n..] else ys
  }

  /** The first of the images nearest in time to the target. */
  function Best(h: seq<Image>, target: real): (i: nat)
    requires h != []
    ensures i < |h|
    ensures forall j | 0 <= j < |h| :: Abs(h[i].stamp - target) <= Abs(h[j].stamp - target)
    ensures forall j | 0 <= j < i :: Abs(h[i].stamp - target) < Abs(h[j].stamp - target)
  {
    if |h| == 1 then 0
    else
      var k := Best(h[..|h| - 1], target);
      if Abs(h[|h| - 1].stamp - target) < Abs(h[k].stamp - target) then |h| - 1 else k
  }

  /** Where the secondary's image is expected: the primary's time plus the offset learned, once learned. */
  function Target(c: Config, est: seq<real>, p: Image): real {
    p.stamp + if |est| >= 5 then c.median(est) else 0.0
  }

  /** The secondary's image for the primary p, if one of the last few is close enough. */
  function Match(c: Config, cap: Capture, key: string, p: Image): (r: Option<Image>)
    ensures r.Some? ==> r.value in Get(cap.hist, key)
    ensures r.Some? ==> forall im | im in Get(cap.hist, key) ::
              Abs(r.value.stamp - Target(c, Get(cap.est, key), p)) <= Abs(im.stamp - Target(c, Get(cap.est, key), p))
    ensures r.Some? <==> exists im | im in Get(cap.hist, key) :: Abs(im.stamp - Target(c, Get(cap.est, key), p)) <= c.pairTol
  {
    var h, target := Get(cap.hist, key), Target(c, Get(cap.est, key), p);
    if h == [] then None
    else if Abs(h[Best(h, target)].stamp - target) > c.pairTol then None
    else Some(h[Best(h, target)])
  }

  predicate AllMatch(c: Config, cap: Capture, p: Image) {
    forall k | k in c.secondaries :: Match(c, cap, k, p).Some?
  }

  function Pairs(c: Config, cap: Capture, p: Image): map<string, Image>
    requires AllMatch(c, cap, p)
  {
    map k | k in c.secondaries :: Match(c, cap, k, p).value
  }

  /** Every secondary's offset estimate after a frame was paired. */
  function Learn(c: Config, est: map<string, seq<real>>, p: Image, secs: map<string, Image>): map<string, seq<real>>
    requires forall k | k in c.secondaries :: k in secs
  {
    est + map k | k in c.secondaries :: Lately(Get(est, k), secs[k].stamp - p.stamp, 60)
  }

  /** _add_frame: a frame that cannot be converted, or meets incomplete joint states, is skipped. */
  function AddFrame(cap: Capture, f: Frame, addOk: bool): Capture {
    if addOk then cap.(frames := cap.frames + 1, buffer := cap.buffer + [f]) else cap.(skipped := cap.skipped + 1)
  }

  /** _commit_pending: all secondaries or nothing. */
  function Commit(c: Config, cap: Capture, addOk: bool): (Capture, bool) {
    if cap.pending.None? || !AllMatch(c, cap, cap.pending.value) then (cap, false)
    else
      var p := cap.pending.value;
      var secs := Pairs(c, cap, p);
      (AddFrame(cap.(pending := None, est := Learn(c, cap.est, p, secs)), Frame(p, secs), addOk), true)
  }

  // --------------------------------------------------------------------- the callbacks

  function NewPrimary(c: Config, cap: Capture, img: Image, addOk: bool): Capture {
    var r := Commit(c, cap, addOk);
    var cap1 := if cap.pending.Some? && !r.1 then cap.(dropped := cap.dropped + 1) else r.0;
    cap1.(pending := Some(img), seen := cap1.seen + 1)
  }

  /** The capture after an image of a camera. */
  function Taken(c: Config, s: State, key: string, img: Image, addOk: bool): Capture {
    if key != c.primary then s.cap.(hist := s.cap.hist[key := Lately(Get(s.cap.hist, key), img, 4)])
    else if s.books.recording then NewPrimary(c, s.cap, img, addOk)
    else s.cap
  }

  /** _on_image. */
  function OnImage(c: Config, s: State, now: real, key: string, img: Image, addOk: bool): State {
    State(Taken(c, s, key, img, addOk), s.books, s.last[key := now])
  }

  predicate Fresh(c: Config, last: map<string, real>, now: real, key: string) {
    key in last && now - last[key] <= c.stale
  }

  /** Nothing refuses a start; the first one to get so far opens the dataset and with it the episode counter. */
  predicate Able(c: Config, s: State, a: Ask) {
    && !s.books.recording && a.loaded && a.joints
    && Fresh(c, s.last, a.now, c.primary) && (forall key | key in c.secondaries :: Fresh(c, s.last, a.now, key))
    && (s.books.next.None? ==> a.opens)
  }

  /** start(). */
  function Start(c: Config, s: State, a: Ask): (State, bool) {
    if !Able(c, s, a) then (s, false)
    else
      var next := if s.books.next.None? then c.total0 else s.books.next.value;
      var bufIndex := if s.books.next.None? then c.total0 else s.books.bufIndex;
      (s.(cap := s.cap.(frames := 0, pending := None, dropped := 0, seen := 0, skipped := 0, lost := 0),
          books := s.books.(recording := true, index := next, next := Some(next), bufIndex := bufIndex)), true)
  }

  /** The last chance of a pending image, and an empty buffer for the next episode. */
  function LastCommit(c: Config, cap: Capture, addOk: bool): Capture {
    var r := Commit(c, cap, addOk);
    if cap.pending.None? then cap
    else r.0.(pending := None, lost := if r.1 then 0 else 1)
  }

  function Close(c: Config, b: Books, n: nat, buffer: seq<Frame>): Books
    requires b.next.Some?
  {
    if n < c.minFrames then b.(recording := false, bufIndex := b.next.value)
    else b.(recording := false, next := Some(b.next.value + 1), bufIndex := b.next.value + 1,
            queue := b.queue + [Episode(b.index, n, buffer)])
  }

  /** stop(): a short episode is discarded and its index reused, any other is queued for saving. */
  function Stop(c: Config, s: State, addOk: bool): State
    requires s.books.recording ==> s.books.next.Some?
  {
    if !s.books.recording then s
    else
      var cap := LastCommit(c, s.cap, addOk);
      s.(cap := cap.(buffer := []), books := Close(c, s.books, cap.frames, cap.buffer))
  }

  /** The worker takes the next queued episode. */
  function Take(b: Books): Books {
    if b.inFlight.Some? || b.queue == [] then b
    else b.(inFlight := Some(b.queue[0]), queue := b.queue[1..])
  }

  /** The worker's save_episode returns. */
  function Save(b: Books): Books {
    if b.inFlight.None? then b else b.(saved := b.saved + [b.inFlight.value], inFlight := None)
  }

  function Empty(): State {
    State(Capture(map[], map[], None, 0, [], 0, 0, 0, 0), Books(false, 0, None, 0, [], None, []), map[])
  }

  // ------------------------------------------------------------------------------ the class

  class EpisodeRecorder {
    const c: Config
    var cap: Capture
    var books: Books
    var last: map<string, real>

    ghost function View(): State
      reads this
    {
      State(cap, books, last)
    }

    constructor (c: Config)
      ensures this.c == c && View() == Empty()
    {
      this.c := c;
      cap := Capture(map[], map[], None, 0, [], 0, 0, 0, 0);
      books := Books(false, 0, None, 0, [], None, []);
      last := map[];
    }

    /** Match every secondary before anything is changed. */
    method CommitPending(addOk: bool) returns (ok: bool)
      modifies this`cap
      ensures (cap, ok) == Commit(c, old(cap), addOk)
    {
      hide Match;
      if cap.pending.None? {
        return false;
      }
      var p := cap.pending.value;
      var secs: map<string, Image> := map[];
      var i := 0;
      while i < |c.secondaries|
        invariant 0 <= i <= |c.secondaries|
        invariant cap == old(cap)
        invariant forall k | k in c.secondaries[..i] :: Match(c, cap, k, p).Some?
        invariant secs == map k | k in c.secondaries[..i] :: Match(c, cap, k, p).value
      {
        var key := c.secondaries[i];
        var best := Match(c, cap, key, p);
        if best.None? {
          assert key in c.secondaries;
          return false;
        }
        secs := secs[key := best.value];
        assert c.secondaries[..i + 1] == c.secondaries[..i] + [key];
        i := i + 1;
      }
      assert c.secondaries[..i] == c.secondaries;
      assert secs == Pairs(c, cap, p);
      cap := cap.(pending := None);
      cap := cap.(est := Learn(c, cap.est, p, secs));
      cap := AddFrame(cap, Frame(p, secs), addOk);
      ok := true;
    }

    method Picture(now: real, key: string, img: Image, addOk: bool)
      modifies this`cap, this`last
      ensures View() == OnImage(c, old(View()), now, key, img, addOk)
    {
      hide Commit;
      last := last[key := now];
      if key != c.primary {
        cap := cap.(hist := cap.hist[key := Lately(Get(cap.hist, key), img, 4)]);
        return;
      }
      if !books.recording {
        return;
      }
      if cap.pending.Some? {
        var ok := CommitPending(addOk);
        if !ok {
          UnmatchedStays(c, old(cap), addOk);
          cap := cap.(dropped := cap.dropped + 1);
        }
      } else {
        NothingPending(c, cap, addOk);
      }
      cap := cap.(pending := Some(img), seen := cap.seen + 1);
    }

    method Begin(a: Ask) returns (ok: bool)
      modifies this`cap, this`books
      ensures (View(), ok) == Start(c, old(View()), a)
    {
      if books.recording || !a.loaded || !a.joints {
        return false;
      }
      var keys, i := [c.primary] + c.secondaries, 0;
      while i < |keys|
        invariant 0 <= i <= |keys|
        invariant forall j | 0 <= j < i :: Fresh(c, last, a.now, keys[j])
      {
        if keys[i] !in last || a.now - last[keys[i]] > c.stale {
          AKeyNotFresh(c, View(), a, i);
          return false;
        }
        i := i + 1;
      }
      AllKeysFresh(c, last, a.now);
      if books.next.None? && !a.opens {
        return false;
      }
      cap := cap.(frames := 0, pending := None, dropped := 0, seen := 0, skipped := 0, lost := 0);
      if books.next.None? {
        books := books.(next := Some(c.total0), bufIndex := c.total0);
      }
      books := books.(index := books.next.value, recording := true);
      ok := true;
    }

    method End(addOk: bool) returns (was: bool)
      requires books.recording ==> books.next.Some?
      modifies this
      ensures View() == Stop(c, old(View()), addOk) && was == old(books.recording)
    {
      hide Commit;
      if !books.recording {
        return false;
      }
      if cap.pending.Some? {
        var ok := CommitPending(addOk);
        cap := cap.(pending := None, lost := if ok then 0 else 1);
      }
      var n, idx, buf := cap.frames, books.index, cap.buffer;
      books := books.(recording := false);
      cap := cap.(buffer := []);
      if n < c.minFrames {
        books := books.(bufIndex := books.next.value);
        return true;
      }
      books := books.(next := Some(books.next.value + 1));
      books := books.(bufIndex := books.next.value, queue := books.queue + [Episode(idx, n, buf)]);
      was := true;
    }

    /** _save_loop at shutdown: finish the save under way, then drain the queue up to the sentinel. */
    method Drain()
      modifies this`books
      ensures books == old(books).(queue := [], inFlight := None,
                saved := old(books.saved) + Waiting(old(books)))
    {
      books := Save(books);
      while books.queue != []
        invariant books.inFlight.None?
        invariant books == old(books).(queue := books.queue, inFlight := None, saved := books.saved)
        invariant books.saved + books.queue == old(books.saved) + Waiting(old(books))
        decreases |books.queue|
      {
        books := Take(books);
        books := Save(books);
      }
    }

    /** shutdown(), when no save fails and nothing interrupts it. */
    method Shutdown(addOk: bool)
      requires books.recording ==> books.next.Some?
      modifies this
      ensures View() == Finished(Stop(c, old(View()), addOk))
    {
      hide Stop;
      if books.recording {
        var _ := End(addOk);
      } else {
        IdleStop(c, View(), addOk);
      }
      Drain();
    }
  }

  lemma AKeyNotFresh(c: Config, s: State, a: Ask, i: nat)
    requires i < |[c.primary] + c.secondaries| && !Fresh(c, s.last, a.now, ([c.primary] + c.secondaries)[i])
    ensures !Able(c, s, a)
  {
    if i > 0 {
      assert c.secondaries[i - 1] in c.secondaries;
    }
  }

  lemma AllKeysFresh(c: Config, last: map<string, real>, now: real)
    requires forall j | 0 <= j < |[c.primary] + c.secondaries| :: Fresh(c, last, now, ([c.primary] + c.secondaries)[j])
    ensures Fresh(c, last, now, c.primary) && forall key | key in c.secondaries :: Fresh(c, last, now, key)
  {
    assert Fresh(c, last, now, ([c.primary] + c.secondaries)[0]);
    forall key | key in c.secondaries ensures Fresh(c, last, now, key) {
      var j :| 0 <= j < |c.secondaries| && c.secondaries[j] == key;
      assert ([c.primary] + c.secondaries)[j + 1] == key;
    }
  }

  lemma UnmatchedStays(c: Config, cap: Capture, addOk: bool)
    requires !Commit(c, cap, addOk).1
    ensures Commit(c, cap, addOk).0 == cap
  {
  }

  lemma NothingPending(c: Config, cap: Capture, addOk: bool)
    requires cap.pending.None?
    ensures Commit(c, cap, addOk) == (cap, false)
  {
  }

  lemma IdleStop(c: Config, s: State, addOk: bool)
    requires !s.books.recording
    ensures Stop(c, s, addOk) == s
  {
  }

  /** What the worker still has to save, in order. */
  function Waiting(b: Books): seq<Episode> {
    (if b.inFlight.Some? then [b.inFlight.value] else []) + b.queue
  }

  function Finished(s: State): State {
    s.(books := s.books.(queue := [], inFlight := None, saved := s.books.saved + Waiting(s.books)))
  }
}
