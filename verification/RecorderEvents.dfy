// What each step of the recorder does, in plain terms: a commit, an image, a start, a stop, and the two steps of
// the save worker.
module RecorderEvents {
  import opened Options
  import opened JointSpace
  import opened Recorder

  /** ys is xs with x added at the end and, beyond n, the oldest gone. */
  ghost predicate Kept<T(!new)>(xs: seq<T>, x: T, n: nat, ys: seq<T>) {
    if |xs| < n then ys == xs + [x] else n > 0 && |ys| == n && ys[n - 1] == x && forall i | 0 <= i < n - 1 :: ys[i] == xs[|xs| + 1 - n + i]
  }

  /** When the image of camera k that belongs to one taken at t is expected: with five offsets learned, their median later. */
  function Expected(c: Config, est: map<string, seq<real>>, t: real, k: string): real {
    if k in est && |est[k]| >= 5 then t + c.median(est[k]) else t
  }

  /** The j-th of the images kept of camera k is the first of those nearest to `at`, and near enough. */
  ghost predicate FirstNearest(c: Config, h: seq<Image>, at: real, j: nat) {
    && j < |h| && Abs(h[j].stamp - at) <= c.pairTol
    && (forall i | 0 <= i < |h| :: Abs(h[j].stamp - at) <= Abs(h[i].stamp - at))
    && forall i | 0 <= i < j :: Abs(h[j].stamp - at) < Abs(h[i].stamp - at)
  }

  /** im is the image of camera k that goes with one taken at t. */
  ghost predicate Partner(c: Config, cap: Capture, t: real, k: string, im: Image) {
    k in cap.hist && exists j: nat :: FirstNearest(c, cap.hist[k], Expected(c, cap.est, t, k), j) && cap.hist[k][j] == im
  }

  /** Some image of camera k is near enough to its expected time. */
  ghost predicate HasPartner(c: Config, cap: Capture, t: real, k: string) {
    k in cap.hist && exists i | 0 <= i < |cap.hist[k]| :: Abs(cap.hist[k][i].stamp - Expected(c, cap.est, t, k)) <= c.pairTol
  }

  /**
   A commit: it takes place exactly if there is a pending image and every secondary has a partner for it. Then the
   partners make a frame, which is added or skipped, their offsets are learned, and nothing is pending; else
   nothing changes.
   */
  ghost predicate Committed(c: Config, cap: Capture, addOk: bool, secs: map<string, Image>, cap': Capture, ok: bool) {
    && (ok <==> cap.pending.Some? && forall k | k in c.secondaries :: HasPartner(c, cap, cap.pending.value.stamp, k))
    && if !ok then cap' == cap
       else
         var p := cap.pending.value;
         && (forall k :: k in secs <==> k in c.secondaries)
         && (forall k | k in secs :: Partner(c, cap, p.stamp, k, secs[k]))
         && (forall k :: k in cap'.est <==> k in cap.est || k in secs)
         && (forall k | k in cap'.est && k !in secs :: cap'.est[k] == cap.est[k])
         && (forall k | k in secs :: Learned(cap.est, k, secs[k].stamp - p.stamp, cap'.est[k]))
         && cap' == cap.(pending := None, est := cap'.est,
                         frames := if addOk then cap.frames + 1 else cap.frames,
                         buffer := if addOk then cap.buffer + [Frame(p, secs)] else cap.buffer,
                         skipped := if addOk then cap.skipped else cap.skipped + 1)
  }

  /** Of the offsets of camera k the last sixty are kept. */
  ghost predicate Learned(est: map<string, seq<real>>, k: string, off: real, now: seq<real>) {
    if k in est then Kept(est[k], off, 60, now) else now == [off]
  }

  lemma LatelyKeeps<T(!new)>(xs: seq<T>, x: T, n: nat)
    requires n > 0
    ensures Kept(xs, x, n, Lately(xs, x, n))
  {
  }

  lemma TargetExpected(c: Config, est: map<string, seq<real>>, p: Image, k: string)
    ensures Target(c, Get(est, k), p) == Expected(c, est, p.stamp, k)
  {
  }

  lemma MatchIsPartner(c: Config, cap: Capture, k: string, p: Image)
    ensures Match(c, cap, k, p).Some? <==> HasPartner(c, cap, p.stamp, k)
    ensures Match(c, cap, k, p).Some? ==> Partner(c, cap, p.stamp, k, Match(c, cap, k, p).value)
  {
    hide Target, Expected, Best;
    TargetExpected(c, cap.est, p, k);
    if k in cap.hist && cap.hist[k] != [] {
      var at := Target(c, Get(cap.est, k), p);
      var j := Best(cap.hist[k], at);
      if Match(c, cap, k, p).Some? {
        assert FirstNearest(c, cap.hist[k], at, j);
      }
    }
  }

  lemma CommitSays(c: Config, cap: Capture, addOk: bool) returns (secs: map<string, Image>)
    ensures Committed(c, cap, addOk, secs, Commit(c, cap, addOk).0, Commit(c, cap, addOk).1)
  {
    hide Match, HasPartner, Partner, Learn, Learned, AllMatch, Pairs;
    secs := map[];
    if cap.pending.Some? {
      var p := cap.pending.value;
      secs := PairsSay(c, cap, p);
      if AllMatch(c, cap, p) {
        LearnSays(c, cap.est, p, secs);
      }
    }
  }

  lemma PairsSay(c: Config, cap: Capture, p: Image) returns (secs: map<string, Image>)
    ensures AllMatch(c, cap, p) <==> forall k | k in c.secondaries :: HasPartner(c, cap, p.stamp, k)
    ensures AllMatch(c, cap, p) ==> secs == Pairs(c, cap, p) && (forall k :: k in secs <==> k in c.secondaries)
                                    && forall k | k in secs :: Partner(c, cap, p.stamp, k, secs[k])
  {
    hide Match, HasPartner, Partner;
    forall k ensures Match(c, cap, k, p).Some? <==> HasPartner(c, cap, p.stamp, k)
             ensures Match(c, cap, k, p).Some? ==> Partner(c, cap, p.stamp, k, Match(c, cap, k, p).value) {
      MatchIsPartner(c, cap, k, p);
    }
    secs := if AllMatch(c, cap, p) then Pairs(c, cap, p) else map[];
  }

  lemma LearnSays(c: Config, est: map<string, seq<real>>, p: Image, secs: map<string, Image>)
    requires forall k :: k in secs <==> k in c.secondaries
    ensures var now := Learn(c, est, p, secs);
            && (forall k :: k in now <==> k in est || k in secs)
            && (forall k | k in now && k !in secs :: now[k] == est[k])
            && (forall k | k in secs :: Learned(est, k, secs[k].stamp - p.stamp, now[k]))
  {
    hide Kept, Lately;
    forall k | k in secs ensures Learned(est, k, secs[k].stamp - p.stamp, Learn(c, est, p, secs)[k]) {
      LatelyKeeps(Get(est, k), secs[k].stamp - p.stamp, 60);
      FirstKept(secs[k].stamp - p.stamp, Lately(Get(est, k), secs[k].stamp - p.stamp, 60));
    }
  }

  lemma FirstKept(x: real, ys: seq<real>)
    ensures Kept([], x, 60, ys) <==> ys == [x]
  {
  }

  // -------------------------------------------------------------------------------- the callbacks

  /**
   An image: of a secondary, the last four are kept; the primary's, while recording, commits or else drops the one
   pending and takes its place; its arrival is noted in any case.
   */
  lemma PictureSays(c: Config, s: State, now: real, key: string, img: Image, addOk: bool)
    returns (secs: map<string, Image>, cap1: Capture, ok: bool)
    ensures var s' := OnImage(c, s, now, key, img, addOk);
            && s'.last == s.last[key := now] && s'.books == s.books
            && (key != c.primary ==>
                  && s'.cap == s.cap.(hist := s'.cap.hist) && s'.cap.hist.Keys == s.cap.hist.Keys + {key}
                  && (forall k | k in s.cap.hist && k != key :: s'.cap.hist[k] == s.cap.hist[k])
                  && (if key in s.cap.hist then Kept(s.cap.hist[key], img, 4, s'.cap.hist[key]) else s'.cap.hist[key] == [img]))
            && (key == c.primary && !s.books.recording ==> s'.cap == s.cap)
            && (key == c.primary && s.books.recording ==>
                  if s.cap.pending.None? then s'.cap == s.cap.(pending := Some(img), seen := s.cap.seen + 1)
                  else
                    && Committed(c, s.cap, addOk, secs, cap1, ok)
                    && s'.cap == (if ok then cap1 else s.cap.(dropped := s.cap.dropped + 1))
                                 .(pending := Some(img), seen := s.cap.seen + 1))
  {
    hide Kept, Lately, Committed, Commit;
    secs := CommitSays(c, s.cap, addOk);
    cap1, ok := Commit(c, s.cap, addOk).0, Commit(c, s.cap, addOk).1;
    SeenStays(c, s.cap, addOk);
    if s.cap.pending.None? {
      NothingPending(c, s.cap, addOk);
    }
    LatelyKeeps(Get(s.cap.hist, key), img, 4);
    FirstFour(img, Lately(Get(s.cap.hist, key), img, 4));
  }

  lemma FirstFour(x: Image, ys: seq<Image>)
    ensures Kept([], x, 4, ys) <==> ys == [x]
  {
  }

  lemma SeenStays(c: Config, cap: Capture, addOk: bool)
    ensures Commit(c, cap, addOk).0.seen == cap.seen && Commit(c, cap, addOk).0.lost == cap.lost
  {
  }

  /**
   A start: refused without change while recording, without the library, with incomplete joints, with a camera silent
   for too long, or when the dataset is neither open nor opens; else the counters are reset and the next index taken.
   */
  lemma StartSays(c: Config, s: State, a: Ask)
    ensures var (s', ok) := Start(c, s, a);
            && (ok <==>
                  && !s.books.recording && a.loaded && a.joints && (s.books.next.Some? || a.opens)
                  && forall k | k == c.primary || k in c.secondaries :: k in s.last && a.now - s.last[k] <= c.stale)
            && (!ok ==> s' == s)
            && (ok ==>
                  var n := if s.books.next.Some? then s.books.next.value else c.total0;
                  && s'.books == s.books.(recording := true, index := n, next := Some(n),
                                          bufIndex := if s.books.next.Some? then s.books.bufIndex else c.total0)
                  && s'.cap == s.cap.(frames := 0, pending := None, dropped := 0, seen := 0, skipped := 0, lost := 0)
                  && s'.last == s.last)
  {
    assert Fresh(c, s.last, a.now, c.primary) <==> c.primary in s.last && a.now - s.last[c.primary] <= c.stale;
  }

  /**
   A stop: a pending image has one last chance; then an episode with too few frames is dropped and its index stays the
   next one, and any other is queued under its index.
   */
  lemma StopSays(c: Config, s: State, addOk: bool) returns (secs: map<string, Image>, cap1: Capture, ok: bool)
    requires s.books.recording ==> s.books.next.Some?
    ensures !s.books.recording ==> Stop(c, s, addOk) == s
    ensures s.books.recording ==>
              var s' := Stop(c, s, addOk);
              && Committed(c, s.cap, addOk, secs, cap1, ok)
              && s'.last == s.last
              && s'.cap == cap1.(pending := None, buffer := [],
                                 lost := if s.cap.pending.None? then s.cap.lost else if ok then 0 else 1)
              && var n := s.books.next.value;
                 if cap1.frames < c.minFrames then s'.books == s.books.(recording := false, bufIndex := n)
                 else s'.books == s.books.(recording := false, next := Some(n + 1), bufIndex := n + 1,
                                           queue := s.books.queue + [Episode(s.books.index, cap1.frames, cap1.buffer)])
  {
    hide Committed, Commit;
    secs := CommitSays(c, s.cap, addOk);
    cap1, ok := Commit(c, s.cap, addOk).0, Commit(c, s.cap, addOk).1;
    SeenStays(c, s.cap, addOk);
    if s.cap.pending.None? {
      NothingPending(c, s.cap, addOk);
    }
  }

  /** The worker: an idle one takes the first episode queued, and a save in flight ends with the episode saved. */
  lemma WorkerSays(b: Books)
    ensures b.inFlight.None? && b.queue != [] ==>
              Take(b).inFlight == Some(b.queue[0]) && [b.queue[0]] + Take(b).queue == b.queue
              && Take(b) == b.(inFlight := Take(b).inFlight, queue := Take(b).queue)
    ensures b.inFlight.Some? || b.queue == [] ==> Take(b) == b
    ensures b.inFlight.Some? ==> Save(b) == b.(inFlight := None, saved := b.saved + [b.inFlight.value])
    ensures b.inFlight.None? ==> Save(b) == b
  {
  }
}
