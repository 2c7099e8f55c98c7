// The recorder and its save worker, interleaved in any way: every kept episode is saved once, in order, under
// the index the dataset has reached; every primary image is accounted for.
module RecorderRuns {
  import opened Options
  import opened JointSpace
  import opened Recorder

  datatype Event =
    | Picture(now: real, key: string, img: Image, addOk: bool)
    | Begin(ask: Ask)
    | End(addOk: bool)
    | WorkerTakes
    | WorkerSaves

  /** Everything saved, being saved or queued, in order. */
  function All(b: Books): seq<Episode> {
    b.saved + Waiting(b)
  }

  /** The books balance: the next index is the dataset's total once everything under way is saved. */
  ghost predicate Balanced(c: Config, b: Books) {
    && (b.next.None? ==> All(b) == [])
    && (b.next.Some? ==> c.total0 + |All(b)| == b.next.value == b.bufIndex)
    && (b.recording ==> b.next.Some? && b.index == b.next.value)
  }

  /** Position i of the line holds the episode that will be number total0 + i, with all its frames. */
  ghost predicate Numbered(c: Config, line: seq<Episode>) {
    forall i | 0 <= i < |line| ::
      line[i].index == c.total0 + i && line[i].n == |line[i].frames| && line[i].n >= c.minFrames
  }

  ghost predicate Complete(c: Config, buffer: seq<Frame>) {
    forall f | f in buffer :: f.secs.Keys == set k | k in c.secondaries
  }

  /** Every primary image seen became a frame, was skipped or dropped, or is still pending. */
  ghost predicate Accounted(c: Config, s: State) {
    if s.books.recording then
      && s.cap.frames == |s.cap.buffer| && Complete(c, s.cap.buffer) && s.cap.lost == 0
      && s.cap.seen == s.cap.frames + s.cap.skipped + s.cap.dropped + if s.cap.pending.Some? then 1 else 0
    else s.cap.buffer == []
  }

  ghost predicate Inv(c: Config, s: State) {
    Balanced(c, s.books) && Numbered(c, All(s.books)) && Accounted(c, s)
  }

  // ------------------------------------------------------------------------- one commit

  /**
   A frame takes the nearest image of every secondary, each within the tolerance of where it was expected,
   and only then are the offset estimates extended; if any secondary has none, nothing changes.
   */
  lemma CommitAllOrNothing(c: Config, cap: Capture, addOk: bool)
    ensures var r := Commit(c, cap, addOk);
            && (!r.1 ==> r.0 == cap)
            && (r.1 <==> cap.pending.Some? && forall k | k in c.secondaries ::
                  exists im | im in Get(cap.hist, k) :: Abs(im.stamp - Target(c, Get(cap.est, k), cap.pending.value)) <= c.pairTol)
            && (r.1 ==> r.0.pending == None && r.0.dropped == cap.dropped && r.0.hist == cap.hist && r.0.seen == cap.seen && r.0.lost == cap.lost)
            && (r.1 ==> r.0.frames == cap.frames + (if addOk then 1 else 0))
            && (r.1 ==> r.0.skipped == cap.skipped + (if addOk then 0 else 1))
            && (r.1 && !addOk ==> r.0.buffer == cap.buffer)
            && (r.1 && addOk ==> exists f: Frame :: r.0.buffer == cap.buffer + [f] && Nearest(c, cap, f))
  {
    hide Commit, Target, Nearest;
    CommitWhen(c, cap, addOk);
    if Commit(c, cap, addOk).1 {
      var f := CommitAdds(c, cap, addOk);
    }
  }

  lemma CommitWhen(c: Config, cap: Capture, addOk: bool)
    ensures var r := Commit(c, cap, addOk);
            && (!r.1 ==> r.0 == cap)
            && (r.1 <==> cap.pending.Some? && forall k | k in c.secondaries ::
                  exists im | im in Get(cap.hist, k) :: Abs(im.stamp - Target(c, Get(cap.est, k), cap.pending.value)) <= c.pairTol)
  {
    hide Match, Target, Learn, AddFrame;
  }

  lemma CommitAdds(c: Config, cap: Capture, addOk: bool) returns (f: Frame)
    requires Commit(c, cap, addOk).1
    ensures var r := Commit(c, cap, addOk).0;
            && r.pending == None && r.dropped == cap.dropped && r.hist == cap.hist && r.seen == cap.seen && r.lost == cap.lost
            && r.frames == cap.frames + (if addOk then 1 else 0) && r.skipped == cap.skipped + (if addOk then 0 else 1)
            && r.buffer == if addOk then cap.buffer + [f] else cap.buffer
    ensures Nearest(c, cap, f)
  {
    hide Match, Target, Learn, NearestIn;
    var p := cap.pending.value;
    f := Frame(p, Pairs(c, cap, p));
    forall k | k in c.secondaries ensures NearestIn(c, Get(cap.hist, k), Target(c, Get(cap.est, k), p), f.secs[k]) {
      MatchNearest(c, cap, k, p);
    }
  }

  /** f pairs the pending image with the nearest one of every secondary, within the tolerance. */
  ghost predicate Nearest(c: Config, cap: Capture, f: Frame) {
    && cap.pending == Some(f.primary)
    && f.secs.Keys == (set k | k in c.secondaries)
    && forall k | k in c.secondaries :: NearestIn(c, Get(cap.hist, k), Target(c, Get(cap.est, k), f.primary), f.secs[k])
  }

  ghost predicate NearestIn(c: Config, h: seq<Image>, target: real, im: Image) {
    && im in h && Abs(im.stamp - target) <= c.pairTol
    && forall other | other in h :: Abs(im.stamp - target) <= Abs(other.stamp - target)
  }

  /**
   What a frame teaches: each secondary's estimate gains the offset of a nearest image within the tolerance, the
   oldest beyond 60 going, and no other estimate changes.
   */
  lemma CommitLearns(c: Config, cap: Capture, addOk: bool, k: string) returns (off: real)
    requires Commit(c, cap, addOk).1
    ensures var was, now := Get(cap.est, k), Get(Commit(c, cap, addOk).0.est, k);
            if k in c.secondaries then NearestOffset(c, cap, k, off) && now == Lately(was, off, 60) else now == was
  {
    hide Commit, Learn, Lately, NearestOffset;
    var secs := CommitEst(c, cap, addOk);
    Learned(c, cap.est, cap.pending.value, secs, k);
    if k in c.secondaries {
      off := secs[k].stamp - cap.pending.value.stamp;
    } else {
      off := 0.0;
    }
  }

  /** The estimates after a commit are those learned from the images paired. */
  lemma CommitEst(c: Config, cap: Capture, addOk: bool) returns (secs: map<string, Image>)
    requires Commit(c, cap, addOk).1
    ensures cap.pending.Some? && forall k | k in c.secondaries :: k in secs
    ensures Commit(c, cap, addOk).0.est == Learn(c, cap.est, cap.pending.value, secs)
    ensures forall k | k in c.secondaries :: NearestOffset(c, cap, k, secs[k].stamp - cap.pending.value.stamp)
  {
    hide Match, Learn, NearestOffset, AddFrame;
    var p := cap.pending.value;
    secs := Pairs(c, cap, p);
    AddFrameLearnsNothing(cap.(pending := None, est := Learn(c, cap.est, p, secs)), Frame(p, secs), addOk);
    forall k | k in c.secondaries ensures NearestOffset(c, cap, k, secs[k].stamp - p.stamp) {
      MatchNearest(c, cap, k, p);
      NearestOffsetIs(c, cap, k, secs[k]);
    }
  }

  lemma Learned(c: Config, est: map<string, seq<real>>, p: Image, secs: map<string, Image>, k: string)
    requires forall j | j in c.secondaries :: j in secs
    ensures Get(Learn(c, est, p, secs), k) ==
            if k in c.secondaries then Lately(Get(est, k), secs[k].stamp - p.stamp, 60) else Get(est, k)
  {
    hide Lately, Get;
    var now := map j | j in c.secondaries :: Lately(Get(est, j), secs[j].stamp - p.stamp, 60);
    assert Learn(c, est, p, secs) == est + now;
    GetOver(est, now, k);
  }

  lemma GetOver<V>(m: map<string, seq<V>>, n: map<string, seq<V>>, k: string)
    ensures Get(m + n, k) == if k in n then n[k] else Get(m, k)
  {
  }

  lemma AddFrameLearnsNothing(cap: Capture, f: Frame, addOk: bool)
    ensures AddFrame(cap, f, addOk).est == cap.est
  {
  }

  lemma NearestOffsetIs(c: Config, cap: Capture, k: string, im: Image)
    requires cap.pending.Some? && NearestIn(c, Get(cap.hist, k), Target(c, Get(cap.est, k), cap.pending.value), im)
    ensures NearestOffset(c, cap, k, im.stamp - cap.pending.value.stamp)
  {
    hide NearestIn, Target;
  }

  lemma MatchNearest(c: Config, cap: Capture, k: string, p: Image)
    requires Match(c, cap, k, p).Some?
    ensures NearestIn(c, Get(cap.hist, k), Target(c, Get(cap.est, k), p), Match(c, cap, k, p).value)
  {
    hide Target;
  }

  /** The offset from the pending image of a nearest image within the tolerance. */
  ghost predicate NearestOffset(c: Config, cap: Capture, k: string, off: real)
    requires cap.pending.Some?
  {
    exists im :: NearestIn(c, Get(cap.hist, k), Target(c, Get(cap.est, k), cap.pending.value), im)
                 && off == im.stamp - cap.pending.value.stamp
  }

  lemma CommitKeeps(c: Config, cap: Capture, addOk: bool)
    requires Complete(c, cap.buffer) && cap.frames == |cap.buffer|
    ensures var r := Commit(c, cap, addOk).0;
            && Complete(c, r.buffer) && r.frames == |r.buffer|
            && r.frames + r.skipped + (if r.pending.Some? then 1 else 0) == cap.frames + cap.skipped + (if cap.pending.Some? then 1 else 0)
            && r.dropped == cap.dropped && r.seen == cap.seen && r.lost == cap.lost
  {
  }

  // --------------------------------------------------------------------------- every event

  lemma PictureKeeps(c: Config, s: State, now: real, key: string, img: Image, addOk: bool)
    requires Inv(c, s)
    ensures Inv(c, OnImage(c, s, now, key, img, addOk))
  {
    hide Commit, Complete;
    if s.books.recording {
      CommitKeeps(c, s.cap, addOk);
      CommitAllOrNothing(c, s.cap, addOk);
    }
  }

  lemma LastCommitKeeps(c: Config, s: State, addOk: bool)
    requires Inv(c, s) && s.books.recording
    ensures var cap := LastCommit(c, s.cap, addOk);
            && cap.frames == |cap.buffer| && Complete(c, cap.buffer)
            && (cap.pending.None? && s.cap.pending.None? ==> cap == s.cap)
  {
  }

  lemma StopKeeps(c: Config, s: State, addOk: bool)
    requires Inv(c, s)
    ensures Inv(c, Stop(c, s, addOk))
    ensures All(Stop(c, s, addOk).books) == All(s.books) + KeptBy(c, s, End(addOk))
  {
    hide Commit, LastCommit, Complete;
    if s.books.recording {
      LastCommitKeeps(c, s, addOk);
      var cap := LastCommit(c, s.cap, addOk);
      if cap.frames >= c.minFrames {
        var e := Episode(s.books.index, cap.frames, cap.buffer);
        assert All(Stop(c, s, addOk).books) == All(s.books) + [e];
      } else {
        assert All(Stop(c, s, addOk).books) == All(s.books);
      }
    } else {
      assert All(s.books) + [] == All(s.books);
    }
  }

  lemma StartKeeps(c: Config, s: State, a: Ask)
    requires Inv(c, s)
    ensures Inv(c, Start(c, s, a).0) && All(Start(c, s, a).0.books) == All(s.books)
  {
    hide Fresh;
  }

  /** The worker only moves episodes along the line. */
  lemma WorkerKeepsLine(b: Books)
    ensures All(Take(b)) == All(b) && All(Save(b)) == All(b)
  {
  }

  lemma FreshLine()
    ensures All(Empty().books) == []
  {
  }

  lemma InvSays(c: Config, s: State)
    requires Inv(c, s)
    ensures Numbered(c, All(s.books)) && (s.books.recording ==> s.books.next.Some?)
    ensures s.books.next.Some? ==> s.books.next.value == c.total0 + |All(s.books)|
  {
  }

  lemma WorkerKeeps(c: Config, s: State)
    requires Inv(c, s)
    ensures Inv(c, s.(books := Take(s.books))) && Inv(c, s.(books := Save(s.books)))
  {
    hide Numbered, Complete, All;
    WorkerKeepsLine(s.books);
  }

  /** The episode an event keeps, if it is a stop with enough frames. */
  function KeptBy(c: Config, s: State, e: Event): seq<Episode> {
    if e.End? && s.books.recording && LastCommit(c, s.cap, e.addOk).frames >= c.minFrames
    then [Episode(s.books.index, LastCommit(c, s.cap, e.addOk).frames, LastCommit(c, s.cap, e.addOk).buffer)]
    else []
  }

  function Apply(c: Config, s: State, e: Event): (s': State)
    requires Inv(c, s)
    ensures Inv(c, s')
    ensures All(s'.books) == All(s.books) + KeptBy(c, s, e)
  {
    hide Inv, All, Start, Stop, Take, Save, LastCommit, NewPrimary;
    WorkerKeepsLine(s.books);
    WorkerKeeps(c, s);
    InvSays(c, s);
    assert All(s.books) + [] == All(s.books);
    match e
    case Picture(now, key, img, addOk) => PictureKeeps(c, s, now, key, img, addOk); OnImage(c, s, now, key, img, addOk)
    case Begin(ask) => StartKeeps(c, s, ask); Start(c, s, ask).0
    case End(addOk) => StopKeeps(c, s, addOk); Stop(c, s, addOk)
    case WorkerTakes => s.(books := Take(s.books))
    case WorkerSaves => s.(books := Save(s.books))
  }

  ghost function Reached(c: Config, es: seq<Event>, k: nat): (s: State)
    requires k <= |es|
    ensures Inv(c, s)
  {
    if k == 0 then Empty() else Apply(c, Reached(c, es, k - 1), es[k - 1])
  }

  /** The episodes kept by the first k events. */
  ghost function Kept(c: Config, es: seq<Event>, k: nat): seq<Episode>
    requires k <= |es|
  {
    if k == 0 then [] else Kept(c, es, k - 1) + KeptBy(c, Reached(c, es, k - 1), es[k - 1])
  }

  /**
   However the worker is scheduled: what is saved, in flight and queued is exactly what was kept, in order,
   numbered from the dataset's size on; discarded episodes use up no number.
   */
  lemma {:induction false} NothingLostOrReordered(c: Config, es: seq<Event>, k: nat)
    requires k <= |es|
    ensures All(Reached(c, es, k).books) == Kept(c, es, k)
    ensures Numbered(c, Kept(c, es, k))
    ensures Reached(c, es, k).books.next.Some? ==> Reached(c, es, k).books.next.value == c.total0 + |Kept(c, es, k)|
  {
    hide KeptBy, Inv, Apply, All, Numbered;
    if k == 0 {
      FreshLine();
    } else {
      NothingLostOrReordered(c, es, k - 1);
    }
    InvSays(c, Reached(c, es, k));
  }

  /** Each save finds the dataset at exactly the index of the episode it saves. */
  lemma SavedUnderTotal(c: Config, es: seq<Event>, k: nat)
    requires k <= |es| && Reached(c, es, k).books.inFlight.Some?
    ensures var b := Reached(c, es, k).books; b.inFlight.value.index == c.total0 + |b.saved|
  {
    var b := Reached(c, es, k).books;
    assert All(b)[|b.saved|] == b.inFlight.value;
  }

  /** When an episode ends, every primary image seen in it became a frame, was skipped or dropped, or was lost pending. */
  lemma EpisodeAccounts(c: Config, es: seq<Event>, k: nat)
    requires k < |es| && es[k].End? && Reached(c, es, k).books.recording
    ensures var cap := LastCommit(c, Reached(c, es, k).cap, es[k].addOk);
            && cap.seen == cap.frames + cap.skipped + cap.dropped + cap.lost && cap.lost <= 1
            && cap.frames == |cap.buffer| && Reached(c, es, k + 1).cap.seen == cap.seen
  {
    hide Commit;
    var s := Reached(c, es, k);
    CommitKeeps(c, s.cap, es[k].addOk);
    CommitAllOrNothing(c, s.cap, es[k].addOk);
  }

  /** A clean shutdown leaves exactly the kept episodes saved, each once, the last stop included. */
  lemma ShutdownSavesAll(c: Config, es: seq<Event>, addOk: bool)
    ensures var s := Finished(Reached(c, es + [End(addOk)], |es| + 1));
            && s.books.saved == Kept(c, es + [End(addOk)], |es| + 1)
            && Numbered(c, s.books.saved) && Waiting(s.books) == [] && !s.books.recording
  {
    hide Inv, Apply, All, Kept, Numbered, Waiting;
    var fs := es + [End(addOk)];
    NothingLostOrReordered(c, fs, |es| + 1);
    assert fs[|es|] == End(addOk);
    EndIsIdle(c, Reached(c, fs, |es|), addOk);
    FinishedSaves(Reached(c, fs, |es| + 1));
  }

  lemma EndIsIdle(c: Config, s: State, addOk: bool)
    requires Inv(c, s)
    ensures !Apply(c, s, End(addOk)).books.recording
  {
    hide LastCommit, Inv;
  }

  lemma FinishedSaves(s: State)
    ensures Finished(s).books.saved == All(s.books) && Waiting(Finished(s).books) == []
    ensures Finished(s).books.recording == s.books.recording
  {
  }

  lemma StoppedIsIdle(c: Config, s: State, addOk: bool)
    requires Inv(c, s)
    ensures !Stop(c, s, addOk).books.recording
  {
  }

  // --------------------------------------------------------------- frames in arrival order

  /** The primary images since the last start. */
  ghost function Seen(c: Config, es: seq<Event>, k: nat): seq<Image>
    requires k <= |es|
  {
    if k == 0 then [] else SeenNext(c, Reached(c, es, k - 1), es[k - 1], Seen(c, es, k - 1))
  }

  function SeenNext(c: Config, s: State, e: Event, seen: seq<Image>): seq<Image> {
    match e
    case Begin(ask) => if Start(c, s, ask).1 then [] else seen
    case Picture(_, key, img, _) => if key == c.primary && s.books.recording then seen + [img] else seen
    case _ => seen
  }

  /** xs is what is left of ys when some elements are left out. */
  ghost predicate Within<T>(xs: seq<T>, ys: seq<T>) {
    xs == [] || (ys != [] &&
      ((xs[|xs| - 1] == ys[|ys| - 1] && Within(xs[..|xs| - 1], ys[..|ys| - 1])) || Within(xs, ys[..|ys| - 1])))
  }

  function Primaries(buffer: seq<Frame>): (ps: seq<Image>)
    ensures |ps| == |buffer|
  {
    seq(|buffer|, i requires 0 <= i < |buffer| => buffer[i].primary)
  }

  /** The frames are images seen, in order; the pending image is the last one seen and not yet a frame. */
  ghost predicate InOrder(cap: Capture, seen: seq<Image>) {
    if cap.pending.Some? then
      seen != [] && seen[|seen| - 1] == cap.pending.value && Within(Primaries(cap.buffer), seen[..|seen| - 1])
    else Within(Primaries(cap.buffer), seen)
  }

  /** What a commit does to the buffer, as far as the order of frames goes. */
  ghost predicate Extends(before: seq<Frame>, after: seq<Frame>, p: Image) {
    after == before || (|after| == |before| + 1 && after[..|before|] == before && after[|before|].primary == p)
  }

  lemma CommitExtends(c: Config, cap: Capture, addOk: bool)
    ensures var r := Commit(c, cap, addOk);
            && (!r.1 ==> r.0 == cap)
            && (r.1 ==> cap.pending.Some? && r.0.pending.None? && Extends(cap.buffer, r.0.buffer, cap.pending.value))
  {
  }

  /** Once the pending image is settled, either way, the frames are still images seen, in order. */
  lemma SettledInOrder(a: seq<Frame>, b: seq<Frame>, p: Image, seen: seq<Image>)
    requires seen != [] && seen[|seen| - 1] == p && Within(Primaries(a), seen[..|seen| - 1]) && Extends(a, b, p)
    ensures Within(Primaries(b), seen)
  {
  }

  lemma CommitInOrder(c: Config, cap: Capture, addOk: bool, seen: seq<Image>)
    requires InOrder(cap, seen)
    ensures InOrder(Commit(c, cap, addOk).0, seen)
  {
    hide Commit, Primaries, Within, Extends;
    CommitExtends(c, cap, addOk);
    if Commit(c, cap, addOk).1 {
      SettledInOrder(cap.buffer, Commit(c, cap, addOk).0.buffer, cap.pending.value, seen);
    }
  }

  /** Giving up on the pending image, or having none, leaves the frames in order. */
  lemma BufferInOrder(cap: Capture, seen: seq<Image>)
    requires InOrder(cap, seen)
    ensures Within(Primaries(cap.buffer), seen)
  {
  }

  lemma NewPrimaryInOrder(c: Config, cap: Capture, img: Image, addOk: bool, seen: seq<Image>)
    requires InOrder(cap, seen)
    ensures InOrder(NewPrimary(c, cap, img, addOk), seen + [img])
  {
    hide Commit, Primaries, Within;
    CommitInOrder(c, cap, addOk, seen);
    CommitExtends(c, cap, addOk);
    BufferInOrder(Commit(c, cap, addOk).0, seen);
    assert (seen + [img])[..|seen|] == seen;
  }

  lemma StepInOrder(c: Config, s: State, e: Event, seen: seq<Image>)
    requires Inv(c, s) && Apply(c, s, e).books.recording
    requires s.books.recording ==> InOrder(s.cap, seen) && |seen| == s.cap.seen
    ensures var s', seen' := Apply(c, s, e), SeenNext(c, s, e, seen); InOrder(s'.cap, seen') && |seen'| == s'.cap.seen
  {
    hide Commit, Primaries, NewPrimary, InOrder, LastCommit, Inv;
    match e
    case Begin(ask) =>
      if Start(c, s, ask).1 {
        StartsEmpty(c, s, ask);
      }
    case Picture(_, key, img, addOk) =>
      if key == c.primary {
        NewPrimaryInOrder(c, s.cap, img, addOk, seen);
        CountsOne(c, s.cap, img, addOk);
      } else {
        HistoryApart(s.cap, s.cap.(hist := s.cap.hist[key := Lately(Get(s.cap.hist, key), img, 4)]), seen);
      }
    case End(addOk) =>
      StoppedIsIdle(c, s, addOk);
      assert false;
    case _ =>
  }

  /** While an episode runs, its frames are primary images that arrived since its start, in order of arrival. */
  lemma {:induction false} FramesInOrder(c: Config, es: seq<Event>, k: nat)
    requires k <= |es| && Reached(c, es, k).books.recording
    ensures InOrder(Reached(c, es, k).cap, Seen(c, es, k)) && |Seen(c, es, k)| == Reached(c, es, k).cap.seen
  {
    hide InOrder, Inv, Apply, SeenNext;
    if k > 0 {
      if Reached(c, es, k - 1).books.recording {
        FramesInOrder(c, es, k - 1);
      }
      StepInOrder(c, Reached(c, es, k - 1), es[k - 1], Seen(c, es, k - 1));
    }
  }

  lemma HistoryApart(a: Capture, b: Capture, seen: seq<Image>)
    requires InOrder(a, seen) && a.pending == b.pending && a.buffer == b.buffer
    ensures InOrder(b, seen)
  {
  }

  lemma StartsEmpty(c: Config, s: State, a: Ask)
    requires Inv(c, s) && Able(c, s, a)
    ensures InOrder(Start(c, s, a).0.cap, []) && Start(c, s, a).0.cap.seen == 0
  {
  }

  lemma CountsOne(c: Config, cap: Capture, img: Image, addOk: bool)
    ensures NewPrimary(c, cap, img, addOk).seen == cap.seen + 1
  {
  }

  lemma LastInOrder(c: Config, cap: Capture, addOk: bool, seen: seq<Image>)
    requires InOrder(cap, seen)
    ensures Within(Primaries(LastCommit(c, cap, addOk).buffer), seen)
  {
    hide Commit, Primaries, Within, InOrder;
    CommitInOrder(c, cap, addOk, seen);
    BufferInOrder(cap, seen);
    BufferInOrder(Commit(c, cap, addOk).0, seen);
  }

  /** A kept episode's frames are primary images of that episode, in order of arrival. */
  lemma KeptFramesInOrder(c: Config, es: seq<Event>, k: nat)
    requires k < |es| && KeptBy(c, Reached(c, es, k), es[k]) != []
    ensures Within(Primaries(KeptBy(c, Reached(c, es, k), es[k])[0].frames), Seen(c, es, k))
  {
    hide LastCommit, Primaries, Inv, Within, InOrder, Seen, Apply;
    FramesInOrder(c, es, k);
    LastInOrder(c, Reached(c, es, k).cap, es[k].addOk, Seen(c, es, k));
  }

  // ------------------------------------------------------------------ when an episode starts

  /** Event j is the last image of a camera before event k, and recent enough for a start at `now`. */
  ghost predicate Heard(c: Config, es: seq<Event>, j: nat, k: nat, key: string, now: real)
    requires k <= |es|
  {
    && j < k && es[j].Picture? && es[j].key == key && now - es[j].now <= c.stale
    && forall i | j < i < k :: !(es[i].Picture? && es[i].key == key)
  }

  ghost predicate Recent(c: Config, es: seq<Event>, k: nat, key: string, now: real)
    requires k <= |es|
  {
    exists j: nat :: Heard(c, es, j, k, key, now)
  }

  ghost predicate Starts(c: Config, es: seq<Event>, k: nat)
    requires k < |es|
  {
    es[k].Begin? && Start(c, Reached(c, es, k), es[k].ask).1
  }

  lemma {:induction false} LastHeard(c: Config, es: seq<Event>, k: nat, key: string, now: real)
    requires k <= |es|
    ensures Fresh(c, Reached(c, es, k).last, now, key) <==> Recent(c, es, k, key, now)
  {
    hide Inv, Apply, Heard, Recent;
    if k == 0 {
      NotYetHeard(c, es, key, now);
    } else {
      LastHeard(c, es, k - 1, key, now);
      LastStays(c, Reached(c, es, k - 1), es[k - 1], key);
      HeardNext(c, es, k - 1, key, now);
    }
  }

  lemma NotYetHeard(c: Config, es: seq<Event>, key: string, now: real)
    ensures !Recent(c, es, 0, key, now) && !Fresh(c, Empty().last, now, key)
  {
  }

  lemma HeardNext(c: Config, es: seq<Event>, k: nat, key: string, now: real)
    requires k < |es|
    ensures Recent(c, es, k + 1, key, now) <==>
            if es[k].Picture? && es[k].key == key then now - es[k].now <= c.stale else Recent(c, es, k, key, now)
  {
    if es[k].Picture? && es[k].key == key {
      assert Heard(c, es, k, k + 1, key, now) <==> now - es[k].now <= c.stale;
    } else if Recent(c, es, k + 1, key, now) {
      var j: nat :| Heard(c, es, j, k + 1, key, now);
      assert Heard(c, es, j, k, key, now);
    } else if Recent(c, es, k, key, now) {
      var j: nat :| Heard(c, es, j, k, key, now);
      assert Heard(c, es, j, k + 1, key, now);
    }
  }

  /** Only its own images move a camera's time. */
  lemma LastStays(c: Config, s: State, e: Event, key: string)
    requires Inv(c, s)
    ensures var s' := Apply(c, s, e);
            if e.Picture? && e.key == key then key in s'.last && s'.last[key] == e.now
            else (key in s'.last <==> key in s.last) && (key in s.last ==> s'.last[key] == s.last[key])
  {
    hide Inv, Taken, LastCommit, Take, Save, Able, Close;
  }

  lemma {:induction false} Opened(c: Config, es: seq<Event>, k: nat)
    requires k <= |es|
    ensures Reached(c, es, k).books.next.Some? <==> exists j: nat | j < k :: Starts(c, es, j)
  {
    hide Inv, Apply, Start;
    if k > 0 {
      Opened(c, es, k - 1);
      OpensNow(c, Reached(c, es, k - 1), es[k - 1]);
      assert Starts(c, es, k - 1) <==> es[k - 1].Begin? && Start(c, Reached(c, es, k - 1), es[k - 1].ask).1;
      hide Starts;
    }
  }

  lemma OpensNow(c: Config, s: State, e: Event)
    requires Inv(c, s)
    ensures Apply(c, s, e).books.next.Some? <==> s.books.next.Some? || (e.Begin? && Start(c, s, e.ask).1)
  {
    hide Inv, LastCommit, Able, Taken;
    InvSays(c, s);
  }

  /**
   An idle recorder starts an episode exactly when lerobot is loaded, the joint states are complete, the last
   image of every camera is recent, and the dataset is open from an earlier start or opens now.
   */
  lemma StartsExactly(c: Config, es: seq<Event>, k: nat)
    requires k < |es| && es[k].Begin? && !Reached(c, es, k).books.recording
    ensures var a := es[k].ask;
            Starts(c, es, k) <==>
              && a.loaded && a.joints
              && (forall key | key == c.primary || key in c.secondaries :: Recent(c, es, k, key, a.now))
              && (a.opens || exists j: nat | j < k :: Starts(c, es, j))
  {
    hide Fresh, Inv, Reached, Recent, Start;
    var s, a := Reached(c, es, k), es[k].ask;
    forall key ensures Fresh(c, s.last, a.now, key) <==> Recent(c, es, k, key, a.now) {
      LastHeard(c, es, k, key, a.now);
    }
    Opened(c, es, k);
    StartsWhenAble(c, s, a);
    assert Starts(c, es, k) <==> Start(c, s, a).1;
    hide Starts;
  }

  lemma StartsWhenAble(c: Config, s: State, a: Ask)
    ensures Start(c, s, a).1 <==> Able(c, s, a)
  {
  }
}
