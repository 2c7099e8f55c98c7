// The deferred video encode: each pending episode's clip is put at the end of the current video file, or
// starts the next one when the file would reach the size cap.
module VideoPacking {
  import opened Options

  /** A video file's place: (chunk, file). */
  type Place = (nat, nat)

  /** Size and duration of a clip or file. Both add up under concatenation. */
  datatype Clip = Clip(size: real, dur: real)

  datatype Row = Row(at: Place, from: real, to: real)

  /** Packing of one camera key: the files so far, the current place if there is one, the rows written. */
  datatype Packer = Packer(files: map<Place, Clip>, at: Option<Place>, rows: seq<Row>)

  /** `next` is lerobot's update_chunk_file_indices. */
  datatype Limits = Limits(cap: real, next: Place -> Place)

  predicate Before(p: Place, q: Place) {
    p.0 < q.0 || (p.0 == q.0 && p.1 < q.1)
  }

  predicate NotAfter(p: Place, q: Place) {
    p == q || Before(p, q)
  }

  ghost predicate Advances(l: Limits) {
    forall p: Place :: Before(p, l.next(p))
  }

  ghost predicate ClipsOk(clips: seq<Clip>) {
    forall i | 0 <= i < |clips| :: clips[i].size >= 0.0 && clips[i].dur >= 0.0
  }

  ghost predicate FilesOk(files: map<Place, Clip>) {
    forall p | p in files :: files[p].size >= 0.0 && files[p].dur >= 0.0
  }

  // ----------------------------------------------------------------------------- one clip

  function Start(at: Option<Place>): Place {
    if at.None? then (0, 0) else at.value
  }

  /** The file is there and has no room for the clip. */
  predicate Full(l: Limits, files: map<Place, Clip>, p: Place, clip: Clip) {
    p in files && files[p].size + clip.size >= l.cap
  }

  function Choose(l: Limits, files: map<Place, Clip>, at: Option<Place>, clip: Clip): Place {
    if Full(l, files, Start(at), clip) then l.next(Start(at)) else Start(at)
  }

  function Appended(files: map<Place, Clip>, p: Place, clip: Clip): Clip {
    if p in files then Clip(files[p].size + clip.size, files[p].dur + clip.dur) else clip
  }

  function Add(l: Limits, s: Packer, clip: Clip): Packer {
    var p := Choose(l, s.files, s.at, clip);
    var from := if p in s.files then s.files[p].dur else 0.0;
    Packer(s.files[p := Appended(s.files, p, clip)], Some(p), s.rows + [Row(p, from, from + clip.dur)])
  }

  function Packed(l: Limits, s: Packer, clips: seq<Clip>): Packer {
    if clips == [] then s else Add(l, Packed(l, s, clips[..|clips| - 1]), clips[|clips| - 1])
  }

  // -------------------------------------------------------------------------- the methods

  /** The last placed episode of the existing tables, oldest table first: its last placed row, latest table first. */
  method LastPlaced(tables: seq<seq<Option<Place>>>) returns (at: Option<Place>)
    ensures at.None? ==> forall t, r | 0 <= t < |tables| && 0 <= r < |tables[t]| :: tables[t][r].None?
    ensures at.Some? ==> exists t, r | 0 <= t < |tables| && 0 <= r < |tables[t]| ::
              tables[t][r] == at && IsLast(tables, t, r)
  {
    var t := |tables|;
    while t > 0
      invariant 0 <= t <= |tables|
      invariant forall u, r | t <= u < |tables| && 0 <= r < |tables[u]| :: tables[u][r].None?
    {
      t := t - 1;
      var r := |tables[t]|;
      while r > 0
        invariant 0 <= r <= |tables[t]|
        invariant forall v | r <= v < |tables[t]| :: tables[t][v].None?
      {
        r := r - 1;
        if tables[t][r].Some? {
          assert IsLast(tables, t, r);
          return tables[t][r];
        }
      }
    }
    at := None;
  }

  ghost predicate IsLast(tables: seq<seq<Option<Place>>>, t: int, r: int)
    requires 0 <= t < |tables| && 0 <= r < |tables[t]|
  {
    && (forall v | r < v < |tables[t]| :: tables[t][v].None?)
    && forall u, v | t < u < |tables| && 0 <= v < |tables[u]| :: tables[u][v].None?
  }

  /** The episode loop for one key. */
  method PackKey(l: Limits, files: map<Place, Clip>, start: Option<Place>, clips: seq<Clip>)
    returns (files': map<Place, Clip>, rows: seq<Row>)
    ensures var s := Packed(l, Packer(files, start, []), clips);
            files' == s.files && rows == s.rows
  {
    hide Add;
    files', rows := files, [];
    var at := start;
    var i := 0;
    while i < |clips|
      invariant 0 <= i <= |clips|
      invariant Packer(files', at, rows) == Packed(l, Packer(files, start, []), clips[..i])
    {
      ghost var before := Packer(files', at, rows);
      assert clips[..i + 1][..i] == clips[..i];
      var tmp := clips[i];
      if at.None? {
        at := Some((0, 0));
      }
      var dst := at.value;
      if dst in files' && files'[dst].size + tmp.size >= l.cap {
        dst := l.next(dst);
        at := Some(dst);
      }
      var from := 0.0;
      if dst in files' {
        from := files'[dst].dur;
        files' := files'[dst := Clip(files'[dst].size + tmp.size, files'[dst].dur + tmp.dur)];
      } else {
        files' := files'[dst := tmp];
      }
      rows := rows + [Row(dst, from, from + tmp.dur)];
      assert Packer(files', at, rows) == Add(l, before, tmp) by { AddIs(l, before, tmp); }
      i := i + 1;
    }
    assert clips[..i] == clips;
  }

  /** One camera key's files, where it left off, and the clips of the pending episodes in order. */
  datatype Job = Job(files: map<Place, Clip>, start: Option<Place>, clips: seq<Clip>)

  function Done(l: Limits, j: Job): Packer {
    Packed(l, Packer(j.files, j.start, []), j.clips)
  }

  /** What one turn of the loop does. */
  lemma AddIs(l: Limits, s: Packer, clip: Clip)
    ensures var p := Choose(l, s.files, s.at, clip);
            Add(l, s, clip) ==
              Packer(s.files[p := Appended(s.files, p, clip)], Some(p),
                     s.rows + [Row(p, if p in s.files then s.files[p].dur else 0.0, (if p in s.files then s.files[p].dur else 0.0) + clip.dur)])
  {
  }

  /** The key loop: one column of rows per key, a row per pending episode, no key touching another's files. */
  method FlushVideos(l: Limits, keys: seq<string>, jobs: map<string, Job>, pending: nat)
    returns (stores: map<string, map<Place, Clip>>, columns: map<string, seq<Row>>)
    requires forall k | k in keys :: k in jobs && |jobs[k].clips| == pending
    ensures stores.Keys == columns.Keys == set k | k in keys
    ensures forall k | k in keys :: stores[k] == Done(l, jobs[k]).files
    ensures forall k | k in keys :: columns[k] == Done(l, jobs[k]).rows && |columns[k]| == pending
  {
    stores, columns := map[], map[];
    var i := 0;
    while i < |keys|
      invariant 0 <= i <= |keys|
      invariant stores.Keys == columns.Keys == set k | k in keys[..i]
      invariant forall k | k in keys[..i] :: stores[k] == Done(l, jobs[k]).files
      invariant forall k | k in keys[..i] :: columns[k] == Done(l, jobs[k]).rows && |columns[k]| == pending
    {
      hide Packed;
      var key := keys[i];
      assert keys[..i + 1] == keys[..i] + [key];
      var files, rows := PackKey(l, jobs[key].files, jobs[key].start, jobs[key].clips);
      RowPerClip(l, Packer(jobs[key].files, jobs[key].start, []), jobs[key].clips);
      stores, columns := stores[key := files], columns[key := rows];
      i := i + 1;
    }
    assert keys[..i] == keys;
  }

  lemma {:induction false} RowPerClip(l: Limits, s: Packer, clips: seq<Clip>)
    ensures |Packed(l, s, clips).rows| == |s.rows| + |clips|
  {
    if clips != [] {
      RowPerClip(l, s, clips[..|clips| - 1]);
    }
  }

  // ------------------------------------------------------------------------ what the rows say

  /**
   One more clip, in plain terms: it goes where the last one went, or (0, 0) if none did, unless that file is there
   and would reach the cap; then it goes to the next place. Its row starts where the file ended, and that file alone
   grows, or begins, with it.
   */
  ghost predicate OneMore(l: Limits, s: Packer, clip: Clip, s': Packer) {
    var cur := if s.at == None then (0, 0) else s.at.value;
    && s'.at.Some? && s'.at.value in s'.files
    && (s'.at.value == cur <==> (cur in s.files ==> s.files[cur].size + clip.size < l.cap) || l.next(cur) == cur)
    && (s'.at.value == cur || s'.at.value == l.next(cur))
    && (forall p | p != s'.at.value :: (p in s'.files <==> p in s.files) && (p in s.files ==> s'.files[p] == s.files[p]))
    && var p := s'.at.value;
       if p in s.files then
         s'.files[p] == Clip(s.files[p].size + clip.size, s.files[p].dur + clip.dur)
         && s'.rows == s.rows + [Row(p, s.files[p].dur, s'.files[p].dur)]
       else s'.files[p] == clip && s'.rows == s.rows + [Row(p, 0.0, clip.dur)]
  }

  /** Every clip of a run is packed so. */
  lemma EachClipSays(l: Limits, files: map<Place, Clip>, start: Option<Place>, clips: seq<Clip>, i: nat)
    requires i < |clips|
    ensures Packed(l, Packer(files, start, []), []) == Packer(files, start, [])
    ensures OneMore(l, Packed(l, Packer(files, start, []), clips[..i]), clips[i], Packed(l, Packer(files, start, []), clips[..i + 1]))
  {
    assert clips[..i + 1][..i] == clips[..i];
  }

  /** Rows so far: one interval per clip, the places in order, the last row ending where its file ends. */
  ghost predicate Laid(s: Packer) {
    && FilesOk(s.files)
    && (s.rows != [] ==> s.at == Some(s.rows[|s.rows| - 1].at))
    && (forall i | 0 <= i < |s.rows| :: s.rows[i].at in s.files && 0.0 <= s.rows[i].from <= s.rows[i].to)
    && (forall i, j | 0 <= i < j < |s.rows| :: NotAfter(s.rows[i].at, s.rows[j].at))
    && (forall i, j | 0 <= i < j < |s.rows| && s.rows[i].at == s.rows[j].at :: s.rows[i].to <= s.rows[j].from)
    && (forall i | 0 <= i < |s.rows| :: EndsFile(s, i))
  }

  /** The next row is in the same file and adjacent, or this row ends its file. */
  ghost predicate EndsFile(s: Packer, i: int)
    requires 0 <= i < |s.rows| && s.rows[i].at in s.files
  {
    if i + 1 < |s.rows| && s.rows[i + 1].at == s.rows[i].at then s.rows[i + 1].from == s.rows[i].to
    else s.files[s.rows[i].at].dur == s.rows[i].to
  }

  lemma BeforeIsOrder(p: Place, q: Place, r: Place)
    ensures NotAfter(p, q) && NotAfter(q, r) ==> NotAfter(p, r)
    ensures NotAfter(p, q) && Before(q, r) ==> p != r
  {
  }

  lemma AddOrder(l: Limits, s: Packer, clip: Clip)
    requires Laid(s) && Advances(l)
    ensures var p := Choose(l, s.files, s.at, clip);
            && (forall i | 0 <= i < |s.rows| :: NotAfter(s.rows[i].at, p))
            && (forall i, j | 0 <= i < j < |s.rows| && s.rows[i].at == p :: s.rows[j].at == p)
  {
  }

  lemma AddLaid(l: Limits, s: Packer, clip: Clip)
    requires Laid(s) && Advances(l) && clip.size >= 0.0 && clip.dur >= 0.0
    ensures Laid(Add(l, s, clip))
  {
    hide NotAfter, Choose, Advances;
    AddOrder(l, s, clip);
    var t, n := Add(l, s, clip), |s.rows|;
    var p := Choose(l, s.files, s.at, clip);
    forall i | 0 <= i < n + 1 ensures EndsFile(t, i) {
      if i < n {
        assert EndsFile(s, i);
        if i + 1 < n {
          assert t.rows[i + 1] == s.rows[i + 1];
        }
      }
    }
    forall i, j | 0 <= i < j < n + 1 && t.rows[i].at == t.rows[j].at ensures t.rows[i].to <= t.rows[j].from {
      if j == n {
        assert EndsFile(s, n - 1);
        assert i < n - 1 ==> s.rows[i].to <= s.rows[n - 1].from <= s.rows[n - 1].to;
      }
    }
    assert forall i, j | 0 <= i < j < n + 1 :: NotAfter(t.rows[i].at, t.rows[j].at);
  }

  /**
   Every clip gets one interval of its own length; places never go back; the intervals of one file are
   adjacent, disjoint, after what the file held before, and end at the file's duration.
   */
  lemma {:induction false} PackedIsLaid(l: Limits, files: map<Place, Clip>, start: Option<Place>, clips: seq<Clip>)
    requires Advances(l) && FilesOk(files) && ClipsOk(clips)
    ensures Laid(Packed(l, Packer(files, start, []), clips))
    ensures var s := Packed(l, Packer(files, start, []), clips);
            && |s.rows| == |clips| && Grown(files, s.files)
            && forall i | 0 <= i < |clips| :: RowFor(s.rows[i], clips[i], files)
  {
    hide Advances, Choose, RowFor;
    if clips == [] {
      assert Laid(Packer(files, start, []));
    } else {
      hide Laid;
      var n := |clips| - 1;
      PackedIsLaid(l, files, start, clips[..n]);
      AddLaid(l, Packed(l, Packer(files, start, []), clips[..n]), clips[n]);
      AddRow(l, files, Packed(l, Packer(files, start, []), clips[..n]), clips[n]);
    }
  }

  ghost predicate Grown(files: map<Place, Clip>, files': map<Place, Clip>) {
    forall p | p in files :: p in files' && files'[p].dur >= files[p].dur
  }

  /** The row is as long as the clip and lies after whatever its file held at first. */
  ghost predicate RowFor(r: Row, clip: Clip, files: map<Place, Clip>) {
    r.to == r.from + clip.dur && (r.at in files ==> r.from >= files[r.at].dur)
  }

  lemma AddRow(l: Limits, files: map<Place, Clip>, s: Packer, clip: Clip)
    requires Grown(files, s.files) && clip.dur >= 0.0
    ensures Grown(files, Add(l, s, clip).files) && RowFor(Add(l, s, clip).rows[|s.rows|], clip, files)
    ensures Add(l, s, clip).rows[..|s.rows|] == s.rows && |Add(l, s, clip).rows| == |s.rows| + 1
  {
  }

  // -------------------------------------------------------------------------- conservation

  /** Size and duration of the clips whose rows are at p. */
  ghost function PutAt(rows: seq<Row>, clips: seq<Clip>, p: Place): Clip
    requires |rows| == |clips|
  {
    if rows == [] then Clip(0.0, 0.0)
    else
      var n := |rows| - 1;
      var put := PutAt(rows[..n], clips[..n], p);
      if rows[n].at == p then Clip(put.size + clips[n].size, put.dur + clips[n].dur) else put
  }

  ghost function Held(files: map<Place, Clip>, p: Place): Clip {
    if p in files then files[p] else Clip(0.0, 0.0)
  }

  /** No footage is lost or duplicated: each file holds what it held, plus exactly the clips placed in it. */
  lemma {:induction false} FilesGainTheirClips(
    l: Limits, files: map<Place, Clip>, start: Option<Place>, clips: seq<Clip>, p: Place)
    ensures var s := Packed(l, Packer(files, start, []), clips);
            && |s.rows| == |clips|
            && Held(s.files, p).size == Held(files, p).size + PutAt(s.rows, clips, p).size
            && Held(s.files, p).dur == Held(files, p).dur + PutAt(s.rows, clips, p).dur
  {
    hide Choose;
    if clips != [] {
      var n := |clips| - 1;
      FilesGainTheirClips(l, files, start, clips[..n], p);
      var s := Packed(l, Packer(files, start, []), clips);
      assert s.rows[..n] == Packed(l, Packer(files, start, []), clips[..n]).rows;
    }
  }

  // ------------------------------------------------------------------------------- the cap

  /** No file lies beyond the current place: nothing is in the way of the places still to be opened. */
  ghost predicate Ahead(files: map<Place, Clip>, at: Option<Place>) {
    forall p | p in files :: NotAfter(p, Start(at))
  }

  /** Row i was appended to a file that had something in it already. */
  ghost predicate WasAppend(l: Limits, files: map<Place, Clip>, start: Option<Place>, clips: seq<Clip>, i: nat)
    requires i < |clips|
  {
    var s := Packed(l, Packer(files, start, []), clips[..i]);
    Choose(l, s.files, s.at, clips[i]) in s.files
  }

  lemma {:induction false} StaysAhead(l: Limits, files: map<Place, Clip>, start: Option<Place>, clips: seq<Clip>)
    requires Advances(l) && Ahead(files, start)
    ensures var s := Packed(l, Packer(files, start, []), clips); Ahead(s.files, s.at)
  {
    hide Before, Full;
    if clips != [] {
      var n := |clips| - 1;
      StaysAhead(l, files, start, clips[..n]);
      var s := Packed(l, Packer(files, start, []), clips[..n]);
      forall p | p in s.files ensures NotAfter(p, Choose(l, s.files, s.at, clips[n])) {
        BeforeIsOrder(p, Start(s.at), Choose(l, s.files, s.at, clips[n]));
      }
    }
  }

  /** With nothing in the way, an append leaves its file under the cap; only a clip alone can exceed it. */
  lemma AppendUnderCap(l: Limits, files: map<Place, Clip>, start: Option<Place>, clips: seq<Clip>, i: nat)
    requires Advances(l) && Ahead(files, start) && i < |clips| && WasAppend(l, files, start, clips, i)
    ensures var s := Packed(l, Packer(files, start, []), clips[..i + 1]);
            s.at.Some? && s.at.value in s.files && s.files[s.at.value].size < l.cap
  {
    hide Before;
    assert clips[..i + 1][..i] == clips[..i];
    StaysAhead(l, files, start, clips[..i]);
    var s := Packed(l, Packer(files, start, []), clips[..i]);
    BeforeIsOrder(l.next(Start(s.at)), Start(s.at), l.next(Start(s.at)));
  }

  /** An append reaches the cap exactly when both the current file and one already standing at the next place are full. */
  lemma OverCapExactly(l: Limits, s: Packer, clip: Clip)
    ensures var p := Choose(l, s.files, s.at, clip);
            (p in s.files && Add(l, s, clip).files[p].size >= l.cap) <==>
            (Full(l, s.files, Start(s.at), clip) && Full(l, s.files, l.next(Start(s.at)), clip))
  {
  }

  /** That can happen: the cap is checked against the current file only. */
  lemma AppendOverCap()
    ensures var l := Limits(10.0, (p: Place) => (p.0, p.1 + 1));
            var s := Add(l, Packer(map[(0, 0) := Clip(9.0, 1.0), (0, 1) := Clip(9.0, 1.0)], Some((0, 0)), []), Clip(5.0, 1.0));
            (0, 1) in s.files && s.files[(0, 1)].size == 14.0 > l.cap && Advances(l)
  {
  }
}
