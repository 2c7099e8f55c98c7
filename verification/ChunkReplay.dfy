// The dummy policy server and a client of its chunk protocol: overlapping, aggregated chunks, some requests
// unanswered, and still exactly the table is executed.
module ChunkReplay {
  import opened Options
  import opened JointSpace

  // ------------------------------------------------------------------------- column order

  datatype Columns = AsIs | Reordered(order: seq<nat>) | Mismatch

  /** names.index(n), for a name that is there. */
  function IndexOf(names: seq<string>, n: string): (i: nat)
    requires n in names
    ensures i < |names| && names[i] == n
    ensures forall k | 0 <= k < i :: names[k] != n
  {
    if names[0] == n then 0 else 1 + IndexOf(names[1..], n)
  }

  lemma NamesAreOurs(ours: seq<string>, client: seq<string>)
    requires multiset(client) == multiset(ours)
    ensures forall j | 0 <= j < |client| :: client[j] in ours
  {
    forall j | 0 <= j < |client| ensures client[j] in ours {
      assert client[j] in multiset(client);
    }
  }

  /** _resolve_column_order; sorted lists are equal just when the names are the same with multiplicity. */
  function ResolveColumns(ours: seq<string>, client: Option<seq<string>>): Columns {
    if client.None? || client.value == ours then AsIs
    else if multiset(client.value) == multiset(ours) then
      NamesAreOurs(ours, client.value);
      Reordered(seq(|client.value|, j requires 0 <= j < |client.value| => IndexOf(ours, client.value[j])))
    else Mismatch
  }

  /** A row as it is sent: rows[:, order]. */
  function Send(row: Vec, cols: Columns): Vec
    requires cols.Reordered? ==> forall j | 0 <= j < |cols.order| :: cols.order[j] < |row|
  {
    if cols.Reordered? then seq(|cols.order|, j requires 0 <= j < |cols.order| => row[cols.order[j]]) else row
  }

  lemma {:induction false} SameLength(a: seq<string>, b: seq<string>)
    requires multiset(a) == multiset(b)
    ensures |a| == |b|
  {
    assert |multiset(a)| == |multiset(b)|;
  }

  /** Read under the client's names, the sent row has our values of the same names. */
  ghost predicate ByName(ours: seq<string>, row: Vec, client: seq<string>, sent: Vec) {
    && |client| == |sent| == |row| == |ours|
    && forall j | 0 <= j < |client| :: exists k | 0 <= k < |ours| :: ours[k] == client[j] && sent[j] == row[k]
  }

  /**
   Under the client's names the sent row carries our values of the same names; no column is lost or sent
   twice if no name is; and the only names refused are those that are not a rearrangement of ours.
   */
  lemma ColumnsByName(ours: seq<string>, client: seq<string>, row: Vec)
    requires |row| == |ours|
    ensures var cols := ResolveColumns(ours, Some(client));
            && (cols.Mismatch? <==> multiset(client) != multiset(ours))
            && (!cols.Mismatch? ==>
                  && (cols.Reordered? ==> forall j | 0 <= j < |cols.order| :: cols.order[j] < |row|)
                  && ByName(ours, row, client, Send(row, cols)))
  {
    var cols := ResolveColumns(ours, Some(client));
    if client == ours {
      assert multiset(client) == multiset(ours);
    } else if multiset(client) == multiset(ours) {
      SameLength(client, ours);
      forall j | 0 <= j < |client|
        ensures exists k | 0 <= k < |ours| :: ours[k] == client[j] && Send(row, cols)[j] == row[k]
      {
        assert client[j] in multiset(client);
        assert cols.order[j] == IndexOf(ours, client[j]);
      }
    }
  }

  /** With distinct names each of our columns is sent exactly once. */
  lemma ColumnsOnce(ours: seq<string>, client: seq<string>)
    requires forall i, j | 0 <= i < j < |ours| :: ours[i] != ours[j]
    requires ResolveColumns(ours, Some(client)).Reordered?
    ensures var order := ResolveColumns(ours, Some(client)).order;
            && (forall i, j | 0 <= i < j < |order| :: order[i] != order[j])
            && forall k | 0 <= k < |ours| :: k in order
  {
    var order := ResolveColumns(ours, Some(client)).order;
    forall i, j | 0 <= i < j < |order| ensures order[i] != order[j] {
      if order[i] == order[j] {
        assert client[i] == ours[order[i]] == client[j];
        TwiceInMultiset(client, i, j);
        DistinctOnce(ours, client[i]);
      }
    }
    forall k | 0 <= k < |ours| ensures k in order {
      assert ours[k] in multiset(ours);
      assert ours[k] in client;
      var j :| 0 <= j < |client| && client[j] == ours[k];
      assert ours[order[j]] == ours[k];
      assert order[j] == k;
    }
  }

  lemma TwiceInMultiset(s: seq<string>, i: nat, j: nat)
    requires i < j < |s| && s[i] == s[j]
    ensures multiset(s)[s[i]] >= 2
  {
    assert s == s[..j] + [s[j]] + s[j + 1..];
    assert s[..j] == s[..i] + [s[i]] + s[i + 1..j];
  }

  lemma {:induction false} DistinctOnce(s: seq<string>, x: string)
    requires forall i, j | 0 <= i < j < |s| :: s[i] != s[j]
    ensures multiset(s)[x] <= 1
  {
    if s != [] {
      var n := |s| - 1;
      DistinctOnce(s[..n], x);
      assert s == s[..n] + [s[n]];
      if x == s[n] {
        assert x !in s[..n];
        assert x !in multiset(s[..n]);
      }
    }
  }

  // ---------------------------------------------------------------------------- the server

  /** _row: hold the last row past the end, or wrap around. */
  function Row(table: seq<Vec>, loop: bool, t: nat): (r: Vec)
    requires table != []
    ensures r in table
  {
    if t < |table| then table[t] else if loop then table[t % |table|] else table[|table| - 1]
  }

  /** What the client should execute at step t. */
  function Expected(table: seq<Vec>, loop: bool, cols: Columns, t: nat): Vec
    requires table != [] && Fits(table, cols)
  {
    Send(Row(table, loop, t), cols)
  }

  predicate Fits(table: seq<Vec>, cols: Columns) {
    cols.Reordered? ==> forall r, j | r in table && 0 <= j < |cols.order| :: cols.order[j] < |r|
  }

  /** Past the end the last row is held, for ever, unless the server loops. */
  lemma ExpectedHolds(table: seq<Vec>, cols: Columns, t: nat)
    requires table != [] && Fits(table, cols)
    ensures Expected(table, false, cols, t) == Send(table[if t < |table| then t else |table| - 1], cols)
    ensures Expected(table, true, cols, t + |table|) == Expected(table, true, cols, t)
  {
    assert (t + |table|) % |table| == t % |table| by {
      ModAdd(t, |table|);
    }
    if t < |table| {
      assert t % |table| == t;
    }
  }

  lemma ModAdd(t: int, n: int)
    requires n > 0 && t >= 0
    ensures (t + n) % n == t % n
  {
    var d := (t + n) / n - t / n - 1;
    assert (t + n) % n - t % n == -(d * n);
    assert d * n < n && d * n > -n;
    assert d == 0 by { NoMultiple(d, n); }
  }

  lemma NoMultiple(d: int, n: int)
    requires n > 0 && -n < d * n < n
    ensures d == 0
  {
  }

  lemma OrderFits(ours: seq<string>, table: seq<Vec>, client: Option<seq<string>>)
    requires forall r | r in table :: |r| == |ours|
    ensures var cols := ResolveColumns(ours, client);
            && Fits(table, cols)
            && (cols.Mismatch? <==> client.Some? && multiset(client.value) != multiset(ours))
            && (client.None? ==> cols == AsIs)
  {
  }

  class Server {
    const names: seq<string>
    const table: seq<Vec>
    const loop: bool
    const size: nat
    var cols: Columns
    var exhaustedLogged: bool
    var lastProcessed: Option<nat>

    ghost predicate Valid()
      reads this
    {
      table != [] && size > 0 && (forall r | r in table :: |r| == |names|) && !cols.Mismatch? && Fits(table, cols)
    }

    constructor (names: seq<string>, table: seq<Vec>, loop: bool, size: nat)
      requires table != [] && size > 0 && forall r | r in table :: |r| == |names|
      ensures Valid() && this.names == names && this.table == table && this.loop == loop && this.size == size
      ensures cols == AsIs
    {
      this.names, this.table, this.loop, this.size := names, table, loop, size;
      cols, exhaustedLogged, lastProcessed := AsIs, false, None;
    }

    /**
     SendPolicyInstructions: names that are not a rearrangement of ours are an error and change nothing. Any
     others, once accepted, are those under which every row is sent.
     */
    method SendPolicyInstructions(running: bool, client: Option<seq<string>>) returns (ok: bool)
      requires Valid()
      modifies this`cols
      ensures Valid()
      ensures ok <==> !running || client.None? || multiset(client.value) == multiset(names)
      ensures !running || !ok ==> cols == old(cols)
      ensures running && client.None? ==> cols == AsIs
      ensures running && ok && client.Some? ==>
                forall t: nat :: ByName(names, Row(table, loop, t), client.value, Expected(table, loop, cols, t))
    {
      hide ByName, ResolveColumns, Send;
      if !running {
        return true;
      }
      OrderFits(names, table, client);
      var order := ResolveColumns(names, client);
      if order.Mismatch? {
        return false;
      }
      cols, ok := order, true;
      if client.Some? {
        forall t: nat ensures ByName(names, Row(table, loop, t), client.value, Expected(table, loop, cols, t)) {
          ColumnsByName(names, client.value, Row(table, loop, t));
        }
      }
    }

    method RowAt(t: nat) returns (r: Vec)
      requires Valid()
      modifies this`exhaustedLogged
      ensures r == Row(table, loop, t)
      ensures exhaustedLogged <==> old(exhaustedLogged) || (t >= |table| && !loop)
    {
      if t < |table| {
        return table[t];
      }
      if loop {
        return table[t % |table|];
      }
      if !exhaustedLogged {
        exhaustedLogged := true;
      }
      r := table[|table| - 1];
    }

    /** _predict_action_chunk: rows [t, t + size), each with its timestep. */
    method PredictChunk(t: nat) returns (chunk: seq<(nat, Vec)>)
      requires Valid()
      modifies this`exhaustedLogged, this`lastProcessed
      ensures Valid() && lastProcessed == Some(t) && |chunk| == size
      ensures forall i | 0 <= i < size :: chunk[i] == (t + i, Expected(table, loop, cols, t + i))
    {
      chunk := [];
      var i := 0;
      while i < size
        invariant 0 <= i <= size && |chunk| == i
        invariant forall k | 0 <= k < i :: chunk[k] == (t + k, Expected(table, loop, cols, t + k))
      {
        var r := RowAt(t + i);
        chunk := chunk + [(t + i, Send(r, cols))];
        i := i + 1;
      }
      lastProcessed := Some(t);
    }
  }

  // ---------------------------------------------------------------------------- the client

  /** Blending a row with itself gives the row. */
  ghost predicate Idempotent(agg: (Vec, Vec) -> Vec) {
    forall v: Vec :: agg(v, v) == v
  }

  /** The queue is the interval (latest, hi] and holds the table's rows. */
  ghost predicate QueueOk(queue: map<nat, Vec>, latest: int, hi: int, server: Server)
    requires server.Valid()
    reads server
  {
    && -1 <= latest <= hi
    && (forall k: nat :: k in queue <==> latest < k <= hi)
    && forall k | k in queue :: queue[k] == Expected(server.table, server.loop, server.cols, k)
  }

  /** min(ts for ts in queue if ts > latest). */
  method NextReady(queue: map<nat, Vec>, latest: int) returns (next: Option<nat>)
    ensures next.None? <==> forall k | k in queue :: k <= latest
    ensures next.Some? ==> next.value in queue && next.value > latest && forall k | k in queue && k > latest :: next.value <= k
  {
    var keys := queue.Keys;
    next := None;
    while keys != {}
      invariant keys <= queue.Keys
      invariant next.None? ==> forall k | k in queue && k !in keys :: k <= latest
      invariant next.Some? ==> next.value in queue && next.value > latest
      invariant next.Some? ==> forall k | k in queue && k !in keys && k > latest :: next.value <= k
      decreases |keys|
    {
      var k :| k in keys;
      keys := keys - {k};
      if k > latest && (next.None? || k < next.value) {
        next := Some(k);
      }
    }
  }

  /** Merge a chunk into the queue: stale steps are dropped, known ones blended. */
  method Merge(queue: map<nat, Vec>, latest: int, chunk: seq<(nat, Vec)>, agg: (Vec, Vec) -> Vec, server: Server, ghost t: nat, ghost hi: int)
    returns (queue': map<nat, Vec>, ghost hi': int)
    requires server.Valid() && Idempotent(agg) && QueueOk(queue, latest, hi, server) && t <= latest + 1
    requires forall i | 0 <= i < |chunk| ::
               chunk[i] == (t + i, Expected(server.table, server.loop, server.cols, t + i))
    ensures QueueOk(queue', latest, hi', server)
    ensures hi' == if t + |chunk| - 1 > hi then t + |chunk| - 1 else hi
  {
    hide Expected;
    queue', hi' := queue, hi;
    var i := 0;
    while i < |chunk|
      invariant 0 <= i <= |chunk|
      invariant QueueOk(queue', latest, hi', server)
      invariant hi' == if t + i - 1 > hi then t + i - 1 else hi
    {
      var ts, action := chunk[i].0, chunk[i].1;
      if ts > latest {
        queue' := queue'[ts := if ts in queue' then agg(queue'[ts], action) else action];
        if ts > hi' {
          hi' := ts;
        }
      }
      i := i + 1;
    }
  }

  lemma NextThere(queue: map<nat, Vec>, latest: int, server: Server, hi: int)
    requires server.Valid() && QueueOk(queue, latest, hi, server)
    ensures latest < hi ==> exists k | k in queue :: k == latest + 1
  {
    if latest < hi {
      var k: nat := latest + 1;
      assert k in queue;
    }
  }

  /** Execute the next queued row, if there is one. */
  method ExecuteNext(queue: map<nat, Vec>, latest: int, server: Server, ghost hi: int)
    returns (queue': map<nat, Vec>, latest': int, row: Option<Vec>)
    requires server.Valid() && QueueOk(queue, latest, hi, server)
    ensures QueueOk(queue', latest', hi, server)
    ensures row.Some? <==> hi > latest
    ensures row.Some? ==> latest' == latest + 1 && row.value == Expected(server.table, server.loop, server.cols, latest')
    ensures row.None? ==> latest' == latest && hi == latest
  {
    hide Expected;
    NextThere(queue, latest, server, hi);
    var ready := NextReady(queue, latest);
    if ready.None? {
      return queue, latest, None;
    }
    row, latest' := Some(queue[ready.value]), ready.value;
    queue' := queue - {ready.value};
  }

  function Farther(a: int, b: int): int {
    if a > b then a else b
  }

  lemma ShareAtMost(x: real, n: real, threshold: real)
    requires n > 0.0
    ensures x / n <= threshold <==> x <= threshold * n
  {
    var s := x / n;
    assert s * n == x;
    if s <= threshold {
      ScaleMonotone(n, s, threshold);
    } else {
      PositiveProduct(n, s - threshold, n * (s - threshold));
      assert n * (s - threshold) == n * s - n * threshold;
    }
  }

  /** Ask for a chunk when the queue has drained far enough. */
  method Refill(server: Server, queue: map<nat, Vec>, latest: int, perChunk: nat, threshold: real, agg: (Vec, Vec) -> Vec, answered: bool, ghost hi: int)
    returns (queue': map<nat, Vec>, got: bool, ghost hi': int)
    requires server.Valid() && Idempotent(agg) && QueueOk(queue, latest, hi, server)
    modifies server`exhaustedLogged, server`lastProcessed
    ensures server.Valid() && QueueOk(queue', latest, hi', server)
    ensures got <==> answered && |queue| as real <= threshold * (if perChunk > 1 then perChunk else 1) as real
    ensures if got then hi' == Farther(if latest > 0 then latest + server.size - 1 else server.size - 1, hi) else queue' == queue && hi' == hi
    ensures server.size == 1 && hi <= 0 ==> hi' <= 0
    ensures threshold >= 0.0 && answered ==> if server.size == 1 then hi' >= 0 else hi' > latest
  {
    hide Expected;
    queue', hi', got := queue, hi, false;
    var whole := if perChunk > 1 then perChunk as real else 1.0;
    var share := |queue| as real / whole;
    EmptyShare(queue, latest, hi, server, whole);
    ShareAtMost(|queue| as real, whole, threshold);
    if share <= threshold {
      if answered {
        var t: nat := if latest > 0 then latest else 0;
        var chunk := server.PredictChunk(t);
        got := true;
        queue', hi' := Merge(queue, latest, chunk, agg, server, t, hi);
      }
    }
  }

  /**
   The client loop, one entry of `answered` per turn: whether the server's answer to that turn's request, if
   there is one, has data. Whatever the pattern, threshold and chunk sizes, what is executed is the table
   from its start. If every request is answered, every turn after the first executes a step, unless chunks
   hold one row: then the client stalls after the first step.
   */
  method RunClient(server: Server, steps: nat, perChunk: nat, threshold: real, agg: (Vec, Vec) -> Vec, answered: seq<bool>)
    returns (executed: seq<Vec>, chunks: nat)
    requires server.Valid() && Idempotent(agg)
    modifies server`exhaustedLogged, server`lastProcessed
    ensures server.Valid() && |executed| <= steps
    ensures forall i | 0 <= i < |executed| :: executed[i] == Expected(server.table, server.loop, server.cols, i)
    ensures server.size == 1 ==> |executed| <= 1
    ensures threshold >= 0.0 && (forall a | a in answered :: a) ==>
              |executed| == AllAnswered(steps, server.size, |answered|)
  {
    hide Expected, QueueOk, AllAnswered;
    var queue: map<nat, Vec> := map[];
    var latest := -1;
    ghost var hi := -1;
    executed, chunks := [], 0;
    assert QueueOk(queue, latest, hi, server) && AllAnswered(steps, server.size, 0) == 0 by {
      StartsEmpty(server, steps);
    }
    var turn := 0;
    while turn < |answered| && |executed| < steps
      invariant 0 <= turn <= |answered| && |executed| <= steps
      invariant server.Valid() && QueueOk(queue, latest, hi, server) && |executed| == latest + 1
      invariant forall i | 0 <= i < |executed| :: executed[i] == Expected(server.table, server.loop, server.cols, i)
      invariant server.size == 1 ==> hi <= 0 && latest <= 0
      invariant threshold >= 0.0 && (forall a | a in answered :: a) ==>
                  |executed| == AllAnswered(steps, server.size, turn) && Stocked(server.size, turn, latest, hi)
    {
      AnsweredNext(steps, server.size, turn);
      QueueBounds(queue, latest, hi, server);
      var row;
      queue, latest, row := ExecuteNext(queue, latest, server, hi);
      if row.Some? {
        executed := executed + [row.value];
      }
      QueueBounds(queue, latest, hi, server);
      assert answered[turn] in answered;
      var got;
      queue, got, hi := Refill(server, queue, latest, perChunk, threshold, agg, answered[turn], hi);
      if got {
        chunks := chunks + 1;
      }
      QueueBounds(queue, latest, hi, server);
      turn := turn + 1;
    }
    AnsweredEnough(steps, server.size, turn, |answered|);
  }

  lemma QueueBounds(queue: map<nat, Vec>, latest: int, hi: int, server: Server)
    requires server.Valid() && QueueOk(queue, latest, hi, server)
    ensures -1 <= latest <= hi
  {
  }

  lemma StartsEmpty(server: Server, steps: nat)
    requires server.Valid()
    ensures QueueOk(map[], -1, -1, server) && AllAnswered(steps, server.size, 0) == 0
  {
  }

  /** Steps executed after n turns when no request goes unanswered. */
  function AllAnswered(steps: nat, size: nat, n: nat): nat {
    var most := if n == 0 then 0 else if size == 1 then (if n == 1 then 0 else 1) else n - 1;
    if most < steps then most else steps
  }

  lemma AnsweredNext(steps: nat, size: nat, n: nat)
    ensures AllAnswered(steps, size, n) < steps ==>
              AllAnswered(steps, size, n + 1) == AllAnswered(steps, size, n) + (if n > 0 && (size != 1 || n == 1) then 1 else 0)
  {
  }

  lemma AnsweredEnough(steps: nat, size: nat, n: nat, m: nat)
    requires n <= m
    ensures AllAnswered(steps, size, n) <= AllAnswered(steps, size, m) <= steps
  {
  }

  /** After the first turn there is always a next row, except that one-row chunks supply only the very first. */
  predicate Stocked(size: nat, turn: nat, latest: int, hi: int) {
    && (turn > 0 ==> if size == 1 then hi == 0 else hi > latest)
    && (size == 1 ==> latest == if turn <= 1 then -1 else 0)
    && (turn == 0 ==> hi == latest)
  }

  /** An empty queue has no share. */
  lemma EmptyShare(queue: map<nat, Vec>, latest: int, hi: int, server: Server, n: real)
    requires server.Valid() && QueueOk(queue, latest, hi, server) && n > 0.0
    ensures hi == latest ==> |queue| as real / n == 0.0
  {
  }
}
