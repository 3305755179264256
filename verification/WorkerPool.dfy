/** The bulk-read concurrency limiter (lib/contract.ts). */
module WorkerPool {
  import opened Wrappers

  /** A worker about to take an index, waiting for a call, finished, or stopped by a rejection. */
  datatype Worker = Ready | Waiting(index: nat) | Finished | Broken

  function Max(a: int, b: int): int { if a >= b then a else b }
  function Min(a: int, b: int): int { if a <= b then a else b }

  function WorkerCount(concurrency: int, items: nat): (n: nat)
    ensures 1 <= n <= Max(1, concurrency) && n <= Max(1, items)
  {
    Min(Max(1, concurrency), Max(1, items))
  }

  predicate CanMove(w: Worker) { w.Ready? || w.Waiting? }

  function InFlight(ws: seq<Worker>): (n: nat)
    ensures n <= |ws|
  {
    if ws == [] then 0 else (if ws[0].Waiting? then 1 else 0) + InFlight(ws[1..])
  }

  function Weight(w: Worker): nat { if w.Waiting? then 2 else if w.Ready? then 1 else 0 }

  function Weights(ws: seq<Worker>): nat { if ws == [] then 0 else Weight(ws[0]) + Weights(ws[1..]) }

  lemma {:induction false} WeightsUpdate(ws: seq<Worker>, k: nat, w: Worker)
    requires k < |ws|
    ensures Weights(ws[k := w]) == Weights(ws) - Weight(ws[k]) + Weight(w)
  {
    if k > 0 {
      assert ws[k := w][1..] == ws[1..][k - 1 := w];
      WeightsUpdate(ws[1..], k - 1, w);
    }
  }

  /** The indices a cursor has handed out. */
  function Taken(cursor: nat, items: nat): nat { Min(cursor, items) }

  function Left(cursor: nat, items: nat): nat { items - Taken(cursor, items) }

  ghost predicate AnyFinished(ws: seq<Worker>) { exists k | 0 <= k < |ws| :: ws[k].Finished? }
  ghost predicate AnyBroken(ws: seq<Worker>) { exists k | 0 <= k < |ws| :: ws[k].Broken? }
  ghost predicate WaitsFor(ws: seq<Worker>, i: nat) { exists k | 0 <= k < |ws| :: ws[k] == Waiting(i) }

  /** What holds between any two moves of the workers. */
  ghost predicate Consistent<T, R, E>(
    items: seq<T>, fn: (T, nat) -> Result<R, E>, ws: seq<Worker>, cursor: nat, results: seq<Option<R>>)
  {
    && |results| == |items|
    && (forall k | 0 <= k < |ws| && ws[k].Waiting? ::
          ws[k].index < Taken(cursor, |items|) && results[ws[k].index].None?)
    && (forall j, k | 0 <= j < k < |ws| && ws[j].Waiting? && ws[k].Waiting? :: ws[j].index != ws[k].index)
    && (forall i | 0 <= i < |items| && results[i].Some? :: i < cursor && fn(items[i], i) == Ok(results[i].value))
    && (forall i | 0 <= i < Taken(cursor, |items|) ::
          results[i].Some? || WaitsFor(ws, i) || (AnyBroken(ws) && fn(items[i], i).Err?))
    && (AnyFinished(ws) ==> cursor >= |items|)
    && (AnyBroken(ws) ==> exists i | 0 <= i < |items| :: fn(items[i], i).Err?)
  }

  /** A ready worker takes the next index, or finishes. */
  lemma TakeKeepsConsistent<T, R, E>(
    items: seq<T>, fn: (T, nat) -> Result<R, E>, ws: seq<Worker>, cursor: nat, results: seq<Option<R>>, k: nat)
    requires Consistent(items, fn, ws, cursor, results) && k < |ws| && ws[k].Ready?
    ensures Consistent(items, fn, ws[k := if cursor < |items| then Waiting(cursor) else Finished], cursor + 1, results)
  {
    var ws' := ws[k := if cursor < |items| then Waiting(cursor) else Finished];
    assert ws'[k] == if cursor < |items| then Waiting(cursor) else Finished;
    forall i: nat | WaitsFor(ws, i) ensures WaitsFor(ws', i) {
      var j :| 0 <= j < |ws| && ws[j] == Waiting(i);
      assert ws'[j] == Waiting(i);
    }
    if AnyBroken(ws) {
      var j :| 0 <= j < |ws| && ws[j].Broken?;
      assert ws'[j].Broken?;
    }
  }

  /** A call that resolves fills its own slot. */
  lemma ResolveKeepsConsistent<T, R, E>(
    items: seq<T>, fn: (T, nat) -> Result<R, E>, ws: seq<Worker>, cursor: nat, results: seq<Option<R>>, k: nat)
    requires Consistent(items, fn, ws, cursor, results) && k < |ws| && ws[k].Waiting?
    requires fn(items[ws[k].index], ws[k].index).Ok?
    ensures Consistent(items, fn, ws[k := Ready], cursor,
              results[ws[k].index := Some(fn(items[ws[k].index], ws[k].index).value)])
  {
    var n := ws[k].index;
    var ws' := ws[k := Ready];
    forall i: nat | WaitsFor(ws, i) && i != n ensures WaitsFor(ws', i) {
      var j :| 0 <= j < |ws| && ws[j] == Waiting(i);
      assert ws'[j] == Waiting(i);
    }
    if AnyBroken(ws) {
      var j :| 0 <= j < |ws| && ws[j].Broken?;
      assert ws'[j].Broken?;
    }
  }

  /** A call that rejects stops its worker and nobody else. */
  lemma RejectKeepsConsistent<T, R, E>(
    items: seq<T>, fn: (T, nat) -> Result<R, E>, ws: seq<Worker>, cursor: nat, results: seq<Option<R>>, k: nat)
    requires Consistent(items, fn, ws, cursor, results) && k < |ws| && ws[k].Waiting?
    requires fn(items[ws[k].index], ws[k].index).Err?
    ensures Consistent(items, fn, ws[k := Broken], cursor, results)
  {
    var n := ws[k].index;
    var ws' := ws[k := Broken];
    assert ws'[k].Broken?;
    forall i: nat | WaitsFor(ws, i) && i != n ensures WaitsFor(ws', i) {
      var j :| 0 <= j < |ws| && ws[j] == Waiting(i);
      assert ws'[j] == Waiting(i);
    }
  }

  /** When nobody can move, either some call was rejected or every slot is filled. */
  lemma AtRest<T, R, E>(
    items: seq<T>, fn: (T, nat) -> Result<R, E>, ws: seq<Worker>, cursor: nat, results: seq<Option<R>>)
    requires Consistent(items, fn, ws, cursor, results) && ws != []
    requires forall k | 0 <= k < |ws| :: !CanMove(ws[k])
    ensures AnyBroken(ws) ==> exists i | 0 <= i < |items| :: fn(items[i], i).Err?
    ensures !AnyBroken(ws) ==> Filled(items, fn, results) && cursor >= |items|
  {
    if !AnyBroken(ws) {
      assert !ws[0].Broken? && ws[0].Finished?;
      forall i | 0 <= i < |items| ensures results[i].Some? {
        assert i < Taken(cursor, |items|);
        assert forall k | 0 <= k < |ws| :: !CanMove(ws[k]) && !ws[k].Waiting?;
      }
    }
  }

  ghost predicate Filled<T, R, E>(items: seq<T>, fn: (T, nat) -> Result<R, E>, results: seq<Option<R>>) {
    |results| == |items| && forall i | 0 <= i < |items| :: results[i].Some? && fn(items[i], i) == Ok(results[i].value)
  }

  /** The first `n` indices, in order. */
  function UpTo(n: nat): seq<nat> { seq(n, i => i) }

  /** `mapWithConcurrency`. At each turn any worker that can move does, so the postconditions
      hold of every interleaving: indices are taken once each and in order, never more calls
      are in flight than there are workers, and the result is the sequential map, or a
      rejection exactly if some call rejects. `None` stands for the rejected promise. */
  method MapWithConcurrency<T, R, E>(items: seq<T>, fn: (T, nat) -> Result<R, E>, concurrency: int)
    returns (values: Option<seq<R>>, calls: seq<nat>, mostInFlight: nat)
    ensures values.Some? <==> forall i | 0 <= i < |items| :: fn(items[i], i).Ok?
    ensures values.Some? ==> |values.value| == |items|
    ensures values.Some? ==> forall i | 0 <= i < |items| :: fn(items[i], i) == Ok(values.value[i])
    ensures |calls| <= |items| && calls == UpTo(|calls|) && (values.Some? ==> |calls| == |items|)
    ensures mostInFlight <= WorkerCount(concurrency, |items|)
  {
    var results := new Option<R>[|items|](_ => None);
    var rejected;
    calls, mostInFlight, rejected := RunWorkers(items, fn, concurrency, results);
    if rejected {
      return None, calls, mostInFlight;
    }
    var list: seq<R> := [];
    for i := 0 to |items|
      invariant |list| == i && forall j | 0 <= j < i :: fn(items[j], j) == Ok(list[j])
    {
      assert results[..][i].Some?;
      list := list + [results[i].value];
    }
    values := Some(list);
  }

  /** The call a worker waits for ends: its slot is filled, or the worker stops. */
  method FinishCall<T, R, E>(
    items: seq<T>, fn: (T, nat) -> Result<R, E>, workers: seq<Worker>, ghost cursor: nat, results: array<Option<R>>,
    k: nat)
    returns (next: Worker)
    requires k < |workers| && workers[k].Waiting? && Consistent(items, fn, workers, cursor, results[..])
    modifies results
    ensures Consistent(items, fn, workers[k := next], cursor, results[..])
    ensures next == if fn(items[workers[k].index], workers[k].index).Ok? then Ready else Broken
  {
    var i := workers[k].index;
    var outcome := fn(items[i], i);
    if outcome.Ok? {
      ResolveKeepsConsistent(items, fn, workers, cursor, results[..], k);
      ghost var before := results[..];
      results[i] := Some(outcome.value);
      assert results[..] == before[i := Some(outcome.value)];
      next := Ready;
    } else {
      RejectKeepsConsistent(items, fn, workers, cursor, results[..], k);
      next := Broken;
    }
  }

  /** One turn of worker `k`: it takes an index, or its call ends. */
  method Turn<T, R, E>(
    items: seq<T>, fn: (T, nat) -> Result<R, E>, workers: seq<Worker>, cursor: nat, results: array<Option<R>>, k: nat)
    returns (workers': seq<Worker>, cursor': nat)
    requires k < |workers| && CanMove(workers[k]) && Consistent(items, fn, workers, cursor, results[..])
    modifies results
    ensures Consistent(items, fn, workers', cursor', results[..])
    ensures |workers'| == |workers| && cursor' == if workers[k].Ready? then cursor + 1 else cursor
    ensures 3 * Left(cursor', |items|) + Weights(workers') < 3 * Left(cursor, |items|) + Weights(workers)
  {
    var next;
    if workers[k].Ready? {
      next := if cursor < |items| then Waiting(cursor) else Finished;
      TakeKeepsConsistent(items, fn, workers, cursor, results[..], k);
      cursor' := cursor + 1;
    } else {
      next := FinishCall(items, fn, workers, cursor, results, k);
      cursor' := cursor;
    }
    WeightsUpdate(workers, k, next);
    workers' := workers[k := next];
  }

  lemma StartsConsistent<T, R, E>(items: seq<T>, fn: (T, nat) -> Result<R, E>, ws: seq<Worker>, results: seq<Option<R>>)
    requires |results| == |items| && forall i | 0 <= i < |items| :: results[i].None?
    requires forall k | 0 <= k < |ws| :: ws[k].Ready?
    ensures Consistent(items, fn, ws, 0, results)
  {
  }

  method RunWorkers<T, R, E>(items: seq<T>, fn: (T, nat) -> Result<R, E>, concurrency: int, results: array<Option<R>>)
    returns (calls: seq<nat>, mostInFlight: nat, rejected: bool)
    requires results.Length == |items| && forall i | 0 <= i < |items| :: results[i].None?
    modifies results
    ensures rejected ==> exists i | 0 <= i < |items| :: fn(items[i], i).Err?
    ensures !rejected ==> Filled(items, fn, results[..]) && |calls| == |items|
    ensures |calls| <= |items| && calls == UpTo(|calls|)
    ensures mostInFlight <= WorkerCount(concurrency, |items|)
  {
    var cursor: nat := 0;
    var workerCount := WorkerCount(concurrency, |items|);
    var workers: seq<Worker> := seq(workerCount, _ => Ready);
    calls, mostInFlight := [], 0;
    StartsConsistent(items, fn, workers, results[..]);
    while exists k | 0 <= k < |workers| :: CanMove(workers[k])
      invariant |workers| == workerCount
      invariant Consistent(items, fn, workers, cursor, results[..])
      invariant calls == UpTo(Taken(cursor, |items|))
      invariant mostInFlight <= workerCount
      decreases 3 * Left(cursor, |items|) + Weights(workers)
    {
      var k :| 0 <= k < |workers| && CanMove(workers[k]);
      if workers[k].Ready? && cursor < |items| {
        calls := calls + [cursor];
        assert UpTo(cursor) + [cursor] == UpTo(cursor + 1);
      }
      workers, cursor := Turn(items, fn, workers, cursor, results, k);
      mostInFlight := Max(mostInFlight, InFlight(workers));
    }
    AtRest(items, fn, workers, cursor, results[..]);
    rejected := exists k | 0 <= k < |workers| :: workers[k].Broken?;
  }

  const BATCH_GET_CLAIMS_MAX: nat := 50

  datatype TooMany = TooMany

  /** `batchGetClaims`: slot i answers id i. `read` is `readClaimRaw`, which answers null
      rather than throwing. */
  method BatchGetClaims<C>(ids: seq<int>, configured: bool, read: int -> Option<C>, concurrency: int)
    returns (slots: Result<seq<Option<C>>, TooMany>)
    ensures slots.Err? <==> |ids| > BATCH_GET_CLAIMS_MAX
    ensures slots.Ok? ==> |slots.value| == |ids|
    ensures slots.Ok? ==> forall i | 0 <= i < |ids| :: slots.value[i] == if configured then read(ids[i]) else None
  {
    if |ids| > BATCH_GET_CLAIMS_MAX {
      return Err(TooMany);
    }
    if |ids| == 0 {
      return Ok([]);
    }
    if !configured {
      return Ok(seq(|ids|, _ => None));
    }
    var readOne := (id, i) => Result<Option<C>, TooMany>.Ok(read(id));
    var values, calls, mostInFlight := MapWithConcurrency(ids, readOne, concurrency);
    slots := Ok(values.value);
  }
}
