/** The pull consumer: how its server-side configuration is set up, and the fetch loop that
    always keeps one prefetch in flight. */
module Consumer {
  import opened Optional
  import opened RetryPolicy
  import opened Modular

  // -------------------------------------------------------------------- setup

  /** maxDeliver 0 means unlimited and ackWait 0 the server's default. */
  datatype ConsumerConfig = ConsumerConfig(maxAckPending: int, maxDeliver: int, ackWait: int)

  datatype SubscribeOptions = SubscribeOptions(maxAckPending: int, ackWait: int, retry: Option<Policy>)

  function ConfigFor(opts: SubscribeOptions): ConsumerConfig {
    ConsumerConfig(
      if opts.maxAckPending > 0 then opts.maxAckPending else 128,
      if opts.retry.Some? then MaxDeliver(opts.retry) else 0,
      if opts.retry.Some? && opts.retry.value.ackWait > 0 then AckWait(opts.retry)
      else if opts.ackWait > 0 then opts.ackWait else 0)
  }

  predicate NeedsRecreate(existing: ConsumerConfig, opts: SubscribeOptions) {
    opts.maxAckPending > 0 && existing.maxAckPending != opts.maxAckPending
  }

  /** What the server holds after a successful setup. */
  function SetupResult(existing: Option<ConsumerConfig>, opts: SubscribeOptions): ConsumerConfig {
    if existing.Some? && !NeedsRecreate(existing.value, opts) then existing.value else ConfigFor(opts)
  }

  /** Whether setup gets through: no call that it makes fails. */
  predicate SetupSucceeds(existing: Option<ConsumerConfig>, opts: SubscribeOptions, faults: Faults) {
    && !faults.lookup
    && (existing.None? ==> !faults.create)
    && (existing.Some? && NeedsRecreate(existing.value, opts) ==> !faults.delete && !faults.relookup && !faults.create)
  }

  /** The consumer is deleted before anything that replaces it is in place. */
  predicate Deletes(existing: Option<ConsumerConfig>, opts: SubscribeOptions, faults: Faults) {
    existing.Some? && NeedsRecreate(existing.value, opts) && !faults.lookup && !faults.delete
  }

  /** Which server calls fail; relookup is the lookup after a deletion. */
  datatype Faults = Faults(lookup: bool, delete: bool, relookup: bool, create: bool)

  class Server {
    var consumer: Option<ConsumerConfig>

    constructor (consumer: Option<ConsumerConfig>)
      ensures this.consumer == consumer
    {
      this.consumer := consumer;
    }

    /** createOrGetConsumer, the consumer part: create, keep, or delete and start over. */
    method CreateOrGetConsumer(opts: SubscribeOptions, faults: Faults) returns (ok: bool)
      modifies this
      ensures ok <==> SetupSucceeds(old(consumer), opts, faults)
      ensures ok ==> consumer == Some(SetupResult(old(consumer), opts))
      ensures !ok ==> consumer == if Deletes(old(consumer), opts, faults) then None else old(consumer)
      decreases if consumer.Some? then 1 else 0
    {
      if faults.lookup {
        return false;
      }
      if consumer.None? {
        if faults.create {
          return false;
        }
        consumer := Some(ConfigFor(opts));
      } else if NeedsRecreate(consumer.value, opts) {
        if faults.delete {
          return false;
        }
        consumer := None;
        ok := CreateOrGetConsumer(opts, faults.(lookup := faults.relookup));
        return;
      }
      return true;
    }
  }

  function BatchSizeOrDefault(batchSize: int): (n: int)
    ensures n > 0
  {
    if batchSize <= 0 then 50 else batchSize
  }

  function MaxRetriesOrDefault(maxRetries: int): (n: int)
    ensures n > 0
  {
    if maxRetries <= 0 then 5 else maxRetries
  }

  /** StartConsumer's limit: room for two batches, at least 128. */
  function MaxAckPendingFor(batchSize: int): int {
    var n := BatchSizeOrDefault(batchSize) * 2;
    if n < 128 then 128 else n
  }

  /** After a successful StartConsumer the server always has room for two batches, but its
      delivery limit is the policy's exactly when the consumer was (re)created or already had it:
      a changed retry policy alone does not reach an existing consumer. */
  lemma DeliveryLimitFollowsPolicyIff(existing: Option<ConsumerConfig>, batchSize: int, policy: Policy)
    ensures
      var opts := SubscribeOptions(MaxAckPendingFor(batchSize), 0, Some(policy));
      var result := SetupResult(existing, opts);
      && result.maxAckPending >= 2 * BatchSizeOrDefault(batchSize)
      && (result.maxDeliver == MaxDeliver(Some(policy)) <==>
            || existing.None?
            || existing.value.maxAckPending != MaxAckPendingFor(batchSize)
            || existing.value.maxDeliver == MaxDeliver(Some(policy)))
  {
  }

  /** A new consumer gets what the options say: the retry policy's delivery limit, unlimited without
      one; the policy's ack wait before the options' own; and the options' limit on unsettled
      messages, 128 without one. */
  lemma ConfigFollowsOptions(opts: SubscribeOptions)
    ensures
      var c := ConfigFor(opts);
      && (opts.maxAckPending >= 1 ==> c.maxAckPending == opts.maxAckPending)
      && (opts.maxAckPending <= 0 ==> c.maxAckPending == 128)
      && (opts.retry.None? ==> c.maxDeliver == 0)
      && (opts.retry.Some? ==>
            var retries := opts.retry.value.maxRetries;
            c.maxDeliver == if retries >= 1 then retries + 1 else 6)
      && (opts.retry.Some? && opts.retry.value.ackWait >= 1 ==> c.ackWait == opts.retry.value.ackWait)
      && (opts.retry.None? || opts.retry.value.ackWait <= 0 ==>
            c.ackWait == if opts.ackWait >= 1 then opts.ackWait else 0)
  {
  }

  /** The limit asked for is twice the batch size, at least 128; a batch size below one is 50, and a
      retry limit below one is 5. */
  lemma ConsumerDefaults(n: int)
    ensures n >= 1 ==> BatchSizeOrDefault(n) == n && MaxRetriesOrDefault(n) == n
    ensures n <= 0 ==> BatchSizeOrDefault(n) == 50 && MaxRetriesOrDefault(n) == 5
    ensures n >= 64 ==> MaxAckPendingFor(n) == 2 * n
    ensures n < 64 ==> MaxAckPendingFor(n) == 128
  {
  }

  // --------------------------------------------------------------- fetch loop

  type Msg = nat

  /** What one prefetch yields: a batch without error, the no-messages error, or another error. */
  datatype FetchResult = Fetched(msgs: seq<Msg>) | NoMessages | FetchFailed

  /** Why the loop is where it is after the results seen so far. */
  datatype Exit = SignalStop | ErrorStop | StillWaiting

  /** The non-empty successful batches, in order. */
  function Batches(results: seq<FetchResult>): seq<seq<Msg>> {
    if results == [] then []
    else
      var front, last := Batches(results[..|results| - 1]), results[|results| - 1];
      if last.Fetched? && last.msgs != [] then front + [last.msgs] else front
  }

  /** Fetch errors since the last successful fetch; an empty stream neither counts nor resets. */
  function ErrorRun(results: seq<FetchResult>): nat {
    if results == [] then 0
    else match results[|results| - 1]
      case Fetched(_) => 0
      case NoMessages => ErrorRun(results[..|results| - 1])
      case FetchFailed => 1 + ErrorRun(results[..|results| - 1])
  }

  function Failures(results: seq<FetchResult>): nat {
    if results == [] then 0
    else Failures(results[..|results| - 1]) + if results[|results| - 1].FetchFailed? then 1 else 0
  }

  /** The error run is the number of failures since the last successful fetch, however often the
      stream was empty in between. */
  lemma {:induction false} ErrorRunCountsFailures(before: seq<FetchResult>, after: seq<FetchResult>)
    requires before == [] || before[|before| - 1].Fetched?
    requires forall i :: 0 <= i < |after| ==> !after[i].Fetched?
    ensures ErrorRun(before + after) == Failures(after)
    decreases |after|
  {
    if after == [] {
      assert before + after == before;
    } else {
      var n := |after| - 1;
      ErrorRunCountsFailures(before, after[..n]);
      assert (before + after)[..|before + after| - 1] == before + after[..n];
    }
  }

  class FetchLoop {
    const maxRetries: int
    const stopOnError: bool
    var stopped: bool
    var retryCount: nat
    /** Prefetches started and not yet received. */
    var outstanding: nat
    var processed: seq<seq<Msg>>

    constructor (maxRetries: int, stopOnError: bool)
      ensures this.maxRetries == MaxRetriesOrDefault(maxRetries) && this.stopOnError == stopOnError
      ensures !stopped && retryCount == 0 && outstanding == 0 && processed == []
    {
      this.maxRetries := MaxRetriesOrDefault(maxRetries);
      this.stopOnError := stopOnError;
      stopped, retryCount, outstanding, processed := false, 0, 0, [];
    }

    method AsyncFetch()
      modifies this`outstanding
      ensures outstanding == old(outstanding) + 1
    {
      outstanding := outstanding + 1;
    }

    method Stop()
      modifies this`stopped
      ensures stopped
    {
      if stopped {
        return;
      }
      stopped := true;
    }

    /** The loop, fed any finite list of fetch results; someone calls Stop, and the signal is taken in
        place of result number stopAt.  taken is how many results it received. */
    method Start(results: seq<FetchResult>, stopAt: nat) returns (exit: Exit, taken: nat)
      requires maxRetries > 0 && outstanding == 0 && retryCount == 0 && !stopped
      modifies this
      ensures taken <= |results| && taken <= stopAt
      ensures outstanding == 1
      ensures processed == old(processed) + Batches(results[..taken])
      ensures !exit.ErrorStop? ==> retryCount == ErrorRun(results[..taken]) % maxRetries < maxRetries
      ensures exit.ErrorStop? <==> stopOnError && taken > 0 && ErrorRun(results[..taken]) == maxRetries
      ensures stopped <==> !exit.StillWaiting?
      ensures exit.StillWaiting? ==> taken == |results|
      ensures exit.SignalStop? ==> taken == stopAt
      ensures stopOnError ==> forall k :: 0 <= k < taken ==> ErrorRun(results[..k]) < maxRetries
    {
      taken := 0;
      AsyncFetch();
      while true
        invariant taken <= |results| && taken <= stopAt
        invariant outstanding == 1
        invariant processed == old(processed) + Batches(results[..taken])
        invariant retryCount == ErrorRun(results[..taken]) % maxRetries
        invariant !stopped
        invariant stopOnError ==> forall k :: 0 <= k <= taken ==> ErrorRun(results[..k]) < maxRetries
        decreases |results| - taken
      {
        if taken == stopAt {
          Stop();
          return SignalStop, taken;
        }
        if taken == |results| {
          return StillWaiting, taken;
        }
        var result := results[taken];
        outstanding := outstanding - 1;
        assert results[..taken + 1][..taken] == results[..taken];
        taken := taken + 1;
        AsyncFetch();
        match result {
          case NoMessages =>
          case FetchFailed =>
            ModSuccessor(ErrorRun(results[..taken - 1]), maxRetries);
            retryCount := retryCount + 1;
            if retryCount >= maxRetries {
              if stopOnError {
                SmallMod(ErrorRun(results[..taken - 1]), maxRetries);
                Stop();
                return ErrorStop, taken;
              }
              retryCount := 0;
            } else if stopOnError {
              SmallMod(ErrorRun(results[..taken - 1]), maxRetries);
            }
          case Fetched(msgs) =>
            retryCount := 0;
            if |msgs| > 0 {
              processed := processed + [msgs];
            }
        }
      }
    }
  }

  lemma SmallMod(n: nat, size: int)
    requires n < size
    ensures n % size == n
  {
  }

  // ---------------------------------------------------------------- in flight

  /** How a fetch ends: well, with the no-messages error, or with another error. */
  datatype Ending = Complete | Empty | Broken

  /** Messages in the hands of the client: those of the batch being processed that are not yet
      settled, and those the open prefetch has received.  handed is all the server ever gave,
      dropped what came together with a fetch error, settled what handlers acknowledged or rejected
      and abandoned what they left unsettled; results are the fetch results the loop has taken. */
  datatype Flight = Flight(
    waiting: bool, ending: Option<Ending>,
    current: seq<Msg>, prefetched: seq<Msg>,
    dropped: seq<Msg>, settled: seq<Msg>, abandoned: seq<Msg>,
    batches: seq<seq<Msg>>, handed: seq<Msg>, results: seq<FetchResult>)

  datatype Move =
    | Hand(msg: Msg)
    | FinishFetch(ending: Ending)
    | TakeResult
    | Settle(i: nat)
    | ReturnFromBatch

  const IDLE: Flight := Flight(true, None, [], [], [], [], [], [], [], [])

  predicate CanMove(batchSize: nat, f: Flight, m: Move) {
    match m
    case Hand(_) => f.ending.None? && |f.prefetched| < batchSize
    case FinishFetch(_) => f.ending.None?
    case TakeResult => f.waiting && f.ending.Some?
    case Settle(i) => !f.waiting && i < |f.current|
    case ReturnFromBatch => !f.waiting
  }

  /** What the loop receives when it takes the result of the open prefetch. */
  function ResultOf(f: Flight): FetchResult
    requires f.ending.Some?
  {
    match f.ending.value
    case Complete => Fetched(f.prefetched)
    case Empty => NoMessages
    case Broken => FetchFailed
  }

  function DoMove(batchSize: nat, f: Flight, m: Move): Flight
    requires CanMove(batchSize, f, m)
  {
    match m
    case Hand(msg) => f.(prefetched := f.prefetched + [msg], handed := f.handed + [msg])
    case FinishFetch(ending) => f.(ending := Some(ending))
    case TakeResult =>
      var g := f.(ending := None, prefetched := [], results := f.results + [ResultOf(f)]);
      if f.ending != Some(Complete) then g.(dropped := f.dropped + f.prefetched)
      else if f.prefetched == [] then g
      else g.(waiting := false, current := f.prefetched, batches := f.batches + [f.prefetched])
    case Settle(i) => f.(current := f.current[..i] + f.current[i + 1..], settled := f.settled + [f.current[i]])
    case ReturnFromBatch => f.(waiting := true, current := [], abandoned := f.abandoned + f.current)
  }

  ghost predicate Possible(batchSize: nat, moves: seq<Move>)
    decreases |moves|, 0
  {
    moves == [] ||
    var front := moves[..|moves| - 1];
    Possible(batchSize, front) && CanMove(batchSize, After(batchSize, front), moves[|moves| - 1])
  }

  ghost function After(batchSize: nat, moves: seq<Move>): Flight
    requires Possible(batchSize, moves)
    decreases |moves|, 1
  {
    if moves == [] then IDLE
    else DoMove(batchSize, After(batchSize, moves[..|moves| - 1]), moves[|moves| - 1])
  }

  /** Neither a fetch error that came with messages nor a handler that leaves messages unsettled. */
  predicate IsTidy(f: Flight, m: Move) {
    match m
    case TakeResult => f.ending == Some(Complete) || f.prefetched == []
    case ReturnFromBatch => f.current == []
    case _ => true
  }

  ghost predicate AllTidy(batchSize: nat, moves: seq<Move>)
    requires Possible(batchSize, moves)
  {
    moves == [] ||
    var front := moves[..|moves| - 1];
    AllTidy(batchSize, front) && IsTidy(After(batchSize, front), moves[|moves| - 1])
  }

  function Concat(batches: seq<seq<Msg>>): seq<Msg> {
    if batches == [] then [] else Concat(batches[..|batches| - 1]) + batches[|batches| - 1]
  }

  lemma ConcatSnoc(batches: seq<seq<Msg>>, batch: seq<Msg>)
    ensures Concat(batches + [batch]) == Concat(batches) + batch
  {
    assert (batches + [batch])[..|batches|] == batches;
  }

  lemma BatchesSnoc(results: seq<FetchResult>, last: FetchResult)
    ensures Batches(results + [last]) ==
      if last.Fetched? && last.msgs != [] then Batches(results) + [last.msgs] else Batches(results)
  {
    assert (results + [last])[..|results|] == results;
  }

  /** The messages of a list are those of three others, in some order. */
  ghost predicate SplitsInto(whole: seq<Msg>, a: seq<Msg>, b: seq<Msg>, c: seq<Msg>) {
    multiset(whole) == multiset(a) + multiset(b) + multiset(c)
  }

  lemma MoveOver(whole: seq<Msg>, a: seq<Msg>, b: seq<Msg>, c: seq<Msg>)
    requires SplitsInto(whole, a, b, c)
    ensures SplitsInto(whole, a + c, b, []) && SplitsInto(whole, a, b + c, [])
  {
  }

  lemma AddMore(whole: seq<Msg>, a: seq<Msg>, b: seq<Msg>, more: seq<Msg>)
    requires SplitsInto(whole, a, b, [])
    ensures SplitsInto(whole + more, a, b, more)
  {
  }

  /** Every message handed over is in exactly one place, and the batches are those that the fetch
      loop makes of the results it takes. */
  ghost predicate FlightIsSound(batchSize: nat, f: Flight) {
    && f.batches == Batches(f.results)
    && SplitsInto(f.handed, Concat(f.batches), f.dropped, f.prefetched)
    && SplitsInto(Concat(f.batches), f.settled, f.abandoned, f.current)
    && (f.waiting ==> f.current == [])
    && |f.prefetched| <= batchSize && |f.current| <= batchSize
  }

  lemma MoveKeepsSound(batchSize: nat, f: Flight, m: Move)
    requires FlightIsSound(batchSize, f) && CanMove(batchSize, f, m)
    ensures FlightIsSound(batchSize, DoMove(batchSize, f, m))
  {
    match m
    case TakeResult => TakeKeepsSound(batchSize, f);
    case Settle(i) => SettleKeepsSound(batchSize, f, i);
    case _ =>
  }

  lemma TakeKeepsSound(batchSize: nat, f: Flight)
    requires FlightIsSound(batchSize, f) && CanMove(batchSize, f, TakeResult)
    ensures FlightIsSound(batchSize, DoMove(batchSize, f, TakeResult))
  {
    BatchesSnoc(f.results, ResultOf(f));
    ConcatSnoc(f.batches, f.prefetched);
    MoveOver(f.handed, Concat(f.batches), f.dropped, f.prefetched);
    AddMore(Concat(f.batches), f.settled, f.abandoned, f.prefetched);
  }

  lemma SettleKeepsSound(batchSize: nat, f: Flight, i: nat)
    requires FlightIsSound(batchSize, f) && CanMove(batchSize, f, Settle(i))
    ensures FlightIsSound(batchSize, DoMove(batchSize, f, Settle(i)))
  {
    var left := f.current[..i] + f.current[i + 1..];
    assert f.current == f.current[..i] + [f.current[i]] + f.current[i + 1..];
    assert multiset(f.current) == multiset(left) + multiset{f.current[i]};
  }

  lemma {:induction false} EveryFlightIsSound(batchSize: nat, moves: seq<Move>)
    requires Possible(batchSize, moves)
    ensures FlightIsSound(batchSize, After(batchSize, moves))
  {
    if moves == [] {
    } else {
      var front := moves[..|moves| - 1];
      EveryFlightIsSound(batchSize, front);
      MoveKeepsSound(batchSize, After(batchSize, front), moves[|moves| - 1]);
    }
  }

  /** What the loop processes is what Start makes of the same fetch results. */
  lemma FlightIsFetchLoop(batchSize: nat, moves: seq<Move>)
    requires Possible(batchSize, moves)
    ensures After(batchSize, moves).batches == Batches(After(batchSize, moves).results)
  {
    EveryFlightIsSound(batchSize, moves);
  }

  lemma TidyStep(batchSize: nat, f: Flight, m: Move)
    requires CanMove(batchSize, f, m)
    ensures
      var g := DoMove(batchSize, f, m);
      && (g.dropped == [] && g.abandoned == [] <==> f.dropped == [] && f.abandoned == [] && IsTidy(f, m))
      && (IsTidy(f, m) && f.handed == Concat(f.batches) + f.prefetched ==> g.handed == Concat(g.batches) + g.prefetched)
  {
    if m.TakeResult? {
      ConcatSnoc(f.batches, f.prefetched);
    }
  }

  /** A run is tidy exactly when nothing was let go of, and then order is kept too. */
  lemma {:induction false} TidyIff(batchSize: nat, moves: seq<Move>)
    requires Possible(batchSize, moves)
    ensures
      var f := After(batchSize, moves);
      && (AllTidy(batchSize, moves) <==> f.dropped == [] && f.abandoned == [])
      && (AllTidy(batchSize, moves) ==> f.handed == Concat(f.batches) + f.prefetched)
  {
    if moves == [] {
    } else {
      var front := moves[..|moves| - 1];
      TidyIff(batchSize, front);
      TidyStep(batchSize, After(batchSize, front), moves[|moves| - 1]);
    }
  }

  /** In every run, whatever fails: what was handed over and not settled is what the client holds,
      never more than two batches, plus what it let go of. */
  lemma UnsettledIsAccounted(batchSize: nat, moves: seq<Move>)
    requires Possible(batchSize, moves)
    ensures var f := After(batchSize, moves);
      && |f.handed| - |f.settled| == |f.current| + |f.prefetched| + |f.dropped| + |f.abandoned|
      && |f.current| + |f.prefetched| <= 2 * batchSize
  {
    EveryFlightIsSound(batchSize, moves);
    var f := After(batchSize, moves);
    assert |multiset(f.handed)| == |multiset(Concat(f.batches))| + |multiset(f.dropped)| + |multiset(f.prefetched)|;
    assert |multiset(Concat(f.batches))| == |multiset(f.settled)| + |multiset(f.abandoned)| + |multiset(f.current)|;
  }

  /** So in every tidy run each message is processed once and in order or still waits in the
      prefetch, and the unsettled messages never exceed two batches, hence never the server's limit. */
  lemma InFlightIsBounded(batchSize: int, moves: seq<Move>)
    requires Possible(BatchSizeOrDefault(batchSize), moves) && AllTidy(BatchSizeOrDefault(batchSize), moves)
    ensures
      var f := After(BatchSizeOrDefault(batchSize), moves);
      && f.handed == Concat(f.batches) + f.prefetched
      && |f.handed| - |f.settled| <= 2 * BatchSizeOrDefault(batchSize) <= MaxAckPendingFor(batchSize)
  {
    TidyIff(BatchSizeOrDefault(batchSize), moves);
    UnsettledIsAccounted(BatchSizeOrDefault(batchSize), moves);
  }
}
