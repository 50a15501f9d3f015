/** A message that handlers only ever Nack: what every run does to it, and how it ends. */
module NackedRuns {
  import opened Optional
  import opened RetryPolicy
  import opened DeadLetter
  import opened Verdicts

  /** At least one retry, a dead-letter policy, and the server set up from the same policy. */
  predicate RetriesIntoDlq(cfg: Config) {
    && cfg.opts.retry.Some? && cfg.opts.retry.value.maxRetries >= 1 && cfg.opts.dlq.Some?
    && cfg.maxDeliver == MaxDeliver(cfg.opts.retry)
  }

  /** The dead-letter queue holds the message, Nacked after this many deliveries. */
  ghost predicate HasRecord(s: State, id: nat, deliveries: nat)
    requires id in s.stream
  {
    exists i :: 0 <= i < |s.dlq| && s.dlq[i].id == id && s.dlq[i].cause == VNack
      && s.dlq[i].message.totalDeliveries == deliveries
      && s.dlq[i].message.originalData == s.stream[id].source.data
      && s.dlq[i].message.originalSubject == s.stream[id].source.subject
  }

  /** In every run, a message that is only ever Nacked stays in the stream until delivery
      MaxRetries+1, and when it is gone the dead-letter queue holds it with exactly that count. */
  lemma NackedLeavesAtLastDelivery(cfg: Config, steps: seq<Step>, id: nat)
    requires RetriesIntoDlq(cfg) && Possible(cfg, steps) && id in After(cfg, steps).stream
    requires forall v :: (id, v) in After(cfg, steps).verdicts ==> v == VNack
    requires !After(cfg, steps).stream[id].live
    ensures
      var s, n := After(cfg, steps), cfg.opts.retry.value.maxRetries + 1;
      s.stream[id].delivered == n && HasRecord(s, id, n)
  {
    var s := After(cfg, steps);
    EveryRunIsSound(cfg, steps);
    assert EntryIsSound(cfg, s, id);
    assert InDlq(s, id);
    var i :| 0 <= i < |s.dlq| && s.dlq[i].id == id
      && s.dlq[i].message.originalData == s.stream[id].source.data
      && s.dlq[i].message.originalSubject == s.stream[id].source.subject;
    assert RecordIsSound(cfg, s, s.dlq[i]);
  }

  /** With a dead-letter policy, in every run: a message whose data is not JSON stays in the stream
      and out of the dead-letter queue as long as no handler acknowledges or terminates it. */
  lemma NonJsonStays(cfg: Config, steps: seq<Step>, id: nat)
    requires cfg.opts.dlq.Some? && Possible(cfg, steps) && id in After(cfg, steps).stream
    requires !After(cfg, steps).stream[id].source.isJson
    requires (id, VAck) !in After(cfg, steps).verdicts && (id, VTerm) !in After(cfg, steps).verdicts
    ensures After(cfg, steps).stream[id].live
    ensures forall i :: 0 <= i < |After(cfg, steps).dlq| ==> After(cfg, steps).dlq[i].id != id
  {
    var s := After(cfg, steps);
    EveryRunIsSound(cfg, steps);
    assert EntryIsSound(cfg, s, id);
    forall i | 0 <= i < |s.dlq| ensures s.dlq[i].id != id {
      assert RecordIsSound(cfg, s, s.dlq[i]);
    }
  }

  // ------------------------------------------------- one Nack for each delivery

  /** The step acts on this message. */
  predicate ActsOn(s: State, step: Step, id: nat) {
    match step
    case Deliver(i, _) => i == id
    case Decide(h, _, _, _, _) => h in s.handles && s.handles[h].id == id
    case Perform(h) => h in s.handles && s.handles[h].id == id
    case _ => false
  }

  /** Each delivery of this message is Nacked once, whatever comes of the publish, and no client that
      holds it crashes or lets its ack wait expire; anything may happen to other messages. */
  predicate IsOrderly(s: State, step: Step, id: nat) {
    match step
    case AckWaitExpires(i) => i != id
    case Crash(h) => h in s.handles ==> s.handles[h].id != id
    case Decide(h, _, verdict, _, _) =>
      h in s.handles && s.handles[h].id == id ==> verdict == VNack && !s.handles[h].decided
    case _ => true
  }

  ghost predicate AllOrderly(cfg: Config, steps: seq<Step>, id: nat)
    requires Possible(cfg, steps)
  {
    steps == [] ||
    var front := steps[..|steps| - 1];
    AllOrderly(cfg, front, id) && IsOrderly(After(cfg, front), steps[|steps| - 1], id)
  }

  /** How many steps of a run act on this message. */
  ghost function StepsOn(cfg: Config, steps: seq<Step>, id: nat): nat
    requires Possible(cfg, steps)
  {
    if steps == [] then 0
    else
      var front := steps[..|steps| - 1];
      StepsOn(cfg, front, id) + if ActsOn(After(cfg, front), steps[|steps| - 1], id) then 1 else 0
  }

  /** What the publish of the latest Nack of this message would be, or was, answered. */
  ghost function LastReply(cfg: Config, steps: seq<Step>, id: nat): Option<PublishReply>
    requires Possible(cfg, steps)
  {
    if steps == [] then None
    else
      var front, step := steps[..|steps| - 1], steps[|steps| - 1];
      if step.Decide? && ActsOn(After(cfg, front), step, id) then Some(step.reply) else LastReply(cfg, front, id)
  }

  predicate IsSettled(handle: Handle) {
    handle.decided && handle.pending == []
  }

  /** Of the deliveries of this message, all but this one have been Nacked and done with. */
  ghost predicate SettledBut(s: State, id: nat, except: Option<nat>) {
    forall h :: h in s.handles && s.handles[h].id == id && except != Some(h) ==> IsSettled(s.handles[h])
  }

  ghost predicate OnlyNacked(s: State, id: nat) {
    forall v :: (id, v) in s.verdicts ==> v == VNack
  }

  ghost predicate NotArrived(s: State, id: nat, k: nat) {
    && id !in s.stream && k == 0
    && (forall h :: h in s.handles ==> s.handles[h].id != id)
    && (forall v :: (id, v) !in s.verdicts)
  }

  /** Between deliveries, after 3 steps for each of them. */
  ghost predicate IsWaiting(cfg: Config, s: State, id: nat, k: nat) {
    && id in s.stream && SettledBut(s, id, None)
    && var e := s.stream[id];
    && e.live && e.waiting && e.delivered < cfg.maxDeliver && k == 3 * e.delivered
    && e.waited == TotalDelay(cfg.opts.retry, 1, e.delivered + 1)
  }

  /** A client holds the latest delivery, which has or has not been Nacked. */
  ghost predicate IsHeld(cfg: Config, s: State, id: nat, h: nat, k: nat, reply: Option<PublishReply>) {
    && id in s.stream && SettledBut(s, id, Some(h))
    && h in s.handles && s.handles[h].id == id
    && var e, handle := s.stream[id], s.handles[h];
    && e.live && !e.waiting && 1 <= e.delivered <= cfg.maxDeliver && handle.count == e.delivered
    && e.waited == TotalDelay(cfg.opts.retry, 1, e.delivered)
    && if handle.decided then IsNacked(cfg, e, handle, k, reply) else handle.pending == [] && k == 3 * e.delivered - 2
  }

  /** What is left to do of its Nack. */
  ghost predicate IsNacked(cfg: Config, e: Entry, handle: Handle, k: nat, reply: Option<PublishReply>) {
    var p, d, n, last := handle.pending, e.delivered, cfg.maxDeliver, if reply == Some(Confirmed) then Ack else Nak;
    if d < n then p == [NakWithDelay(DelayForAttempt(cfg.opts.retry, d))] && k == 3 * d - 1
    else if !e.source.isJson then p == [Nak] && k == 3 * n - 1
    else (|p| == 2 && p[0].Publish? && p[1] == last && k == 3 * n - 1) || (p == [last] && k == 3 * n)
  }

  /** The last delivery is done with: the message is gone, or stranded in the stream. */
  ghost predicate HasEnded(cfg: Config, s: State, id: nat, k: nat, reply: Option<PublishReply>) {
    && id in s.stream && SettledBut(s, id, None)
    && var e := s.stream[id];
    && e.delivered == cfg.maxDeliver && e.waited == TotalDelay(cfg.opts.retry, 1, e.delivered)
    && k == 3 * cfg.maxDeliver + (if e.source.isJson then 1 else 0)
    && (e.live ==> e.waiting)
    && (e.live <==> !(e.source.isJson && reply == Some(Confirmed)))
  }

  ghost predicate HasStage(cfg: Config, s: State, id: nat, k: nat, reply: Option<PublishReply>) {
    && OnlyNacked(s, id)
    && (|| NotArrived(s, id, k)
        || IsWaiting(cfg, s, id, k)
        || (exists h :: IsHeld(cfg, s, id, h, k, reply))
        || HasEnded(cfg, s, id, k, reply))
  }

  /** Nothing about this message differs. */
  ghost predicate SameFor(s: State, s': State, id: nat) {
    && (id in s.stream <==> id in s'.stream) && (id in s.stream ==> s'.stream[id] == s.stream[id])
    && (forall h :: h in s.handles && s.handles[h].id == id ==> h in s'.handles && s'.handles[h] == s.handles[h])
    && (forall h :: h in s'.handles && s'.handles[h].id == id ==> h in s.handles && s'.handles[h] == s.handles[h])
    && (forall v :: (id, v) in s.verdicts <==> (id, v) in s'.verdicts)
  }

  lemma OtherStepIsSame(cfg: Config, s: State, step: Step, id: nat)
    requires Enabled(cfg, s, step) && IsOrderly(s, step, id) && !ActsOn(s, step, id)
    requires step.Arrive? ==> step.id != id
    ensures SameFor(s, Apply(cfg, s, step), id)
  {
  }

  lemma SameKeepsStage(cfg: Config, s: State, s': State, id: nat, k: nat, reply: Option<PublishReply>)
    requires SameFor(s, s', id) && HasStage(cfg, s, id, k, reply)
    ensures HasStage(cfg, s', id, k, reply)
  {
    if h :| IsHeld(cfg, s, id, h, k, reply) {
      assert IsHeld(cfg, s', id, h, k, reply);
    }
  }

  lemma ArriveStage(cfg: Config, s: State, id: nat, source: Source, k: nat, reply: Option<PublishReply>)
    requires RetriesIntoDlq(cfg) && NotArrived(s, id, k)
    ensures IsWaiting(cfg, Apply(cfg, s, Arrive(id, source)), id, k)
  {
    assert TotalDelay(cfg.opts.retry, 1, 1) == 0;
  }

  lemma DeliverStage(cfg: Config, s: State, id: nat, h: nat, k: nat, reply: Option<PublishReply>)
    requires Enabled(cfg, s, Deliver(id, h)) && IsWaiting(cfg, s, id, k)
    ensures IsHeld(cfg, Apply(cfg, s, Deliver(id, h)), id, h, k + 1, reply)
  {
  }

  lemma DecideStage(cfg: Config, s: State, id: nat, h: nat, step: Step, k: nat, reply: Option<PublishReply>)
    requires RetriesIntoDlq(cfg) && IsHeld(cfg, s, id, h, k, reply) && !s.handles[h].decided
    requires step.Decide? && step.h == h && step.verdict == VNack && Enabled(cfg, s, step)
    ensures IsHeld(cfg, Apply(cfg, s, step), id, h, k + 1, Some(step.reply))
  {
  }

  lemma PerformStage(cfg: Config, s: State, id: nat, h: nat, k: nat, reply: Option<PublishReply>)
    requires RetriesIntoDlq(cfg) && IsHeld(cfg, s, id, h, k, reply) && s.handles[h].pending != []
    ensures
      var s' := Apply(cfg, s, Perform(h));
      || IsWaiting(cfg, s', id, k + 1)
      || IsHeld(cfg, s', id, h, k + 1, reply)
      || HasEnded(cfg, s', id, k + 1, reply)
  {
    TotalDelaySnoc(cfg.opts.retry, 1, s.stream[id].delivered);
  }

  /** A step that acts on the message takes it to the next stage. */
  lemma OwnStepKeepsStage(cfg: Config, s: State, step: Step, id: nat, k: nat, reply: Option<PublishReply>)
    requires RetriesIntoDlq(cfg) && HasStage(cfg, s, id, k, reply)
    requires Enabled(cfg, s, step) && IsOrderly(s, step, id) && ActsOn(s, step, id)
    ensures HasStage(cfg, Apply(cfg, s, step), id, k + 1, if step.Decide? then Some(step.reply) else reply)
  {
    if step.Deliver? {
      DeliverStage(cfg, s, id, step.h, k, reply);
    } else {
      var h := step.h;
      assert IsHeld(cfg, s, id, h, k, reply) by { HeldIsThisOne(cfg, s, step, id, h, k, reply); }
      if step.Decide? {
        DecideStage(cfg, s, id, h, step, k, reply);
      } else {
        PerformStage(cfg, s, id, h, k, reply);
      }
    }
  }

  lemma HeldIsThisOne(cfg: Config, s: State, step: Step, id: nat, h: nat, k: nat, reply: Option<PublishReply>)
    requires HasStage(cfg, s, id, k, reply) && Enabled(cfg, s, step) && IsOrderly(s, step, id)
    requires (step.Decide? || step.Perform?) && step.h == h && h in s.handles && s.handles[h].id == id
    ensures IsHeld(cfg, s, id, h, k, reply)
  {
    assert !IsSettled(s.handles[h]);
    if g :| IsHeld(cfg, s, id, g, k, reply) {
      assert g == h;
    }
  }

  lemma StepKeepsStage(cfg: Config, s: State, step: Step, id: nat, k: nat, reply: Option<PublishReply>)
    requires RetriesIntoDlq(cfg) && HasStage(cfg, s, id, k, reply) && Enabled(cfg, s, step) && IsOrderly(s, step, id)
    ensures
      var own := ActsOn(s, step, id);
      HasStage(cfg, Apply(cfg, s, step), id, k + (if own then 1 else 0),
               if own && step.Decide? then Some(step.reply) else reply)
  {
    if ActsOn(s, step, id) {
      OwnStepKeepsStage(cfg, s, step, id, k, reply);
    } else if step.Arrive? && step.id == id {
      ArriveStage(cfg, s, id, step.source, k, reply);
    } else {
      OtherStepIsSame(cfg, s, step, id);
      SameKeepsStage(cfg, s, Apply(cfg, s, step), id, k, reply);
    }
  }

  /** In every orderly run, among any other traffic, the message is in one of these stages, and the
      number of steps that acted on it says in which. */
  lemma {:induction false} EveryOrderlyRunHasStage(cfg: Config, steps: seq<Step>, id: nat)
    requires RetriesIntoDlq(cfg) && Possible(cfg, steps) && AllOrderly(cfg, steps, id)
    ensures HasStage(cfg, After(cfg, steps), id, StepsOn(cfg, steps, id), LastReply(cfg, steps, id))
  {
    if steps == [] {
    } else {
      var front, step := steps[..|steps| - 1], steps[|steps| - 1];
      EveryOrderlyRunHasStage(cfg, front, id);
      StepKeepsStage(cfg, After(cfg, front), step, id, StepsOn(cfg, front, id), LastReply(cfg, front, id));
    }
  }

  // ------------------------------------------------------------- what this means

  /** The delays asked for are the schedule so far: of all deliveries before the latest, and of that
      one too while the message waits for the next. */
  lemma NackDelaysFollowSchedule(cfg: Config, steps: seq<Step>, id: nat)
    requires RetriesIntoDlq(cfg) && Possible(cfg, steps) && AllOrderly(cfg, steps, id)
    requires id in After(cfg, steps).stream
    ensures
      var e := After(cfg, steps).stream[id];
      var again := e.live && e.waiting && e.delivered < cfg.maxDeliver;
      e.waited == TotalDelay(cfg.opts.retry, 1, if again then e.delivered + 1 else e.delivered)
  {
    EveryOrderlyRunHasStage(cfg, steps, id);
  }

  /** Three steps for a delivery and one more for the last: no run acts on the message more often. */
  lemma NackStepsAreBounded(cfg: Config, steps: seq<Step>, id: nat)
    requires RetriesIntoDlq(cfg) && Possible(cfg, steps) && AllOrderly(cfg, steps, id)
    ensures StepsOn(cfg, steps, id) <= 3 * cfg.maxDeliver + 1
  {
    EveryOrderlyRunHasStage(cfg, steps, id);
  }

  lemma {:induction false} FreshNumber(used: set<nat>) returns (n: nat)
    ensures forall m :: m in used ==> m < n
    decreases |used|
  {
    if used == {} {
      n := 0;
    } else {
      var m :| m in used;
      n := FreshNumber(used - {m});
      if n <= m {
        n := m + 1;
      }
      assert forall k :: k in used ==> k == m || k in used - {m};
    }
  }

  /** Nothing more can be done to the message in an orderly way. */
  ghost predicate IsAtRest(cfg: Config, s: State, id: nat) {
    forall step :: Enabled(cfg, s, step) && IsOrderly(s, step, id) ==> !ActsOn(s, step, id)
  }

  lemma RestsOnlyAtEnd(cfg: Config, s: State, id: nat, k: nat, reply: Option<PublishReply>)
    requires HasStage(cfg, s, id, k, reply) && id in s.stream && IsAtRest(cfg, s, id)
    ensures HasEnded(cfg, s, id, k, reply)
  {
    if IsWaiting(cfg, s, id, k) {
      var h := FreshNumber(s.handles.Keys);
      assert h !in s.handles;
      assert Enabled(cfg, s, Deliver(id, h)) && ActsOn(s, Deliver(id, h), id);
    } else if h :| IsHeld(cfg, s, id, h, k, reply) {
      var nack := Decide(h, Tenant("", "", ""), VNack, "", Confirmed);
      assert if s.handles[h].decided then Enabled(cfg, s, Perform(h)) else Enabled(cfg, s, nack);
      assert ActsOn(s, Perform(h), id) && ActsOn(s, nack, id);
    }
  }

  /** In every orderly run, among any other traffic: an arrived message on which no step is left has
      had MaxRetries+1 deliveries and the whole backoff schedule, and is gone, with a record of that
      count in the dead-letter queue, if and only if its data is JSON and the publish of its last
      Nack was confirmed.  Otherwise it is in the stream and will never be delivered again. */
  lemma NackedEndsInDlqIff(cfg: Config, steps: seq<Step>, id: nat)
    requires RetriesIntoDlq(cfg) && Possible(cfg, steps) && AllOrderly(cfg, steps, id)
    requires id in After(cfg, steps).stream && IsAtRest(cfg, After(cfg, steps), id)
    ensures
      var s, n := After(cfg, steps), cfg.opts.retry.value.maxRetries + 1;
      var e := s.stream[id];
      && e.delivered == n && e.waited == TotalDelay(cfg.opts.retry, 1, n)
      && (!e.live <==> e.source.isJson && LastReply(cfg, steps, id) == Some(Confirmed))
      && (!e.live ==> HasRecord(s, id, n))
      && forall h :: !Enabled(cfg, s, Deliver(id, h))
  {
    var s := After(cfg, steps);
    EveryOrderlyRunHasStage(cfg, steps, id);
    RestsOnlyAtEnd(cfg, s, id, StepsOn(cfg, steps, id), LastReply(cfg, steps, id));
    if !s.stream[id].live {
      NackedLeavesAtLastDelivery(cfg, steps, id);
    }
  }

  // ------------------------------------------------------- the Nack that decides

  /** In any run at all: when a client holds the last allowed delivery of a message still in the
      stream, its Nack, once performed, removes the message if and only if the data is JSON and the
      publish is confirmed; and either way the message is never delivered again. */
  lemma LastNackRemovesIff(cfg: Config, steps: seq<Step>, h: nat, tenant: Tenant, errorMsg: string, reply: PublishReply)
    returns (more: seq<Step>)
    requires RetriesIntoDlq(cfg) && Possible(cfg, steps)
    requires
      var s := After(cfg, steps);
      && h in s.handles && s.handles[h].pending == [] && s.handles[h].count == cfg.maxDeliver
      && s.handles[h].id in s.stream && s.stream[s.handles[h].id].live
    ensures IsPerformed(cfg, steps, h, Decide(h, tenant, VNack, errorMsg, reply), more)
    ensures
      var s, s' := After(cfg, steps), After(cfg, more);
      var id := s.handles[h].id;
      && s'.stream == s.stream[id := RejectedEntry(cfg, s.stream[id], reply)]
      && RejectedRecords(cfg, s, s', h, VNack, tenant, errorMsg, reply)
      && s'.verdicts == s.verdicts + {(id, VNack)}
      && (!s'.stream[id].live <==> s.stream[id].source.isJson && reply.Confirmed?)
      && forall g :: !Enabled(cfg, s', Deliver(id, g))
  {
    var s := After(cfg, steps);
    EveryRunIsSound(cfg, steps);
    assert HandleIsSound(cfg, s, s.handles[h]) && EntryIsSound(cfg, s, s.handles[h].id);
    more := NackGivesUp(cfg, steps, h, tenant, errorMsg, reply);
  }

  // ------------------------------------------------------------ runs that get there

  /** The message has been delivered and Nacked this often, waiting the scheduled delay each time,
      and nothing else has happened. */
  ghost predicate NackedSoFar(cfg: Config, s: State, id: nat, src: Source, count: nat) {
    && s.stream == map[id := Entry(src, count, true, true, TotalDelay(cfg.opts.retry, 1, count + 1), false)]
    && s.dlq == [] && OnlyNacked(s, id)
    && (forall h :: h in s.handles ==> h < count)
  }

  lemma NackOnce(cfg: Config, steps: seq<Step>, id: nat, src: Source, count: nat) returns (more: seq<Step>)
    requires RetriesIntoDlq(cfg) && Possible(cfg, steps) && NackedSoFar(cfg, After(cfg, steps), id, src, count)
    requires count + 1 < cfg.maxDeliver
    ensures Possible(cfg, more) && NackedSoFar(cfg, After(cfg, more), id, src, count + 1)
  {
    var held := DeliverOnce(cfg, steps, id, src, count);
    var decide := Decide(count, Tenant("", "", ""), VNack, "", Confirmed);
    Extend(cfg, held, decide);
    Extend(cfg, held + [decide], Perform(count));
    TotalDelaySnoc(cfg.opts.retry, 1, count + 1);
    more := held + [decide] + [Perform(count)];
  }

  lemma DeliverOnce(cfg: Config, steps: seq<Step>, id: nat, src: Source, count: nat) returns (more: seq<Step>)
    requires RetriesIntoDlq(cfg) && Possible(cfg, steps) && NackedSoFar(cfg, After(cfg, steps), id, src, count)
    requires count < cfg.maxDeliver
    ensures Possible(cfg, more)
    ensures
      var s := After(cfg, more);
      && s.stream == map[id := Entry(src, count + 1, false, true, TotalDelay(cfg.opts.retry, 1, count + 1), false)]
      && s.dlq == [] && OnlyNacked(s, id)
      && (forall h :: h in s.handles ==> h <= count)
      && count in s.handles && s.handles[count] == Handle(id, count + 1, false, VNack, [])
  {
    Extend(cfg, steps, Deliver(id, count));
    more := steps + [Deliver(id, count)];
  }

  lemma {:induction false} NackRounds(cfg: Config, id: nat, src: Source, count: nat) returns (steps: seq<Step>)
    requires RetriesIntoDlq(cfg) && count < cfg.maxDeliver
    ensures Possible(cfg, steps) && NackedSoFar(cfg, After(cfg, steps), id, src, count)
  {
    if count == 0 {
      Extend(cfg, [], Arrive(id, src));
      steps := [] + [Arrive(id, src)];
    } else {
      var before := NackRounds(cfg, id, src, count - 1);
      steps := NackOnce(cfg, before, id, src, count - 1);
    }
  }

  /** Both ends are reached: delivered and Nacked over and over, a message is gone with one record, or,
      when its data is not JSON or its last publish fails, stranded. */
  lemma NackedRun(cfg: Config, id: nat, src: Source, tenant: Tenant, errorMsg: string, reply: PublishReply)
    returns (steps: seq<Step>)
    requires RetriesIntoDlq(cfg)
    ensures Possible(cfg, steps)
    ensures
      var s, n, removed := After(cfg, steps), cfg.maxDeliver, src.isJson && reply.Confirmed?;
      && s.stream == map[id := Entry(src, n, !removed, !removed, TotalDelay(cfg.opts.retry, 1, n), removed)]
      && (if src.isJson && !reply.Refused?
          then |s.dlq| == 1 && s.dlq[0].id == id && Tells(cfg, s.dlq[0], src, tenant, n, errorMsg) else s.dlq == [])
      && OnlyNacked(s, id) && forall h :: !Enabled(cfg, s, Deliver(id, h))
  {
    var h: nat := cfg.maxDeliver - 1;
    var before := NackRounds(cfg, id, src, h);
    var held := DeliverOnce(cfg, before, id, src, h);
    steps := LastNackRemovesIff(cfg, held, h, tenant, errorMsg, reply);
  }

  /** A message only ever Nacked that has left the stream. */
  ghost predicate NackedAndGone(cfg: Config, steps: seq<Step>, id: nat, src: Source) {
    Possible(cfg, steps) &&
    var s := After(cfg, steps);
    id in s.stream && s.stream[id].source == src && !s.stream[id].live && OnlyNacked(s, id)
  }

  /** So a message that is only Nacked can leave the stream if and only if its data is JSON, */
  lemma NackedCanLeaveIff(cfg: Config, id: nat, src: Source)
    requires RetriesIntoDlq(cfg)
    ensures (exists steps :: NackedAndGone(cfg, steps, id, src)) <==> src.isJson
  {
    if src.isJson {
      var steps := NackedRun(cfg, id, src, Tenant("", "", ""), "", Confirmed);
      assert NackedAndGone(cfg, steps, id, src);
    } else {
      forall steps ensures !NackedAndGone(cfg, steps, id, src) {
        if NackedAndGone(cfg, steps, id, src) {
          NonJsonStays(cfg, steps, id);
        }
      }
    }
  }

  /** and even a JSON message may be stranded: by one refused publish, at the last delivery. */
  lemma JsonRunIsStranded(cfg: Config, id: nat, src: Source) returns (steps: seq<Step>)
    requires RetriesIntoDlq(cfg) && src.isJson
    ensures Possible(cfg, steps)
    ensures
      var s := After(cfg, steps);
      && id in s.stream && s.stream[id].source == src && s.stream[id].live
      && s.stream[id].delivered == cfg.maxDeliver && s.dlq == []
      && forall h :: !Enabled(cfg, s, Deliver(id, h))
  {
    steps := NackedRun(cfg, id, src, Tenant("", "", ""), "", Refused);
  }
}
