/** Delivery, retry and dead-lettering of messages.  The first half is the client: what a
    message wrapper does to the server for each verdict of the handler.  The second half is
    the protocol: any interleaving of server, handler and crash steps. */
module DeadLetter {
  import opened Optional
  import opened RetryPolicy

  datatype DlqPolicy = DlqPolicy(subject: string, serviceName: string, serviceType: string, eventType: string)

  function DlqSubject(p: DlqPolicy): string {
    if p.subject != "" then p.subject else "dlq.mapexos"
  }

  /** The documented default, "dlq." and the service's name, is what an empty subject gets only for
      a service called mapexos. */
  lemma DefaultSubjectIsDocumentedIff(p: DlqPolicy)
    requires p.subject == ""
    ensures DlqSubject(p) == "dlq." + p.serviceName <==> p.serviceName == "mapexos"
  {
    assert "dlq.mapexos"[4..] == "mapexos" && ("dlq." + p.serviceName)[4..] == p.serviceName;
    assert "dlq." + "mapexos" == "dlq.mapexos";
  }

  datatype Options = Options(stream: string, durable: string, retry: Option<Policy>, dlq: Option<DlqPolicy>)

  type Headers = map<string, seq<string>>

  /** A message as stored in the stream; isJson says whether its data is a valid JSON text,
      which is what marshalling the dead-letter record needs. */
  datatype Source = Source(data: string, isJson: bool, subject: string, headers: Headers, timestamp: int)

  /** What the service fills in after parsing. */
  datatype Tenant = Tenant(orgId: string, pathKey: string, eventTrackerId: string)

  datatype DlqMessage = DlqMessage(
    eventTrackerId: string, orgId: string, pathKey: string,
    serviceName: string, serviceType: string, eventType: string,
    originalSubject: string, originalStream: string, originalData: string,
    originalHeaders: map<string, string>,
    lastError: string, errorCount: nat, firstDelivery: int, totalDeliveries: nat, consumerName: string)

  datatype Verdict = VAck | VNack | VReject | VTerm

  /** The reply to the dead-letter publish: stored and confirmed, stored but the reply lost, or not stored. */
  datatype PublishReply = Confirmed | ReplyLost | Refused

  /** One call on the raw message or on the publisher, as the server sees it. */
  datatype Effect =
    | Ack
    | Nak
    | NakWithDelay(delay: int)
    | Term
    | Publish(subject: string, message: DlqMessage, reply: PublishReply)

  // ------------------------------------------------------------------- client

  function FirstValues(headers: Headers): map<string, string> {
    map k | k in headers && |headers[k]| > 0 :: headers[k][0]
  }

  function DlqRecord(opts: Options, policy: DlqPolicy, src: Source, tenant: Tenant, count: nat,
                     errorMsg: string): DlqMessage {
    DlqMessage(tenant.eventTrackerId, tenant.orgId, tenant.pathKey,
               policy.serviceName, policy.serviceType, policy.eventType,
               src.subject, opts.stream, src.data, FirstValues(src.headers),
               errorMsg, count, src.timestamp, count, opts.durable)
  }

  /** sendToDLQAndAck as the sequence of effects it issues. */
  function DeadLetterEffects(opts: Options, src: Source, tenant: Tenant, count: nat, errorMsg: string,
                             reply: PublishReply): seq<Effect>
  {
    if opts.dlq.None? then [Term]
    else if !src.isJson then [Nak]
    else
      var record := DlqRecord(opts, opts.dlq.value, src, tenant, count, errorMsg);
      [Publish(DlqSubject(opts.dlq.value), record, reply), if reply.Confirmed? then Ack else Nak]
  }

  /** What each verdict of the handler makes the wrapper do. */
  function Effects(opts: Options, src: Source, tenant: Tenant, count: nat, verdict: Verdict, errorMsg: string,
                   reply: PublishReply): seq<Effect>
  {
    match verdict
    case VAck => [Ack]
    case VTerm => [Term]
    case VReject => DeadLetterEffects(opts, src, tenant, count, errorMsg, reply)
    case VNack =>
      if opts.retry.None? then [Nak]
      else if !ShouldRetry(opts.retry, count) then DeadLetterEffects(opts, src, tenant, count, errorMsg, reply)
      else [NakWithDelay(DelayForAttempt(opts.retry, count))]
  }

  /** The retry-aware wrapper around one delivery; sent is everything it has asked of the server. */
  class Message {
    const opts: Options
    const src: Source
    var tenant: Tenant
    const deliveryCount: nat
    var sent: seq<Effect>

    constructor (opts: Options, src: Source, deliveryCount: nat)
      ensures this.opts == opts && this.src == src && this.deliveryCount == deliveryCount
      ensures tenant == Tenant("", "", "") && sent == []
    {
      this.opts, this.src, this.deliveryCount := opts, src, deliveryCount;
      tenant := Tenant("", "", "");
      sent := [];
    }

    method AckMessage()
      modifies this`sent
      ensures sent == old(sent) + Effects(opts, src, tenant, deliveryCount, VAck, "", Refused)
    {
      sent := sent + [Ack];
    }

    method Nack(errorMsg: string, reply: PublishReply)
      modifies this`sent
      ensures sent == old(sent) + Effects(opts, src, tenant, deliveryCount, VNack, errorMsg, reply)
    {
      if opts.retry.None? {
        sent := sent + [Nak];
        return;
      }
      if !ShouldRetry(opts.retry, deliveryCount) {
        SendToDlqAndAck(errorMsg, reply);
        return;
      }
      var delay := DelayForAttempt(opts.retry, deliveryCount);
      sent := sent + [NakWithDelay(delay)];
    }

    method Reject(reason: string, reply: PublishReply)
      modifies this`sent
      ensures sent == old(sent) + Effects(opts, src, tenant, deliveryCount, VReject, reason, reply)
    {
      SendToDlqAndAck(reason, reply);
    }

    method Terminate()
      modifies this`sent
      ensures sent == old(sent) + Effects(opts, src, tenant, deliveryCount, VTerm, "", Refused)
    {
      sent := sent + [Term];
    }

    /** The loop that keeps the first value of every non-empty header. */
    method CopyHeaders() returns (headers: map<string, string>)
      ensures headers == FirstValues(src.headers)
    {
      headers := map[];
      var todo := src.headers.Keys;
      while todo != {}
        invariant todo <= src.headers.Keys
        invariant headers == map k | k in src.headers && k !in todo && |src.headers[k]| > 0 :: src.headers[k][0]
        decreases |todo|
      {
        var k :| k in todo;
        var v := src.headers[k];
        if |v| > 0 {
          headers := headers[k := v[0]];
        }
        todo := todo - {k};
      }
    }

    method SendToDlqAndAck(errorMsg: string, reply: PublishReply)
      modifies this`sent
      ensures sent == old(sent) + DeadLetterEffects(opts, src, tenant, deliveryCount, errorMsg, reply)
    {
      if opts.dlq.None? {
        sent := sent + [Term];
        return;
      }
      var policy := opts.dlq.value;
      var headers := CopyHeaders();
      var record := DlqMessage(tenant.eventTrackerId, tenant.orgId, tenant.pathKey,
                               policy.serviceName, policy.serviceType, policy.eventType,
                               src.subject, opts.stream, src.data, headers,
                               errorMsg, deliveryCount, src.timestamp, deliveryCount, opts.durable);
      if !src.isJson {
        sent := sent + [Nak];
        return;
      }
      sent := sent + [Publish(DlqSubject(policy), record, reply)];
      if reply != Confirmed {
        sent := sent + [Nak];
        return;
      }
      sent := sent + [Ack];
    }
  }

  /** newMessage: a delivery without metadata is refused. */
  method NewMessage(opts: Options, src: Source, deliveries: Option<nat>) returns (m: Option<Message>)
    ensures m.Some? <==> deliveries.Some?
    ensures m.Some? ==> fresh(m.value) && m.value.opts == opts && m.value.src == src
    ensures m.Some? ==> m.value.deliveryCount == deliveries.value && m.value.sent == []
    ensures m.Some? ==> m.value.tenant == Tenant("", "", "")
  {
    if deliveries.None? {
      return None;
    }
    var message := new Message(opts, src, deliveries.value);
    m := Some(message);
  }

  // ----------------------------------------------------------------- protocol

  /** maxDeliver is the server's limit on deliveries of one message; 0 means none. */
  datatype Config = Config(opts: Options, maxDeliver: nat)

  /** A message in the stream: how often it was delivered, whether it may be delivered now,
      whether it is still there, the delays that Naks have asked for it so far, and whether it was
      acknowledged, as opposed to terminated. */
  datatype Entry = Entry(source: Source, delivered: nat, waiting: bool, live: bool, waited: int, acked: bool)

  /** One delivery held by some client: whether the handler has given a verdict on it, the last one,
      and the effects it has yet to perform. */
  datatype Handle = Handle(id: nat, count: nat, decided: bool, verdict: Verdict, pending: seq<Effect>)

  /** A record in the dead-letter queue: of which message, why, and under which subject. */
  datatype DeadLettered = DeadLettered(id: nat, cause: Verdict, subject: string, message: DlqMessage)

  datatype State = State(
    stream: map<nat, Entry>,
    handles: map<nat, Handle>,
    dlq: seq<DeadLettered>,
    verdicts: set<(nat, Verdict)>)

  datatype Step =
    | Arrive(id: nat, source: Source)
    | Deliver(id: nat, h: nat)
    | AckWaitExpires(id: nat)
    | Decide(h: nat, tenant: Tenant, verdict: Verdict, errorMsg: string, reply: PublishReply)
    | Perform(h: nat)
    | Crash(h: nat)

  const INITIAL: State := State(map[], map[], [], {})

  predicate Enabled(cfg: Config, s: State, step: Step) {
    match step
    case Arrive(id, _) => id !in s.stream
    case Deliver(id, h) =>
      && id in s.stream && h !in s.handles
      && var e := s.stream[id];
      e.live && e.waiting && (cfg.maxDeliver == 0 || e.delivered < cfg.maxDeliver)
    case AckWaitExpires(id) => id in s.stream
    case Decide(h, _, _, _, _) => h in s.handles && s.handles[h].pending == [] && s.handles[h].id in s.stream
    case Perform(h) => h in s.handles && s.handles[h].pending != [] && s.handles[h].id in s.stream
    case Crash(h) => h in s.handles
  }

  /** The server's reaction to one effect of a handle. */
  function Serve(s: State, handle: Handle, effect: Effect): State
    requires handle.id in s.stream
  {
    var e := s.stream[handle.id];
    match effect
    case Ack => s.(stream := s.stream[handle.id := e.(live := false, acked := true)])
    case Term => s.(stream := s.stream[handle.id := e.(live := false)])
    case Nak => s.(stream := s.stream[handle.id := e.(waiting := true)])
    case NakWithDelay(delay) => s.(stream := s.stream[handle.id := e.(waiting := true, waited := e.waited + delay)])
    case Publish(subject, message, reply) =>
      if reply.Refused? then s
      else s.(dlq := s.dlq + [DeadLettered(handle.id, handle.verdict, subject, message)])
  }

  function Apply(cfg: Config, s: State, step: Step): State
    requires Enabled(cfg, s, step)
  {
    match step
    case Arrive(id, source) => s.(stream := s.stream[id := Entry(source, 0, true, true, 0, false)])
    case Deliver(id, h) =>
      var e := s.stream[id];
      s.(stream := s.stream[id := e.(delivered := e.delivered + 1, waiting := false)],
         handles := s.handles[h := Handle(id, e.delivered + 1, false, VNack, [])])
    case AckWaitExpires(id) => s.(stream := s.stream[id := s.stream[id].(waiting := true)])
    case Decide(h, tenant, verdict, errorMsg, reply) =>
      var handle := s.handles[h];
      var effects := Effects(cfg.opts, s.stream[handle.id].source, tenant, handle.count, verdict, errorMsg, reply);
      s.(handles := s.handles[h := handle.(decided := true, verdict := verdict, pending := effects)],
         verdicts := s.verdicts + {(handle.id, verdict)})
    case Perform(h) =>
      var handle := s.handles[h];
      Serve(s, handle, handle.pending[0]).(handles := s.handles[h := handle.(pending := handle.pending[1..])])
    case Crash(h) => s.(handles := s.handles - {h})
  }

  /** A run: every step is enabled where it is taken. */
  ghost predicate Possible(cfg: Config, steps: seq<Step>)
    decreases |steps|, 0
  {
    steps == [] ||
    var front := steps[..|steps| - 1];
    Possible(cfg, front) && Enabled(cfg, After(cfg, front), steps[|steps| - 1])
  }

  ghost function After(cfg: Config, steps: seq<Step>): State
    requires Possible(cfg, steps)
    decreases |steps|, 1
  {
    if steps == [] then INITIAL
    else Apply(cfg, After(cfg, steps[..|steps| - 1]), steps[|steps| - 1])
  }

  lemma Extend(cfg: Config, steps: seq<Step>, step: Step)
    requires Possible(cfg, steps) && Enabled(cfg, After(cfg, steps), step)
    ensures Possible(cfg, steps + [step])
    ensures After(cfg, steps + [step]) == Apply(cfg, After(cfg, steps), step)
  {
  }

  // --------------------------------------------------------------- invariants

  /** The dead-letter queue holds this message's data and subject. */
  ghost predicate InDlq(s: State, id: nat)
    requires id in s.stream
  {
    exists i :: 0 <= i < |s.dlq| && s.dlq[i].id == id
      && s.dlq[i].message.originalData == s.stream[id].source.data
      && s.dlq[i].message.originalSubject == s.stream[id].source.subject
  }

  /** Why a message may be gone: the handler acknowledged or terminated it, it is in the
      dead-letter queue, or it was given up with no dead-letter policy configured. */
  ghost predicate Accounted(cfg: Config, s: State, id: nat)
    requires id in s.stream
  {
    || (id, VAck) in s.verdicts
    || (id, VTerm) in s.verdicts
    || InDlq(s, id)
    || (cfg.opts.dlq.None? && ((id, VReject) in s.verdicts || (id, VNack) in s.verdicts))
  }

  /** A dead-letter record tells the truth about its message, and a Nack makes one only
      after the last retry. */
  predicate TrueRecord(cfg: Config, e: Entry, cause: Verdict, m: DlqMessage) {
    && e.source.isJson
    && m.originalData == e.source.data && m.originalSubject == e.source.subject
    && m.totalDeliveries <= e.delivered
    && (cause == VReject || cause == VNack)
    && (cause == VNack ==> cfg.opts.retry.Some? && m.totalDeliveries >= cfg.opts.retry.value.maxRetries + 1)
  }

  ghost predicate PendingIsSound(cfg: Config, s: State, handle: Handle)
    requires handle.id in s.stream
  {
    var p := handle.pending;
    || p == []
    || (|p| == 1 && !p[0].Publish? && (p[0].Ack? || p[0].Term? ==> Accounted(cfg, s, handle.id)))
    || (|p| == 2 && p[0].Publish? && TrueRecord(cfg, s.stream[handle.id], handle.verdict, p[0].message)
        && p[1] == if p[0].reply.Confirmed? then Ack else Nak)
  }

  ghost predicate HandleIsSound(cfg: Config, s: State, handle: Handle) {
    && handle.id in s.stream
    && handle.count <= s.stream[handle.id].delivered
    && (handle.pending != [] ==> (handle.id, handle.verdict) in s.verdicts)
    && PendingIsSound(cfg, s, handle)
  }

  ghost predicate EntryIsSound(cfg: Config, s: State, id: nat)
    requires id in s.stream
  {
    && (cfg.maxDeliver > 0 ==> s.stream[id].delivered <= cfg.maxDeliver)
    && (s.stream[id].live || Accounted(cfg, s, id))
  }

  ghost predicate RecordIsSound(cfg: Config, s: State, r: DeadLettered) {
    r.id in s.stream && (r.id, r.cause) in s.verdicts && TrueRecord(cfg, s.stream[r.id], r.cause, r.message)
  }

  ghost predicate Sound(cfg: Config, s: State) {
    && (forall id :: id in s.stream ==> EntryIsSound(cfg, s, id))
    && (forall h :: h in s.handles ==> HandleIsSound(cfg, s, s.handles[h]))
    && (forall i :: 0 <= i < |s.dlq| ==> RecordIsSound(cfg, s, s.dlq[i]))
  }

  ghost predicate SameMessage(s: State, s': State, id: nat)
    requires id in s.stream
  {
    && id in s'.stream
    && s'.stream[id].source == s.stream[id].source
    && s'.stream[id].delivered >= s.stream[id].delivered
  }

  /** s' knows at least what s knows. */
  ghost predicate Extends(s: State, s': State) {
    && (forall id :: id in s.stream ==> SameMessage(s, s', id))
    && s.verdicts <= s'.verdicts
    && s.dlq <= s'.dlq
  }

  lemma AccountedIsStable(cfg: Config, s: State, s': State, id: nat)
    requires Extends(s, s') && id in s.stream && Accounted(cfg, s, id)
    ensures Accounted(cfg, s', id)
  {
  }

  lemma HandleIsStable(cfg: Config, s: State, s': State, handle: Handle)
    requires Extends(s, s') && HandleIsSound(cfg, s, handle)
    ensures HandleIsSound(cfg, s', handle)
  {
  }

  lemma StepExtends(cfg: Config, s: State, step: Step)
    requires Enabled(cfg, s, step)
    ensures Extends(s, Apply(cfg, s, step))
  {
  }

  /** A verdict never leaves a handle with an unjustified removal in its hands. */
  lemma DecideIsSound(cfg: Config, s: State, step: Step)
    requires step.Decide? && Enabled(cfg, s, step) && Sound(cfg, s)
    ensures HandleIsSound(cfg, Apply(cfg, s, step), Apply(cfg, s, step).handles[step.h])
  {
  }

  /** After an effect the rest of the handle's effects stay justified. */
  lemma PerformIsSound(cfg: Config, s: State, step: Step)
    requires step.Perform? && Enabled(cfg, s, step) && Sound(cfg, s)
    ensures HandleIsSound(cfg, Apply(cfg, s, step), Apply(cfg, s, step).handles[step.h])
  {
    var s' := Apply(cfg, s, step);
    var handle, handle' := s.handles[step.h], s'.handles[step.h];
    assert HandleIsSound(cfg, s, handle);
    var p := handle.pending;
    if |p| == 2 {
      assert handle'.pending == [p[1]];
      if p[0].reply.Confirmed? {
        var r := s'.dlq[|s'.dlq| - 1];
        assert r == DeadLettered(handle.id, handle.verdict, p[0].subject, p[0].message);
        assert InDlq(s', handle.id);
      }
    }
  }

  lemma HandlesStaySound(cfg: Config, s: State, step: Step)
    requires Enabled(cfg, s, step) && Sound(cfg, s)
    ensures var s' := Apply(cfg, s, step); forall h :: h in s'.handles ==> HandleIsSound(cfg, s', s'.handles[h])
  {
    var s' := Apply(cfg, s, step);
    StepExtends(cfg, s, step);
    forall h | h in s'.handles ensures HandleIsSound(cfg, s', s'.handles[h]) {
      if step.Decide? && h == step.h {
        DecideIsSound(cfg, s, step);
      } else if step.Perform? && h == step.h {
        PerformIsSound(cfg, s, step);
      } else if h in s.handles && s'.handles[h] == s.handles[h] {
        HandleIsStable(cfg, s, s', s.handles[h]);
      }
    }
  }

  lemma EntriesStaySound(cfg: Config, s: State, step: Step)
    requires Enabled(cfg, s, step) && Sound(cfg, s)
    ensures var s' := Apply(cfg, s, step); forall id :: id in s'.stream ==> EntryIsSound(cfg, s', id)
  {
    var s' := Apply(cfg, s, step);
    StepExtends(cfg, s, step);
    forall id | id in s'.stream ensures EntryIsSound(cfg, s', id) {
      if id in s.stream {
        assert EntryIsSound(cfg, s, id);
        if Accounted(cfg, s, id) {
          AccountedIsStable(cfg, s, s', id);
        } else if step.Perform? && s.handles[step.h].id == id {
          assert HandleIsSound(cfg, s, s.handles[step.h]);
        }
      }
    }
  }

  lemma RecordIsStable(cfg: Config, s: State, s': State, r: DeadLettered)
    requires Extends(s, s') && RecordIsSound(cfg, s, r)
    ensures RecordIsSound(cfg, s', r)
  {
    assert SameMessage(s, s', r.id);
  }

  lemma RecordsStaySound(cfg: Config, s: State, step: Step)
    requires Enabled(cfg, s, step) && Sound(cfg, s)
    ensures var s' := Apply(cfg, s, step); forall i :: 0 <= i < |s'.dlq| ==> RecordIsSound(cfg, s', s'.dlq[i])
  {
    var s' := Apply(cfg, s, step);
    StepExtends(cfg, s, step);
    forall i | 0 <= i < |s'.dlq| ensures RecordIsSound(cfg, s', s'.dlq[i]) {
      if i < |s.dlq| {
        RecordIsStable(cfg, s, s', s.dlq[i]);
      } else {
        var handle := s.handles[step.h];
        assert HandleIsSound(cfg, s, handle);
        var publish := handle.pending[0];
        assert s'.dlq[i] == DeadLettered(handle.id, handle.verdict, publish.subject, publish.message);
      }
    }
  }

  lemma {:induction false} EveryRunIsSound(cfg: Config, steps: seq<Step>)
    requires Possible(cfg, steps)
    ensures Sound(cfg, After(cfg, steps))
  {
    if steps == [] {
    } else {
      var front, last := steps[..|steps| - 1], steps[|steps| - 1];
      EveryRunIsSound(cfg, front);
      var s := After(cfg, front);
      HandlesStaySound(cfg, s, last);
      EntriesStaySound(cfg, s, last);
      RecordsStaySound(cfg, s, last);
    }
  }

  // ------------------------------------------------------------- main results

  /** No message is lost: in every run of server, handler and crash steps, a message is still
      in the stream, or the handler acknowledged or terminated it, or the dead-letter queue
      holds its data and subject, or it was given up with no dead-letter policy set. */
  lemma NoMessageIsLost(cfg: Config, steps: seq<Step>, id: nat)
    requires Possible(cfg, steps) && id in After(cfg, steps).stream
    ensures var s := After(cfg, steps); s.stream[id].live || Accounted(cfg, s, id)
  {
    EveryRunIsSound(cfg, steps);
    assert EntryIsSound(cfg, After(cfg, steps), id);
  }

  /** Whatever reaches the dead-letter queue is a JSON message of the stream, carried unchanged;
      a Nack puts it there only from delivery MaxRetries+1 on; and no message is delivered more
      often than the server allows. */
  lemma DeadLettersAreTrue(cfg: Config, steps: seq<Step>, i: nat)
    requires Possible(cfg, steps) && i < |After(cfg, steps).dlq|
    ensures
      var s := After(cfg, steps);
      var r := s.dlq[i];
      && r.id in s.stream
      && s.stream[r.id].source.isJson
      && r.message.originalData == s.stream[r.id].source.data
      && r.message.originalSubject == s.stream[r.id].source.subject
      && (r.cause == VNack ==> cfg.opts.retry.Some? && r.message.totalDeliveries >= cfg.opts.retry.value.maxRetries + 1)
      && (cfg.maxDeliver > 0 ==> r.message.totalDeliveries <= s.stream[r.id].delivered <= cfg.maxDeliver)
  {
    EveryRunIsSound(cfg, steps);
    var s := After(cfg, steps);
    assert RecordIsSound(cfg, s, s.dlq[i]);
    assert EntryIsSound(cfg, s, s.dlq[i].id);
  }
}
