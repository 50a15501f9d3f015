/** What each verdict of a handler comes to, in any run: the message removed, asked for again, or in
    the dead-letter queue. */
module Verdicts {
  import opened Optional
  import opened RetryPolicy
  import opened DeadLetter

  /** The record names the service of the policy, carries the message and its first header values,
      and tells who it belonged to, how often it was delivered and why it was given up; it is
      published under the subject of the policy, if that names one. */
  ghost predicate Tells(cfg: Config, r: DeadLettered, src: Source, tenant: Tenant, count: nat, errorMsg: string)
    requires cfg.opts.dlq.Some?
  {
    var m, policy := r.message, cfg.opts.dlq.value;
    && (policy.subject != "" ==> r.subject == policy.subject) && (policy.subject == "" ==> r.subject == "dlq.mapexos")
    && m.serviceName == policy.serviceName && m.serviceType == policy.serviceType && m.eventType == policy.eventType
    && m.eventTrackerId == tenant.eventTrackerId && m.orgId == tenant.orgId && m.pathKey == tenant.pathKey
    && m.originalData == src.data && m.originalSubject == src.subject && m.originalStream == cfg.opts.stream
    && (forall k :: k in m.originalHeaders <==> k in src.headers && src.headers[k] != [])
    && (forall k :: k in m.originalHeaders ==> m.originalHeaders[k] == src.headers[k][0])
    && m.lastError == errorMsg && m.errorCount == m.totalDeliveries == count
    && m.firstDelivery == src.timestamp && m.consumerName == cfg.opts.durable
  }

  /** The run goes on with this verdict and the calls it makes, one or two, and nothing else. */
  ghost predicate IsPerformed(cfg: Config, steps: seq<Step>, h: nat, decide: Step, more: seq<Step>) {
    && Possible(cfg, more)
    && (more == steps + [decide] + [Perform(h)] || more == steps + [decide] + [Perform(h), Perform(h)])
    && h in After(cfg, more).handles && After(cfg, more).handles[h].pending == []
  }

  ghost predicate HoldsFree(cfg: Config, steps: seq<Step>, h: nat) {
    Possible(cfg, steps) &&
    var s := After(cfg, steps);
    h in s.handles && s.handles[h].pending == [] && s.handles[h].id in s.stream
  }

  /** What is left of a message that is given up: with no dead-letter policy it is terminated, with JSON
      data and a confirmed publish acknowledged; otherwise it waits to be delivered again. */
  function RejectedEntry(cfg: Config, e: Entry, reply: PublishReply): Entry {
    if cfg.opts.dlq.None? then e.(live := false)
    else if e.source.isJson && reply.Confirmed? then e.(live := false, acked := true)
    else e.(waiting := true)
  }

  /** What the dead-letter queue gains: one true record if there is a policy, the data is JSON and the
      publish got through, confirmed or not; nothing otherwise. */
  ghost predicate RejectedRecords(cfg: Config, s: State, s': State, h: nat, cause: Verdict, tenant: Tenant,
                                  errorMsg: string, reply: PublishReply)
    requires h in s.handles && s.handles[h].id in s.stream
  {
    var handle := s.handles[h];
    var src := s.stream[handle.id].source;
    if cfg.opts.dlq.None? || !src.isJson || reply.Refused? then s'.dlq == s.dlq
    else
      && |s'.dlq| == |s.dlq| + 1 && s'.dlq[..|s.dlq|] == s.dlq
      && var r := s'.dlq[|s.dlq|];
      r.id == handle.id && r.cause == cause && Tells(cfg, r, src, tenant, handle.count, errorMsg)
  }

  // ------------------------------------------------------------- single effects

  lemma OneEffect(cfg: Config, steps: seq<Step>, h: nat, decide: Step) returns (more: seq<Step>)
    requires HoldsFree(cfg, steps, h) && decide.Decide? && decide.h == h
    requires
      var s := After(cfg, steps);
      |Apply(cfg, s, decide).handles[h].pending| == 1
    ensures IsPerformed(cfg, steps, h, decide, more)
    ensures
      var s := After(cfg, steps);
      var d := Apply(cfg, s, decide);
      var s', served := After(cfg, more), Serve(d, d.handles[h], d.handles[h].pending[0]);
      s'.stream == served.stream && s'.dlq == served.dlq && s'.verdicts == d.verdicts
  {
    Extend(cfg, steps, decide);
    Extend(cfg, steps + [decide], Perform(h));
    more := steps + [decide] + [Perform(h)];
  }

  lemma TwoEffects(cfg: Config, steps: seq<Step>, h: nat, decide: Step) returns (more: seq<Step>)
    requires HoldsFree(cfg, steps, h) && decide.Decide? && decide.h == h
    requires
      var p := Apply(cfg, After(cfg, steps), decide).handles[h].pending;
      |p| == 2 && p[0].Publish?
    ensures IsPerformed(cfg, steps, h, decide, more)
    ensures
      var d := Apply(cfg, After(cfg, steps), decide);
      var handle := d.handles[h];
      var first := Serve(d, handle, handle.pending[0]);
      var s', second := After(cfg, more), Serve(first, handle, handle.pending[1]);
      s'.stream == second.stream && s'.dlq == second.dlq && s'.verdicts == d.verdicts
  {
    Extend(cfg, steps, decide);
    Extend(cfg, steps + [decide], Perform(h));
    Extend(cfg, steps + [decide] + [Perform(h)], Perform(h));
    more := steps + [decide] + [Perform(h)] + [Perform(h)];
    assert more == steps + [decide] + [Perform(h), Perform(h)];
  }

  // -------------------------------------------------------------------- verdicts

  /** An acknowledged message is gone, and so is a terminated one; the queue gains nothing. */
  lemma AckOrTermRemoves(cfg: Config, steps: seq<Step>, h: nat, tenant: Tenant, verdict: Verdict, errorMsg: string,
                         reply: PublishReply)
    returns (more: seq<Step>)
    requires HoldsFree(cfg, steps, h) && (verdict == VAck || verdict == VTerm)
    ensures IsPerformed(cfg, steps, h, Decide(h, tenant, verdict, errorMsg, reply), more)
    ensures
      var s, s' := After(cfg, steps), After(cfg, more);
      var id := s.handles[h].id;
      var e := s.stream[id];
      && s'.stream == s.stream[id := if verdict == VAck then e.(live := false, acked := true) else e.(live := false)]
      && s'.dlq == s.dlq
  {
    more := OneEffect(cfg, steps, h, Decide(h, tenant, verdict, errorMsg, reply));
  }

  lemma GivenUp(cfg: Config, steps: seq<Step>, h: nat, decide: Step) returns (more: seq<Step>)
    requires HoldsFree(cfg, steps, h) && decide.Decide? && decide.h == h
    requires
      var s := After(cfg, steps);
      var handle := s.handles[h];
      var src := s.stream[handle.id].source;
      Effects(cfg.opts, src, decide.tenant, handle.count, decide.verdict, decide.errorMsg, decide.reply) ==
        DeadLetterEffects(cfg.opts, src, decide.tenant, handle.count, decide.errorMsg, decide.reply)
    ensures IsPerformed(cfg, steps, h, decide, more)
    ensures
      var s, s' := After(cfg, steps), After(cfg, more);
      var id := s.handles[h].id;
      && s'.stream == s.stream[id := RejectedEntry(cfg, s.stream[id], decide.reply)]
      && RejectedRecords(cfg, s, s', h, decide.verdict, decide.tenant, decide.errorMsg, decide.reply)
      && s'.verdicts == s.verdicts + {(id, decide.verdict)}
  {
    var s := After(cfg, steps);
    if cfg.opts.dlq.None? || !s.stream[s.handles[h].id].source.isJson {
      more := OneEffect(cfg, steps, h, decide);
    } else {
      more := TwoEffects(cfg, steps, h, decide);
    }
  }

  /** A rejected message is given up at once: removed with one true record in the queue if its data is
      JSON and the publish is confirmed, removed without one if there is no policy, and otherwise
      waiting to be delivered again. */
  lemma RejectGivesUp(cfg: Config, steps: seq<Step>, h: nat, tenant: Tenant, reason: string, reply: PublishReply)
    returns (more: seq<Step>)
    requires HoldsFree(cfg, steps, h)
    ensures IsPerformed(cfg, steps, h, Decide(h, tenant, VReject, reason, reply), more)
    ensures
      var s, s' := After(cfg, steps), After(cfg, more);
      var id := s.handles[h].id;
      && s'.stream == s.stream[id := RejectedEntry(cfg, s.stream[id], reply)]
      && RejectedRecords(cfg, s, s', h, VReject, tenant, reason, reply)
  {
    more := GivenUp(cfg, steps, h, Decide(h, tenant, VReject, reason, reply));
  }

  /** So is a message Nacked after its last retry, */
  lemma NackGivesUp(cfg: Config, steps: seq<Step>, h: nat, tenant: Tenant, errorMsg: string, reply: PublishReply)
    returns (more: seq<Step>)
    requires HoldsFree(cfg, steps, h) && cfg.opts.retry.Some?
    requires After(cfg, steps).handles[h].count > cfg.opts.retry.value.maxRetries
    ensures IsPerformed(cfg, steps, h, Decide(h, tenant, VNack, errorMsg, reply), more)
    ensures
      var s, s' := After(cfg, steps), After(cfg, more);
      var id := s.handles[h].id;
      && s'.stream == s.stream[id := RejectedEntry(cfg, s.stream[id], reply)]
      && RejectedRecords(cfg, s, s', h, VNack, tenant, errorMsg, reply)
      && s'.verdicts == s.verdicts + {(id, VNack)}
  {
    more := GivenUp(cfg, steps, h, Decide(h, tenant, VNack, errorMsg, reply));
  }

  /** while one Nacked before waits again: for the delay of its delivery under a retry policy, for
      none without. */
  lemma NackRetries(cfg: Config, steps: seq<Step>, h: nat, tenant: Tenant, errorMsg: string, reply: PublishReply)
    returns (more: seq<Step>)
    requires HoldsFree(cfg, steps, h)
    requires cfg.opts.retry.Some? ==> After(cfg, steps).handles[h].count <= cfg.opts.retry.value.maxRetries
    ensures IsPerformed(cfg, steps, h, Decide(h, tenant, VNack, errorMsg, reply), more)
    ensures
      var s, s' := After(cfg, steps), After(cfg, more);
      var handle := s.handles[h];
      var e := s.stream[handle.id];
      var delay := if cfg.opts.retry.None? then 0 else DelayForAttempt(cfg.opts.retry, handle.count);
      && s'.stream == s.stream[handle.id := e.(waiting := true, waited := e.waited + delay)]
      && s'.dlq == s.dlq
  {
    more := OneEffect(cfg, steps, h, Decide(h, tenant, VNack, errorMsg, reply));
  }
}
