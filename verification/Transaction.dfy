/** The transaction runner: an outer loop that re-runs the function on transient errors
    around an inner loop that repeats a commit whose outcome is unknown.  The server and
    the function are an arbitrary finite script of replies; a script that ends early stands
    for a run still in progress. */
module Transaction {
  import opened Optional

  datatype Label = TransientTransactionError | UnknownTransactionCommitResult | OtherLabel

  /** An error chain as errors.As walks it, outermost first. */
  datatype Node = CommandError(labels: set<Label>) | WriteException(labels: set<Label>) | Plain
  datatype Error = Error(chain: seq<Node>)

  function FirstCommandError(chain: seq<Node>): Option<Node> {
    if chain == [] then None
    else if chain[0].CommandError? then Some(chain[0])
    else FirstCommandError(chain[1..])
  }

  function FirstWriteException(chain: seq<Node>): Option<Node> {
    if chain == [] then None
    else if chain[0].WriteException? then Some(chain[0])
    else FirstWriteException(chain[1..])
  }

  /** hasErrorLabel: the first command error decides; only without one is a write exception asked. */
  predicate HasErrorLabel(err: Error, tag: Label) {
    var cmd := FirstCommandError(err.chain);
    if cmd.Some? then cmd.value.CommandError? && tag in cmd.value.labels
    else
      var write := FirstWriteException(err.chain);
      write.Some? && write.value.WriteException? && tag in write.value.labels
  }

  type Writes = seq<int>

  /** One reply to commitTransaction, and whether the server applied the transaction on that try. */
  datatype CommitReply = CommitReply(error: Option<Error>, applies: bool)

  datatype FuncResult = Returned(value: int) | Failed(error: Error)

  /** All that the environment does during one pass of the outer loop. */
  datatype Attempt = Attempt(
    startError: Option<Error>,
    writes: Writes,
    result: FuncResult,
    abortFails: bool,
    commits: seq<CommitReply>)

  datatype Outcome = Success(value: int) | Failure(error: Error) | StillRunning

  /** Where a run stands: outcome, index of the last attempt begun, and the database. */
  datatype Run = Run(outcome: Outcome, last: nat, db: Writes)

  datatype CommitOutcome = Committed | CommitFailed(error: Error) | CommitPending

  // ------------------------------------------------------------ server's laws

  predicate AppliedBy(commits: seq<CommitReply>, j: nat)
    requires j <= |commits|
  {
    exists i :: 0 <= i < j && commits[i].applies
  }

  /** What the driver Transactions specification promises about commit replies: success means
      applied, and a transient label (without the unknown-result label) means not applied. */
  predicate HonestCommits(commits: seq<CommitReply>) {
    forall j :: 0 <= j < |commits| ==>
      && (commits[j].error.None? ==> AppliedBy(commits, j + 1))
      && (commits[j].error.Some?
          && HasErrorLabel(commits[j].error.value, TransientTransactionError)
          && !HasErrorLabel(commits[j].error.value, UnknownTransactionCommitResult)
          ==> !AppliedBy(commits, j + 1))
  }

  predicate Honest(script: seq<Attempt>) {
    forall i :: 0 <= i < |script| ==> HonestCommits(script[i].commits)
  }

  // ------------------------------------------------------ specification of a run

  /** The commit loop from reply j on; the flag says whether the transaction is applied. */
  function CommitLoop(commits: seq<CommitReply>, j: nat, applied: bool): (CommitOutcome, bool)
    requires j <= |commits|
    decreases |commits| - j
  {
    if j == |commits| then (CommitPending, applied)
    else
      var applied' := applied || commits[j].applies;
      if commits[j].error.None? then (Committed, applied')
      else if HasErrorLabel(commits[j].error.value, UnknownTransactionCommitResult)
      then CommitLoop(commits, j + 1, applied')
      else (CommitFailed(commits[j].error.value), applied')
  }

  function Execute(script: seq<Attempt>, i: nat, db: Writes): Run
    requires i <= |script|
    decreases |script| - i
  {
    if i == |script| then Run(StillRunning, i, db)
    else
      var a := script[i];
      if a.startError.Some? then Run(Failure(a.startError.value), i, db)
      else match a.result
        case Failed(err) =>
          if HasErrorLabel(err, TransientTransactionError)
          then Execute(script, i + 1, db)
          else Run(Failure(err), i, db)
        case Returned(value) =>
          var (outcome, applied) := CommitLoop(a.commits, 0, false);
          var db' := if applied then db + a.writes else db;
          match outcome
          case Committed => Run(Success(value), i, db')
          case CommitPending => Run(StillRunning, i, db')
          case CommitFailed(err) =>
            if HasErrorLabel(err, TransientTransactionError)
            then Execute(script, i + 1, db')
            else Run(Failure(err), i, db')
  }

  // ------------------------------------------------------------- main results

  lemma {:induction false} CommitLoopIsHonest(commits: seq<CommitReply>, j: nat, applied: bool)
    requires j <= |commits| && HonestCommits(commits) && applied == AppliedBy(commits, j)
    ensures
      var (outcome, applied') := CommitLoop(commits, j, applied);
      && (outcome.Committed? ==> applied')
      && (outcome.CommitFailed? && HasErrorLabel(outcome.error, TransientTransactionError) ==> !applied')
      && (outcome.CommitFailed? ==> !HasErrorLabel(outcome.error, UnknownTransactionCommitResult))
    decreases |commits| - j
  {
    if j == |commits| {
    } else {
      var applied' := applied || commits[j].applies;
      assert applied' == AppliedBy(commits, j + 1) by {
        if commits[j].applies {
          assert AppliedBy(commits, j + 1);
        } else if applied {
          var i :| 0 <= i < j && commits[i].applies;
          assert 0 <= i < j + 1 && commits[i].applies;
        }
      }
      CommitLoopIsHonest(commits, j + 1, applied');
    }
  }

  /** The reply leaves open whether the transaction was committed. */
  predicate IsUnknown(reply: CommitReply) {
    reply.error.Some? && HasErrorLabel(reply.error.value, UnknownTransactionCommitResult)
  }

  /** The commit is repeated exactly while the result is unknown: the first other reply, the n-th,
      decides, and the transaction is applied if the server did so on any try up to then. */
  lemma {:induction false} CommitStopsAtFirstKnown(commits: seq<CommitReply>, j: nat, applied: bool) returns (n: nat)
    requires j <= |commits| && applied == AppliedBy(commits, j)
    ensures j <= n <= |commits| && (forall i :: j <= i < n ==> IsUnknown(commits[i]))
    ensures n < |commits| ==> !IsUnknown(commits[n])
    ensures
      var tried := if n < |commits| then n + 1 else n;
      CommitLoop(commits, j, applied) ==
        (if n == |commits| then CommitPending
         else if commits[n].error.None? then Committed
         else CommitFailed(commits[n].error.value),
         AppliedBy(commits, tried))
    decreases |commits| - j
  {
    if j == |commits| {
      n := j;
    } else {
      var applied' := applied || commits[j].applies;
      AppliedStep(commits, j);
      if IsUnknown(commits[j]) {
        n := CommitStopsAtFirstKnown(commits, j + 1, applied');
      } else {
        n := j;
      }
    }
  }

  lemma AppliedStep(commits: seq<CommitReply>, j: nat)
    requires j < |commits|
    ensures AppliedBy(commits, j + 1) == (AppliedBy(commits, j) || commits[j].applies)
  {
    if AppliedBy(commits, j) {
      var i :| 0 <= i < j && commits[i].applies;
      assert 0 <= i < j + 1 && commits[i].applies;
    }
  }

  predicate IsTransient(err: Error) {
    HasErrorLabel(err, TransientTransactionError)
  }

  /** This attempt is the last one and gives this outcome: its start failed, or its function or its
      commit failed for good, with that very error; or it was committed, with that very result. */
  predicate EndsWith(a: Attempt, outcome: Outcome) {
    var commit := CommitLoop(a.commits, 0, false).0;
    match outcome
    case Success(value) => a.startError.None? && a.result == Returned(value) && commit.Committed?
    case StillRunning => a.startError.None? && a.result.Returned? && commit.CommitPending?
    case Failure(err) =>
      || a.startError == Some(err)
      || (a.startError.None? && !IsTransient(err)
          && (a.result == Failed(err) || (a.result.Returned? && commit == CommitFailed(err))))
  }

  /** This attempt ended in a transient error of its function or of its commit. */
  predicate EndsTransiently(a: Attempt) {
    var commit := CommitLoop(a.commits, 0, false).0;
    a.startError.None? && match a.result
      case Failed(err) => IsTransient(err)
      case Returned(_) => commit.CommitFailed? && IsTransient(commit.error)
  }

  /** For any server at all: the runner goes on exactly while attempts end transiently, and the first
      that does not gives the outcome. */
  lemma {:induction false} RunStopsAtFirstFinal(script: seq<Attempt>, i: nat, db: Writes)
    requires i <= |script|
    ensures
      var run := Execute(script, i, db);
      && i <= run.last <= |script|
      && (forall k :: i <= k < run.last ==> EndsTransiently(script[k]))
      && (if run.last < |script|
          then !EndsTransiently(script[run.last]) && EndsWith(script[run.last], run.outcome)
          else run.outcome.StillRunning?)
    decreases |script| - i
  {
    if i == |script| {
    } else if EndsTransiently(script[i]) {
      var applied := script[i].result.Returned? && CommitLoop(script[i].commits, 0, false).1;
      RunStopsAtFirstFinal(script, i + 1, if applied then db + script[i].writes else db);
    }
  }

  /** The first node of a chain that is a command error, or a write exception. */
  predicate IsFirst(chain: seq<Node>, i: nat, command: bool) {
    && i < |chain| && (if command then chain[i].CommandError? else chain[i].WriteException?)
    && forall j :: 0 <= j < i ==> if command then !chain[j].CommandError? else !chain[j].WriteException?
  }

  lemma {:induction false} FirstNodes(chain: seq<Node>, i: nat)
    ensures IsFirst(chain, i, true) ==> FirstCommandError(chain) == Some(chain[i])
    ensures IsFirst(chain, i, false) ==> FirstWriteException(chain) == Some(chain[i])
    ensures (forall j :: 0 <= j < |chain| ==> !chain[j].CommandError?) ==> FirstCommandError(chain) == None
    ensures (forall j :: 0 <= j < |chain| ==> !chain[j].WriteException?) ==> FirstWriteException(chain) == None
  {
    if chain == [] {
    } else {
      FirstNodes(chain[1..], if i == 0 then 0 else i - 1);
      assert i > 0 && IsFirst(chain, i, true) ==> IsFirst(chain[1..], i - 1, true);
      assert i > 0 && IsFirst(chain, i, false) ==> IsFirst(chain[1..], i - 1, false);
    }
  }

  /** The first command error of the chain decides about a label; only a chain without one is
      searched for a write exception, and a chain with neither has no label. */
  lemma LabelIsOnFirstError(err: Error, tag: Label, i: nat)
    ensures IsFirst(err.chain, i, true) ==> (HasErrorLabel(err, tag) <==> tag in err.chain[i].labels)
    ensures
      (forall j :: 0 <= j < |err.chain| ==> !err.chain[j].CommandError?) ==>
        && (IsFirst(err.chain, i, false) ==> (HasErrorLabel(err, tag) <==> tag in err.chain[i].labels))
        && ((forall j :: 0 <= j < |err.chain| ==> err.chain[j].Plain?) ==> !HasErrorLabel(err, tag))
  {
    FirstNodes(err.chain, i);
  }

  /** An attempt the runner goes past: it had no effect and ended in a transient error. */
  predicate Retried(a: Attempt) {
    && a.startError.None?
    && match a.result
       case Failed(err) => HasErrorLabel(err, TransientTransactionError)
       case Returned(_) =>
         var (outcome, applied) := CommitLoop(a.commits, 0, false);
         outcome.CommitFailed? && HasErrorLabel(outcome.error, TransientTransactionError) && !applied
  }

  /** At every moment the database holds the effects of at most one execution, the last one;
      every earlier one was retried and left nothing; and when the runner reports success,
      exactly the last execution is committed and its result is returned. */
  lemma {:induction false} ExactlyOnce(script: seq<Attempt>, i: nat, db: Writes)
    requires i <= |script| && Honest(script)
    ensures
      var run := Execute(script, i, db);
      && i <= run.last <= |script|
      && (forall k :: i <= k < run.last ==> Retried(script[k]))
      && (run.db == db || (run.last < |script| && run.db == db + script[run.last].writes))
      && (run.outcome.Success? ==>
            && run.last < |script|
            && script[run.last].result == Returned(run.outcome.value)
            && run.db == db + script[run.last].writes)
      && (run.outcome.Failure? ==>
            && run.last < |script|
            && (script[run.last].startError.Some? || script[run.last].result.Failed? ==> run.db == db))
    decreases |script| - i
  {
    if i == |script| {
    } else {
      var a := script[i];
      assert HonestCommits(a.commits);
      CommitLoopIsHonest(a.commits, 0, false);
      if Retried(a) {
        ExactlyOnce(script, i + 1, db);
      }
    }
  }

  /** The laws are needed: a server that applies a commit and then reports it transient
      makes the runner commit twice. */
  lemma DishonestServerCommitsTwice(w: Writes, v: int) returns (script: seq<Attempt>)
    ensures |script| == 2 && script[0].writes == script[1].writes == w
    ensures !Honest(script)
    ensures Execute(script, 0, []) == Run(Success(v), 1, w + w)
  {
    var transient := Error([CommandError({TransientTransactionError})]);
    var lying := Attempt(None, w, Returned(v), false, [CommitReply(Some(transient), true)]);
    var fine := Attempt(None, w, Returned(v), false, [CommitReply(None, true)]);
    script := [lying, fine];
    assert lying.commits[0].applies && AppliedBy(lying.commits, 1);
    assert !HonestCommits(script[0].commits);
    assert HasErrorLabel(transient, TransientTransactionError);
    assert !HasErrorLabel(transient, UnknownTransactionCommitResult);
    assert CommitLoop(lying.commits, 0, false) == (CommitFailed(transient), true);
    assert CommitLoop(fine.commits, 0, false) == (Committed, true);
    assert [] + w == w;
    assert Execute(script, 1, w) == Run(Success(v), 1, w + w);
    assert Execute(script, 0, []) == Execute(script, 1, w);
  }

  // ------------------------------------------------------------- the runner itself

  /** The session: the database, and the transaction in progress. */
  class Session {
    var db: Writes
    var pending: Writes
    var applied: bool

    constructor (db: Writes)
      ensures this.db == db && pending == [] && !applied
    {
      this.db, pending, applied := db, [], false;
    }

    /** Opens a transaction; one left open on the server is dropped with its writes. */
    method StartTransaction(reply: Option<Error>) returns (err: Option<Error>)
      modifies this`pending, this`applied
      ensures err == reply
      ensures err.None? ==> pending == [] && !applied
    {
      err := reply;
      if err.None? {
        pending, applied := [], false;
      }
    }

    /** The function's operations run inside the transaction. */
    method RunFunction(a: Attempt) returns (r: FuncResult)
      requires pending == []
      modifies this`pending
      ensures pending == a.writes && r == a.result
    {
      pending := pending + a.writes;
      r := a.result;
    }

    method AbortTransaction(fails: bool) returns (ok: bool)
      modifies this`pending
      ensures ok == !fails && (ok ==> pending == [])
    {
      ok := !fails;
      if ok {
        pending := [];
      }
    }

    /** A commit is applied at most once, however often it is repeated. */
    method CommitTransaction(reply: CommitReply) returns (err: Option<Error>)
      modifies this`db, this`applied
      ensures err == reply.error
      ensures applied == (old(applied) || reply.applies)
      ensures db == if !old(applied) && reply.applies then old(db) + pending else old(db)
    {
      if reply.applies && !applied {
        db := db + pending;
        applied := true;
      }
      err := reply.error;
    }
  }

  method CommitWithRetry(session: Session, commits: seq<CommitReply>) returns (outcome: CommitOutcome)
    requires !session.applied
    modifies session`db, session`applied
    ensures (outcome, session.applied) == CommitLoop(commits, 0, false)
    ensures session.db == if session.applied then old(session.db) + session.pending else old(session.db)
  {
    var j := 0;
    while j < |commits|
      invariant 0 <= j <= |commits|
      invariant CommitLoop(commits, j, session.applied) == CommitLoop(commits, 0, false)
      invariant session.db == if session.applied then old(session.db) + session.pending else old(session.db)
    {
      var err := session.CommitTransaction(commits[j]);
      if err.None? {
        return Committed;
      }
      if !HasErrorLabel(err.value, UnknownTransactionCommitResult) {
        return CommitFailed(err.value);
      }
      j := j + 1;
    }
    return CommitPending;
  }

  method RunTransactionWithRetry(session: Session, script: seq<Attempt>)
    returns (outcome: Outcome, last: nat)
    modifies session
    ensures Run(outcome, last, session.db) == Execute(script, 0, old(session.db))
    ensures Honest(script) && outcome.Success? ==>
      && last < |script|
      && session.db == old(session.db) + script[last].writes
      && script[last].result == Returned(outcome.value)
      && forall k :: 0 <= k < last ==> Retried(script[k])
    ensures outcome.Failure? ==> last < |script|
    ensures outcome.Failure? && script[last].startError.None? && !script[last].abortFails ==> session.pending == []
  {
    if Honest(script) { ExactlyOnce(script, 0, session.db); }
    last := 0;
    while last < |script|
      invariant 0 <= last <= |script|
      invariant Execute(script, last, session.db) == Execute(script, 0, old(session.db))
    {
      var a := script[last];
      var startErr := session.StartTransaction(a.startError);
      if startErr.Some? {
        return Failure(startErr.value), last;
      }
      var result := session.RunFunction(a);
      if result.Failed? {
        var _ := session.AbortTransaction(a.abortFails);
        if !HasErrorLabel(result.error, TransientTransactionError) {
          return Failure(result.error), last;
        }
      } else {
        var commit := CommitWithRetry(session, a.commits);
        match commit {
          case Committed => return Success(result.value), last;
          case CommitPending => return StillRunning, last;
          case CommitFailed(err) =>
            if !HasErrorLabel(err, TransientTransactionError) {
              var _ := session.AbortTransaction(a.abortFails);
              return Failure(err), last;
            }
        }
      }
      last := last + 1;
    }
    return StillRunning, last;
  }
}
