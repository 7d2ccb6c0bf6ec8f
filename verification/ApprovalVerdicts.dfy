/** What each broker call answers and leaves behind when it runs alone and the database works, said
    without the step machine's transactions. */
module ApprovalVerdicts {
  import opened Text
  import opened Instants
  import opened AuditEvents
  import opened Identifiers
  import opened Approvals
  import opened ApprovalBroker
  import opened ApprovalSequential

  // ---- Requests ------------------------------------------------------------------------------

  function Inserted(p: Params, w: World, id: Id, request: Request, createdAt: int, expiresAt: int): (v: World)
  {
    w.(table := w.table[id := NewRow(p, request, createdAt, expiresAt)],
       history := w.history + [Created(id, request)])
  }

  /** The first four steps of a request that passes its counts. */
  lemma RequestInserts(p: Params, cfg: Config, w: World, request: Request, ttl: Option<nat>, env: nat -> Env)
    requires env(5).ok && env(4).ok && env(3).ok && |request.summary| <= MAX_APPROVAL_SUMMARY_LENGTH
    requires env(3).id !in w.table
    requires ActiveFor(w.table, p.digestOf(request)) == {} && |PendingIds(w.table)| < cfg.maxPending
    ensures
      var id, expiresAt := env(3).id, env(6).now + Lifetime(cfg, ttl) * SECOND;
      Call(p, cfg, RequestApproval(request, ttl), w, env)
      == Finish(p, cfg, AppendRequested(id, request), Inserted(p, w, id, request, env(6).now, expiresAt), env)
  {
    var createdAt := env(6).now;
    var expiresAt := createdAt + Lifetime(cfg, ttl) * SECOND;
    hide Auditable, Lifetime, ActiveFor, PendingIds, Announcement, SortDedup;
    FinishStep(p, cfg, Start(RequestApproval(request, ttl)), w, env);
    FinishStep(p, cfg, CountActive(request, createdAt, expiresAt), w, env);
    FinishStep(p, cfg, CountPending(request, createdAt, expiresAt), w, env);
    FinishStep(p, cfg, Insert(request, createdAt, expiresAt), w, env);
  }

  /** The row that a request stores: what was asked for, pending, undecided, and with the requested
      lifetime, or the default one, of at most a day. */
  ghost predicate Stored(p: Params, cfg: Config, request: Request, ttl: Option<nat>, now: int, row: Row)
  {
    var seconds := if ttl.Some? then ttl.value else cfg.defaultTtl;
    && row.requestId == request.requestId && row.digest == p.digestOf(request) && row.summary == request.summary
    && Increasing(row.ruleIds) && (forall x :: x in row.ruleIds <==> x in request.ruleIds)
    && row.createdAt == now
    && row.expiresAt == now + (if seconds < 86_400 then seconds else 86_400) * 1_000_000_000
    && row.state.Pending? && row.tokenHash.None? && row.actor.None? && row.denialReason.None?
    && row.decisionAt.None? && row.consumedAt.None?
  }

  /** What a request does when the database works. It is refused, changing nothing, for a summary over
      4,096 bytes, an active row with its digest, a full queue or a taken ID. Otherwise it stores its row,
      and answers with the ID if and only if the audit log accepts its summary and rule IDs. */
  lemma RequestVerdict(p: Params, cfg: Config, w: World, request: Request, ttl: Option<nat>, env: nat -> Env)
    requires Works(env)
    ensures
      var id, (reply, v) := env(3).id, Call(p, cfg, RequestApproval(request, ttl), w, env);
      if |request.summary| > 4096 then (reply, v) == (Failed(SummaryTooLarge), w)
      else if exists x :: x in w.table && w.table[x].digest == p.digestOf(request)
                          && (w.table[x].state.Pending? || w.table[x].state.Approved?)
      then (reply, v) == (Failed(DuplicateActive), w)
      else if |set x | x in w.table && w.table[x].state.Pending?| >= cfg.maxPending
      then (reply, v) == (Failed(PendingLimit), w)
      else if id in w.table then (reply, v) == (Failed(TransactionFailure), w)
      else
        && id in v.table && v.table == w.table[id := v.table[id]]
        && Stored(p, cfg, request, ttl, env(6).now, v.table[id])
        && if Auditable(request.summary, SortDedup(request.ruleIds), None)
           then reply == Requested(id) && v.log == w.log + [Event(ApprovalRequested, Some(id), "pending")]
                && v.table[id].auditSequence == Some(|w.log| + 1)
           else reply == Failed(AuditFailure) && v.log == w.log && v.table[id].auditSequence == None
  {
    hide Auditable, Lifetime;
    var digest := p.digestOf(request);
    if |request.summary| > MAX_APPROVAL_SUMMARY_LENGTH {
      FinishStep(p, cfg, Start(RequestApproval(request, ttl)), w, env);
    } else if x :| x in w.table && w.table[x].digest == digest
                   && (w.table[x].state.Pending? || w.table[x].state.Approved?) {
      assert env(5).ok;
      RetryIsRefused(p, cfg, w, x, request, ttl, env);
    } else {
      assert ActiveFor(w.table, digest) == {};
      assert PendingIds(w.table) == set x | x in w.table && w.table[x].state.Pending?;
      CountsVerdict(p, cfg, w, request, ttl, env);
      if |PendingIds(w.table)| < cfg.maxPending && env(3).id !in w.table {
        RequestStores(p, cfg, w, request, ttl, env);
      }
    }
  }

  lemma CountsVerdict(p: Params, cfg: Config, w: World, request: Request, ttl: Option<nat>, env: nat -> Env)
    requires Works(env) && |request.summary| <= MAX_APPROVAL_SUMMARY_LENGTH
    requires ActiveFor(w.table, p.digestOf(request)) == {}
    ensures
      var answer := Call(p, cfg, RequestApproval(request, ttl), w, env);
      && (|PendingIds(w.table)| >= cfg.maxPending ==> answer == (Failed(PendingLimit), w))
      && (|PendingIds(w.table)| < cfg.maxPending && env(3).id in w.table ==>
            answer == (Failed(TransactionFailure), w))
  {
    var createdAt := env(6).now;
    var expiresAt := createdAt + Lifetime(cfg, ttl) * SECOND;
    assert env(5).ok && env(4).ok && env(3).ok;
    hide Auditable, Lifetime, ActiveFor, PendingIds, Announcement, SortDedup;
    FinishStep(p, cfg, Start(RequestApproval(request, ttl)), w, env);
    FinishStep(p, cfg, CountActive(request, createdAt, expiresAt), w, env);
    FinishStep(p, cfg, CountPending(request, createdAt, expiresAt), w, env);
    if |PendingIds(w.table)| < cfg.maxPending {
      FinishStep(p, cfg, Insert(request, createdAt, expiresAt), w, env);
    }
  }

  lemma NewRowStored(p: Params, cfg: Config, request: Request, ttl: Option<nat>, now: int, sequence: Option<nat>)
    ensures
      var row := NewRow(p, request, now, now + Lifetime(cfg, ttl) * SECOND);
      && row.auditSequence == None && row.(auditSequence := None) == row
      && Stored(p, cfg, request, ttl, now, row.(auditSequence := sequence))
  {
    SortDedupCorrect(request.ruleIds);
    hide SortDedup, Increasing;
  }

  lemma RequestStores(p: Params, cfg: Config, w: World, request: Request, ttl: Option<nat>, env: nat -> Env)
    requires Works(env) && |request.summary| <= MAX_APPROVAL_SUMMARY_LENGTH && env(3).id !in w.table
    requires ActiveFor(w.table, p.digestOf(request)) == {} && |PendingIds(w.table)| < cfg.maxPending
    ensures
      var id, (reply, v) := env(3).id, Call(p, cfg, RequestApproval(request, ttl), w, env);
      && id in v.table && v.table == w.table[id := v.table[id]]
      && Stored(p, cfg, request, ttl, env(6).now, v.table[id])
      && if Auditable(request.summary, SortDedup(request.ruleIds), None)
         then reply == Requested(id) && v.log == w.log + [Event(ApprovalRequested, Some(id), "pending")]
              && v.table[id].auditSequence == Some(|w.log| + 1)
         else reply == Failed(AuditFailure) && v.log == w.log && v.table[id].auditSequence == None
  {
    hide Auditable, ActiveFor, PendingIds, SortDedup, Lifetime, Stored, NewRow, Finish;
    var id, now := env(3).id, env(6).now;
    var row := NewRow(p, request, now, now + Lifetime(cfg, ttl) * SECOND);
    assert env(2).ok && env(1).ok;
    RequestInserts(p, cfg, w, request, ttl, env);
    NewRowStored(p, cfg, request, ttl, now, None);
    NewRowStored(p, cfg, request, ttl, now, Some(|w.log| + 1));
    var w1 := w.(table := w.table[id := row], history := w.history + [Created(id, request)]);
    LogVerdict(p, cfg, id, request, w1, env);
  }

  /** The last two steps of a request. */
  lemma LogVerdict(p: Params, cfg: Config, id: Id, request: Request, w: World, env: nat -> Env)
    requires env(2).ok && env(1).ok && id in w.table
    ensures Finish(p, cfg, AppendRequested(id, request), w, env) ==
            if Auditable(request.summary, SortDedup(request.ruleIds), None)
            then (Requested(id), w.(table := w.table[id := w.table[id].(auditSequence := Some(|w.log| + 1))],
                                    log := w.log + [Event(ApprovalRequested, Some(id), "pending")]))
            else (Failed(AuditFailure), w)
  {
    hide Auditable, SortDedup;
    FinishStep(p, cfg, AppendRequested(id, request), w, env);
    if Auditable(request.summary, SortDedup(request.ruleIds), None) {
      FinishStep(p, cfg, UpdateSequence(id, |w.log| + 1), AppendTo(w, Announcement(id, Pending)), env);
    }
  }

  /** While such a row is active, a request with its digest is refused as a duplicate. */
  lemma RetryIsRefused(p: Params, cfg: Config, w: World, id: Id, request: Request, ttl: Option<nat>,
                       env: nat -> Env)
    requires id in w.table && Active(w.table[id]) && w.table[id].digest == p.digestOf(request)
    requires env(5).ok && |request.summary| <= MAX_APPROVAL_SUMMARY_LENGTH
    ensures Call(p, cfg, RequestApproval(request, ttl), w, env) == (Failed(DuplicateActive), w)
  {
    var createdAt := env(6).now;
    assert id in ActiveFor(w.table, p.digestOf(request));
    hide Lifetime;
    FinishStep(p, cfg, Start(RequestApproval(request, ttl)), w, env);
    FinishStep(p, cfg, CountActive(request, createdAt, createdAt + Lifetime(cfg, ttl) * SECOND), w, env);
  }

  // ---- Decisions, when the database works ----------------------------------------------------

  /** A decision is refused, changing nothing, when there is no such row, when the row is not pending (for
      a consume: not approved), and when its rule IDs, the presented token or the audit input is refused. */
  lemma DecisionRefused(p: Params, cfg: Config, op: Op, w: World, env: nat -> Env)
    requires Works(env) && Decides(op)
    ensures
      var answer := Call(p, cfg, op, w, env);
      var target := if op.Approve? then Approved else if op.Deny? then Denied
                    else if op.Cancel? then Cancelled else Consumed;
      if op.id !in w.table then answer == (Failed(NotFound), w)
      else
        var row := w.table[op.id];
        if row.state != (if op.Consume? then Approved else Pending)
        then answer == (Failed(InvalidTransition(row.state, target)), w)
        else env(6).now < row.expiresAt ==>
          if !ValidIds(row.ruleIds) then answer == (Failed(DatabaseCorruption), w)
          else if op.Consume? && row.tokenHash != Some(p.sha(op.presented)) then answer == (Failed(InvalidToken), w)
          else !Auditable(row.summary, row.ruleIds, if op.Deny? then op.reason else None) ==>
            answer == (Failed(AuditFailure), w)
  {
    assert env(6).ok && env(2).ok && env(1).ok && env(2).random;
    hide ValidIds;
    if op.id in w.table && w.table[op.id].state == Expected(op) && env(6).now < w.table[op.id].expiresAt {
      AfterLoad(p, cfg, op, w.table[op.id], w, env);
      hide Finish, CommitTx;
    } else {
      FinishStep(p, cfg, Start(op), w, env);
      hide CommitTx, TxExpire, OverdueIds;
    }
  }

  /** An approval in time issues the token, stores its hash, and logs the event it refers to; if the time
      runs out before the write, the row expires instead. */
  lemma ApproveVerdict(p: Params, cfg: Config, w: World, id: Id, actor: string, env: nat -> Env)
    requires Works(env) && id in w.table && w.table[id].state.Pending? && Decidable(w.table[id])
    requires env(6).now < w.table[id].expiresAt
    ensures
      var (reply, v) := Call(p, cfg, Approve(id, actor), w, env);
      var row, e := w.table[id], env(2);
      && v.log == w.log + [Event(ApprovalApproved, Some(id), "approved")]
      && if env(1).now < row.expiresAt
         then reply == Granted(e.token)
              && v.table == w.table[id := row.(state := Approved, tokenHash := Some(p.sha(e.token)),
                   actor := Some(actor), decisionAt := Some(e.now), auditSequence := Some(|w.log| + 1))]
         else reply == Failed(InvalidTransition(Pending, Approved))
              && v.table == w.table[id := row.(state := Expired, decisionAt := Some(e.now))]
  {
    assert env(6).ok && env(2).ok && env(1).ok && env(2).random;
    AfterLoad(p, cfg, Approve(id, actor), w.table[id], w, env);
    hide Finish, ValidIds, Auditable;
  }

  /** A consume in time with the token of the approval answers with what was approved, and uses it up. */
  lemma ConsumeVerdict(p: Params, cfg: Config, w: World, id: Id, token: Token, env: nat -> Env)
    requires Works(env) && id in w.table && w.table[id].state.Approved? && Decidable(w.table[id])
    requires env(6).now < w.table[id].expiresAt && w.table[id].tokenHash == Some(p.sha(token))
    ensures
      var (reply, v) := Call(p, cfg, Consume(id, token), w, env);
      var row, at := w.table[id], env(2).now;
      && v.log == w.log + [Event(ApprovalConsumed, Some(id), "consumed")]
      && if env(1).now < row.expiresAt
         then reply == Redeemed(row.digest, row.ruleIds, |w.log| + 1)
              && v.table == w.table[id := row.(state := Consumed, consumedAt := Some(at), tokenHash := None,
                                               auditSequence := Some(|w.log| + 1))]
         else reply == Failed(InvalidTransition(Approved, Consumed))
              && v.table == w.table[id := row.(state := Expired, decisionAt := Some(at))]
  {
    assert env(6).ok && env(2).ok && env(1).ok;
    AfterLoad(p, cfg, Consume(id, token), w.table[id], w, env);
    hide Finish, ValidIds, Auditable;
  }

  /** A cancellation in time. */
  lemma CancelVerdict(p: Params, cfg: Config, w: World, id: Id, env: nat -> Env)
    requires Works(env) && id in w.table && w.table[id].state.Pending? && Decidable(w.table[id])
    requires env(6).now < w.table[id].expiresAt
    ensures
      var (reply, v) := Call(p, cfg, Cancel(id), w, env);
      && reply == Decided && v.log == w.log + [Event(DecisionDeny, Some(id), "cancelled")]
      && v.table == w.table[id := w.table[id].(state := Cancelled, decisionAt := Some(env(2).now),
                                               auditSequence := Some(|w.log| + 1))]
  {
    assert env(6).ok && env(2).ok && env(1).ok;
    AfterLoad(p, cfg, Cancel(id), w.table[id], w, env);
    hide Finish, ValidIds;
  }

  /** A denial of a decidable pending row in time succeeds if and only if its reason has at most 128
      bytes; with a longer one it is an audit failure that changes nothing. */
  lemma DenyVerdict(p: Params, cfg: Config, w: World, id: Id, actor: string, reason: Option<Bytes>,
                    env: nat -> Env)
    requires Works(env) && id in w.table && w.table[id].state.Pending? && Decidable(w.table[id])
    requires env(6).now < w.table[id].expiresAt
    ensures
      var (reply, v) := Call(p, cfg, Deny(id, actor, reason), w, env);
      if reason.Some? && |reason.value| > 128 then reply == Failed(AuditFailure) && v == w
      else
        && reply == Decided && v.log == w.log + [Event(ApprovalDenied, Some(id), "denied")]
        && v.table == w.table[id := w.table[id].(state := Denied, actor := Some(actor), denialReason := reason,
                                                 decisionAt := Some(env(2).now),
                                                 auditSequence := Some(|w.log| + 1))]
  {
    assert env(6).ok && env(2).ok && env(1).ok;
    AfterLoad(p, cfg, Deny(id, actor, reason), w.table[id], w, env);
    hide Finish, ValidIds;
  }

  // ---- When a step fails ---------------------------------------------------------------------

  /** A decision that would succeed fails where its first failing step is: the load and a failing random
      generator or audit log change nothing; a failing write leaves the event without the change. */
  lemma DecisionFaults(p: Params, cfg: Config, op: Op, w: World, env: nat -> Env)
    requires Decides(op) && op.id in w.table && w.table[op.id].state == Expected(op) && ValidIds(w.table[op.id].ruleIds)
    requires env(6).now < w.table[op.id].expiresAt
    requires op.Consume? ==> w.table[op.id].tokenHash == Some(p.sha(op.presented))
    ensures
      var (reply, v) := Call(p, cfg, op, w, env);
      if !env(6).ok then (reply, v) == (Failed(TransactionFailure), w)
      else if op.Approve? && !env(2).random then (reply, v) == (Failed(InvalidConfiguration), w)
      else if !env(2).ok then (reply, v) == (Failed(AuditFailure), w)
      else !env(1).ok && Auditable(w.table[op.id].summary, w.table[op.id].ruleIds, ReasonCode(op)) ==>
        && reply == Failed(TransactionFailure) && v.table == w.table && v.history == w.history
        && v.log == w.log + [Announcement(op.id, Target(op))]
  {
    hide ValidIds, Auditable;
    if env(6).ok {
      AfterLoad(p, cfg, op, w.table[op.id], w, env);
      hide Finish, CommitTx;
    } else {
      FinishStep(p, cfg, Start(op), w, env);
    }
  }

  /** A request that passes its counts fails where its first failing step is: up to the insert nothing
      changes; then the row stays, and from the audit append on its event stays too. */
  lemma RequestFaults(p: Params, cfg: Config, w: World, request: Request, ttl: Option<nat>, env: nat -> Env)
    requires |request.summary| <= MAX_APPROVAL_SUMMARY_LENGTH && env(3).id !in w.table
    requires ActiveFor(w.table, p.digestOf(request)) == {} && |PendingIds(w.table)| < cfg.maxPending
    ensures
      var id, (reply, v) := env(3).id, Call(p, cfg, RequestApproval(request, ttl), w, env);
      if !env(5).ok || !env(4).ok || !env(3).ok then (reply, v) == (Failed(TransactionFailure), w)
      else !env(2).ok || !env(1).ok ==>
        && id in v.table && v.table == w.table[id := v.table[id]]
        && Stored(p, cfg, request, ttl, env(6).now, v.table[id]) && v.table[id].auditSequence == None
        && if !env(2).ok || !Auditable(request.summary, SortDedup(request.ruleIds), None)
           then reply == Failed(AuditFailure) && v.log == w.log
           else reply == Failed(TransactionFailure)
                && v.log == w.log + [Event(ApprovalRequested, Some(id), "pending")]
  {
    hide Auditable, ActiveFor, PendingIds, SortDedup, Lifetime, Stored, NewRow;
    var id, now := env(3).id, env(6).now;
    if env(5).ok && env(4).ok && env(3).ok {
      RequestInserts(p, cfg, w, request, ttl, env);
      NewRowStored(p, cfg, request, ttl, now, None);
      var row := NewRow(p, request, now, now + Lifetime(cfg, ttl) * SECOND);
      var w1 := w.(table := w.table[id := row], history := w.history + [Created(id, request)]);
      if !env(2).ok || !env(1).ok { LogFaults(p, cfg, id, request, w1, env); }
      hide Finish;
    } else {
      EarlyFaults(p, cfg, w, request, ttl, env);
      hide Finish;
    }
  }

  lemma EarlyFaults(p: Params, cfg: Config, w: World, request: Request, ttl: Option<nat>, env: nat -> Env)
    requires |request.summary| <= MAX_APPROVAL_SUMMARY_LENGTH && !(env(5).ok && env(4).ok && env(3).ok)
    requires ActiveFor(w.table, p.digestOf(request)) == {} && |PendingIds(w.table)| < cfg.maxPending
    ensures Call(p, cfg, RequestApproval(request, ttl), w, env) == (Failed(TransactionFailure), w)
  {
    var createdAt := env(6).now;
    var expiresAt := createdAt + Lifetime(cfg, ttl) * SECOND;
    hide Auditable, Lifetime, ActiveFor, PendingIds, Announcement, SortDedup;
    FinishStep(p, cfg, Start(RequestApproval(request, ttl)), w, env);
    FinishStep(p, cfg, CountActive(request, createdAt, expiresAt), w, env);
    if env(5).ok {
      FinishStep(p, cfg, CountPending(request, createdAt, expiresAt), w, env);
      if env(4).ok { FinishStep(p, cfg, Insert(request, createdAt, expiresAt), w, env); }
    }
  }

  lemma LogFaults(p: Params, cfg: Config, id: Id, request: Request, w: World, env: nat -> Env)
    requires !env(2).ok || !env(1).ok
    ensures Finish(p, cfg, AppendRequested(id, request), w, env) ==
            if !env(2).ok || !Auditable(request.summary, SortDedup(request.ruleIds), None)
            then (Failed(AuditFailure), w)
            else (Failed(TransactionFailure),
                  w.(log := w.log + [Event(ApprovalRequested, Some(id), "pending")]))
  {
    hide Auditable, SortDedup;
    FinishStep(p, cfg, AppendRequested(id, request), w, env);
    if env(2).ok && Auditable(request.summary, SortDedup(request.ruleIds), None) {
      FinishStep(p, cfg, UpdateSequence(id, |w.log| + 1), AppendTo(w, Announcement(id, Pending)), env);
    }
  }

  /** A sweep with something to expire fails likewise. */
  lemma SweepFaults(p: Params, cfg: Config, w: World, env: nat -> Env)
    requires exists id :: id in w.table && Overdue(w.table[id], env(6).now)
    ensures
      var (reply, v) := Call(p, cfg, Sweep, w, env);
      if !env(6).ok then (reply, v) == (Failed(TransactionFailure), w)
      else if !env(2).ok then (reply, v) == (Failed(AuditFailure), w)
      else !env(1).ok ==>
        && reply == Failed(TransactionFailure) && v.table == w.table
        && v.log == w.log + [Event(ApprovalExpired, None, "expired")]
  {
    var now := env(6).now;
    var id :| id in w.table && Overdue(w.table[id], now);
    assert id in OverdueIds(w.table, now);
    hide TxExpire, OverdueIds;
    FinishStep(p, cfg, Start(Sweep), w, env);
    if env(6).ok {
      FinishStep(p, cfg, AppendExpired(None, now, Swept({})), w, env);
      var w1 := AppendTo(w, Event(ApprovalExpired, None, "expired"));
      if env(2).ok { FinishStep(p, cfg, CommitExpired(now, |w.log| + 1, Swept({})), w1, env); }
    }
  }
}
