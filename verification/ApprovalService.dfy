/** The approval store and broker as objects whose methods update them in place. Each broker method
    is proved to do what the step machine does when the call runs alone, and to keep what holds
    between calls. */
module ApprovalService {
  import opened Text
  import opened Instants
  import opened AuditEvents
  import opened Identifiers
  import opened Approvals
  import opened ApprovalBroker
  import Sequential = ApprovalSequential

  /** The approvals table. */
  class Store {
    var table: Table

    constructor ()
      ensures table == map[]
    {
      table := map[];
    }

    method InsertPending(id: Id, row: Row) returns (err: Option<ApprovalError>)
      modifies this
      ensures err == if id in old(table) then Some(TransactionFailure) else None
      ensures table == if id in old(table) then old(table) else old(table)[id := row]
    {
      if id in table { return Some(TransactionFailure); }
      table := table[id := row];
      return None;
    }

    method TransitionToApproved(id: Id, tokenHash: Digest, actor: string, decidedAt: int, sequence: nat, now: int)
      returns (err: Option<ApprovalError>)
      modifies this
      ensures (table, err) == TxApprove(old(table), id, tokenHash, actor, decidedAt, sequence, now)
    {
      if id !in table { return Some(NotFound); }
      var row := table[id];
      if !row.state.Pending? { return Some(InvalidTransition(row.state, Approved)); }
      if now >= row.expiresAt {
        table := table[id := row.(state := Expired, decisionAt := Some(decidedAt))];
        return Some(InvalidTransition(Pending, Approved));
      }
      table := table[id := row.(state := Approved, tokenHash := Some(tokenHash), actor := Some(actor),
                                decisionAt := Some(decidedAt), auditSequence := Some(sequence))];
      return None;
    }

    method TransitionToDenied(id: Id, actor: string, reason: Option<Bytes>, decidedAt: int, sequence: nat)
      returns (err: Option<ApprovalError>)
      modifies this
      ensures (table, err) == TxDeny(old(table), id, actor, reason, decidedAt, sequence)
    {
      if id !in table { return Some(NotFound); }
      var row := table[id];
      if !row.state.Pending? { return Some(InvalidTransition(row.state, Denied)); }
      table := table[id := row.(state := Denied, actor := Some(actor), denialReason := reason,
                                decisionAt := Some(decidedAt), auditSequence := Some(sequence))];
      return None;
    }

    method TransitionToCancelled(id: Id, decidedAt: int, sequence: nat) returns (err: Option<ApprovalError>)
      modifies this
      ensures (table, err) == TxCancel(old(table), id, decidedAt, sequence)
    {
      if id !in table { return Some(NotFound); }
      var row := table[id];
      if !row.state.Pending? { return Some(InvalidTransition(row.state, Cancelled)); }
      table := table[id := row.(state := Cancelled, decisionAt := Some(decidedAt), auditSequence := Some(sequence))];
      return None;
    }

    method ExpireOverdue(now: int, sequence: nat) returns (ids: set<Id>)
      modifies this
      ensures ids == OverdueIds(old(table), now)
      ensures table == TxExpire(old(table), now, sequence)
    {
      ids := OverdueIds(table, now);
      if ids != {} {
        table := table + map id | id in ids :: ExpiredRow(table[id], now, sequence);
      }
      assert forall id :: id in old(table) && id !in ids ==> !Overdue(old(table)[id], now);
    }

    method ConsumeRow(id: Id, consumedAt: int, sequence: nat, now: int) returns (err: Option<ApprovalError>)
      modifies this
      ensures (table, err) == TxConsume(old(table), id, consumedAt, sequence, now)
    {
      if id !in table { return Some(NotFound); }
      var row := table[id];
      if !row.state.Approved? { return Some(InvalidTransition(row.state, Consumed)); }
      if now >= row.expiresAt {
        table := table[id := row.(state := Expired, decisionAt := Some(consumedAt))];
        return Some(InvalidTransition(Approved, Consumed));
      }
      table := table[id := row.(state := Consumed, consumedAt := Some(consumedAt), tokenHash := None,
                                auditSequence := Some(sequence))];
      return None;
    }

    method UpdateAuditSequence(id: Id, sequence: nat)
      modifies this
      ensures table == TxUpdateSequence(old(table), id, sequence)
    {
      if id in table { table := table[id := table[id].(auditSequence := Some(sequence))]; }
    }
  }

  /** A broker over one store and one audit log. */
  class Broker {
    const p: Params
    const cfg: Config
    const store: Store
    var log: seq<Event>
    ghost var history: seq<Obs>

    constructor (p: Params, cfg: Config)
      ensures this.p == p && this.cfg == cfg && fresh(store)
      ensures World(store.table, log, history) == EMPTY.world
    {
      this.p := p;
      this.cfg := cfg;
      store := new Store();
      log := [];
      history := [];
    }

    ghost function Now(): (w: World)
      reads this, store
    {
      World(store.table, log, history)
    }

    /** Appends an event, unless its input is over a limit of the audit log or the database fails. */
    method AppendAuditEvent(event: Event, summary: Bytes, ruleIds: seq<Bytes>, reason: Option<Bytes>, ok: bool)
      returns (sequence: Option<nat>)
      modifies this`log
      ensures if ok && Auditable(summary, ruleIds, reason)
              then sequence == Some(|old(log)| + 1) && log == old(log) + [event]
              else sequence == None && log == old(log)
    {
      if !Auditable(summary, ruleIds, reason) { return None; }
      if !ok { return None; }
      log := log + [event];
      return Some(|log|);
    }

    /** Logs an expiry and sweeps the table. */
    method LogAndExpire(about: Option<Id>, now: int, planned: Reply, env: nat -> Env) returns (reply: Reply)
      requires planned.Failed? || planned.Swept?
      modifies this`log, store
      ensures (reply, Now()) == Finish(p, cfg, AppendExpired(about, now, planned), old(Now()), env)
    {
      hide TxExpire, OverdueIds;
      FinishStep(p, cfg, AppendExpired(about, now, planned), Now(), env);
      var sequence := AppendAuditEvent(Event(ApprovalExpired, about, "expired"), [], [], None, env(2).ok);
      if sequence.None? { return Failed(AuditFailure); }
      FinishStep(p, cfg, CommitExpired(now, sequence.value, planned), Now(), env);
      if !env(1).ok { return Failed(TransactionFailure); }
      var ids := store.ExpireOverdue(now, sequence.value);
      return if planned.Swept? then Swept(ids) else planned;
    }

    /** Loads a row for a decision; a row whose time is up is logged, swept and refused. */
    method EnsureTransitionable(op: Op, env: nat -> Env) returns (row: Option<Row>, reply: Reply)
      requires Decides(op)
      modifies this`log, store
      ensures row.Some? ==>
        && Now() == old(Now())
        && op.id in store.table && store.table[op.id] == row.value
        && env(6).ok && row.value.state == Expected(op) && env(6).now < row.value.expiresAt
      ensures row.None? ==> (reply, Now()) == Call(p, cfg, op, old(Now()), env)
    {
      hide TxExpire, OverdueIds;
      var e := env(6);
      ghost var w := Now();
      FinishStep(p, cfg, Start(op), w, env);
      if !e.ok { return None, Failed(TransactionFailure); }
      if op.id !in store.table { return None, Failed(NotFound); }
      var found := store.table[op.id];
      if found.state != Expected(op) { return None, Failed(InvalidTransition(found.state, Target(op))); }
      if e.now >= found.expiresAt {
        var refused := Failed(InvalidTransition(Expired, Target(op)));
        assert Next(p, cfg, Start(op), w, e) == (AppendExpired(Some(op.id), e.now, refused), w);
        refused := LogAndExpire(Some(op.id), e.now, refused, env);
        return None, refused;
      }
      return Some(found), Decided;
    }

    method Approve(id: Id, actor: string, env: nat -> Env) returns (reply: Reply)
      modifies this, store
      ensures (reply, Now()) == Call(p, cfg, ApprovalBroker.Approve(id, actor), old(Now()), env)
      ensures old(Sequential.Between(cfg, Now())) ==> Sequential.Between(cfg, Now())
    {
      Sequential.CallKeeps(p, cfg, ApprovalBroker.Approve(id, actor), Now(), env);
      ghost var w := Now();
      var op := ApprovalBroker.Approve(id, actor);
      var row, refused := EnsureTransitionable(op, env);
      if row.None? { return refused; }
      AfterLoad(p, cfg, op, row.value, w, env);
      if !ValidIds(row.value.ruleIds) { return Failed(DatabaseCorruption); }
      if !env(2).random { return Failed(InvalidConfiguration); }
      var token, decidedAt := env(2).token, env(2).now;
      var event, found := Announcement(id, Approved), row.value;
      var sequence := AppendAuditEvent(event, found.summary, found.ruleIds, None, env(2).ok);
      if sequence.None? { return Failed(AuditFailure); }
      if !env(1).ok { return Failed(TransactionFailure); }
      var err := store.TransitionToApproved(id, p.sha(token), actor, decidedAt, sequence.value, env(1).now);
      if err.Some? { return Failed(err.value); }
      history := history + [Issued(id, token)];
      return Granted(token);
    }

    method Deny(id: Id, actor: string, reason: Option<Bytes>, env: nat -> Env) returns (reply: Reply)
      modifies this, store
      ensures (reply, Now()) == Call(p, cfg, ApprovalBroker.Deny(id, actor, reason), old(Now()), env)
      ensures old(Sequential.Between(cfg, Now())) ==> Sequential.Between(cfg, Now())
    {
      Sequential.CallKeeps(p, cfg, ApprovalBroker.Deny(id, actor, reason), Now(), env);
      ghost var w := Now();
      var op := ApprovalBroker.Deny(id, actor, reason);
      var row, refused := EnsureTransitionable(op, env);
      if row.None? { return refused; }
      AfterLoad(p, cfg, op, row.value, w, env);
      if !ValidIds(row.value.ruleIds) { return Failed(DatabaseCorruption); }
      var decidedAt := env(2).now;
      var event, found := Announcement(id, Denied), row.value;
      var sequence := AppendAuditEvent(event, found.summary, found.ruleIds, reason, env(2).ok);
      if sequence.None? { return Failed(AuditFailure); }
      if !env(1).ok { return Failed(TransactionFailure); }
      var err := store.TransitionToDenied(id, actor, reason, decidedAt, sequence.value);
      assert w.history + [] == w.history;
      reply := match err case Some(error) => Failed(error) case None => Decided;
    }

    method Cancel(id: Id, env: nat -> Env) returns (reply: Reply)
      modifies this, store
      ensures (reply, Now()) == Call(p, cfg, ApprovalBroker.Cancel(id), old(Now()), env)
      ensures old(Sequential.Between(cfg, Now())) ==> Sequential.Between(cfg, Now())
    {
      Sequential.CallKeeps(p, cfg, ApprovalBroker.Cancel(id), Now(), env);
      ghost var w := Now();
      var op := ApprovalBroker.Cancel(id);
      var row, refused := EnsureTransitionable(op, env);
      if row.None? { return refused; }
      AfterLoad(p, cfg, op, row.value, w, env);
      if !ValidIds(row.value.ruleIds) { return Failed(DatabaseCorruption); }
      var decidedAt := env(2).now;
      var event, found := Announcement(id, Cancelled), row.value;
      var sequence := AppendAuditEvent(event, found.summary, found.ruleIds, Some(Ascii("cancelled")), env(2).ok);
      if sequence.None? { return Failed(AuditFailure); }
      if !env(1).ok { return Failed(TransactionFailure); }
      var err := store.TransitionToCancelled(id, decidedAt, sequence.value);
      assert w.history + [] == w.history;
      reply := match err case Some(error) => Failed(error) case None => Decided;
    }

    method Consume(id: Id, token: Token, env: nat -> Env) returns (reply: Reply)
      modifies this, store
      ensures (reply, Now()) == Call(p, cfg, ApprovalBroker.Consume(id, token), old(Now()), env)
      ensures old(Sequential.Between(cfg, Now())) ==> Sequential.Between(cfg, Now())
    {
      Sequential.CallKeeps(p, cfg, ApprovalBroker.Consume(id, token), Now(), env);
      ghost var w := Now();
      var op := ApprovalBroker.Consume(id, token);
      var row, refused := EnsureTransitionable(op, env);
      if row.None? { return refused; }
      AfterLoad(p, cfg, op, row.value, w, env);
      if !ValidIds(row.value.ruleIds) { return Failed(DatabaseCorruption); }
      var stored := row.value.tokenHash;
      if stored.None? { return Failed(InvalidToken); }
      if p.sha(token) != stored.value { return Failed(InvalidToken); }
      var consumedAt := env(2).now;
      var event, found := Announcement(id, Consumed), row.value;
      var sequence := AppendAuditEvent(event, found.summary, found.ruleIds, None, env(2).ok);
      if sequence.None? { return Failed(AuditFailure); }
      if !env(1).ok { return Failed(TransactionFailure); }
      var err := store.ConsumeRow(id, consumedAt, sequence.value, env(1).now);
      if err.Some? { return Failed(err.value); }
      history := history + [Used(id, token, row.value.digest, env(1).now)];
      return Redeemed(row.value.digest, row.value.ruleIds, sequence.value);
    }

    method ExpireOverdue(env: nat -> Env) returns (reply: Reply)
      modifies this, store
      ensures (reply, Now()) == Call(p, cfg, Sweep, old(Now()), env)
      ensures old(Sequential.Between(cfg, Now())) ==> Sequential.Between(cfg, Now())
    {
      Sequential.CallKeeps(p, cfg, Sweep, Now(), env);
      ghost var w := Now();
      var now := env(6).now;
      FinishStep(p, cfg, Start(Sweep), w, env);
      if !env(6).ok { return Failed(TransactionFailure); }
      if OverdueIds(store.table, now) == {} { return Swept({}); }
      reply := LogAndExpire(None, now, Swept({}), env);
    }

    /** Logs a stored request and writes the reference to its event. */
    method LogRequest(id: Id, request: Request, env: nat -> Env) returns (reply: Reply)
      modifies this`log, store
      ensures (reply, Now()) == Finish(p, cfg, AppendRequested(id, request), old(Now()), env)
    {
      hide TxUpdateSequence, Announcement, Auditable, SortDedup;
      FinishStep(p, cfg, AppendRequested(id, request), Now(), env);
      var ruleIds := SortDedup(request.ruleIds);
      var sequence := AppendAuditEvent(Announcement(id, Pending), request.summary, ruleIds, None, env(2).ok);
      if sequence.None? { return Failed(AuditFailure); }
      FinishStep(p, cfg, UpdateSequence(id, sequence.value), Now(), env);
      if !env(1).ok { return Failed(TransactionFailure); }
      store.UpdateAuditSequence(id, sequence.value);
      return Requested(id);
    }

    method RequestApproval(request: Request, ttl: Option<nat>, env: nat -> Env) returns (reply: Reply)
      modifies this, store
      ensures (reply, Now()) == Call(p, cfg, ApprovalBroker.RequestApproval(request, ttl), old(Now()), env)
      ensures old(Sequential.Between(cfg, Now())) ==> Sequential.Between(cfg, Now())
    {
      Sequential.CallKeeps(p, cfg, ApprovalBroker.RequestApproval(request, ttl), Now(), env);
      hide NewRow, Lifetime, ActiveFor, PendingIds, Sequential.Between;
      ghost var w := Now();
      FinishStep(p, cfg, Start(ApprovalBroker.RequestApproval(request, ttl)), w, env);
      var createdAt := env(6).now;
      if |request.summary| > MAX_APPROVAL_SUMMARY_LENGTH { return Failed(SummaryTooLarge); }
      var expiresAt := createdAt + Lifetime(cfg, ttl) * SECOND;
      FinishStep(p, cfg, CountActive(request, createdAt, expiresAt), w, env);
      if !env(5).ok { return Failed(TransactionFailure); }
      if |ActiveFor(store.table, p.digestOf(request))| > 0 { return Failed(DuplicateActive); }
      FinishStep(p, cfg, CountPending(request, createdAt, expiresAt), w, env);
      if !env(4).ok { return Failed(TransactionFailure); }
      if |PendingIds(store.table)| >= cfg.maxPending { return Failed(PendingLimit); }
      FinishStep(p, cfg, Insert(request, createdAt, expiresAt), w, env);
      if !env(3).ok { return Failed(TransactionFailure); }
      var id := env(3).id;
      var err := store.InsertPending(id, NewRow(p, request, createdAt, expiresAt));
      if err.Some? { return Failed(TransactionFailure); }
      history := history + [Created(id, request)];
      reply := LogRequest(id, request, env);
    }
  }
}
