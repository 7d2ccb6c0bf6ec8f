/** The approval broker as a machine. A call runs in steps - load, audit append, transaction - and
    every step may fail. Any number of calls, from any number of brokers on one approvals database
    and one audit log, may interleave between steps. */
module ApprovalBroker {
  import opened Text
  import opened Instants
  import opened AuditEvents
  import opened Identifiers
  import opened Approvals

  type Token = Digest

  datatype Request = Request(requestId: string, body: Bytes, summary: Bytes, ruleIds: seq<Bytes>)

  datatype Config = Config(defaultTtl: nat, maxPending: nat)

  /** The two functions the model leaves open. */
  datatype Params = Params(sha: Bytes -> Digest, digestOf: Request -> Digest)

  /** What one step obtains from outside: a clock reading, whether the database it uses works, a
      fresh ID, and a fresh token unless random generation fails. */
  datatype Env = Env(now: int, ok: bool, id: Id, random: bool, token: Token)

  /** The part of an audit event that matters here. Its sequence is its position, from 1. */
  datatype Event = Event(category: Category, approvalId: Option<Id>, decision: string)

  datatype Op =
    | RequestApproval(request: Request, ttl: Option<nat>)
    | Approve(id: Id, approver: string)
    | Deny(id: Id, denier: string, reason: Option<Bytes>)
    | Cancel(id: Id)
    | Consume(id: Id, presented: Token)
    | Sweep

  predicate Decides(op: Op) { op.Approve? || op.Deny? || op.Cancel? || op.Consume? }

  datatype Reply =
    | Failed(error: ApprovalError)
    | Requested(id: Id)
    | Granted(token: Token)
    | Decided
    | Redeemed(digest: Digest, ruleIds: seq<Bytes>, sequence: nat)
    | Swept(ids: set<Id>)

  /** Where a call is. */
  datatype Pc =
    | Start(op: Op)
    | CountActive(request: Request, createdAt: int, expiresAt: int)
    | CountPending(request: Request, createdAt: int, expiresAt: int)
    | Insert(request: Request, createdAt: int, expiresAt: int)
    | AppendRequested(id: Id, request: Request)
    | UpdateSequence(id: Id, sequence: nat)
    | AppendDecision(op: Op, row: Row)
    | Commit(op: Op, row: Row, token: Token, decidedAt: int, sequence: nat)
    | AppendExpired(about: Option<Id>, now: int, reply: Reply)
    | CommitExpired(now: int, sequence: nat, reply: Reply)
    | Done(reply: Reply)

  /** What has succeeded so far. */
  datatype Obs =
    | Created(id: Id, request: Request)
    | Issued(id: Id, token: Token)
    | Used(id: Id, token: Token, digest: Digest, at: int)

  datatype World = World(table: Table, log: seq<Event>, history: seq<Obs>)

  function Expected(op: Op): (s: State)
    requires Decides(op)
  {
    if op.Consume? then Approved else Pending
  }

  function Target(op: Op): (s: State)
    requires Decides(op)
  {
    match op
    case Approve(_, _) => Approved
    case Deny(_, _, _) => Denied
    case Cancel(_) => Cancelled
    case Consume(_, _) => Consumed
  }

  /** The event that announces that approval `id` is about to enter `s`. */
  function Announcement(id: Id, s: State): (e: Event)
  {
    match s
    case Approved => Event(ApprovalApproved, Some(id), "approved")
    case Denied => Event(ApprovalDenied, Some(id), "denied")
    case Cancelled => Event(DecisionDeny, Some(id), "cancelled")
    case Consumed => Event(ApprovalConsumed, Some(id), "consumed")
    case Expired => Event(ApprovalExpired, Some(id), "expired")
    case Pending => Event(ApprovalRequested, Some(id), "pending")
  }

  /** The reason code of a decision's audit event. */
  function ReasonCode(op: Op): (code: Option<Bytes>)
    requires Decides(op)
  {
    match op
    case Deny(_, _, reason) => reason
    case Cancel(_) => Some(Ascii("cancelled"))
    case _ => None
  }

  /** A row that a decision without a reason of its own can be logged for. */
  predicate Decidable(row: Row) { ValidIds(row.ruleIds) && Auditable(row.summary, row.ruleIds, None) }

  function Lifetime(cfg: Config, ttl: Option<nat>): (seconds: nat)
  {
    var wanted := if ttl.Some? then ttl.value else cfg.defaultTtl;
    if wanted < MAX_APPROVAL_TTL_SECONDS then wanted else MAX_APPROVAL_TTL_SECONDS
  }

  function NewRow(p: Params, request: Request, createdAt: int, expiresAt: int): (r: Row)
  {
    Row(request.requestId, p.digestOf(request), request.summary, SortDedup(request.ruleIds), createdAt, expiresAt,
        Pending, None, None, None, None, None, None)
  }

  function AppendTo(w: World, e: Event): (r: World) { w.(log := w.log + [e]) }

  function Fail(error: ApprovalError): (pc: Pc) { Done(Failed(error)) }

  // ---- One step of one call ------------------------------------------------------------

  /** `ensure_transitionable`, the check of the stored rule IDs, and for a consume the token check. */
  function Load(p: Params, op: Op, w: World, e: Env): (pc: Pc)
    requires Decides(op)
  {
    if !e.ok then Fail(TransactionFailure)
    else if op.id !in w.table then Fail(NotFound)
    else
      var row := w.table[op.id];
      if row.state != Expected(op) then Fail(InvalidTransition(row.state, Target(op)))
      else if e.now >= row.expiresAt then
        AppendExpired(Some(op.id), e.now, Failed(InvalidTransition(Expired, Target(op))))
      else if !ValidIds(row.ruleIds) then Fail(DatabaseCorruption)
      else if op.Consume? && row.tokenHash != Some(p.sha(op.presented)) then Fail(InvalidToken)
      else AppendDecision(op, row)
  }

  function CommitTx(p: Params, op: Op, token: Token, decidedAt: int, sequence: nat, t: Table, now: int):
    (r: (Table, Option<ApprovalError>))
    requires Decides(op)
  {
    match op
    case Approve(id, actor) => TxApprove(t, id, p.sha(token), actor, decidedAt, sequence, now)
    case Deny(id, actor, reason) => TxDeny(t, id, actor, reason, decidedAt, sequence)
    case Cancel(id) => TxCancel(t, id, decidedAt, sequence)
    case Consume(id, _) => TxConsume(t, id, decidedAt, sequence, now)
  }

  function Success(op: Op, row: Row, token: Token, sequence: nat): (r: Reply)
    requires Decides(op)
  {
    match op
    case Approve(_, _) => Granted(token)
    case Deny(_, _, _) => Decided
    case Cancel(_) => Decided
    case Consume(_, _) => Redeemed(row.digest, row.ruleIds, sequence)
  }

  function Recorded(op: Op, row: Row, token: Token, now: int): (h: seq<Obs>)
    requires Decides(op)
  {
    match op
    case Approve(id, _) => [Issued(id, token)]
    case Deny(_, _, _) => []
    case Cancel(_) => []
    case Consume(id, presented) => [Used(id, presented, row.digest, now)]
  }

  predicate WellFormed(pc: Pc)
  {
    match pc
    case AppendDecision(op, _) => Decides(op)
    case Commit(op, _, _, _, _) => Decides(op)
    case AppendExpired(_, _, reply) => reply.Failed? || reply.Swept?
    case CommitExpired(_, _, reply) => reply.Failed? || reply.Swept?
    case _ => true
  }

  function Next(p: Params, cfg: Config, pc: Pc, w: World, e: Env): (r: (Pc, World))
    requires WellFormed(pc)
    ensures WellFormed(r.0)
  {
    match pc
    case Start(op) => StartStep(p, cfg, op, w, e)
    case CountActive(request, createdAt, expiresAt) =>
      if !e.ok then (Fail(TransactionFailure), w)
      else if |ActiveFor(w.table, p.digestOf(request))| > 0 then (Fail(DuplicateActive), w)
      else (CountPending(request, createdAt, expiresAt), w)
    case CountPending(request, createdAt, expiresAt) =>
      if !e.ok then (Fail(TransactionFailure), w)
      else if |PendingIds(w.table)| >= cfg.maxPending then (Fail(PendingLimit), w)
      else (Insert(request, createdAt, expiresAt), w)
    case Insert(request, createdAt, expiresAt) =>
      if !e.ok || e.id in w.table then (Fail(TransactionFailure), w)
      else (AppendRequested(e.id, request),
            w.(table := w.table[e.id := NewRow(p, request, createdAt, expiresAt)],
               history := w.history + [Created(e.id, request)]))
    case AppendRequested(id, request) =>
      if !e.ok || !Auditable(request.summary, SortDedup(request.ruleIds), None) then (Fail(AuditFailure), w)
      else (UpdateSequence(id, |w.log| + 1), AppendTo(w, Announcement(id, Pending)))
    case UpdateSequence(id, sequence) =>
      if !e.ok then (Fail(TransactionFailure), w)
      else (Done(Requested(id)), w.(table := TxUpdateSequence(w.table, id, sequence)))
    case AppendDecision(op, row) =>
      if op.Approve? && !e.random then (Fail(InvalidConfiguration), w)
      else if !e.ok || !Auditable(row.summary, row.ruleIds, ReasonCode(op)) then (Fail(AuditFailure), w)
      else (Commit(op, row, e.token, e.now, |w.log| + 1), AppendTo(w, Announcement(op.id, Target(op))))
    case Commit(op, row, token, decidedAt, sequence) =>
      if !e.ok then (Fail(TransactionFailure), w)
      else
        var (t, err) := CommitTx(p, op, token, decidedAt, sequence, w.table, e.now);
        if err.Some? then (Fail(err.value), w.(table := t))
        else (Done(Success(op, row, token, sequence)),
              w.(table := t, history := w.history + Recorded(op, row, token, e.now)))
    case AppendExpired(about, now, reply) =>
      if !e.ok then (Fail(AuditFailure), w)
      else (CommitExpired(now, |w.log| + 1, reply), AppendTo(w, Event(ApprovalExpired, about, "expired")))
    case CommitExpired(now, sequence, reply) =>
      if !e.ok then (Fail(TransactionFailure), w)
      else (Done(if reply.Swept? then Swept(OverdueIds(w.table, now)) else reply),
            w.(table := TxExpire(w.table, now, sequence)))
    case Done(_) => (pc, w)
  }

  function StartStep(p: Params, cfg: Config, op: Op, w: World, e: Env): (r: (Pc, World))
    ensures WellFormed(r.0) && r.1 == w
  {
    match op
    case RequestApproval(request, ttl) =>
      if |request.summary| > MAX_APPROVAL_SUMMARY_LENGTH then (Fail(SummaryTooLarge), w)
      else (CountActive(request, e.now, e.now + Lifetime(cfg, ttl) * SECOND), w)
    case Sweep =>
      if !e.ok then (Fail(TransactionFailure), w)
      else if OverdueIds(w.table, e.now) == {} then (Done(Swept({})), w)
      else (AppendExpired(None, e.now, Swept({})), w)
    case _ => (Load(p, op, w, e), w)
  }

  // ---- Interleaved runs ------------------------------------------------------------------

  datatype System = System(world: World, calls: map<nat, Pc>)

  /** A new call, one step of a call already begun, or an audit event from another component. */
  datatype Action =
    | Begin(call: nat, op: Op)
    | Advance(call: nat, cfg: Config, env: Env)
    | Foreign(event: Event)

  const EMPTY := System(World(map[], [], []), map[])

  ghost predicate CallsWellFormed(s: System)
  {
    forall k :: k in s.calls ==> WellFormed(s.calls[k])
  }

  /** An action that is not enabled changes nothing. */
  ghost function Apply(p: Params, s: System, a: Action): (r: System)
    requires CallsWellFormed(s)
    ensures CallsWellFormed(r)
  {
    match a
    case Begin(k, op) => if k in s.calls then s else s.(calls := s.calls[k := Start(op)])
    case Advance(k, cfg, e) =>
      if k !in s.calls then s
      else
        var (pc, w) := Next(p, cfg, s.calls[k], s.world, e);
        System(w, s.calls[k := pc])
    case Foreign(event) => s.(world := AppendTo(s.world, event))
  }

  ghost function Run(p: Params, actions: seq<Action>): (r: System)
    ensures CallsWellFormed(r)
  {
    if actions == [] then EMPTY
    else Apply(p, Run(p, actions[..|actions| - 1]), actions[|actions| - 1])
  }

  // ---- One call at a time -------------------------------------------------------------------

  function Rank(pc: Pc): (n: nat)
  {
    match pc
    case Start(_) => 6
    case CountActive(_, _, _) => 5
    case CountPending(_, _, _) => 4
    case Insert(_, _, _) => 3
    case AppendRequested(_, _) => 2
    case UpdateSequence(_, _) => 1
    case AppendDecision(_, _) => 2
    case Commit(_, _, _, _, _) => 1
    case AppendExpired(_, _, _) => 2
    case CommitExpired(_, _, _) => 1
    case Done(_) => 0
  }

  /** Runs a call to its end; `env` gives what each step obtains, indexed by the steps left. */
  function Finish(p: Params, cfg: Config, pc: Pc, w: World, env: nat -> Env): (r: (Reply, World))
    requires WellFormed(pc)
    decreases Rank(pc)
  {
    if pc.Done? then (pc.reply, w)
    else
      var (pc', w') := Next(p, cfg, pc, w, env(Rank(pc)));
      Finish(p, cfg, pc', w', env)
  }

  function Call(p: Params, cfg: Config, op: Op, w: World, env: nat -> Env): (r: (Reply, World))
  {
    Finish(p, cfg, Start(op), w, env)
  }

  lemma FinishStep(p: Params, cfg: Config, pc: Pc, w: World, env: nat -> Env)
    requires WellFormed(pc) && !pc.Done?
    ensures
      var (pc', v) := Next(p, cfg, pc, w, env(Rank(pc)));
      Finish(p, cfg, pc, w, env) == Finish(p, cfg, pc', v, env)
  {
  }

  /** The two steps that log an expiry and sweep the table. */
  lemma FinishExpiry(p: Params, cfg: Config, about: Option<Id>, now: int, reply: Reply, w: World, env: nat -> Env)
    requires reply.Failed? || reply.Swept?
    requires env(2).ok && env(1).ok
    ensures Finish(p, cfg, AppendExpired(about, now, reply), w, env) ==
            (if reply.Swept? then Swept(OverdueIds(w.table, now)) else reply,
             World(TxExpire(w.table, now, |w.log| + 1), w.log + [Event(ApprovalExpired, about, "expired")], w.history))
  {
    var w1 := AppendTo(w, Event(ApprovalExpired, about, "expired"));
    FinishStep(p, cfg, AppendExpired(about, now, reply), w, env);
    FinishStep(p, cfg, CommitExpired(now, |w.log| + 1, reply), w1, env);
    hide TxExpire, OverdueIds;
  }

  /** What a decision does after a successful load, with both remaining steps spelled out. */
  lemma AfterLoad(p: Params, cfg: Config, op: Op, row: Row, w: World, env: nat -> Env)
    requires Decides(op) && op.id in w.table && w.table[op.id] == row
    requires env(6).ok && row.state == Expected(op) && env(6).now < row.expiresAt
    ensures
      var w1 := AppendTo(w, Announcement(op.id, Target(op)));
      var (t, err) := CommitTx(p, op, env(2).token, env(2).now, |w.log| + 1, w.table, env(1).now);
      Call(p, cfg, op, w, env) ==
      if !ValidIds(row.ruleIds) then (Failed(DatabaseCorruption), w)
      else if op.Consume? && row.tokenHash != Some(p.sha(op.presented)) then (Failed(InvalidToken), w)
      else if op.Approve? && !env(2).random then (Failed(InvalidConfiguration), w)
      else if !env(2).ok || !Auditable(row.summary, row.ruleIds, ReasonCode(op)) then (Failed(AuditFailure), w)
      else if !env(1).ok then (Failed(TransactionFailure), w1)
      else if err.Some? then (Failed(err.value), w1.(table := t))
      else (Success(op, row, env(2).token, |w.log| + 1),
            w1.(table := t, history := w.history + Recorded(op, row, env(2).token, env(1).now)))
  {
    FinishStep(p, cfg, Start(op), w, env);
    FinishStep(p, cfg, AppendDecision(op, row), w, env);
    var w1 := AppendTo(w, Announcement(op.id, Target(op)));
    FinishStep(p, cfg, Commit(op, row, env(2).token, env(2).now, |w.log| + 1), w1, env);
    hide CommitTx;
  }
}
