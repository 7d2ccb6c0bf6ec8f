/** The approvals table and its transactions. */
module Approvals {
  import opened Text
  import opened AuditEvents

  const MAX_APPROVAL_TTL_SECONDS: nat := 86_400
  const MAX_APPROVAL_SUMMARY_LENGTH: nat := 4_096

  type Id = string

  datatype State = Pending | Approved | Denied | Expired | Consumed | Cancelled

  datatype Row = Row(
    requestId: string,
    digest: Digest,
    summary: Bytes,
    ruleIds: seq<Bytes>,
    createdAt: int,
    expiresAt: int,
    state: State,
    tokenHash: Option<Digest>,
    actor: Option<string>,
    denialReason: Option<Bytes>,
    decisionAt: Option<int>,
    consumedAt: Option<int>,
    auditSequence: Option<nat>)

  type Table = map<Id, Row>

  datatype ApprovalError =
    | NotFound | InvalidTransition(from: State, to: State) | InvalidToken
    | DuplicateActive | PendingLimit | SummaryTooLarge | AuditFailure | TransactionFailure
    | DatabaseCorruption | InvalidConfiguration

  predicate Active(r: Row) { r.state.Pending? || r.state.Approved? }

  /** Active and past its expiry, as the sweep's query says it. */
  predicate Overdue(r: Row, now: int) { Active(r) && r.expiresAt < now }

  function ActiveFor(t: Table, digest: Digest): (ids: set<Id>)
  {
    set id | id in t && t[id].digest == digest && Active(t[id])
  }

  function PendingIds(t: Table): (ids: set<Id>)
  {
    set id | id in t && t[id].state.Pending?
  }

  function OverdueIds(t: Table, now: int): (ids: set<Id>)
  {
    set id | id in t && Overdue(t[id], now)
  }

  // ---- Transactions: each is one atomic step on the table --------------------------

  function TxApprove(t: Table, id: Id, tokenHash: Digest, actor: string, decidedAt: int, sequence: nat, now: int):
    (r: (Table, Option<ApprovalError>))
  {
    if id !in t then (t, Some(NotFound))
    else
      var row := t[id];
      if !row.state.Pending? then (t, Some(InvalidTransition(row.state, Approved)))
      else if now >= row.expiresAt then
        (t[id := row.(state := Expired, decisionAt := Some(decidedAt))], Some(InvalidTransition(Pending, Approved)))
      else
        (t[id := row.(state := Approved, tokenHash := Some(tokenHash), actor := Some(actor),
                      decisionAt := Some(decidedAt), auditSequence := Some(sequence))], None)
  }

  function TxDeny(t: Table, id: Id, actor: string, reason: Option<Bytes>, decidedAt: int, sequence: nat):
    (r: (Table, Option<ApprovalError>))
  {
    if id !in t then (t, Some(NotFound))
    else if !t[id].state.Pending? then (t, Some(InvalidTransition(t[id].state, Denied)))
    else
      (t[id := t[id].(state := Denied, actor := Some(actor), denialReason := reason,
                      decisionAt := Some(decidedAt), auditSequence := Some(sequence))], None)
  }

  function TxCancel(t: Table, id: Id, decidedAt: int, sequence: nat): (r: (Table, Option<ApprovalError>))
  {
    if id !in t then (t, Some(NotFound))
    else if !t[id].state.Pending? then (t, Some(InvalidTransition(t[id].state, Cancelled)))
    else
      (t[id := t[id].(state := Cancelled, decisionAt := Some(decidedAt), auditSequence := Some(sequence))], None)
  }

  function TxConsume(t: Table, id: Id, consumedAt: int, sequence: nat, now: int): (r: (Table, Option<ApprovalError>))
  {
    if id !in t then (t, Some(NotFound))
    else
      var row := t[id];
      if !row.state.Approved? then (t, Some(InvalidTransition(row.state, Consumed)))
      else if now >= row.expiresAt then
        (t[id := row.(state := Expired, decisionAt := Some(consumedAt))], Some(InvalidTransition(Approved, Consumed)))
      else
        (t[id := row.(state := Consumed, consumedAt := Some(consumedAt), tokenHash := None,
                      auditSequence := Some(sequence))], None)
  }

  function ExpiredRow(r: Row, now: int, sequence: nat): (e: Row)
  {
    r.(state := Expired, decisionAt := Some(now), auditSequence := Some(sequence))
  }

  function TxExpire(t: Table, now: int, sequence: nat): (r: Table)
  {
    map id | id in t :: if Overdue(t[id], now) then ExpiredRow(t[id], now, sequence) else t[id]
  }

  function TxUpdateSequence(t: Table, id: Id, sequence: nat): (r: Table)
  {
    if id in t then t[id := t[id].(auditSequence := Some(sequence))] else t
  }

  // ---- How rows may move -------------------------------------------------------------

  /** One transaction's worth of movement. */
  predicate Edge(a: State, b: State)
  {
    || a == b
    || (a.Pending? && (b.Approved? || b.Denied? || b.Cancelled? || b.Expired?))
    || (a.Approved? && (b.Consumed? || b.Expired?))
  }

  /** Movement over any number of transactions. */
  predicate Path(a: State, b: State)
  {
    Edge(a, b) || (a.Pending? && b.Consumed?)
  }

  predicate SameRequest(r: Row, s: Row)
  {
    && r.requestId == s.requestId && r.digest == s.digest && r.summary == s.summary && r.ruleIds == s.ruleIds
    && r.createdAt == s.createdAt && r.expiresAt == s.expiresAt
  }

  /** Rows are never deleted, keep what was requested, and move along edges; new rows are pending. */
  ghost predicate Moves(t: Table, u: Table)
  {
    && (forall id :: id in t ==> id in u && SameRequest(t[id], u[id]) && Edge(t[id].state, u[id].state))
    && (forall id :: id in u && id !in t ==> u[id].state.Pending?)
  }

  /** As `Moves`, over any number of transactions. */
  ghost predicate Evolves(t: Table, u: Table)
  {
    forall id :: id in t ==> id in u && SameRequest(t[id], u[id]) && Path(t[id].state, u[id].state)
  }
}
