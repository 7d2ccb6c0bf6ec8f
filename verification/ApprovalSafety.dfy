/** What every interleaved run of broker calls keeps. */
module ApprovalSafety {
  import opened Text
  import opened AuditEvents
  import opened Identifiers
  import opened Approvals
  import opened ApprovalBroker

  // ---- Reading the history ---------------------------------------------------------

  /** Tokens of the successful approves of `id`, in order. */
  function Issues(h: seq<Obs>, id: Id): (tokens: seq<Token>)
  {
    if h == [] then []
    else
      var o := h[|h| - 1];
      Issues(h[..|h| - 1], id) + (if o.Issued? && o.id == id then [o.token] else [])
  }

  /** The successful consumes of `id`, in order. */
  function Uses(h: seq<Obs>, id: Id): (uses: seq<Obs>)
    ensures forall u :: u in uses ==> u.Used? && u.id == id
  {
    if h == [] then []
    else
      var o := h[|h| - 1];
      Uses(h[..|h| - 1], id) + (if o.Used? && o.id == id then [o] else [])
  }

  /** The requests that created `id`. */
  function Creations(h: seq<Obs>, id: Id): (requests: seq<Request>)
  {
    if h == [] then []
    else
      var o := h[|h| - 1];
      Creations(h[..|h| - 1], id) + (if o.Created? && o.id == id then [o.request] else [])
  }

  lemma HistoryGrows(h: seq<Obs>, o: Obs, id: Id)
    ensures Issues(h + [o], id) == Issues(h, id) + (if o.Issued? && o.id == id then [o.token] else [])
    ensures Uses(h + [o], id) == Uses(h, id) + (if o.Used? && o.id == id then [o] else [])
    ensures Creations(h + [o], id) == Creations(h, id) + (if o.Created? && o.id == id then [o.request] else [])
    ensures o.id != id ==>
      Issues(h + [o], id) == Issues(h, id) && Uses(h + [o], id) == Uses(h, id)
      && Creations(h + [o], id) == Creations(h, id)
  {
    assert (h + [o])[..|h|] == h;
  }

  /** The history records exactly the successful replies: an issue when an approve answers with its
      token, a use when a consume answers with its digest. */
  lemma HistoryRecordsReplies(p: Params, cfg: Config, pc: Pc, w: World, e: Env)
    requires WellFormed(pc) && !pc.Done?
    ensures
      var (pc', v) := Next(p, cfg, pc, w, e);
      match pc'
      case Done(Granted(token)) => pc.Commit? && v.history == w.history + [Issued(pc.op.id, token)]
      case Done(Redeemed(digest, _, _)) =>
        pc.Commit? && pc.op.Consume? && v.history == w.history + [Used(pc.op.id, pc.op.presented, digest, e.now)]
      case AppendRequested(id, _) => pc.Insert? && v.history == w.history + [Created(id, pc.request)]
      case _ => v.history == w.history
  {
    assert w.history + [] == w.history;
  }

  // ---- The invariant -----------------------------------------------------------------

  /** A use that redeemed the token issued by the approve, in time, for the stored request. */
  predicate GoodUse(p: Params, use: Obs, issued: Token, row: Row)
  {
    use.Used? && p.sha(use.token) == p.sha(issued) && use.digest == row.digest && use.at < row.expiresAt
  }

  predicate RowOk(p: Params, row: Row, issues: seq<Token>, uses: seq<Obs>, creations: seq<Request>)
  {
    && |creations| == 1 && row.digest == p.digestOf(creations[0])
    && row.ruleIds == SortDedup(creations[0].ruleIds)
    && match row.state
       case Approved => |issues| == 1 && row.tokenHash == Some(p.sha(issues[0])) && uses == []
       case Consumed => |issues| == 1 && |uses| == 1 && GoodUse(p, uses[0], issues[0], row)
       case Expired => |issues| <= 1 && uses == []
       case _ => issues == [] && uses == []
  }

  ghost predicate IdOk(p: Params, w: World, id: Id)
  {
    if id in w.table
    then RowOk(p, w.table[id], Issues(w.history, id), Uses(w.history, id), Creations(w.history, id))
    else Issues(w.history, id) == [] && Uses(w.history, id) == [] && Creations(w.history, id) == []
  }

  /** A decided row was announced in the audit log. */
  ghost predicate Announced(log: seq<Event>, id: Id, s: State)
  {
    exists k :: 0 <= k < |log| && log[k] == Announcement(id, s)
  }

  predicate NeedsAnnouncement(s: State) { s.Approved? || s.Denied? || s.Cancelled? || s.Consumed? }

  ghost predicate LogOk(w: World, id: Id)
  {
    id in w.table && NeedsAnnouncement(w.table[id].state) ==> Announced(w.log, id, w.table[id].state)
  }

  ghost predicate WorldOk(p: Params, w: World)
  {
    forall id :: IdOk(p, w, id) && LogOk(w, id)
  }

  /** The presented token has the hash that the first approve stored. */
  ghost predicate Matches(p: Params, w: World, id: Id, token: Token)
  {
    |Issues(w.history, id)| >= 1 && p.sha(token) == p.sha(Issues(w.history, id)[0])
  }

  ghost predicate Prepared(p: Params, w: World, op: Op, row: Row)
    requires Decides(op)
  {
    && op.id in w.table && SameRequest(row, w.table[op.id])
    && (op.Consume? ==> Matches(p, w, op.id, op.presented))
  }

  ghost predicate CallOk(p: Params, w: World, pc: Pc)
    requires WellFormed(pc)
  {
    match pc
    case AppendDecision(op, row) => Prepared(p, w, op, row)
    case Commit(op, row, _, _, sequence) =>
      && Prepared(p, w, op, row)
      && 1 <= sequence <= |w.log| && w.log[sequence - 1] == Announcement(op.id, Target(op))
    case _ => true
  }

  ghost predicate Inv(p: Params, s: System)
  {
    && CallsWellFormed(s)
    && WorldOk(p, s.world)
    && forall k :: k in s.calls ==> CallOk(p, s.world, s.calls[k])
  }

  /** How the world may change in one step. */
  ghost predicate WorldMoves(w: World, v: World)
  {
    && Moves(w.table, v.table)
    && w.log <= v.log
    && (forall id :: Issues(w.history, id) <= Issues(v.history, id))
  }

  // ---- Each step keeps it -------------------------------------------------------------

  lemma CallStaysOk(p: Params, w: World, v: World, pc: Pc)
    requires WellFormed(pc) && CallOk(p, w, pc) && WorldMoves(w, v)
    ensures CallOk(p, v, pc)
  {
  }

  /** A step that leaves the history alone and changes one row along an edge, within what the
      history allows. */
  lemma RowChanges(p: Params, w: World, id: Id, row: Row)
    requires WorldOk(p, w) && id in w.table
    requires SameRequest(w.table[id], row) && Edge(w.table[id].state, row.state)
    requires RowOk(p, row, Issues(w.history, id), Uses(w.history, id), Creations(w.history, id))
    requires NeedsAnnouncement(row.state) ==> Announced(w.log, id, row.state)
    ensures
      var v := w.(table := w.table[id := row]);
      WorldOk(p, v) && WorldMoves(w, v)
  {
    hide RowOk, Announced, NeedsAnnouncement, Issues, Uses, Creations;
    var v := w.(table := w.table[id := row]);
    forall x ensures IdOk(p, v, x) && LogOk(v, x) {
      assert IdOk(p, w, x) && LogOk(w, x);
    }
  }

  /** A row change recorded in the history. */
  lemma RowChangesRecorded(p: Params, w: World, id: Id, row: Row, o: Obs)
    requires WorldOk(p, w) && o.id == id
    requires id in w.table ==> SameRequest(w.table[id], row) && Edge(w.table[id].state, row.state)
    requires id !in w.table ==> row.state.Pending?
    requires RowOk(p, row, Issues(w.history + [o], id), Uses(w.history + [o], id), Creations(w.history + [o], id))
    requires NeedsAnnouncement(row.state) ==> Announced(w.log, id, row.state)
    ensures
      var v := w.(table := w.table[id := row], history := w.history + [o]);
      WorldOk(p, v) && WorldMoves(w, v)
  {
    hide RowOk, Announced, NeedsAnnouncement, Issues, Uses, Creations;
    var v := w.(table := w.table[id := row], history := w.history + [o]);
    forall x ensures IdOk(p, v, x) && LogOk(v, x) && Issues(w.history, x) <= Issues(v.history, x) {
      assert IdOk(p, w, x) && LogOk(w, x);
      HistoryGrows(w.history, o, x);
    }
  }

  lemma ApproveKeeps(p: Params, w: World, e: Env, op: Op, row: Row, token: Token, decidedAt: int, sequence: nat)
    requires op.Approve? && WorldOk(p, w) && CallOk(p, w, Commit(op, row, token, decidedAt, sequence))
    ensures
      var (t, err) := TxApprove(w.table, op.id, p.sha(token), op.approver, decidedAt, sequence, e.now);
      var h := if err.None? then w.history + [Issued(op.id, token)] else w.history;
      WorldOk(p, w.(table := t, history := h)) && WorldMoves(w, w.(table := t, history := h))
  {
    var id, now := op.id, w.table[op.id];
    assert IdOk(p, w, id) && LogOk(w, id);
    if !now.state.Pending? {
      NothingMoves(w);
    } else if e.now >= now.expiresAt {
      RowChanges(p, w, id, now.(state := Expired, decisionAt := Some(decidedAt)));
    } else {
      HistoryGrows(w.history, Issued(id, token), id);
      assert Announced(w.log, id, Approved);
      RowChangesRecorded(p, w, id, TxApprove(w.table, id, p.sha(token), op.approver, decidedAt, sequence, e.now).0[id],
                         Issued(id, token));
    }
  }

  lemma ConsumeKeeps(p: Params, w: World, e: Env, op: Op, row: Row, token: Token, decidedAt: int, sequence: nat)
    requires op.Consume? && WorldOk(p, w) && CallOk(p, w, Commit(op, row, token, decidedAt, sequence))
    ensures
      var (t, err) := TxConsume(w.table, op.id, decidedAt, sequence, e.now);
      var h := if err.None? then w.history + [Used(op.id, op.presented, row.digest, e.now)] else w.history;
      WorldOk(p, w.(table := t, history := h)) && WorldMoves(w, w.(table := t, history := h))
  {
    var id, now := op.id, w.table[op.id];
    assert IdOk(p, w, id) && LogOk(w, id);
    if !now.state.Approved? {
      NothingMoves(w);
    } else if e.now >= now.expiresAt {
      RowChanges(p, w, id, now.(state := Expired, decisionAt := Some(decidedAt)));
    } else {
      ConsumeSucceeds(p, w, e, op, row, token, decidedAt, sequence);
    }
  }

  lemma ConsumeSucceeds(p: Params, w: World, e: Env, op: Op, row: Row, token: Token, decidedAt: int, sequence: nat)
    requires op.Consume? && WorldOk(p, w) && CallOk(p, w, Commit(op, row, token, decidedAt, sequence))
    requires w.table[op.id].state.Approved? && e.now < w.table[op.id].expiresAt
    ensures
      var v := w.(table := TxConsume(w.table, op.id, decidedAt, sequence, e.now).0,
                  history := w.history + [Used(op.id, op.presented, row.digest, e.now)]);
      WorldOk(p, v) && WorldMoves(w, v)
  {
    var id, use := op.id, Used(op.id, op.presented, row.digest, e.now);
    var row' := w.table[id].(state := Consumed, consumedAt := Some(decidedAt), tokenHash := None,
                             auditSequence := Some(sequence));
    assert Announced(w.log, id, Consumed);
    ConsumedRowOk(p, w, e, op, row, row');
    hide Issues, Uses, Creations, Announced, WorldOk, WorldMoves, RowOk;
    RowChangesRecorded(p, w, id, row', use);
  }

  lemma ConsumedRowOk(p: Params, w: World, e: Env, op: Op, row: Row, row': Row)
    requires op.Consume? && WorldOk(p, w) && Prepared(p, w, op, row)
    requires w.table[op.id].state.Approved? && e.now < w.table[op.id].expiresAt
    requires row'.state.Consumed? && SameRequest(w.table[op.id], row')
    ensures
      var h := w.history + [Used(op.id, op.presented, row.digest, e.now)];
      RowOk(p, row', Issues(h, op.id), Uses(h, op.id), Creations(h, op.id))
  {
    assert IdOk(p, w, op.id);
    hide WorldOk;
    HistoryGrows(w.history, Used(op.id, op.presented, row.digest, e.now), op.id);
    hide Issues, Uses, Creations;
  }

  lemma RefusalKeeps(p: Params, w: World, op: Op, row: Row, token: Token, decidedAt: int, sequence: nat)
    requires (op.Deny? || op.Cancel?) && WorldOk(p, w)
    requires CallOk(p, w, Commit(op, row, token, decidedAt, sequence))
    ensures
      var (t, err) := CommitTx(p, op, token, decidedAt, sequence, w.table, 0);
      WorldOk(p, w.(table := t)) && WorldMoves(w, w.(table := t))
  {
    var id := op.id;
    assert IdOk(p, w, id) && LogOk(w, id);
    var (t, err) := CommitTx(p, op, token, decidedAt, sequence, w.table, 0);
    assert t == w.table[id := t[id]];
    RowChanges(p, w, id, t[id]);
  }

  lemma CommitKeeps(p: Params, cfg: Config, w: World, e: Env, pc: Pc)
    requires pc.Commit? && WellFormed(pc) && WorldOk(p, w) && CallOk(p, w, pc)
    ensures var v := Next(p, cfg, pc, w, e).1; WorldOk(p, v) && WorldMoves(w, v)
  {
    hide WorldOk, WorldMoves, CallOk, TxApprove, TxDeny, TxCancel, TxConsume;
    NothingMoves(w);
    var op := pc.op;
    var (t, err) := CommitTx(p, op, pc.token, pc.decidedAt, pc.sequence, w.table, e.now);
    assert w.(table := t, history := w.history) == w.(table := t);
    if op.Approve? {
      ApproveKeeps(p, w, e, op, pc.row, pc.token, pc.decidedAt, pc.sequence);
    } else if op.Consume? {
      ConsumeKeeps(p, w, e, op, pc.row, pc.token, pc.decidedAt, pc.sequence);
    } else {
      RefusalKeeps(p, w, op, pc.row, pc.token, pc.decidedAt, pc.sequence);
      assert w.history + [] == w.history;
    }
  }

  lemma ExpireKeeps(p: Params, w: World, now: int, sequence: nat)
    requires WorldOk(p, w)
    ensures var v := w.(table := TxExpire(w.table, now, sequence)); WorldOk(p, v) && WorldMoves(w, v)
  {
    hide Issues, Uses, Creations, SortDedup;
    var v := w.(table := TxExpire(w.table, now, sequence));
    forall x ensures IdOk(p, v, x) && LogOk(v, x) {
      assert IdOk(p, w, x) && LogOk(w, x);
    }
  }

  lemma AppendKeeps(p: Params, w: World, e: Event)
    requires WorldOk(p, w)
    ensures WorldOk(p, AppendTo(w, e)) && WorldMoves(w, AppendTo(w, e))
  {
    var v := AppendTo(w, e);
    forall x ensures IdOk(p, v, x) && LogOk(v, x) {
      assert IdOk(p, w, x) && LogOk(w, x);
      if x in w.table && NeedsAnnouncement(w.table[x].state) {
        var k :| 0 <= k < |w.log| && w.log[k] == Announcement(x, w.table[x].state);
        assert v.log[k] == Announcement(x, w.table[x].state);
      }
    }
  }

  lemma InsertKeeps(p: Params, w: World, id: Id, request: Request, createdAt: int, expiresAt: int)
    requires WorldOk(p, w) && id !in w.table
    ensures
      var v := w.(table := w.table[id := NewRow(p, request, createdAt, expiresAt)],
                  history := w.history + [Created(id, request)]);
      WorldOk(p, v) && WorldMoves(w, v)
  {
    assert IdOk(p, w, id);
    HistoryGrows(w.history, Created(id, request), id);
    RowChangesRecorded(p, w, id, NewRow(p, request, createdAt, expiresAt), Created(id, request));
  }

  lemma NothingMoves(w: World)
    ensures WorldMoves(w, w)
  {
  }

  lemma StartKeeps(p: Params, cfg: Config, op: Op, w: World, e: Env)
    requires WorldOk(p, w)
    ensures CallOk(p, w, StartStep(p, cfg, op, w, e).0)
  {
    hide Auditable, ValidIds, Issues, Uses, Creations, SortDedup;
    if Decides(op) { assert IdOk(p, w, op.id); }
  }

  lemma UpdateKeeps(p: Params, w: World, id: Id, sequence: nat)
    requires WorldOk(p, w)
    ensures var v := w.(table := TxUpdateSequence(w.table, id, sequence)); WorldOk(p, v) && WorldMoves(w, v)
  {
    NothingMoves(w);
    if id in w.table {
      assert IdOk(p, w, id) && LogOk(w, id);
      RowChanges(p, w, id, w.table[id].(auditSequence := Some(sequence)));
    }
  }

  /** One step of one call keeps the world and prepares its own next step. */
  lemma StepKeeps(p: Params, cfg: Config, pc: Pc, w: World, e: Env)
    requires WellFormed(pc) && WorldOk(p, w) && CallOk(p, w, pc)
    ensures
      var (pc', v) := Next(p, cfg, pc, w, e);
      WorldOk(p, v) && WorldMoves(w, v) && CallOk(p, v, pc')
  {
    hide Auditable, ValidIds, WorldOk, WorldMoves;
    NothingMoves(w);
    match pc
    case Start(op) => StartKeeps(p, cfg, op, w, e);
    case Insert(request, createdAt, expiresAt) =>
      if e.ok && e.id !in w.table { InsertKeeps(p, w, e.id, request, createdAt, expiresAt); }
    case AppendRequested(id, request) => AppendKeeps(p, w, Announcement(id, Pending));
    case UpdateSequence(id, sequence) =>
      UpdateKeeps(p, w, id, sequence);
    case AppendDecision(op, row) =>
      var event := Announcement(op.id, Target(op));
      AppendKeeps(p, w, event);
      CallStaysOk(p, w, AppendTo(w, event), pc);
    case Commit(op, row, token, decidedAt, sequence) => CommitKeeps(p, cfg, w, e, pc);
    case AppendExpired(about, now, reply) => AppendKeeps(p, w, Event(ApprovalExpired, about, "expired"));
    case CommitExpired(now, sequence, reply) => ExpireKeeps(p, w, now, sequence);
    case _ =>
  }

  lemma ApplyKeeps(p: Params, s: System, a: Action)
    requires Inv(p, s)
    ensures Inv(p, Apply(p, s, a)) && WorldMoves(s.world, Apply(p, s, a).world)
  {
    hide WorldOk, WorldMoves, Next;
    var r := Apply(p, s, a);
    NothingMoves(s.world);
    match a {
      case Begin(k, op) =>
      case Advance(k, cfg, e) => if k in s.calls { StepKeeps(p, cfg, s.calls[k], s.world, e); }
      case Foreign(event) => AppendKeeps(p, s.world, event);
    }
    forall k | k in r.calls ensures CallOk(p, r.world, r.calls[k]) {
      if k in s.calls && s.calls[k] == r.calls[k] { CallStaysOk(p, s.world, r.world, s.calls[k]); }
    }
  }

  lemma {:induction false} InvHolds(p: Params, actions: seq<Action>)
    ensures Inv(p, Run(p, actions))
  {
    if actions != [] {
      InvHolds(p, actions[..|actions| - 1]);
      ApplyKeeps(p, Run(p, actions[..|actions| - 1]), actions[|actions| - 1]);
    } else {
      forall id ensures IdOk(p, EMPTY.world, id) && LogOk(EMPTY.world, id) { }
    }
  }

  // ---- What the invariant says about whole runs -----------------------------------------

  /** In every interleaved run each approval is approved at most once and consumed at most once. */
  lemma AtMostOnce(p: Params, actions: seq<Action>, id: Id)
    ensures |Issues(Run(p, actions).world.history, id)| <= 1
    ensures |Uses(Run(p, actions).world.history, id)| <= 1
  {
    InvHolds(p, actions);
    assert IdOk(p, Run(p, actions).world, id);
  }

  /** In every interleaved run a successful consume presented a token with the hash that the one
      successful approve stored, at a reading before expiry, and returned the digest of the request
      that created the approval. */
  lemma ConsumeIsEarned(p: Params, actions: seq<Action>, id: Id)
    requires Uses(Run(p, actions).world.history, id) != []
    ensures
      var w := Run(p, actions).world;
      var use, issues, creations := Uses(w.history, id)[0], Issues(w.history, id), Creations(w.history, id);
      && id in w.table && w.table[id].state.Consumed?
      && |issues| == 1 && p.sha(use.token) == p.sha(issues[0])
      && use.at < w.table[id].expiresAt
      && |creations| == 1 && use.digest == p.digestOf(creations[0])
  {
    InvHolds(p, actions);
    assert IdOk(p, Run(p, actions).world, id);
  }

  /** Write-ahead audit: in every interleaved run, failures included, a row that is approved, denied,
      cancelled or consumed has its announcement in the log already. */
  lemma WriteAhead(p: Params, actions: seq<Action>, id: Id)
    ensures
      var w := Run(p, actions).world;
      id in w.table && NeedsAnnouncement(w.table[id].state) ==> Announced(w.log, id, w.table[id].state)
  {
    InvHolds(p, actions);
    assert LogOk(Run(p, actions).world, id);
  }

  /** Every single action moves rows along edges only, and only ever adds to the log. */
  lemma EveryActionMoves(p: Params, actions: seq<Action>, a: Action)
    ensures
      var w, v := Run(p, actions).world, Run(p, actions + [a]).world;
      Moves(w.table, v.table) && w.log <= v.log
  {
    InvHolds(p, actions);
    assert (actions + [a])[..|actions|] == actions;
    ApplyKeeps(p, Run(p, actions), a);
  }

  /** From any point of a run to any later one, rows are kept, stay bound to their request, and
      only move along the approval life cycle. */
  lemma {:induction false} RunsEvolve(p: Params, actions: seq<Action>, more: seq<Action>)
    ensures Evolves(Run(p, actions).world.table, Run(p, actions + more).world.table)
  {
    if more == [] {
      assert actions + more == actions;
    } else {
      var rest, last := more[..|more| - 1], more[|more| - 1];
      RunsEvolve(p, actions, rest);
      assert actions + more == (actions + rest) + [last];
      EveryActionMoves(p, actions + rest, last);
    }
  }

  /** In every interleaved run, the answer to a successful consume names the digest and the rule IDs of
      the request that created the approval, and the sequence of the event that announced it. */
  lemma ConsumeAnswers(p: Params, actions: seq<Action>, k: nat, cfg: Config, e: Env, id: Id)
    requires
      var s, r := Run(p, actions), Run(p, actions + [Advance(k, cfg, e)]);
      && k in s.calls && !s.calls[k].Done? && k in r.calls && r.calls[k].Done? && r.calls[k].reply.Redeemed?
      && s.calls[k].Commit? && s.calls[k].op.id == id
    ensures
      var r := Run(p, actions + [Advance(k, cfg, e)]);
      var reply, creations, log := r.calls[k].reply, Creations(r.world.history, id), r.world.log;
      && |creations| == 1 && reply.digest == p.digestOf(creations[0])
      && Increasing(reply.ruleIds) && (forall x :: x in reply.ruleIds <==> x in creations[0].ruleIds)
      && 1 <= reply.sequence <= |log|
      && log[reply.sequence - 1] == Event(ApprovalConsumed, Some(id), "consumed")
  {
    hide Run, Next, Issues, Uses, Creations, SortDedup, Increasing;
    var a := Advance(k, cfg, e);
    var s, r := Run(p, actions), Run(p, actions + [a]);
    AdvanceStep(p, actions, k, cfg, e);
    CommitAnswers(p, cfg, s.calls[k], s.world, e);
    CallHolds(p, actions, k);
    RowHolds(p, actions + [a], id);
    EveryActionMoves(p, actions, a);
    SortDedupCorrect(Creations(r.world.history, id)[0].ruleIds);
  }

  lemma AdvanceStep(p: Params, actions: seq<Action>, k: nat, cfg: Config, e: Env)
    requires k in Run(p, actions).calls
    ensures
      var s := Run(p, actions);
      var (pc, w) := Next(p, cfg, s.calls[k], s.world, e);
      Run(p, actions + [Advance(k, cfg, e)]) == System(w, s.calls[k := pc])
  {
    hide Next;
    assert (actions + [Advance(k, cfg, e)])[..|actions|] == actions;
  }

  lemma CallHolds(p: Params, actions: seq<Action>, k: nat)
    requires k in Run(p, actions).calls && Run(p, actions).calls[k].Commit?
    ensures
      var w, pc := Run(p, actions).world, Run(p, actions).calls[k];
      && pc.op.id in w.table && SameRequest(pc.row, w.table[pc.op.id])
      && 1 <= pc.sequence <= |w.log| && w.log[pc.sequence - 1] == Announcement(pc.op.id, Target(pc.op))
  {
    InvHolds(p, actions);
    hide Run, WorldOk;
    assert CallOk(p, Run(p, actions).world, Run(p, actions).calls[k]);
  }

  lemma RowHolds(p: Params, actions: seq<Action>, id: Id)
    ensures
      var w := Run(p, actions).world;
      id in w.table ==>
        var creations := Creations(w.history, id);
        && |creations| == 1 && w.table[id].digest == p.digestOf(creations[0])
        && w.table[id].ruleIds == SortDedup(creations[0].ruleIds)
  {
    InvHolds(p, actions);
    hide Run, Issues, Uses, Creations;
    assert IdOk(p, Run(p, actions).world, id);
  }

  lemma CommitAnswers(p: Params, cfg: Config, pc: Pc, w: World, e: Env)
    requires pc.Commit? && WellFormed(pc)
    ensures
      var (pc', v) := Next(p, cfg, pc, w, e);
      pc'.Done? && pc'.reply.Redeemed? ==>
        && pc.op.Consume? && pc.op.id in w.table && v.log == w.log
        && pc'.reply == Redeemed(pc.row.digest, pc.row.ruleIds, pc.sequence)
  {
  }
}
