/** Where the limits of approvals and of the audit log disagree: requests that are stored but can never
    be decided, and denials that are refused for their reason. */
module ApprovalLimits {
  import opened Text
  import opened Instants
  import opened AuditEvents
  import opened Identifiers
  import opened Approvals
  import opened ApprovalBroker
  import Safety = ApprovalSafety
  import opened ApprovalSequential
  import opened ApprovalConcurrent

  // ---- What every run keeps ------------------------------------------------------------------

  /** A row that no decision can be logged for is undecided, and a stored denial reason fits the
      audit log's reason code. */
  predicate RowWithin(row: Row)
  {
    && (Decidable(row) || row.state.Pending? || row.state.Expired?)
    && (row.state.Denied? ==> Within(row.denialReason, MAX_REASON_CODE_LENGTH))
  }

  predicate CallWithin(pc: Pc)
    requires WellFormed(pc)
  {
    match pc
    case AppendDecision(op, row) => ValidIds(row.ruleIds)
    case Commit(op, row, _, _, _) =>
      ValidIds(row.ruleIds) && Auditable(row.summary, row.ruleIds, ReasonCode(op))
    case _ => true
  }

  ghost predicate TableWithin(t: Table) { forall id :: id in t ==> RowWithin(t[id]) }

  /** A committing call still has the row of the request it loaded. */
  ghost predicate Loaded(w: World, pc: Pc)
    requires WellFormed(pc)
  {
    pc.Commit? ==> pc.op.id in w.table && SameRequest(pc.row, w.table[pc.op.id])
  }

  lemma CommitWithin(p: Params, cfg: Config, pc: Pc, w: World, e: Env)
    requires pc.Commit? && WellFormed(pc) && TableWithin(w.table) && CallWithin(pc) && Loaded(w, pc)
    ensures TableWithin(Next(p, cfg, pc, w, e).1.table)
  {
    hide ValidIds, Auditable;
    WithoutReason(pc.row, ReasonCode(pc.op));
    assert Decidable(w.table[pc.op.id]);
    TxTouchesOneRow(p, pc.op, pc.token, pc.decidedAt, pc.sequence, w.table, e.now);
    if !pc.op.Deny? { hide CommitTx; }
  }

  lemma WithoutReason(row: Row, reason: Option<Bytes>)
    requires Auditable(row.summary, row.ruleIds, reason)
    ensures Auditable(row.summary, row.ruleIds, None) && Within(reason, MAX_REASON_CODE_LENGTH)
  {
  }

  lemma StepWithin(p: Params, cfg: Config, pc: Pc, w: World, e: Env)
    requires WellFormed(pc) && TableWithin(w.table) && CallWithin(pc) && Loaded(w, pc)
    ensures var (pc', v) := Next(p, cfg, pc, w, e); TableWithin(v.table) && CallWithin(pc')
  {
    hide ValidIds, Auditable;
    if pc.Commit? { CommitWithin(p, cfg, pc, w, e); }
  }

  lemma {:induction false} EverythingWithin(p: Params, actions: seq<Action>)
    ensures TableWithin(Run(p, actions).world.table)
    ensures forall k :: k in Run(p, actions).calls ==> CallWithin(Run(p, actions).calls[k])
  {
    if actions != [] {
      hide Next, TableWithin, CallWithin;
      var s, a := Run(p, actions[..|actions| - 1]), actions[|actions| - 1];
      EverythingWithin(p, actions[..|actions| - 1]);
      Safety.InvHolds(p, actions[..|actions| - 1]);
      if a.Advance? && a.call in s.calls {
        assert Safety.CallOk(p, s.world, s.calls[a.call]);
        StepWithin(p, a.cfg, s.calls[a.call], s.world, a.env);
      } else if a.Begin? {
        BeginWithin(a.op);
      }
    }
  }

  lemma BeginWithin(op: Op)
    ensures CallWithin(Start(op))
  {
  }

  /** In every interleaved run, a row whose summary or rule IDs the audit log or the ID check refuses
      is only ever pending or expired. */
  lemma UndecidableStays(p: Params, actions: seq<Action>, id: Id)
    requires id in Run(p, actions).world.table && !Decidable(Run(p, actions).world.table[id])
    ensures
      var state := Run(p, actions).world.table[id].state;
      state.Pending? || state.Expired?
  {
    EverythingWithin(p, actions);
  }

  /** In every interleaved run, a stored denial reason has at most 128 bytes. */
  lemma DenialReasonsFit(p: Params, actions: seq<Action>, id: Id)
    requires id in Run(p, actions).world.table && Run(p, actions).world.table[id].state.Denied?
    ensures Within(Run(p, actions).world.table[id].denialReason, MAX_REASON_CODE_LENGTH)
  {
    EverythingWithin(p, actions);
  }

  ghost predicate CanBeDecided(p: Params, actions: seq<Action>, id: Id)
  {
    exists more :: IsDecided(Run(p, actions + more).world, id)
  }

  /** A pending row of any run can be decided in some continuation if and only if its summary and rule
      IDs are within what decisions need. */
  lemma DecidableExactly(p: Params, cfg: Config, actions: seq<Action>, id: Id)
    requires id in Run(p, actions).world.table && Run(p, actions).world.table[id].state.Pending?
    ensures CanBeDecided(p, actions, id) <==> Decidable(Run(p, actions).world.table[id])
  {
    hide Run, Decidable;
    var s := Run(p, actions);
    if Decidable(s.world.table[id]) {
      var k := FreshCall(s.calls.Keys);
      var e := Env(s.world.table[id].expiresAt - 1, true, id, true, seq(32, _ => 0));
      var more := ApproveIt(p, cfg, actions, k, id, "", e);
      assert IsDecided(Run(p, actions + more).world, id);
    }
    forall more | IsDecided(Run(p, actions + more).world, id) ensures Decidable(s.world.table[id]) {
      Safety.RunsEvolve(p, actions, more);
      SameRequestDecides(s.world.table[id], Run(p, actions + more).world.table[id]);
      if !Decidable(Run(p, actions + more).world.table[id]) { UndecidableStays(p, actions + more, id); }
    }
  }

  lemma SameRequestDecides(r: Row, s: Row)
    requires SameRequest(r, s)
    ensures Decidable(r) <==> Decidable(s)
  {
  }
}
