/** What holds when broker calls run one at a time: limits, uniqueness, audit references, and the
    exact effect of the expiry sweep. */
module ApprovalSequential {
  import opened Text
  import opened Instants
  import opened AuditEvents
  import opened Identifiers
  import opened Approvals
  import opened ApprovalBroker
  import Safety = ApprovalSafety

  // ---- The invariant between calls ---------------------------------------------------

  ghost predicate OneActivePerDigest(t: Table)
  {
    forall i, j :: i in t && j in t && i != j && t[i].digest == t[j].digest ==>
      !(t[i].state.Pending? || t[i].state.Approved?) || !(t[j].state.Pending? || t[j].state.Approved?)
  }

  ghost predicate ShortLived(t: Table)
  {
    forall id :: id in t ==> t[id].expiresAt - t[id].createdAt <= MAX_APPROVAL_TTL_SECONDS * SECOND
  }

  /** The row's audit reference is the sequence of the event that announced `state` for it. */
  ghost predicate RefersTo(w: World, id: Id, state: State)
    requires id in w.table
  {
    var sequence := w.table[id].auditSequence;
    && sequence.Some? && 1 <= sequence.value <= |w.log|
    && w.log[sequence.value - 1] == Announcement(id, state)
  }

  /** A decided row refers to the event that announced its state. */
  ghost predicate Referenced(w: World, id: Id)
  {
    id in w.table && Safety.NeedsAnnouncement(w.table[id].state) ==> RefersTo(w, id, w.table[id].state)
  }

  ghost predicate Between(cfg: Config, w: World)
  {
    && OneActivePerDigest(w.table)
    && |PendingIds(w.table)| <= cfg.maxPending
    && ShortLived(w.table)
    && forall id :: Referenced(w, id)
  }

  /** What a call that is the only one running knows at each step. */
  ghost predicate Midway(p: Params, cfg: Config, w: World, pc: Pc)
    requires WellFormed(pc)
  {
    match pc
    case CountActive(_, createdAt, expiresAt) => expiresAt - createdAt <= MAX_APPROVAL_TTL_SECONDS * SECOND
    case CountPending(request, createdAt, expiresAt) =>
      && expiresAt - createdAt <= MAX_APPROVAL_TTL_SECONDS * SECOND
      && ActiveFor(w.table, p.digestOf(request)) == {}
    case Insert(request, createdAt, expiresAt) =>
      && expiresAt - createdAt <= MAX_APPROVAL_TTL_SECONDS * SECOND
      && ActiveFor(w.table, p.digestOf(request)) == {}
      && |PendingIds(w.table)| < cfg.maxPending
    case AppendRequested(id, _) => id in w.table && w.table[id].state.Pending?
    case UpdateSequence(id, _) => id in w.table && w.table[id].state.Pending?
    case Commit(op, _, _, _, sequence) =>
      1 <= sequence <= |w.log| && w.log[sequence - 1] == Announcement(op.id, Target(op))
    case _ => true
  }

  // ---- Each step keeps it --------------------------------------------------------------

  /** Same rows, and nothing becomes active or pending that was not. */
  ghost predicate Settles(t: Table, u: Table)
  {
    && t.Keys == u.Keys
    && (forall id :: id in t ==> SameRequest(t[id], u[id]))
    && (forall id :: id in t && Active(u[id]) ==> Active(t[id]))
    && (forall id :: id in t && u[id].state.Pending? ==> t[id].state.Pending?)
  }

  lemma SettlesKeeps(cfg: Config, w: World, v: World)
    requires Between(cfg, w) && Settles(w.table, v.table)
    requires forall id :: Referenced(v, id)
    ensures Between(cfg, v)
  {
    SubsetIsSmaller(PendingIds(v.table), PendingIds(w.table));
  }

  /** One row changes, without becoming active or pending, and is properly referenced afterwards. */
  lemma RowKeeps(cfg: Config, w: World, id: Id, row: Row, h: seq<Obs>)
    requires Between(cfg, w) && id in w.table && SameRequest(w.table[id], row)
    requires Active(row) ==> Active(w.table[id])
    requires row.state.Pending? ==> w.table[id].state.Pending?
    requires Referenced(w.(table := w.table[id := row]), id)
    ensures Between(cfg, w.(table := w.table[id := row], history := h))
  {
    var v := w.(table := w.table[id := row], history := h);
    forall x ensures Referenced(v, x) { assert Referenced(w, x); }
    SettlesKeeps(cfg, w, v);
  }

  lemma NewDigestIsUnique(p: Params, t: Table, id: Id, request: Request, createdAt: int, expiresAt: int)
    requires OneActivePerDigest(t) && id !in t && ActiveFor(t, p.digestOf(request)) == {}
    ensures OneActivePerDigest(t[id := NewRow(p, request, createdAt, expiresAt)])
  {
    forall i | i in t && Active(t[i]) ensures t[i].digest != p.digestOf(request) {
      assert i !in ActiveFor(t, p.digestOf(request));
    }
  }

  lemma InsertKeeps(p: Params, cfg: Config, w: World, id: Id, request: Request, createdAt: int, expiresAt: int)
    requires Between(cfg, w) && Midway(p, cfg, w, Insert(request, createdAt, expiresAt)) && id !in w.table
    ensures
      var t := w.table[id := NewRow(p, request, createdAt, expiresAt)];
      Between(cfg, w.(table := t, history := w.history + [Created(id, request)]))
  {
    NewDigestIsUnique(p, w.table, id, request, createdAt, expiresAt);
    hide OneActivePerDigest;
    var t := w.table[id := NewRow(p, request, createdAt, expiresAt)];
    var v := w.(table := t, history := w.history + [Created(id, request)]);
    OneMorePending(w.table, id, t[id]);
    hide PendingIds, ActiveFor;
    forall x ensures Referenced(v, x) { assert Referenced(w, x); }
  }

  lemma OneMorePending(t: Table, id: Id, row: Row)
    requires id !in t && row.state.Pending?
    ensures |PendingIds(t[id := row])| == |PendingIds(t)| + 1
  {
    assert PendingIds(t[id := row]) == PendingIds(t) + {id};
  }

  lemma CommitKeeps(p: Params, cfg: Config, w: World, e: Env, pc: Pc)
    requires pc.Commit? && WellFormed(pc) && Between(cfg, w) && Midway(p, cfg, w, pc)
    ensures Between(cfg, Next(p, cfg, pc, w, e).1)
  {
    var (t, err) := CommitTx(p, pc.op, pc.token, pc.decidedAt, pc.sequence, w.table, e.now);
    var id, h := pc.op.id, w.history + Recorded(pc.op, pc.row, pc.token, e.now);
    TxTouchesOneRow(p, pc.op, pc.token, pc.decidedAt, pc.sequence, w.table, e.now);
    if e.ok {
      if t == w.table {
        assert w.(table := t) == w;
      } else {
        hide Between;
        RowKeeps(cfg, w, id, t[id], if err.None? then h else w.history);
      }
    }
  }

  /** A decision's transaction changes at most the decided row: to the target, or to expired. */
  lemma TxTouchesOneRow(p: Params, op: Op, token: Token, decidedAt: int, sequence: nat, t: Table, now: int)
    requires Decides(op)
    ensures
      var (u, err) := CommitTx(p, op, token, decidedAt, sequence, t, now);
      if op.id !in t || t[op.id].state != Expected(op) then u == t && err.Some?
      else
        && u == t[op.id := u[op.id]] && u != t
        && SameRequest(t[op.id], u[op.id])
        && if err.None? then u[op.id].state == Target(op) && u[op.id].auditSequence == Some(sequence)
           else u[op.id].state.Expired?
  {
    if op.id in t && t[op.id].state == Expected(op) {
      var u := CommitTx(p, op, token, decidedAt, sequence, t, now).0;
      assert u[op.id].state != t[op.id].state;
    }
  }

  lemma ExpireSettles(t: Table, now: int, sequence: nat)
    ensures Settles(t, TxExpire(t, now, sequence))
  {
  }

  lemma ExpireKeeps(cfg: Config, w: World, now: int, sequence: nat)
    requires Between(cfg, w)
    ensures Between(cfg, w.(table := TxExpire(w.table, now, sequence)))
  {
    var v := w.(table := TxExpire(w.table, now, sequence));
    forall x ensures Referenced(v, x) { ExpireRefers(w, now, sequence, x); }
    hide TxExpire, Referenced, Settles, Between;
    ExpireSettles(w.table, now, sequence);
    SettlesKeeps(cfg, w, v);
  }

  lemma ExpireRefers(w: World, now: int, sequence: nat, id: Id)
    requires Referenced(w, id)
    ensures Referenced(w.(table := TxExpire(w.table, now, sequence)), id)
  {
  }

  lemma AppendKeeps(cfg: Config, w: World, event: Event)
    requires Between(cfg, w)
    ensures Between(cfg, AppendTo(w, event))
  {
    var v := AppendTo(w, event);
    forall x ensures Referenced(v, x) { assert Referenced(w, x); }
  }

  lemma UpdateKeeps(cfg: Config, w: World, id: Id, sequence: nat)
    requires Between(cfg, w) && id in w.table && w.table[id].state.Pending?
    ensures Between(cfg, w.(table := TxUpdateSequence(w.table, id, sequence)))
  {
    var row := w.table[id].(auditSequence := Some(sequence));
    RowKeeps(cfg, w, id, row, w.history);
    assert w.(table := w.table[id := row], history := w.history) == w.(table := w.table[id := row]);
  }

  lemma StepKeeps(p: Params, cfg: Config, pc: Pc, w: World, e: Env)
    requires WellFormed(pc) && Between(cfg, w) && Midway(p, cfg, w, pc)
    ensures var (pc', v) := Next(p, cfg, pc, w, e); Between(cfg, v) && Midway(p, cfg, v, pc')
  {
    hide Between;
    match pc
    case Insert(request, createdAt, expiresAt) =>
      if e.ok && e.id !in w.table { InsertKeeps(p, cfg, w, e.id, request, createdAt, expiresAt); }
    case AppendRequested(id, request) => AppendKeeps(cfg, w, Announcement(id, Pending));
    case UpdateSequence(id, sequence) => UpdateKeeps(cfg, w, id, sequence);
    case AppendDecision(op, row) => AppendKeeps(cfg, w, Announcement(op.id, Target(op)));
    case Commit(op, row, token, decidedAt, sequence) => CommitKeeps(p, cfg, w, e, pc);
    case AppendExpired(about, now, reply) => AppendKeeps(cfg, w, Event(ApprovalExpired, about, "expired"));
    case CommitExpired(now, sequence, reply) => ExpireKeeps(cfg, w, now, sequence);
    case _ =>
  }

  lemma {:induction false} FinishKeeps(p: Params, cfg: Config, pc: Pc, w: World, env: nat -> Env)
    requires WellFormed(pc) && Between(cfg, w) && Midway(p, cfg, w, pc)
    ensures Between(cfg, Finish(p, cfg, pc, w, env).1)
    decreases Rank(pc)
  {
    hide Between, Midway;
    if !pc.Done? {
      var e := env(Rank(pc));
      StepKeeps(p, cfg, pc, w, e);
      var (pc', v) := Next(p, cfg, pc, w, e);
      FinishKeeps(p, cfg, pc', v, env);
    }
  }

  /** A whole call keeps what holds between calls. */
  lemma CallKeeps(p: Params, cfg: Config, op: Op, w: World, env: nat -> Env)
    ensures Between(cfg, w) ==> Between(cfg, Call(p, cfg, op, w, env).1)
  {
    hide Between, Finish;
    if Between(cfg, w) { FinishKeeps(p, cfg, Start(op), w, env); }
  }

  // ---- Runs of whole calls ----------------------------------------------------------------

  /** A call with what its steps obtain, or an audit event of another component. */
  datatype Job = Job(op: Op, env: nat -> Env) | Other(event: Event)

  ghost function RunAll(p: Params, cfg: Config, jobs: seq<Job>): (w: World)
  {
    if jobs == [] then EMPTY.world
    else
      var w := RunAll(p, cfg, jobs[..|jobs| - 1]);
      match jobs[|jobs| - 1]
      case Job(op, env) => Call(p, cfg, op, w, env).1
      case Other(event) => AppendTo(w, event)
  }

  /** After every run of whole calls, failed ones included: at most one active approval per request
      digest, at most `maxPending` pending ones, no lifetime above a day, and every decided row
      refers to the audit event that announced it. */
  lemma {:induction false} SequentialRuns(p: Params, cfg: Config, jobs: seq<Job>)
    ensures Between(cfg, RunAll(p, cfg, jobs))
  {
    hide Finish;
    if jobs != [] {
      var w := RunAll(p, cfg, jobs[..|jobs| - 1]);
      SequentialRuns(p, cfg, jobs[..|jobs| - 1]);
      match jobs[|jobs| - 1]
      case Job(op, env) => CallKeeps(p, cfg, op, w, env);
      case Other(event) => AppendKeeps(cfg, w, event);
    } else {
      assert PendingIds(EMPTY.world.table) == {};
    }
  }

  lemma RunSnoc(p: Params, actions: seq<Action>, a: Action)
    ensures Run(p, actions + [a]) == Apply(p, Run(p, actions), a)
  {
    assert (actions + [a])[..|actions|] == actions;
  }

  lemma {:induction false} Drive(p: Params, cfg: Config, actions: seq<Action>, k: nat, env: nat -> Env)
    returns (more: seq<Action>)
    requires k in Run(p, actions).calls
    ensures
      var s, r := Run(p, actions), Run(p, more);
      && r.world == Finish(p, cfg, s.calls[k], s.world, env).1
      && r.calls.Keys == s.calls.Keys
    decreases Rank(Run(p, actions).calls[k])
  {
    hide Next, Run;
    var s := Run(p, actions);
    var pc := s.calls[k];
    if pc.Done? {
      more := actions;
    } else {
      var a := Advance(k, cfg, env(Rank(pc)));
      RunSnoc(p, actions, a);
      RankFalls(p, cfg, pc, s.world, env(Rank(pc)));
      FinishStep(p, cfg, pc, s.world, env);
      more := Drive(p, cfg, actions + [a], k, env);
    }
  }

  lemma RankFalls(p: Params, cfg: Config, pc: Pc, w: World, e: Env)
    requires WellFormed(pc) && !pc.Done?
    ensures Rank(Next(p, cfg, pc, w, e).0) < Rank(pc)
  {
  }

  /** Running calls one at a time is one of the interleavings, so whatever holds of every interleaved
      run holds of these runs too. */
  lemma {:induction false} SequentialIsInterleaved(p: Params, cfg: Config, jobs: seq<Job>)
    returns (actions: seq<Action>)
    ensures Run(p, actions).world == RunAll(p, cfg, jobs)
    ensures forall k :: k in Run(p, actions).calls ==> k < |jobs|
  {
    if jobs == [] {
      actions := [];
    } else {
      var n := |jobs| - 1;
      actions := SequentialIsInterleaved(p, cfg, jobs[..n]);
      hide Run, Finish, Next;
      var s := Run(p, actions);
      match jobs[n]
      case Job(op, env) =>
        RunSnoc(p, actions, Begin(n, op));
        actions := Drive(p, cfg, actions + [Begin(n, op)], n, env);
      case Other(event) =>
        RunSnoc(p, actions, Foreign(event));
        actions := actions + [Foreign(event)];
    }
  }

  // ---- The expiry sweep ---------------------------------------------------------------------

  ghost predicate Works(env: nat -> Env) { forall n :: env(n).ok && env(n).random }

  /** A sweep at `now` returns exactly the overdue IDs, expires exactly those rows, and logs one
      event if and only if there is one to expire. */
  lemma SweepIsExact(p: Params, cfg: Config, w: World, env: nat -> Env)
    requires Works(env)
    ensures
      var now := env(6).now;
      var (reply, v) := Call(p, cfg, Sweep, w, env);
      && reply.Swept? && v.table.Keys == w.table.Keys
      && (forall id :: id in reply.ids ==> id in w.table)
      && (forall id :: id in w.table ==>
           var row := w.table[id];
           if (row.state.Pending? || row.state.Approved?) && row.expiresAt < now
           then id in reply.ids && v.table[id] == row.(state := Expired, decisionAt := Some(now),
                                                       auditSequence := Some(|w.log| + 1))
           else id !in reply.ids && v.table[id] == row)
      && v.log == w.log + (if reply.ids == {} then [] else [Event(ApprovalExpired, None, "expired")])
  {
    var now := env(6).now;
    assert env(6).ok && env(2).ok && env(1).ok;
    FinishStep(p, cfg, Start(Sweep), w, env);
    if OverdueIds(w.table, now) == {} {
      forall id | id in w.table ensures !Overdue(w.table[id], now) {
        assert id !in OverdueIds(w.table, now);
      }
    } else {
      FinishExpiry(p, cfg, None, now, Swept({}), w, env);
    }
  }

  /** A second sweep at the same instant, or an earlier one, finds and logs nothing. */
  lemma SweepAgainIsIdle(p: Params, cfg: Config, w: World, env: nat -> Env, again: nat -> Env)
    requires Works(env) && Works(again) && again(6).now <= env(6).now
    ensures
      var v := Call(p, cfg, Sweep, w, env).1;
      Call(p, cfg, Sweep, v, again) == (Swept({}), v)
  {
    SweepIsExact(p, cfg, w, env);
    var v := Call(p, cfg, Sweep, w, env).1;
    hide Finish;
    assert OverdueIds(v.table, again(6).now) == {} by {
      forall id | id in v.table ensures !Overdue(v.table[id], again(6).now) { }
    }
    IdleSweep(p, cfg, v, again);
  }

  lemma IdleSweep(p: Params, cfg: Config, w: World, env: nat -> Env)
    requires env(6).ok && OverdueIds(w.table, env(6).now) == {}
    ensures Call(p, cfg, Sweep, w, env) == (Swept({}), w)
  {
  }

  /** A decision on a row whose time is up is refused and logged as an expiry; the row itself
      becomes expired exactly when its expiry lies strictly before the reading. At the very instant
      of expiry the row keeps its state. */
  lemma ExpiredDecision(p: Params, cfg: Config, op: Op, w: World, env: nat -> Env)
    requires Decides(op) && Works(env)
    requires op.id in w.table && w.table[op.id].state == Expected(op)
    requires env(6).now >= w.table[op.id].expiresAt
    ensures
      var (reply, v) := Call(p, cfg, op, w, env);
      && reply == Failed(InvalidTransition(Expired, Target(op)))
      && v.log == w.log + [Announcement(op.id, Expired)]
      && op.id in v.table
      && (v.table[op.id].state.Expired? <==> w.table[op.id].expiresAt < env(6).now)
      && (w.table[op.id].expiresAt == env(6).now ==> v.table[op.id] == w.table[op.id])
  {
    var now, refused := env(6).now, Failed(InvalidTransition(Expired, Target(op)));
    assert env(6).ok && env(2).ok && env(1).ok;
    FinishStep(p, cfg, Start(op), w, env);
    assert Next(p, cfg, Start(op), w, env(6)) == (AppendExpired(Some(op.id), now, refused), w);
    FinishExpiry(p, cfg, Some(op.id), now, refused, w, env);
  }
}
