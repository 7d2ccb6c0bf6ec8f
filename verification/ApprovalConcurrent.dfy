/** Limits, uniqueness, lifetimes and audit references when broker calls interleave: what still holds,
    and exactly when the rest does. */
module ApprovalConcurrent {
  import opened Text
  import opened Instants
  import opened AuditEvents
  import opened Identifiers
  import opened Approvals
  import opened ApprovalBroker
  import Safety = ApprovalSafety
  import opened ApprovalSequential

  // ---- What one step does to the table ---------------------------------------------------

  /** Only an insert adds a row or makes one active. */
  lemma OnlyInsertActivates(p: Params, cfg: Config, pc: Pc, w: World, e: Env)
    requires WellFormed(pc) && !pc.Insert?
    ensures Settles(w.table, Next(p, cfg, pc, w, e).1.table)
  {
    hide Settles;
    SettlesSelf(w.table);
    match pc
    case UpdateSequence(id, sequence) =>
      if id in w.table { RowSettles(w.table, id, w.table[id].(auditSequence := Some(sequence))); }
    case Commit(op, row, token, decidedAt, sequence) =>
      hide CommitTx;
      TxTouchesOneRow(p, op, token, decidedAt, sequence, w.table, e.now);
      var u := CommitTx(p, op, token, decidedAt, sequence, w.table, e.now).0;
      if u != w.table { RowSettles(w.table, op.id, u[op.id]); }
    case CommitExpired(now, sequence, reply) => ExpireSettles(w.table, now, sequence);
    case _ =>
  }

  lemma SettlesSelf(t: Table)
    ensures Settles(t, t)
  {
  }

  lemma RowSettles(t: Table, id: Id, row: Row)
    requires id in t && SameRequest(t[id], row)
    requires Active(row) ==> Active(t[id])
    requires row.state.Pending? ==> t[id].state.Pending?
    ensures Settles(t, t[id := row])
  {
  }

  lemma SettledActive(t: Table, u: Table, digest: Digest)
    requires Settles(t, u)
    ensures ActiveFor(u, digest) <= ActiveFor(t, digest)
  {
  }

  lemma SettledUnique(t: Table, u: Table)
    requires Settles(t, u) && OneActivePerDigest(t)
    ensures OneActivePerDigest(u)
  {
  }

  // ---- At most one active approval per request digest ------------------------------------

  /** The call has counted the active approvals for its digest and not inserted its own yet. */
  predicate Counted(pc: Pc) { pc.CountPending? || pc.Insert? }

  /** No two calls for one digest are between count and insert. */
  ghost predicate Apart(p: Params, s: System)
  {
    forall j, k :: j in s.calls && k in s.calls && j != k && Counted(s.calls[j]) && Counted(s.calls[k]) ==>
      p.digestOf(s.calls[j].request) != p.digestOf(s.calls[k].request)
  }

  ghost predicate AlwaysApart(p: Params, actions: seq<Action>)
  {
    forall n :: 0 <= n <= |actions| ==> Apart(p, Run(p, actions[..n]))
  }

  ghost predicate Unclaimed(p: Params, t: Table, pc: Pc)
  {
    Counted(pc) ==> ActiveFor(t, p.digestOf(pc.request)) == {}
  }

  ghost predicate UniqueInv(p: Params, s: System)
  {
    OneActivePerDigest(s.world.table) && forall k :: k in s.calls ==> Unclaimed(p, s.world.table, s.calls[k])
  }

  lemma StepUnique(p: Params, cfg: Config, pc: Pc, w: World, e: Env)
    requires WellFormed(pc) && OneActivePerDigest(w.table) && Unclaimed(p, w.table, pc)
    ensures OneActivePerDigest(Next(p, cfg, pc, w, e).1.table)
  {
    if pc.Insert? {
      hide OneActivePerDigest;
      if e.ok && e.id !in w.table {
        NewDigestIsUnique(p, w.table, e.id, pc.request, pc.createdAt, pc.expiresAt);
      }
    } else {
      hide Next, OneActivePerDigest, Settles;
      OnlyInsertActivates(p, cfg, pc, w, e);
      SettledUnique(w.table, Next(p, cfg, pc, w, e).1.table);
    }
  }

  /** A call gets past its count only if the digest is unclaimed. */
  lemma StepUnclaimed(p: Params, cfg: Config, pc: Pc, w: World, e: Env)
    requires WellFormed(pc) && Unclaimed(p, w.table, pc)
    ensures var (pc', v) := Next(p, cfg, pc, w, e); Unclaimed(p, v.table, pc')
  {
  }

  /** A step of one call leaves the digest of another unclaimed. */
  lemma OtherStaysUnclaimed(p: Params, cfg: Config, pc: Pc, w: World, e: Env, other: Pc)
    requires WellFormed(pc) && Unclaimed(p, w.table, other)
    requires pc.Insert? && Counted(other) ==> p.digestOf(pc.request) != p.digestOf(other.request)
    ensures Unclaimed(p, Next(p, cfg, pc, w, e).1.table, other)
  {
    if Counted(other) {
      var u, d := Next(p, cfg, pc, w, e).1.table, p.digestOf(other.request);
      if pc.Insert? {
        assert ActiveFor(u, d) <= ActiveFor(w.table, d);
      } else {
        OnlyInsertActivates(p, cfg, pc, w, e);
        SettledActive(w.table, u, d);
      }
    }
  }

  lemma ApplyUnique(p: Params, s: System, a: Action)
    requires CallsWellFormed(s) && UniqueInv(p, s) && Apart(p, s)
    ensures UniqueInv(p, Apply(p, s, a))
  {
    hide Next, OneActivePerDigest, Unclaimed, Counted;
    var r := Apply(p, s, a);
    if a.Advance? && a.call in s.calls {
      StepUnique(p, a.cfg, s.calls[a.call], s.world, a.env);
      StepUnclaimed(p, a.cfg, s.calls[a.call], s.world, a.env);
      forall k | k in r.calls ensures Unclaimed(p, r.world.table, r.calls[k]) {
        if k != a.call {
          assert s.calls[a.call].Insert? ==> Counted(s.calls[a.call]) by { CountedKinds(s.calls[a.call]); }
          OtherStaysUnclaimed(p, a.cfg, s.calls[a.call], s.world, a.env, s.calls[k]);
        }
      }
    } else if a.Begin? {
      StartUnclaimed(p, s.world.table, a.op);
    }
  }

  lemma CountedKinds(pc: Pc)
    ensures Counted(pc) <==> pc.CountPending? || pc.Insert?
  {
  }

  lemma StartUnclaimed(p: Params, t: Table, op: Op)
    ensures Unclaimed(p, t, Start(op))
  {
  }

  lemma {:induction false} UniqueInvHolds(p: Params, actions: seq<Action>, n: nat)
    requires AlwaysApart(p, actions) && n <= |actions|
    ensures UniqueInv(p, Run(p, actions[..n]))
  {
    if n > 0 {
      hide Apart, UniqueInv, Apply;
      UniqueInvHolds(p, actions, n - 1);
      assert actions[..n][..n - 1] == actions[..n - 1];
      assert Apart(p, Run(p, actions[..n - 1]));
      ApplyUnique(p, Run(p, actions[..n - 1]), actions[n - 1]);
    }
  }

  /** In every interleaved run in which no two calls for one digest are ever both between count and
      insert, at most one approval per digest is active. Calls for different digests are free. */
  lemma UniqueWhenApart(p: Params, actions: seq<Action>)
    requires AlwaysApart(p, actions)
    ensures OneActivePerDigest(Run(p, actions).world.table)
  {
    assert actions[..|actions|] == actions;
    UniqueInvHolds(p, actions, |actions|);
  }

  // ---- The condition is exact ------------------------------------------------------------

  /** A request that has not counted the active approvals for its digest yet. */
  predicate Early(pc: Pc) { pc.CountActive? || (pc.Start? && pc.op.RequestApproval?) }

  /** An action that lets no further request count: it advances calls past their count, or begins and
      advances calls that are not requests, always under the same configuration. */
  predicate Closes(s: System, cfg: Config, a: Action)
  {
    match a
    case Begin(k, op) => !op.RequestApproval?
    case Advance(k, c, e) => c == cfg && (k in s.calls ==> !Early(s.calls[k]))
    case Foreign(_) => true
  }

  ghost predicate Closing(s: System, cfg: Config, more: seq<Action>)
  {
    forall i :: 0 <= i < |more| ==> Closes(s, cfg, more[i])
  }

  /** Since `s`, no call has come to a count or past it. */
  ghost predicate NoneEntered(s: System, r: System)
  {
    forall k :: k in r.calls ==>
      && (Early(r.calls[k]) ==> k in s.calls && Early(s.calls[k]))
      && (Counted(r.calls[k]) ==>
            k in s.calls && Counted(s.calls[k]) && r.calls[k].request == s.calls[k].request)
  }

  lemma StepEntersNone(p: Params, cfg: Config, pc: Pc, w: World, e: Env)
    requires WellFormed(pc) && !Early(pc)
    ensures
      var pc' := Next(p, cfg, pc, w, e).0;
      !Early(pc') && (Counted(pc') ==> Counted(pc) && pc'.request == pc.request)
  {
  }

  lemma ClosesEntersNone(p: Params, cfg: Config, s: System, r: System, a: Action)
    requires CallsWellFormed(r) && NoneEntered(s, r) && Closes(s, cfg, a)
    ensures NoneEntered(s, Apply(p, r, a))
  {
    hide Next, Early, Counted;
    if a.Advance? && a.call in r.calls {
      StepEntersNone(p, a.cfg, r.calls[a.call], r.world, a.env);
    } else if a.Begin? {
      assert !Early(Start(a.op)) && !Counted(Start(a.op)) by { StartKinds(a.op); }
    }
  }

  lemma StartKinds(op: Op)
    ensures !Counted(Start(op)) && (Early(Start(op)) <==> op.RequestApproval?)
  {
  }

  lemma {:induction false} ClosingEntersNone(p: Params, cfg: Config, actions: seq<Action>, more: seq<Action>, n: nat)
    requires Closing(Run(p, actions), cfg, more) && n <= |more|
    ensures NoneEntered(Run(p, actions), Run(p, actions + more[..n]))
  {
    if n == 0 {
      assert actions + more[..0] == actions;
    } else {
      hide Run, Apply, NoneEntered, Closes;
      ClosingEntersNone(p, cfg, actions, more, n - 1);
      assert actions + more[..n] == (actions + more[..n - 1]) + [more[n - 1]];
      RunSnoc(p, actions + more[..n - 1], more[n - 1]);
      ClosesEntersNone(p, cfg, Run(p, actions), Run(p, actions + more[..n - 1]), more[n - 1]);
    }
  }

  lemma NoneEnteredApart(p: Params, s: System, r: System)
    requires Apart(p, s) && NoneEntered(s, r)
    ensures Apart(p, r)
  {
    hide Early;
    forall j, k | j in r.calls && k in r.calls && j != k && Counted(r.calls[j]) && Counted(r.calls[k])
      ensures p.digestOf(r.calls[j].request) != p.digestOf(r.calls[k].request)
    {
    }
  }

  /** Letting calls go on without a further count keeps them apart. */
  lemma ClosingKeepsApart(p: Params, cfg: Config, actions: seq<Action>, more: seq<Action>)
    requires AlwaysApart(p, actions) && Closing(Run(p, actions), cfg, more)
    ensures AlwaysApart(p, actions + more)
  {
    hide Run, Apart, NoneEntered, Closing;
    var all := actions + more;
    forall n | 0 <= n <= |all| ensures Apart(p, Run(p, all[..n])) {
      if n <= |actions| {
        assert all[..n] == actions[..n];
      } else {
        assert actions[..|actions|] == actions && all[..n] == actions + more[..n - |actions|];
        ClosingEntersNone(p, cfg, actions, more, n - |actions|);
        NoneEnteredApart(p, Run(p, actions), Run(p, all[..n]));
      }
    }
  }

  // A sweep at a late reading makes room, whatever the limit is.

  lemma {:induction false} LateInstant(t: Table, ids: set<Id>) returns (now: int)
    requires ids <= t.Keys
    ensures forall id :: id in ids ==> t[id].expiresAt < now
  {
    if ids == {} {
      now := 0;
    } else {
      var id :| id in ids;
      now := LateInstant(t, ids - {id});
      if now <= t[id].expiresAt { now := t[id].expiresAt + 1; }
    }
  }

  lemma {:induction false} FreshCall(calls: set<nat>) returns (k: nat)
    ensures forall c :: c in calls ==> c < k
  {
    if calls == {} {
      k := 0;
    } else {
      var c :| c in calls;
      k := FreshCall(calls - {c});
      assert forall x :: x in calls ==> x == c || x in calls - {c};
      if k <= c { k := c + 1; }
    }
  }

  lemma {:induction false} Longest(ids: set<Id>) returns (n: nat)
    ensures forall id :: id in ids ==> |id| <= n
  {
    if ids == {} {
      n := 0;
    } else {
      var id :| id in ids;
      n := Longest(ids - {id});
      if n < |id| { n := |id|; }
    }
  }

  lemma TwoFreshIds(ids: set<Id>) returns (x: Id, y: Id)
    ensures x !in ids && y !in ids && x != y
  {
    var n := Longest(ids);
    x, y := seq(n + 1, _ => 'a'), seq(n + 2, _ => 'a');
    assert |x| == n + 1 && |y| == n + 2;
  }

  lemma SweepThree(p: Params, cfg: Config, w: World, e: Env)
    requires e.ok && forall id :: id in w.table ==> w.table[id].expiresAt < e.now
    ensures
      var (pc1, w1) := Next(p, cfg, Start(Sweep), w, e);
      var (pc2, w2) := Next(p, cfg, pc1, w1, e);
      var w3 := Next(p, cfg, pc2, w2, e).1;
      w3.table.Keys == w.table.Keys && PendingIds(w3.table) == {}
  {
    if OverdueIds(w.table, e.now) == {} {
      forall id | id in w.table ensures !w.table[id].state.Pending? {
        assert id !in OverdueIds(w.table, e.now);
      }
    }
  }

  /** A sweep late enough leaves no pending row. */
  lemma SweepsAll(p: Params, cfg: Config, actions: seq<Action>, x: nat, e: Env)
    requires x !in Run(p, actions).calls && e.ok
    requires forall id :: id in Run(p, actions).world.table ==> Run(p, actions).world.table[id].expiresAt < e.now
    ensures
      var s, a := Run(p, actions), Advance(x, cfg, e);
      var r := Run(p, actions + [Begin(x, Sweep)] + [a] + [a] + [a]);
      && r.world.table.Keys == s.world.table.Keys && PendingIds(r.world.table) == {}
      && forall k :: k in s.calls ==> k in r.calls && r.calls[k] == s.calls[k]
  {
    hide Next, Run, PendingIds;
    var a, begun := Advance(x, cfg, e), actions + [Begin(x, Sweep)];
    BeginCall(p, actions, x, Sweep);
    AdvanceTo(p, begun, x, cfg, e);
    AdvanceTo(p, begun + [a], x, cfg, e);
    AdvanceTo(p, begun + [a] + [a], x, cfg, e);
    SweepThree(p, cfg, Run(p, actions).world, e);
  }

  /** A call past its count of active rows comes to its insert when no row is pending. */
  lemma ToInsert(p: Params, cfg: Config, actions: seq<Action>, k: nat, e: Env) returns (step: seq<Action>)
    requires k in Run(p, actions).calls && Counted(Run(p, actions).calls[k])
    requires PendingIds(Run(p, actions).world.table) == {} && cfg.maxPending >= 1 && e.ok
    ensures
      var s, r := Run(p, actions), Run(p, actions + step);
      var pc := s.calls[k];
      && (step == [] || step == [Advance(k, cfg, e)])
      && r.world == s.world
      && r.calls == s.calls[k := Insert(pc.request, pc.createdAt, pc.expiresAt)]
  {
    hide Run, PendingIds;
    if Run(p, actions).calls[k].Insert? {
      step := [];
      assert actions + step == actions;
    } else {
      step := [Advance(k, cfg, e)];
      AdvanceTo(p, actions, k, cfg, e);
    }
  }

  lemma TwoInserts(p: Params, cfg: Config, actions: seq<Action>, j: nat, k: nat, e: Env, f: Env)
    requires j != k && j in Run(p, actions).calls && k in Run(p, actions).calls
    requires Run(p, actions).calls[j].Insert? && Run(p, actions).calls[k].Insert?
    requires p.digestOf(Run(p, actions).calls[j].request) == p.digestOf(Run(p, actions).calls[k].request)
    requires e.ok && f.ok && e.id != f.id
    requires e.id !in Run(p, actions).world.table && f.id !in Run(p, actions).world.table
    ensures !OneActivePerDigest(Run(p, actions + [Advance(j, cfg, e)] + [Advance(k, cfg, f)]).world.table)
  {
    hide Run, Apply, PendingIds;
    var mid := actions + [Advance(j, cfg, e)];
    OneInsert(p, cfg, actions, j, e);
    OneInsert(p, cfg, mid, k, f);
    var t := Run(p, mid + [Advance(k, cfg, f)]).world.table;
    assert e.id in t && f.id in t && Active(t[e.id]) && Active(t[f.id]) && t[e.id].digest == t[f.id].digest;
  }

  /** What a continuation of two calls for one digest needs: fresh IDs, and a call number and a
      reading for the sweep. */
  ghost predicate RaceReady(s: System, j: nat, k: nat, x: nat, e: Env, f: Env, late: Env)
  {
    && j in s.calls && k in s.calls && j != k && Counted(s.calls[j]) && Counted(s.calls[k]) && x !in s.calls
    && e.ok && f.ok && late.ok && e.id != f.id && e.id !in s.world.table && f.id !in s.world.table
    && forall id :: id in s.world.table ==> s.world.table[id].expiresAt < late.now
  }

  lemma Race(p: Params, cfg: Config, actions: seq<Action>, j: nat, k: nat, x: nat, e: Env, f: Env, late: Env)
    returns (more: seq<Action>)
    requires RaceReady(Run(p, actions), j, k, x, e, f, late) && cfg.maxPending >= 1
    requires p.digestOf(Run(p, actions).calls[j].request) == p.digestOf(Run(p, actions).calls[k].request)
    ensures Closing(Run(p, actions), cfg, more)
    ensures !OneActivePerDigest(Run(p, actions + more).world.table)
  {
    hide Run, OneActivePerDigest, PendingIds;
    var a := Advance(x, cfg, late);
    var swept := actions + [Begin(x, Sweep)] + [a] + [a] + [a];
    SweepsAll(p, cfg, actions, x, late);
    var first := ToInsert(p, cfg, swept, j, e);
    var second := ToInsert(p, cfg, swept + first, k, f);
    TwoInserts(p, cfg, swept + first + second, j, k, e, f);
    more := [Begin(x, Sweep), a, a, a] + first + second + [Advance(j, cfg, e), Advance(k, cfg, f)];
    assert actions + more == swept + first + second + [Advance(j, cfg, e)] + [Advance(k, cfg, f)];
  }

  /** From every run in which two calls for one digest are between count and insert, and for every
      broker limit, some continuation without a further count breaks uniqueness. */
  lemma SharedBreaks(p: Params, cfg: Config, actions: seq<Action>) returns (more: seq<Action>)
    requires !Apart(p, Run(p, actions)) && cfg.maxPending >= 1
    ensures Closing(Run(p, actions), cfg, more)
    ensures !OneActivePerDigest(Run(p, actions + more).world.table)
  {
    hide Run, Closing, OneActivePerDigest;
    var s := Run(p, actions);
    var j, k :| j in s.calls && k in s.calls && j != k && Counted(s.calls[j]) && Counted(s.calls[k])
      && p.digestOf(s.calls[j].request) == p.digestOf(s.calls[k].request);
    var y, z := TwoFreshIds(s.world.table.Keys);
    var x := FreshCall(s.calls.Keys);
    var now := LateInstant(s.world.table, s.world.table.Keys);
    var token := seq(32, _ => 0);
    var e, f, late := Env(0, true, y, true, token), Env(0, true, z, true, token), Env(now, true, y, true, token);
    more := Race(p, cfg, actions, j, k, x, e, f, late);
  }

  /** At no point of the run could the calls under way, without a further count, break uniqueness. */
  ghost predicate NothingBreaks(p: Params, cfg: Config, actions: seq<Action>)
  {
    forall n, more :: 0 <= n <= |actions| && Closing(Run(p, actions[..n]), cfg, more) ==>
      OneActivePerDigest(Run(p, actions[..n] + more).world.table)
  }

  /** Keeping calls for one digest apart is exactly what uniqueness needs, whatever the pending limit:
      a run does so if and only if at none of its points the calls under way could break it. */
  lemma ApartExactly(p: Params, cfg: Config, actions: seq<Action>)
    requires cfg.maxPending >= 1
    ensures AlwaysApart(p, actions) <==> NothingBreaks(p, cfg, actions)
  {
    hide Run, Apart, Closing, OneActivePerDigest;
    if AlwaysApart(p, actions) {
      forall n, more | 0 <= n <= |actions| && Closing(Run(p, actions[..n]), cfg, more)
        ensures OneActivePerDigest(Run(p, actions[..n] + more).world.table)
      {
        PrefixApart(p, actions, n);
        ClosingKeepsApart(p, cfg, actions[..n], more);
        UniqueWhenApart(p, actions[..n] + more);
      }
    }
    if NothingBreaks(p, cfg, actions) {
      forall n | 0 <= n <= |actions| ensures Apart(p, Run(p, actions[..n])) {
        if !Apart(p, Run(p, actions[..n])) {
          var more := SharedBreaks(p, cfg, actions[..n]);
          assert false;
        }
      }
    }
  }

  lemma PrefixApart(p: Params, actions: seq<Action>, n: nat)
    requires AlwaysApart(p, actions) && n <= |actions|
    ensures AlwaysApart(p, actions[..n])
  {
    hide Run, Apart;
    forall m | 0 <= m <= n ensures Apart(p, Run(p, actions[..n][..m])) {
      assert actions[..n][..m] == actions[..m];
    }
  }

  /** The insert step keeps digests unique exactly when no active approval for the digest exists at
      that very step; the count it relies on was taken two steps earlier. */
  lemma InsertUniqueness(p: Params, w: World, id: Id, request: Request, createdAt: int, expiresAt: int)
    requires OneActivePerDigest(w.table) && id !in w.table
    ensures OneActivePerDigest(w.table[id := NewRow(p, request, createdAt, expiresAt)])
            <==> ActiveFor(w.table, p.digestOf(request)) == {}
  {
    var t := w.table[id := NewRow(p, request, createdAt, expiresAt)];
    if ActiveFor(w.table, p.digestOf(request)) == {} {
      NewDigestIsUnique(p, w.table, id, request, createdAt, expiresAt);
    } else {
      var x :| x in ActiveFor(w.table, p.digestOf(request));
      assert x in t && id in t && Active(t[x]) && Active(t[id]) && t[x].digest == t[id].digest;
    }
  }

  /** A call that has passed its count of active rows on an empty table. */
  lemma ReachCount(p: Params, cfg: Config, actions: seq<Action>, k: nat, request: Request, e: Env)
    requires |request.summary| <= MAX_APPROVAL_SUMMARY_LENGTH && e.ok
    requires k !in Run(p, actions).calls && Run(p, actions).world.table == map[]
    ensures
      var s, b, a := Run(p, actions), Begin(k, RequestApproval(request, None)), Advance(k, cfg, e);
      var expiresAt := e.now + Lifetime(cfg, None) * SECOND;
      && Run(p, actions + [b]) == s.(calls := s.calls[k := Start(b.op)])
      && Run(p, actions + [b] + [a]) == s.(calls := s.calls[k := CountActive(request, e.now, expiresAt)])
      && Run(p, actions + [b] + [a] + [a]) == s.(calls := s.calls[k := CountPending(request, e.now, expiresAt)])
  {
    var s, op, a := Run(p, actions), RequestApproval(request, None), Advance(k, cfg, e);
    var counting := CountActive(request, e.now, e.now + Lifetime(cfg, None) * SECOND);
    hide Next, Run, Lifetime;
    BeginCall(p, actions, k, op);
    hide Apply;
    RequestCounts(p, cfg, request, s.world, e);
    AdvanceTo(p, actions + [Begin(k, op)], k, cfg, e);
    assert s.calls[k := Start(op)][k := counting] == s.calls[k := counting];
    AdvanceTo(p, actions + [Begin(k, op)] + [a], k, cfg, e);
    var counted := CountPending(request, e.now, counting.expiresAt);
    assert s.calls[k := counting][k := counted] == s.calls[k := counted];
  }

  lemma BeginCall(p: Params, actions: seq<Action>, k: nat, op: Op)
    requires k !in Run(p, actions).calls
    ensures
      var s := Run(p, actions);
      Run(p, actions + [Begin(k, op)]) == s.(calls := s.calls[k := Start(op)])
  {
    hide Run, Next;
    RunSnoc(p, actions, Begin(k, op));
  }

  lemma AdvanceTo(p: Params, actions: seq<Action>, k: nat, cfg: Config, e: Env)
    requires k in Run(p, actions).calls
    ensures
      var s := Run(p, actions);
      var (pc, w) := Next(p, cfg, s.calls[k], s.world, e);
      Run(p, actions + [Advance(k, cfg, e)]) == System(w, s.calls[k := pc])
  {
    hide Next, Run;
    RunSnoc(p, actions, Advance(k, cfg, e));
  }

  lemma RequestCounts(p: Params, cfg: Config, request: Request, w: World, e: Env)
    requires |request.summary| <= MAX_APPROVAL_SUMMARY_LENGTH && e.ok && w.table == map[]
    ensures
      var expiresAt := e.now + Lifetime(cfg, None) * SECOND;
      var counting := CountActive(request, e.now, expiresAt);
      && Next(p, cfg, Start(RequestApproval(request, None)), w, e) == (counting, w)
      && Next(p, cfg, counting, w, e) == (CountPending(request, e.now, expiresAt), w)
      && (cfg.maxPending > 0 ==>
            Next(p, cfg, CountPending(request, e.now, expiresAt), w, e) == (Insert(request, e.now, expiresAt), w))
  {
    hide Lifetime;
    assert ActiveFor(w.table, p.digestOf(request)) == {} && PendingIds(w.table) == {};
  }

  /** A call that has passed both counts on an empty table. */
  lemma ReachInsert(p: Params, cfg: Config, actions: seq<Action>, k: nat, request: Request, e: Env)
    returns (more: seq<Action>)
    requires |request.summary| <= MAX_APPROVAL_SUMMARY_LENGTH && cfg.maxPending > 0 && e.ok
    requires k !in Run(p, actions).calls && Run(p, actions).world.table == map[]
    ensures
      var s, r := Run(p, actions), Run(p, more);
      && r.world == s.world
      && r.calls == s.calls[k := Insert(request, e.now, e.now + Lifetime(cfg, None) * SECOND)]
  {
    ReachCount(p, cfg, actions, k, request, e);
    RequestCounts(p, cfg, request, Run(p, actions).world, e);
    hide Run, Next;
    var a := Advance(k, cfg, e);
    more := actions + [Begin(k, RequestApproval(request, None))] + [a] + [a];
    AdvanceTo(p, more, k, cfg, e);
    more := more + [a];
  }

  lemma OneInsert(p: Params, cfg: Config, actions: seq<Action>, k: nat, e: Env)
    requires k in Run(p, actions).calls && Run(p, actions).calls[k].Insert?
    requires e.ok && e.id !in Run(p, actions).world.table
    ensures
      var s, r := Run(p, actions), Run(p, actions + [Advance(k, cfg, e)]);
      var pc := s.calls[k];
      && |PendingIds(r.world.table)| == |PendingIds(s.world.table)| + 1
      && r.world.table == s.world.table[e.id := NewRow(p, pc.request, pc.createdAt, pc.expiresAt)]
      && r.calls == s.calls[k := r.calls[k]] && !r.calls[k].Insert?
  {
    RunSnoc(p, actions, Advance(k, cfg, e));
    hide Run, PendingIds;
    var s, pc := Run(p, actions), Run(p, actions).calls[k];
    OneMorePending(s.world.table, e.id, NewRow(p, pc.request, pc.createdAt, pc.expiresAt));
  }

  /** From an empty table: two interleaved calls for one request both insert, whatever the limit is. */
  lemma ConcurrentRequestsCollide(p: Params, cfg: Config, request: Request, e: Env, f: Env)
    returns (actions: seq<Action>)
    requires |request.summary| <= MAX_APPROVAL_SUMMARY_LENGTH && cfg.maxPending > 0
    requires e.ok && f.ok && e.id != f.id
    ensures !OneActivePerDigest(Run(p, actions).world.table)
    ensures |PendingIds(Run(p, actions).world.table)| == 2
  {
    actions := ReachInsert(p, cfg, [], 0, request, e);
    actions := ReachInsert(p, cfg, actions, 1, request, f);
    hide Run, Apply, PendingIds;
    OneInsert(p, cfg, actions, 0, e);
    actions := actions + [Advance(0, cfg, e)];
    OneInsert(p, cfg, actions, 1, f);
    actions := actions + [Advance(1, cfg, f)];
    var t := Run(p, actions).world.table;
    assert e.id in t && f.id in t && Active(t[e.id]) && Active(t[f.id]) && t[e.id].digest == t[f.id].digest;
  }

  // ---- Lifetimes ------------------------------------------------------------------------

  predicate ShortLifetime(createdAt: int, expiresAt: int)
  {
    expiresAt - createdAt <= MAX_APPROVAL_TTL_SECONDS * SECOND
  }

  predicate CallIsShort(pc: Pc)
  {
    pc.CountActive? || pc.CountPending? || pc.Insert? ==> ShortLifetime(pc.createdAt, pc.expiresAt)
  }

  lemma StepIsShort(p: Params, cfg: Config, pc: Pc, w: World, e: Env)
    requires WellFormed(pc) && ShortLived(w.table) && CallIsShort(pc)
    ensures var (pc', v) := Next(p, cfg, pc, w, e); ShortLived(v.table) && CallIsShort(pc')
  {
    if !pc.Insert? { OnlyInsertActivates(p, cfg, pc, w, e); }
  }

  /** In every interleaved run, failures included, no approval lives longer than a day. */
  lemma {:induction false} EveryLifetimeIsShort(p: Params, actions: seq<Action>)
    ensures ShortLived(Run(p, actions).world.table)
    ensures forall k :: k in Run(p, actions).calls ==> CallIsShort(Run(p, actions).calls[k])
  {
    if actions != [] {
      hide Next, ShortLived;
      var s, a := Run(p, actions[..|actions| - 1]), actions[|actions| - 1];
      EveryLifetimeIsShort(p, actions[..|actions| - 1]);
      if a.Advance? && a.call in s.calls { StepIsShort(p, a.cfg, s.calls[a.call], s.world, a.env); }
    }
  }

  // ---- The pending limit ----------------------------------------------------------------

  /** The calls that have counted the pending approvals and not inserted their own yet. */
  ghost function Inserting(s: System): (calls: set<nat>)
  {
    set k | k in s.calls && s.calls[k].Insert?
  }

  ghost predicate AtMostInserting(p: Params, actions: seq<Action>, c: nat)
  {
    forall n :: 0 <= n <= |actions| ==> |Inserting(Run(p, actions[..n]))| <= c
  }

  predicate LimitedTo(a: Action, limit: nat) { a.Advance? ==> a.cfg.maxPending <= limit }

  lemma InsertingAfter(p: Params, s: System, a: Action)
    requires CallsWellFormed(s) && a.Advance? && a.call in s.calls
    ensures
      var r := Apply(p, s, a);
      && Inserting(r) - {a.call} == Inserting(s) - {a.call}
      && |Inserting(s) - {a.call}| == |Inserting(s)| - (if s.calls[a.call].Insert? then 1 else 0)
      && |Inserting(r) - {a.call}| == |Inserting(r)| - (if r.calls[a.call].Insert? then 1 else 0)
  {
    hide Next;
    var r := Apply(p, s, a);
    assert !r.calls[a.call].Insert? ==> Inserting(r) - {a.call} == Inserting(r);
    assert !s.calls[a.call].Insert? ==> Inserting(s) - {a.call} == Inserting(s);
  }

  /** A step adds a pending row only by inserting, and reaches its insert only below the limit. */
  lemma StepPending(p: Params, cfg: Config, pc: Pc, w: World, e: Env)
    requires WellFormed(pc)
    ensures
      var (pc', v) := Next(p, cfg, pc, w, e);
      && (pc'.Insert? ==> pc.CountPending? && v == w && |PendingIds(w.table)| < cfg.maxPending)
      && |PendingIds(v.table)| <= |PendingIds(w.table)| + (if pc.Insert? then 1 else 0)
  {
    if pc.Insert? {
      if e.ok && e.id !in w.table {
        OneMorePending(w.table, e.id, NewRow(p, pc.request, pc.createdAt, pc.expiresAt));
      }
    } else {
      OnlyInsertActivates(p, cfg, pc, w, e);
      SubsetIsSmaller(PendingIds(Next(p, cfg, pc, w, e).1.table), PendingIds(w.table));
    }
  }

  lemma ApplyPending(p: Params, s: System, a: Action, limit: nat, c: nat)
    requires CallsWellFormed(s) && LimitedTo(a, limit) && |Inserting(Apply(p, s, a))| <= c
    requires |PendingIds(s.world.table)| + |Inserting(s)| < limit + c
    ensures |PendingIds(Apply(p, s, a).world.table)| + |Inserting(Apply(p, s, a))| < limit + c
  {
    hide Next, PendingIds;
    var r := Apply(p, s, a);
    if a.Advance? && a.call in s.calls {
      StepPending(p, a.cfg, s.calls[a.call], s.world, a.env);
      InsertingAfter(p, s, a);
    } else {
      assert Inserting(r) == Inserting(s);
    }
  }

  lemma {:induction false} PendingInvHolds(p: Params, actions: seq<Action>, limit: nat, c: nat, n: nat)
    requires c >= 1 && AtMostInserting(p, actions, c) && n <= |actions|
    requires forall i :: 0 <= i < |actions| ==> LimitedTo(actions[i], limit)
    ensures
      var s := Run(p, actions[..n]);
      |PendingIds(s.world.table)| + |Inserting(s)| < limit + c
  {
    if n > 0 {
      hide Apply, PendingIds, Inserting;
      PendingInvHolds(p, actions, limit, c, n - 1);
      assert actions[..n][..n - 1] == actions[..n - 1];
      ApplyPending(p, Run(p, actions[..n - 1]), actions[n - 1], limit, c);
    } else {
      assert PendingIds(EMPTY.world.table) == {} && Inserting(EMPTY) == {};
    }
  }

  /** In every interleaved run with at most `c` calls at once between their pending count and their
      insert, the limit is exceeded by at most `c - 1`; with one such call at a time it is kept. */
  lemma PendingBound(p: Params, actions: seq<Action>, limit: nat, c: nat)
    requires c >= 1 && AtMostInserting(p, actions, c)
    requires forall i :: 0 <= i < |actions| ==> LimitedTo(actions[i], limit)
    ensures |PendingIds(Run(p, actions).world.table)| <= limit + c - 1
  {
    assert actions[..|actions|] == actions;
    PendingInvHolds(p, actions, limit, c, |actions|);
  }

  /** Every step works and obtains an ID of its own. */
  predicate FreshIds(envs: seq<Env>)
  {
    && (forall i :: 0 <= i < |envs| ==> envs[i].ok)
    && (forall i, j :: 0 <= i < j < |envs| ==> envs[i].id != envs[j].id)
  }

  function FirstIds(envs: seq<Env>, n: nat): (ids: set<Id>)
    requires n <= |envs|
  {
    if n == 0 then {} else FirstIds(envs, n - 1) + {envs[n - 1].id}
  }

  lemma {:induction false} LaterIdIsNew(envs: seq<Env>, n: nat, m: nat)
    requires FreshIds(envs) && n <= m < |envs|
    ensures envs[m].id !in FirstIds(envs, n)
  {
    if n > 0 { LaterIdIsNew(envs, n - 1, m); }
  }

  // ---- The bound is reached --------------------------------------------------------------

  lemma InsertingSnoc(p: Params, actions: seq<Action>, a: Action, c: nat)
    requires AtMostInserting(p, actions, c) && |Inserting(Run(p, actions + [a]))| <= c
    ensures AtMostInserting(p, actions + [a], c)
  {
    hide Run, Inserting;
    var all := actions + [a];
    forall n | 0 <= n <= |all| ensures |Inserting(Run(p, all[..n]))| <= c {
      if n <= |actions| { assert all[..n] == actions[..n]; } else { assert all[..n] == all; }
    }
  }

  lemma {:induction false} IntervalSize(s: set<nat>, i: nat, j: nat)
    requires i <= j && forall k :: k in s ==> i <= k < j
    ensures |s| <= j - i
  {
    if i == j {
      assert s == {};
    } else {
      IntervalSize(s - {j - 1}, i, j - 1);
      assert s <= s - {j - 1} + {j - 1};
      SubsetIsSmaller(s, s - {j - 1} + {j - 1});
    }
  }

  /** Of the calls below `n`, those below `i` have inserted, those from `i` below `j` are about to, and
      the others still have to count the pending rows. */
  ghost predicate Queue(s: System, envs: seq<Env>, i: nat, j: nat, n: nat)
  {
    && i <= j <= n <= |envs|
    && |PendingIds(s.world.table)| == i && s.world.table.Keys == FirstIds(envs, i)
    && (forall k :: k in s.calls <==> 0 <= k < n)
    && (forall k :: 0 <= k < i ==> !s.calls[k].Insert?)
    && (forall k :: i <= k < j ==> s.calls[k].Insert?)
    && (forall k :: j <= k < n ==> s.calls[k].CountPending?)
  }

  /** A run up to such a point, within the limit and with at most `c` calls inserting at once. */
  ghost predicate Queued(p: Params, cfg: Config, envs: seq<Env>, c: nat, actions: seq<Action>, i: nat, j: nat, n: nat)
  {
    && Queue(Run(p, actions), envs, i, j, n)
    && AtMostInserting(p, actions, c)
    && forall x :: 0 <= x < |actions| ==> LimitedTo(actions[x], cfg.maxPending)
  }

  lemma QueueInserting(s: System, envs: seq<Env>, i: nat, j: nat, n: nat)
    requires Queue(s, envs, i, j, n)
    ensures |Inserting(s)| <= j - i
  {
    hide FirstIds, PendingIds;
    IntervalSize(Inserting(s), i, j);
  }

  lemma QueuedSnoc(p: Params, cfg: Config, envs: seq<Env>, c: nat, actions: seq<Action>, i: nat, j: nat, n: nat,
                   a: Action, i': nat, j': nat, n': nat)
    requires Queued(p, cfg, envs, c, actions, i, j, n) && LimitedTo(a, cfg.maxPending)
    requires Queue(Run(p, actions + [a]), envs, i', j', n') && j' - i' <= c
    ensures Queued(p, cfg, envs, c, actions + [a], i', j', n')
  {
    hide Run, Inserting, Queue, AtMostInserting;
    QueueInserting(Run(p, actions + [a]), envs, i', j', n');
    InsertingSnoc(p, actions, a, c);
  }

  lemma QueueArrives(p: Params, cfg: Config, envs: seq<Env>, s: System, i: nat, j: nat, n: nat)
    requires CallsWellFormed(s) && FreshIds(envs) && Queue(s, envs, i, j, n) && j < n && i < cfg.maxPending
    ensures Queue(Apply(p, s, Advance(j, cfg, envs[j])), envs, i, j + 1, n)
  {
    hide PendingIds, FirstIds;
    var r := Apply(p, s, Advance(j, cfg, envs[j]));
    assert r.world == s.world && r.calls == s.calls[j := r.calls[j]] && r.calls[j].Insert?;
    hide Apply;
  }

  /** The next call counts the pending rows, below the limit. */
  lemma Arrive(p: Params, cfg: Config, envs: seq<Env>, c: nat, actions: seq<Action>, i: nat, j: nat, n: nat)
    returns (more: seq<Action>)
    requires FreshIds(envs) && Queued(p, cfg, envs, c, actions, i, j, n)
    requires j < n && i < cfg.maxPending && j + 1 - i <= c
    ensures Queued(p, cfg, envs, c, more, i, j + 1, n)
  {
    var a := Advance(j, cfg, envs[j]);
    RunSnoc(p, actions, a);
    hide Run, Apply, Queue, AtMostInserting, FreshIds;
    QueueArrives(p, cfg, envs, Run(p, actions), i, j, n);
    QueuedSnoc(p, cfg, envs, c, actions, i, j, n, a, i, j + 1, n);
    more := actions + [a];
  }

  lemma LeaveStep(p: Params, cfg: Config, envs: seq<Env>, actions: seq<Action>, i: nat, j: nat, n: nat)
    requires FreshIds(envs) && Queue(Run(p, actions), envs, i, j, n) && i < j
    ensures Queue(Run(p, actions + [Advance(i, cfg, envs[i])]), envs, i + 1, j, n)
  {
    hide Run, PendingIds, Apply;
    var s, r := Run(p, actions), Run(p, actions + [Advance(i, cfg, envs[i])]);
    LaterIdIsNew(envs, i, i);
    OneInsert(p, cfg, actions, i, envs[i]);
    assert r.world.table.Keys == FirstIds(envs, i + 1);
    QueueLeaves(s, r, envs, i, j, n);
  }

  /** The first of the calls about to insert does so. */
  lemma Leave(p: Params, cfg: Config, envs: seq<Env>, c: nat, actions: seq<Action>, i: nat, j: nat, n: nat)
    returns (more: seq<Action>)
    requires FreshIds(envs) && Queued(p, cfg, envs, c, actions, i, j, n) && i < j && j - i <= c
    ensures Queued(p, cfg, envs, c, more, i + 1, j, n)
  {
    var a := Advance(i, cfg, envs[i]);
    hide Run, Queue, AtMostInserting, FreshIds;
    LeaveStep(p, cfg, envs, actions, i, j, n);
    QueuedSnoc(p, cfg, envs, c, actions, i, j, n, a, i + 1, j, n);
    more := actions + [a];
  }

  lemma QueueLeaves(s: System, r: System, envs: seq<Env>, i: nat, j: nat, n: nat)
    requires Queue(s, envs, i, j, n) && i < j
    requires |PendingIds(r.world.table)| == i + 1 && r.world.table.Keys == FirstIds(envs, i + 1)
    requires i in r.calls && r.calls == s.calls[i := r.calls[i]] && !r.calls[i].Insert?
    ensures Queue(r, envs, i + 1, j, n)
  {
    hide PendingIds, FirstIds;
  }

  /** One more call passes its count of active rows, while the table is empty. */
  lemma Enter(p: Params, cfg: Config, envs: seq<Env>, c: nat, request: Request, actions: seq<Action>, n: nat)
    returns (more: seq<Action>)
    requires |request.summary| <= MAX_APPROVAL_SUMMARY_LENGTH && FreshIds(envs) && n < |envs|
    requires Queued(p, cfg, envs, c, actions, 0, 0, n)
    ensures Queued(p, cfg, envs, c, more, 0, 0, n + 1)
  {
    var b, a := Begin(n, RequestApproval(request, None)), Advance(n, cfg, envs[n]);
    assert Run(p, actions).world.table == map[];
    hide Run, Next, PendingIds, FirstIds, AtMostInserting;
    ReachCount(p, cfg, actions, n, request, envs[n]);
    var one := actions + [b];
    more := one + [a] + [a];
    var s, r := Run(p, actions), Run(p, more);
    NewCallNotInserting(s, n, Run(p, one).calls[n]);
    NewCallNotInserting(s, n, Run(p, one + [a]).calls[n]);
    NewCallNotInserting(s, n, r.calls[n]);
    QueueInserting(s, envs, 0, 0, n);
    QueueEnters(s, r, envs, n);
    hide Inserting, Queue;
    InsertingSnoc(p, actions, b, c);
    InsertingSnoc(p, one, a, c);
    InsertingSnoc(p, one + [a], a, c);
  }

  lemma QueueEnters(s: System, r: System, envs: seq<Env>, n: nat)
    requires Queue(s, envs, 0, 0, n) && n < |envs| && r.world == s.world
    requires n in r.calls && r.calls == s.calls[n := r.calls[n]] && r.calls[n].CountPending?
    ensures Queue(r, envs, 0, 0, n + 1)
  {
    hide PendingIds, FirstIds;
  }

  lemma NewCallNotInserting(s: System, k: nat, pc: Pc)
    requires k !in s.calls && !pc.Insert?
    ensures Inserting(s.(calls := s.calls[k := pc])) == Inserting(s)
  {
  }

  lemma {:induction false} EnterAll(p: Params, cfg: Config, envs: seq<Env>, c: nat, request: Request, n: nat)
    returns (actions: seq<Action>)
    requires |request.summary| <= MAX_APPROVAL_SUMMARY_LENGTH && FreshIds(envs) && n <= |envs|
    ensures Queued(p, cfg, envs, c, actions, 0, 0, n)
  {
    if n == 0 {
      actions := [];
      assert PendingIds(EMPTY.world.table) == {} && Inserting(EMPTY) == {};
    } else {
      actions := EnterAll(p, cfg, envs, c, request, n - 1);
      hide Queued;
      actions := Enter(p, cfg, envs, c, request, actions, n - 1);
    }
  }

  /** One at a time, up to just below the limit. */
  lemma {:induction false} FillUp(p: Params, cfg: Config, envs: seq<Env>, c: nat, actions: seq<Action>, m: nat, n: nat)
    returns (more: seq<Action>)
    requires FreshIds(envs) && c >= 1 && m <= n <= |envs| && m < cfg.maxPending
    requires Queued(p, cfg, envs, c, actions, 0, 0, n)
    ensures Queued(p, cfg, envs, c, more, m, m, n)
  {
    hide Queued;
    more := actions;
    if m > 0 {
      more := FillUp(p, cfg, envs, c, actions, m - 1, n);
      more := Arrive(p, cfg, envs, c, more, m - 1, m - 1, n);
      more := Leave(p, cfg, envs, c, more, m - 1, m, n);
    }
  }

  lemma {:induction false} ArriveAll(p: Params, cfg: Config, envs: seq<Env>, c: nat, actions: seq<Action>, m: nat,
                                     j: nat, n: nat)
    returns (more: seq<Action>)
    requires FreshIds(envs) && m <= j <= n <= |envs| && m < cfg.maxPending && j - m <= c
    requires Queued(p, cfg, envs, c, actions, m, m, n)
    ensures Queued(p, cfg, envs, c, more, m, j, n)
  {
    hide Queued;
    more := actions;
    if m < j {
      more := ArriveAll(p, cfg, envs, c, actions, m, j - 1, n);
      more := Arrive(p, cfg, envs, c, more, m, j - 1, n);
    }
  }

  lemma {:induction false} LeaveAll(p: Params, cfg: Config, envs: seq<Env>, c: nat, actions: seq<Action>, m: nat,
                                    i: nat, n: nat)
    returns (more: seq<Action>)
    requires FreshIds(envs) && m <= i <= n <= |envs| && n - m <= c
    requires Queued(p, cfg, envs, c, actions, m, n, n)
    ensures Queued(p, cfg, envs, c, more, i, n, n)
  {
    hide Queued;
    more := actions;
    if m < i {
      more := LeaveAll(p, cfg, envs, c, actions, m, i - 1, n);
      more := Leave(p, cfg, envs, c, more, i - 1, n, n);
    }
  }

  /** The bound is the best possible: for every request, every limit above zero and every number `c` of
      calls that may insert at once, a run within both leaves `limit + c - 1` pending approvals. */
  lemma PendingBoundIsReached(p: Params, cfg: Config, request: Request, envs: seq<Env>, c: nat)
    returns (actions: seq<Action>)
    requires |request.summary| <= MAX_APPROVAL_SUMMARY_LENGTH && cfg.maxPending > 0 && c >= 1
    requires FreshIds(envs) && |envs| == cfg.maxPending + c - 1
    ensures AtMostInserting(p, actions, c)
    ensures forall x :: 0 <= x < |actions| ==> LimitedTo(actions[x], cfg.maxPending)
    ensures |PendingIds(Run(p, actions).world.table)| == cfg.maxPending + c - 1
  {
    var n, m := |envs|, cfg.maxPending - 1;
    hide Run, AtMostInserting;
    actions := EnterAll(p, cfg, envs, c, request, n);
    actions := FillUp(p, cfg, envs, c, actions, m, n);
    actions := ArriveAll(p, cfg, envs, c, actions, m, n, n);
    actions := LeaveAll(p, cfg, envs, c, actions, m, n, n);
  }

  // ---- Audit references -----------------------------------------------------------------

  predicate IsDecided(w: World, id: Id) { id in w.table && Safety.NeedsAnnouncement(w.table[id].state) }

  /** What a call that is about to write a reference knows about it. */
  ghost predicate KnowsEvent(log: seq<Event>, pc: Pc)
    requires WellFormed(pc)
  {
    match pc
    case UpdateSequence(id, sequence) => 1 <= sequence <= |log| && log[sequence - 1] == Announcement(id, Pending)
    case Commit(op, _, _, _, sequence) =>
      1 <= sequence <= |log| && log[sequence - 1] == Announcement(op.id, Target(op))
    case _ => true
  }

  lemma StepKnows(p: Params, cfg: Config, pc: Pc, w: World, e: Env, other: Pc)
    requires WellFormed(pc) && WellFormed(other) && KnowsEvent(w.log, other)
    ensures
      var (pc', v) := Next(p, cfg, pc, w, e);
      w.log <= v.log && KnowsEvent(v.log, pc') && KnowsEvent(v.log, other)
  {
  }

  lemma {:induction false} CallsKnowEvents(p: Params, actions: seq<Action>)
    ensures forall k :: k in Run(p, actions).calls ==> KnowsEvent(Run(p, actions).world.log, Run(p, actions).calls[k])
  {
    if actions != [] {
      hide Next;
      var s, a := Run(p, actions[..|actions| - 1]), actions[|actions| - 1];
      CallsKnowEvents(p, actions[..|actions| - 1]);
      var r := Run(p, actions);
      forall k | k in r.calls ensures KnowsEvent(r.world.log, r.calls[k]) {
        if a.Advance? && a.call in s.calls {
          StepKnows(p, a.cfg, s.calls[a.call], s.world, a.env, s.calls[k]);
        }
      }
    }
  }

  /** The step is the creating call's last one: it writes the reference of `id`. */
  predicate WritesReference(pc: Pc, e: Env, id: Id) { pc.UpdateSequence? && pc.id == id && e.ok }

  /** A step of a call other than that leaves the row's state and reference alone, or moves the row to a
      state whose announcement it then refers to. */
  lemma StepRefers(p: Params, cfg: Config, pc: Pc, w: World, e: Env, id: Id)
    requires WellFormed(pc) && KnowsEvent(w.log, pc) && id in w.table
    ensures
      var v := Next(p, cfg, pc, w, e).1;
      && id in v.table && w.log <= v.log
      && if WritesReference(pc, e, id)
         then v.table[id] == w.table[id].(auditSequence := Some(pc.sequence)) && v.log == w.log
         else if v.table[id].state == w.table[id].state
         then v.table[id].auditSequence == w.table[id].auditSequence
         else IsDecided(v, id) ==> RefersTo(v, id, v.table[id].state)
  {
    if pc.Commit? {
      hide CommitTx;
      TxTouchesOneRow(p, pc.op, pc.token, pc.decidedAt, pc.sequence, w.table, e.now);
    }
  }

  /** Action `n` is a write of the reference of `id` by the creating call, when the row is in `state`. */
  ghost predicate WritesAt(p: Params, actions: seq<Action>, n: nat, id: Id, state: State)
  {
    && n < |actions| && actions[n].Advance?
    && var s := Run(p, actions[..n]);
       && actions[n].call in s.calls && WritesReference(s.calls[actions[n].call], actions[n].env, id)
       && id in s.world.table && s.world.table[id].state == state
  }

  /** The creating call wrote its reference after the decision that put the row into `state`. */
  ghost predicate WritesLate(p: Params, actions: seq<Action>, id: Id, state: State)
  {
    exists n: nat :: WritesAt(p, actions, n, id, state)
  }

  /** The reference is right exactly when there was no late write; after one it is that of the request. */
  ghost predicate ReferenceVerdict(p: Params, actions: seq<Action>, id: Id)
    requires id in Run(p, actions).world.table
  {
    var w := Run(p, actions).world;
    var state := w.table[id].state;
    if WritesLate(p, actions, id, state) then RefersTo(w, id, Pending) && !RefersTo(w, id, state)
    else RefersTo(w, id, state)
  }

  lemma WritesBefore(p: Params, actions: seq<Action>, a: Action, id: Id, state: State)
    ensures WritesLate(p, actions + [a], id, state)
            <==> WritesLate(p, actions, id, state) || WritesAt(p, actions + [a], |actions|, id, state)
  {
    hide Run, WritesReference;
    var all := actions + [a];
    forall n: nat | n < |actions| ensures WritesAt(p, all, n, id, state) <==> WritesAt(p, actions, n, id, state) {
      assert all[..n] == actions[..n];
    }
    if WritesLate(p, actions, id, state) {
      var n: nat :| WritesAt(p, actions, n, id, state);
      assert WritesAt(p, all, n, id, state);
    }
    if WritesLate(p, all, id, state) {
      var n: nat :| WritesAt(p, all, n, id, state);
      assert n < |actions| ==> WritesAt(p, actions, n, id, state);
    }
  }

  /** A row that has just entered a state was never in it before. */
  lemma NoWriteBeforeEntry(p: Params, actions: seq<Action>, a: Action, id: Id)
    requires id in Run(p, actions).world.table && IsDecided(Run(p, actions + [a]).world, id)
    requires Run(p, actions).world.table[id].state != Run(p, actions + [a]).world.table[id].state
    ensures !WritesLate(p, actions, id, Run(p, actions + [a]).world.table[id].state)
  {
    hide Run;
    var state := Run(p, actions + [a]).world.table[id].state;
    Safety.EveryActionMoves(p, actions, a);
    forall n: nat ensures !WritesAt(p, actions, n, id, state) {
      if n < |actions| {
        Safety.RunsEvolve(p, actions[..n], actions[n..]);
        assert actions[..n] + actions[n..] == actions;
      }
    }
  }

  lemma OtherActions(p: Params, s: System, a: Action)
    requires CallsWellFormed(s) && !(a.Advance? && a.call in s.calls)
    ensures Apply(p, s, a).world.table == s.world.table && s.world.log <= Apply(p, s, a).world.log
  {
  }

  lemma RefersLater(w: World, v: World, id: Id, state: State)
    requires id in w.table && id in v.table && w.log <= v.log
    requires v.table[id].auditSequence == w.table[id].auditSequence && RefersTo(w, id, state)
    ensures RefersTo(v, id, state)
  {
  }

  lemma RefersToOne(w: World, id: Id, state: State)
    requires id in w.table && RefersTo(w, id, Pending) && Safety.NeedsAnnouncement(state)
    ensures !RefersTo(w, id, state)
  {
  }

  lemma VerdictAfterStep(p: Params, actions: seq<Action>, a: Action, id: Id)
    requires id in Run(p, actions).world.table && a.Advance? && a.call in Run(p, actions).calls
    requires IsDecided(Run(p, actions).world, id) ==> ReferenceVerdict(p, actions, id)
    requires IsDecided(Run(p, actions + [a]).world, id)
    ensures ReferenceVerdict(p, actions + [a], id)
  {
    RunSnoc(p, actions, a);
    CallsKnowEvents(p, actions);
    hide Run, KnowsEvent, Next;
    var s, r := Run(p, actions), Run(p, actions + [a]);
    var w, v, pc := s.world, r.world, s.calls[a.call];
    var state := v.table[id].state;
    assert (actions + [a])[..|actions|] == actions;
    StepRefers(p, a.cfg, pc, w, a.env, id);
    WritesBefore(p, actions, a, id, state);
    hide WritesLate;
    if WritesReference(pc, a.env, id) {
      assert WritesAt(p, actions + [a], |actions|, id, state);
      assert RefersTo(v, id, Pending) by { KnowsRequest(w.log, pc); }
      RefersToOne(v, id, state);
    } else if state == w.table[id].state {
      if WritesLate(p, actions, id, state) {
        RefersLater(w, v, id, Pending);
        RefersToOne(v, id, state);
      } else {
        RefersLater(w, v, id, state);
      }
    } else {
      NoWriteBeforeEntry(p, actions, a, id);
    }
  }

  lemma KnowsRequest(log: seq<Event>, pc: Pc)
    requires pc.UpdateSequence? && KnowsEvent(log, pc)
    ensures 1 <= pc.sequence <= |log| && log[pc.sequence - 1] == Announcement(pc.id, Pending)
  {
  }

  /** In every interleaved run, a decided row refers to the event that announced its state if and only
      if the creating call did not write its own reference after that decision; if it did, the row
      refers to the event of its request. */
  lemma {:induction false} ReferencedExactly(p: Params, actions: seq<Action>, id: Id)
    requires IsDecided(Run(p, actions).world, id)
    ensures ReferenceVerdict(p, actions, id)
  {
    var rest, a := actions[..|actions| - 1], actions[|actions| - 1];
    assert actions == rest + [a];
    RunSnoc(p, rest, a);
    Safety.EveryActionMoves(p, rest, a);
    hide Run, Next, ReferenceVerdict;
    var s := Run(p, rest);
    if IsDecided(s.world, id) { ReferencedExactly(p, rest, id); }
    if a.Advance? && a.call in s.calls {
      VerdictAfterStep(p, rest, a, id);
    } else {
      VerdictStays(p, rest, a, id);
    }
  }

  lemma VerdictStays(p: Params, actions: seq<Action>, a: Action, id: Id)
    requires !(a.Advance? && a.call in Run(p, actions).calls)
    requires IsDecided(Run(p, actions).world, id) && ReferenceVerdict(p, actions, id)
    ensures id in Run(p, actions + [a]).world.table && ReferenceVerdict(p, actions + [a], id)
  {
    RunSnoc(p, actions, a);
    hide Run;
    var w, v := Run(p, actions).world, Run(p, actions + [a]).world;
    OtherActions(p, Run(p, actions), a);
    var state := v.table[id].state;
    assert (actions + [a])[..|actions|] == actions;
    WritesBefore(p, actions, a, id, state);
    hide WritesLate;
    if WritesLate(p, actions, id, state) {
      RefersLater(w, v, id, Pending);
      RefersToOne(v, id, state);
    } else {
      RefersLater(w, v, id, state);
    }
  }

  /** A pending row and its creating call, one step before that call writes its reference. */
  lemma ReachWrite(p: Params, cfg: Config, request: Request, e: Env) returns (actions: seq<Action>)
    requires Auditable(request.summary, SortDedup(request.ruleIds), None) && cfg.maxPending > 0 && e.ok
    ensures
      var s := Run(p, actions);
      && s.world.table == map[e.id := NewRow(p, request, e.now, e.now + Lifetime(cfg, None) * SECOND)]
      && s.world.log == [Announcement(e.id, Pending)]
      && s.calls == map[0 := UpdateSequence(e.id, 1)]
  {
    actions := ReachInsert(p, cfg, [], 0, request, e);
    hide Run, Auditable;
    var create := Advance(0, cfg, e);
    RunSnoc(p, actions, create);
    RunSnoc(p, actions + [create], create);
    actions := actions + [create] + [create];
  }

  /** A late write happens: for every acceptable request, a run leaves an approved row that refers to
      the event of its request. */
  lemma LateWriteHappens(p: Params, cfg: Config, request: Request, actor: string, e: Env)
    returns (actions: seq<Action>)
    requires Auditable(request.summary, SortDedup(request.ruleIds), None) && ValidIds(SortDedup(request.ruleIds))
    requires cfg.maxPending > 0 && cfg.defaultTtl > 0 && e.ok && e.random
    ensures
      var w := Run(p, actions).world;
      && e.id in w.table && w.table[e.id].state.Approved?
      && RefersTo(w, e.id, Pending) && !Referenced(w, e.id)
  {
    actions := ReachWrite(p, cfg, request, e);
    var before := Run(p, actions);
    var approving := ApproveIt(p, cfg, actions, 1, e.id, actor, e);
    actions := actions + approving;
    hide Run;
    var s := Run(p, actions);
    assert s.world.log[0] == before.world.log[0];
    RunSnoc(p, actions, Advance(0, cfg, e));
    actions := actions + [Advance(0, cfg, e)];
    RefersToOne(Run(p, actions).world, e.id, Approved);
  }

  /** A pending, decidable row can be approved by another call before its expiry. */
  lemma ApproveIt(p: Params, cfg: Config, actions: seq<Action>, k: nat, id: Id, actor: string, e: Env)
    returns (more: seq<Action>)
    requires e.ok && e.random && k !in Run(p, actions).calls
    requires
      var t := Run(p, actions).world.table;
      id in t && t[id].state.Pending? && e.now < t[id].expiresAt && Decidable(t[id])
    ensures
      var s, r := Run(p, actions), Run(p, actions + more);
      && id in r.world.table && r.world.table[id].state.Approved?
      && s.world.log <= r.world.log
      && forall j :: j in s.calls ==> j in r.calls && r.calls[j] == s.calls[j]
  {
    hide Run, Next;
    var op, decide := Approve(id, actor), Advance(k, cfg, e);
    BeginCall(p, actions, k, op);
    var begun := actions + [Begin(k, op)];
    AdvanceTo(p, begun, k, cfg, e);
    AdvanceTo(p, begun + [decide], k, cfg, e);
    AdvanceTo(p, begun + [decide] + [decide], k, cfg, e);
    ApproveThree(p, cfg, op, Run(p, actions).world, e);
    more := [Begin(k, op), decide, decide, decide];
    assert actions + more == begun + [decide] + [decide] + [decide];
  }

  lemma ApproveThree(p: Params, cfg: Config, op: Op, w: World, e: Env)
    requires op.Approve? && e.ok && e.random
    requires op.id in w.table && w.table[op.id].state.Pending? && e.now < w.table[op.id].expiresAt
    requires Decidable(w.table[op.id])
    ensures
      var (pc1, w1) := Next(p, cfg, Start(op), w, e);
      var (pc2, w2) := Next(p, cfg, pc1, w1, e);
      var v := Next(p, cfg, pc2, w2, e).1;
      op.id in v.table && v.table[op.id].state.Approved? && w.log <= v.log
  {
    hide ValidIds, Auditable;
  }
}
