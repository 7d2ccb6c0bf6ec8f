/** Execution permits, the gateway's registry of them, and clients that share both. A permit object
    is known by its index; the registry maps token hashes to permit objects. */
module PermitRegistry {
  import opened Text
  import opened AuditEvents

  const MAX_ISSUED_PERMITS: nat := 10_000

  datatype Permit = Permit(tokenHash: Bytes, digest: Digest, expiresAt: int, consumed: bool)

  predicate IsExpired(p: Permit, now: int) { now >= p.expiresAt }

  predicate Live(p: Permit, now: int) { !IsExpired(p, now) && !p.consumed }

  datatype PermitError = PermitExpired | PermitConsumed | InvalidPermit

  /** A successful verification of permit object `permit`. */
  datatype Pass = Pass(permit: nat, digest: Digest, at: int)

  /** Shared state: the permit objects, the registry, what each client got from it, and the
      verifications that succeeded so far. */
  datatype State = State(
    permits: seq<Permit>,
    registry: map<Bytes, nat>,
    held: map<nat, nat>,
    passes: seq<Pass>)

  const EMPTY := State([], map[], map[], [])

  /** Registry entries name existing permit objects. */
  ghost predicate Wellformed(s: State)
  {
    && (forall h :: h in s.registry ==> s.registry[h] < |s.permits|)
    && (forall c :: c in s.held ==> s.held[c] < |s.permits|)
  }

  function Purged(s: State, now: int): (r: map<Bytes, nat>)
    requires Wellformed(s)
  {
    map h | h in s.registry && Live(s.permits[s.registry[h]], now) :: s.registry[h]
  }

  datatype Action =
    | Register(permit: Permit, now: int)
    | Get(client: nat, tokenHash: Bytes, now: int)
    | Execute(client: nat, digest: Digest, now: int)
    | Remove(tokenHash: Bytes)

  function Verify(p: Permit, digest: Digest, now: int): (e: Option<PermitError>)
  {
    if IsExpired(p, now) then Some(PermitExpired)
    else if p.consumed then Some(PermitConsumed)
    else if p.digest != digest then Some(InvalidPermit)
    else None
  }

  function AfterRegister(s: State, permit: Permit, now: int): (r: State)
    requires Wellformed(s)
  {
    var kept := Purged(s, now);
    if |kept| >= MAX_ISSUED_PERMITS then s.(registry := kept)
    else s.(permits := s.permits + [permit], registry := kept[permit.tokenHash := |s.permits|])
  }

  function AfterGet(s: State, client: nat, tokenHash: Bytes, now: int): (r: State)
    requires Wellformed(s)
  {
    var kept := Purged(s, now);
    var held := if tokenHash in kept then s.held[client := kept[tokenHash]] else s.held - {client};
    s.(registry := kept, held := held)
  }

  function AfterExecute(s: State, client: nat, digest: Digest, now: int): (r: State)
    requires Wellformed(s)
  {
    if client !in s.held then s
    else
      var k := s.held[client];
      if Verify(s.permits[k], digest, now).Some? then s
      else s.(permits := s.permits[k := s.permits[k].(consumed := true)],
              passes := s.passes + [Pass(k, digest, now)])
  }

  /** One action of one client, under the registry lock or the permit lock. */
  function Apply(s: State, a: Action): (r: State)
    requires Wellformed(s)
    ensures Wellformed(r)
  {
    match a
    case Register(permit, now) => AfterRegister(s, permit, now)
    case Get(client, tokenHash, now) => AfterGet(s, client, tokenHash, now)
    case Execute(client, digest, now) => AfterExecute(s, client, digest, now)
    case Remove(tokenHash) => s.(registry := s.registry - {tokenHash})
  }

  // ---- What single actions do ----------------------------------------------------------

  /** The token hashes whose permits can still be used. */
  ghost function LiveHashes(s: State, now: int): (hashes: set<Bytes>)
    requires Wellformed(s)
  {
    set h | h in s.registry && now < s.permits[s.registry[h]].expiresAt && !s.permits[s.registry[h]].consumed
  }

  lemma PurgedKeys(s: State, now: int)
    requires Wellformed(s)
    ensures Purged(s, now).Keys == LiveHashes(s, now) && |Purged(s, now)| == |LiveHashes(s, now)|
    ensures forall h :: h in LiveHashes(s, now) ==> Purged(s, now)[h] == s.registry[h]
  {
    assert Purged(s, now).Keys == LiveHashes(s, now);
  }

  /** A registration drops what can no longer be used. It is refused exactly when 10,000 usable entries
      remain; otherwise it adds the permit under its own token hash. */
  lemma RegisterVerdict(s: State, permit: Permit, now: int)
    requires Wellformed(s)
    ensures
      var r, live := Apply(s, Register(permit, now)), LiveHashes(s, now);
      && r.held == s.held && r.passes == s.passes
      && (forall h :: h in live && (h != permit.tokenHash || |live| >= 10_000) ==>
            h in r.registry && r.registry[h] == s.registry[h])
      && if |live| >= 10_000 then r.permits == s.permits && r.registry.Keys == live
         else r.permits == s.permits + [permit] && r.registry.Keys == live + {permit.tokenHash}
              && r.registry[permit.tokenHash] == |s.permits|
  {
    PurgedKeys(s, now);
    hide Purged, LiveHashes;
  }

  /** A lookup drops what can no longer be used and hands out the entry of the token hash exactly when
      it is there and can be used. */
  lemma GetVerdict(s: State, client: nat, tokenHash: Bytes, now: int)
    requires Wellformed(s)
    ensures
      var r, live := Apply(s, Get(client, tokenHash, now)), LiveHashes(s, now);
      && r.permits == s.permits && r.passes == s.passes && r.registry.Keys == live
      && (forall h :: h in live ==> r.registry[h] == s.registry[h])
      && (client in r.held <==> tokenHash in live)
      && (tokenHash in live ==> r.held[client] == s.registry[tokenHash])
      && forall c :: c != client ==> (c in r.held <==> c in s.held) && (c in s.held ==> r.held[c] == s.held[c])
  {
    PurgedKeys(s, now);
    hide Purged, LiveHashes;
  }

  /** An execution with a held permit passes exactly when the permit is unexpired, unconsumed and bound
      to the digest. It then records one pass and consumes that permit only; otherwise nothing changes. */
  lemma ExecuteVerdict(s: State, client: nat, digest: Digest, now: int)
    requires Wellformed(s) && client in s.held
    ensures
      var r, k := Apply(s, Execute(client, digest, now)), s.held[client];
      var permit := s.permits[k];
      if now < permit.expiresAt && !permit.consumed && permit.digest == digest
      then
        && r.passes == s.passes + [Pass(k, digest, now)]
        && |r.permits| == |s.permits| && r.registry == s.registry && r.held == s.held
        && r.permits[k] == Permit(permit.tokenHash, permit.digest, permit.expiresAt, true)
        && forall j :: 0 <= j < |s.permits| && j != k ==> r.permits[j] == s.permits[j]
      else r == s
  {
  }

  /** The gateway's shared objects, updated in place. */
  class Gateway {
    var permits: seq<Permit>
    var registry: map<Bytes, nat>
    var held: map<nat, nat>
    ghost var passes: seq<Pass>

    ghost function Now(): (s: State)
      reads this
    {
      State(permits, registry, held, passes)
    }

    constructor ()
      ensures Now() == EMPTY
    {
      permits, registry, held, passes := [], map[], map[], [];
    }

    method Register(permit: Permit, now: int) returns (ok: bool)
      requires Wellformed(Now())
      modifies this
      ensures Now() == AfterRegister(old(Now()), permit, now)
      ensures ok <==> |LiveHashes(old(Now()), now)| < 10_000
    {
      PurgedKeys(Now(), now);
      registry := map h | h in registry && Live(permits[registry[h]], now) :: registry[h];
      if |registry| >= MAX_ISSUED_PERMITS { return false; }
      registry := registry[permit.tokenHash := |permits|];
      permits := permits + [permit];
      return true;
    }

    method Get(client: nat, tokenHash: Bytes, now: int) returns (found: Option<nat>)
      requires Wellformed(Now())
      modifies this
      ensures Now() == AfterGet(old(Now()), client, tokenHash, now)
      ensures found == if client in held then Some(held[client]) else None
    {
      registry := map h | h in registry && Live(permits[registry[h]], now) :: registry[h];
      if tokenHash in registry {
        held := held[client := registry[tokenHash]];
        return Some(registry[tokenHash]);
      }
      held := held - {client};
      return None;
    }

    method Remove(tokenHash: Bytes)
      modifies this
      ensures Now() == old(Now()).(registry := old(registry) - {tokenHash})
    {
      registry := registry - {tokenHash};
    }

    method VerifyAndConsume(client: nat, digest: Digest, now: int) returns (err: Option<PermitError>)
      requires Wellformed(Now()) && client in held
      modifies this
      ensures Now() == AfterExecute(old(Now()), client, digest, now)
      ensures
        var permit := old(permits[held[client]]);
        err == if now >= permit.expiresAt then Some(PermitExpired)
               else if permit.consumed then Some(PermitConsumed)
               else if permit.digest != digest then Some(InvalidPermit)
               else None
    {
      var k := held[client];
      var permit := permits[k];
      if IsExpired(permit, now) { return Some(PermitExpired); }
      if permit.consumed { return Some(PermitConsumed); }
      if permit.digest != digest { return Some(InvalidPermit); }
      permits := permits[k := permit.(consumed := true)];
      passes := passes + [Pass(k, digest, now)];
      return None;
    }
  }

  // ---- Runs ------------------------------------------------------------------------

  ghost function Run(actions: seq<Action>): (s: State)
    ensures Wellformed(s)
  {
    if actions == [] then EMPTY else Apply(Run(actions[..|actions| - 1]), actions[|actions| - 1])
  }

  /** A pass was for the bound digest and before expiry, and left the permit consumed. */
  predicate GoodPass(s: State, i: nat)
    requires i < |s.passes|
  {
    var pass := s.passes[i];
    && pass.permit < |s.permits|
    && s.permits[pass.permit].consumed
    && pass.digest == s.permits[pass.permit].digest
    && pass.at < s.permits[pass.permit].expiresAt
  }

  /** Every pass was good, and no two are of the same permit. */
  ghost predicate PassesOk(s: State)
  {
    && (forall i :: 0 <= i < |s.passes| ==> GoodPass(s, i))
    && (forall i, j :: 0 <= i < j < |s.passes| ==> s.passes[i].permit != s.passes[j].permit)
  }

  ghost predicate Inv(s: State)
  {
    && Wellformed(s)
    && |s.registry| <= MAX_ISSUED_PERMITS
    && PassesOk(s)
  }

  lemma PurgedIsSmaller(s: State, now: int)
    requires Wellformed(s)
    ensures |Purged(s, now)| <= |s.registry|
  {
    hide Live;
    SubsetIsSmaller(Purged(s, now).Keys, s.registry.Keys);
  }

  lemma RemovedIsSmaller(m: map<Bytes, nat>, h: Bytes)
    ensures |m - {h}| <= |m|
  {
    SubsetIsSmaller((m - {h}).Keys, m.Keys);
  }

  lemma OneMore(m: map<Bytes, nat>, h: Bytes, k: nat)
    ensures |m[h := k]| <= |m| + 1
  {
    assert m[h := k].Keys == m.Keys + {h};
  }

  lemma CapacityKeeps(s: State, a: Action)
    requires Wellformed(s) && |s.registry| <= MAX_ISSUED_PERMITS
    ensures |Apply(s, a).registry| <= MAX_ISSUED_PERMITS
  {
    hide Purged, Verify, Wellformed;
    match a {
      case Register(permit, now) =>
        PurgedIsSmaller(s, now);
        OneMore(Purged(s, now), permit.tokenHash, |s.permits|);
      case Get(client, tokenHash, now) => PurgedIsSmaller(s, now);
      case Execute(client, digest, now) =>
      case Remove(tokenHash) => RemovedIsSmaller(s.registry, tokenHash);
    }
  }

  lemma PassesKeep(s: State, a: Action)
    requires Wellformed(s) && PassesOk(s)
    ensures PassesOk(Apply(s, a))
  {
    hide Purged;
    var r := Apply(s, a);
    forall i | 0 <= i < |r.passes| ensures GoodPass(r, i) {
      assert i < |s.passes| ==> GoodPass(s, i);
    }
    forall i, j | 0 <= i < j < |r.passes| ensures r.passes[i].permit != r.passes[j].permit {
      assert GoodPass(s, i);
    }
  }

  lemma ApplyKeeps(s: State, a: Action)
    requires Inv(s)
    ensures Inv(Apply(s, a))
  {
    hide Apply, PassesOk;
    CapacityKeeps(s, a);
    PassesKeep(s, a);
  }

  lemma {:induction false} InvHolds(actions: seq<Action>)
    ensures Inv(Run(actions))
  {
    if actions != [] {
      InvHolds(actions[..|actions| - 1]);
      ApplyKeeps(Run(actions[..|actions| - 1]), actions[|actions| - 1]);
    }
  }

  /** In every interleaving, each permit object passes verification at most once, only for its bound
      digest and before its expiry; the registry stays within its capacity. */
  lemma EachPermitOnce(actions: seq<Action>)
    ensures
      var s := Run(actions);
      && (forall i, j :: 0 <= i < j < |s.passes| ==> s.passes[i].permit != s.passes[j].permit)
      && (forall i :: 0 <= i < |s.passes| ==> GoodPass(s, i))
      && |s.registry| <= 10_000
  {
    InvHolds(actions);
  }

  lemma ConsumedForever(s: State, a: Action, k: nat)
    requires Wellformed(s) && k < |s.permits|
    ensures
      var r := Apply(s, a);
      && k < |r.permits| && r.permits[k].(consumed := s.permits[k].consumed) == s.permits[k]
      && (s.permits[k].consumed ==> r.permits[k].consumed)
  {
  }

  lemma RunSnoc(actions: seq<Action>, more: seq<Action>)
    requires more != []
    ensures
      var n := |more| - 1;
      Run(actions + more) == Apply(Run(actions + more[..n]), more[n])
  {
    hide Apply;
    var n := |more| - 1;
    assert (actions + more)[..|actions + more| - 1] == actions + more[..n];
  }

  lemma {:induction false} ConsumedLater(actions: seq<Action>, more: seq<Action>, k: nat)
    requires k < |Run(actions).permits| && Run(actions).permits[k].consumed
    ensures k < |Run(actions + more).permits| && Run(actions + more).permits[k].consumed
  {
    hide Apply;
    if more == [] {
      assert actions + more == actions;
    } else {
      var n := |more| - 1;
      ConsumedLater(actions, more[..n], k);
      RunSnoc(actions, more);
      ConsumedForever(Run(actions + more[..n]), more[n], k);
    }
  }

  /** Once a permit has passed, no later `get` returns it, to any client. */
  lemma NeverReturnedAgain(actions: seq<Action>, more: seq<Action>, i: nat, client: nat, tokenHash: Bytes, now: int)
    requires i < |Run(actions).passes|
    ensures
      var r := Apply(Run(actions + more), Get(client, tokenHash, now));
      client in r.held ==> r.held[client] != Run(actions).passes[i].permit
  {
    InvHolds(actions);
    assert GoodPass(Run(actions), i);
    ConsumedLater(actions, more, Run(actions).passes[i].permit);
  }

  // ---- A registered permit stays redeemable -----------------------------------------

  predicate Passed(s: State, k: nat)
  {
    exists i :: 0 <= i < |s.passes| && s.passes[i].permit == k
  }

  /** Permit object `k` has passed, or the registry still maps its hash to it, unconsumed. */
  predicate Redeemable(s: State, k: nat, p: Permit)
  {
    && k < |s.permits|
    && s.permits[k].expiresAt == p.expiresAt && s.permits[k].digest == p.digest
    && (Passed(s, k)
        || (!s.permits[k].consumed && p.tokenHash in s.registry && s.registry[p.tokenHash] == k))
  }

  /** An action before the deadline that neither replaces nor removes the entry of a token hash. */
  predicate Leaves(a: Action, p: Permit)
  {
    match a
    case Register(other, now) => other.tokenHash != p.tokenHash && now < p.expiresAt
    case Get(_, _, now) => now < p.expiresAt
    case Execute(_, _, _) => true
    case Remove(tokenHash) => tokenHash != p.tokenHash
  }

  lemma StaysRedeemable(s: State, a: Action, k: nat, p: Permit)
    requires Wellformed(s) && Redeemable(s, k, p) && Leaves(a, p)
    ensures Redeemable(Apply(s, a), k, p)
  {
    var r := Apply(s, a);
    assert s.passes <= r.passes;
    if Passed(s, k) {
      var i :| 0 <= i < |s.passes| && s.passes[i].permit == k;
      assert r.passes[i].permit == k;
    } else if a.Execute? && a.client in s.held && r != s {
      assert r.passes[|s.passes|].permit == s.held[a.client];
    }
  }

  lemma {:induction false} RedeemableLater(actions: seq<Action>, more: seq<Action>, k: nat, p: Permit)
    requires Redeemable(Run(actions), k, p)
    requires forall i :: 0 <= i < |more| ==> Leaves(more[i], p)
    ensures Redeemable(Run(actions + more), k, p)
  {
    hide Apply, Redeemable, Leaves;
    if more == [] {
      assert actions + more == actions;
    } else {
      var n := |more| - 1;
      RedeemableLater(actions, more[..n], k, p);
      RunSnoc(actions, more);
      StaysRedeemable(Run(actions + more[..n]), more[n], k, p);
    }
  }

  lemma RegisterRedeems(actions: seq<Action>, p: Permit, at: int)
    requires !p.consumed && |Purged(Run(actions), at)| < MAX_ISSUED_PERMITS
    ensures Redeemable(Run(actions + [Register(p, at)]), |Run(actions).permits|, p)
  {
    RunSnoc(actions, [Register(p, at)]);
    assert [Register(p, at)][..0] == [] && actions + [] == actions;
    PurgedKeys(Run(actions), at);
    RegisterVerdict(Run(actions), p, at);
    hide Run, Purged, LiveHashes, Apply, Passed;
  }

  lemma GetRedeems(s: State, k: nat, p: Permit, client: nat, now: int)
    requires Wellformed(s) && Redeemable(s, k, p) && now < p.expiresAt
    ensures
      var r := Apply(s, Get(client, p.tokenHash, now));
      !Passed(s, k) ==> client in r.held && r.held[client] == k
  {
    hide Passed;
  }

  /** An accepted permit is handed out to whoever presents its token hash before it expires, until
      it has passed once or its entry has been replaced or removed. */
  lemma HandedOutUntilUsed(actions: seq<Action>, p: Permit, at: int, more: seq<Action>,
                           client: nat, now: int)
    requires !p.consumed && now < p.expiresAt
    requires |Purged(Run(actions), at)| < MAX_ISSUED_PERMITS
    requires forall i :: 0 <= i < |more| ==> Leaves(more[i], p)
    ensures
      var k := |Run(actions).permits|;
      var s := Run(actions + [Register(p, at)] + more);
      var r := Apply(s, Get(client, p.tokenHash, now));
      !Passed(s, k) ==> client in r.held && r.held[client] == k
  {
    var k := |Run(actions).permits|;
    RegisterRedeems(actions, p, at);
    hide Run, Apply, Redeemable, Passed, Purged, Leaves;
    RedeemableLater(actions + [Register(p, at)], more, k, p);
    GetRedeems(Run(actions + [Register(p, at)] + more), k, p, client, now);
  }

  /** Register, get and execute: an accepted permit that has not passed, fetched and executed in time
      for its own digest, passes. */
  lemma PassesInTime(actions: seq<Action>, p: Permit, at: int, more: seq<Action>, client: nat, now: int, late: int)
    requires !p.consumed && now < p.expiresAt && late < p.expiresAt
    requires |LiveHashes(Run(actions), at)| < 10_000
    requires forall i :: 0 <= i < |more| ==> Leaves(more[i], p)
    requires !Passed(Run(actions + [Register(p, at)] + more), |Run(actions).permits|)
    ensures
      var k, s := |Run(actions).permits|, Run(actions + [Register(p, at)] + more);
      Apply(Apply(s, Get(client, p.tokenHash, now)), Execute(client, p.digest, late)).passes
      == s.passes + [Pass(k, p.digest, late)]
  {
    var k, s := |Run(actions).permits|, Run(actions + [Register(p, at)] + more);
    PurgedKeys(Run(actions), at);
    HandedOutUntilUsed(actions, p, at, more, client, now);
    RegisterRedeems(actions, p, at);
    RedeemableLater(actions + [Register(p, at)], more, k, p);
    hide Run, Apply, Passed, Purged;
    GetVerdict(s, client, p.tokenHash, now);
    ExecuteVerdict(Apply(s, Get(client, p.tokenHash, now)), client, p.digest, late);
  }
}
