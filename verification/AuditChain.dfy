/** The hash chain over audit records: verification, and what a passing verification proves.
    `sha` is an arbitrary function from bytes to 32-byte digests; every statement about it is
    of the form "this holds, or here are two different inputs with the same digest". */
module AuditChain {
  import opened Text
  import opened Canonical
  import opened AuditEvents

  type Sha = Bytes -> Digest

  const GENESIS_PHRASE := Ascii("kavach-audit-genesis-v1")

  function Genesis(sha: Sha): (d: Digest) { sha(GENESIS_PHRASE) }

  function Compute(sha: Sha, previous: Digest, canonical: Bytes): (d: Digest) { sha(previous + canonical) }

  datatype ErrorKind = GenesisMismatch | SequenceGap | PreviousHashLinkBroken | HashMismatch

  datatype VerificationError = VerificationError(sequence: nat, kind: ErrorKind)

  datatype Report = Report(chainValid: bool, eventCount: nat, verifiedTo: nat, errors: seq<VerificationError>)

  // ---- What verification reports ---------------------------------------------

  /** The hash that event `i` has to be linked to. */
  function PrevAt(start: Digest, events: seq<Record>, i: nat): (d: Digest)
    requires i <= |events|
  {
    if i == 0 then start else events[i - 1].currentHash
  }

  function GapAt(events: seq<Record>, i: nat): (e: seq<VerificationError>)
    requires i < |events|
  {
    if i > 0 && events[i].sequence != events[i - 1].sequence + 1
    then [VerificationError(events[i - 1].sequence + 1, SequenceGap)] else []
  }

  function LinkAt(start: Digest, events: seq<Record>, i: nat): (e: seq<VerificationError>)
    requires i < |events|
  {
    if events[i].previousHash != PrevAt(start, events, i)
    then [VerificationError(events[i].sequence, PreviousHashLinkBroken)] else []
  }

  function HashAt(sha: Sha, start: Digest, events: seq<Record>, i: nat): (e: seq<VerificationError>)
    requires i < |events|
  {
    if Compute(sha, PrevAt(start, events, i), Content(events[i])) != events[i].currentHash
    then [VerificationError(events[i].sequence, HashMismatch)] else []
  }

  /** `first`, then the errors of the first `n` events in the order they are found. */
  function ErrorsUpTo(sha: Sha, start: Digest, events: seq<Record>, first: seq<VerificationError>, n: nat):
    (e: seq<VerificationError>)
    requires n <= |events|
  {
    if n == 0 then first
    else ErrorsUpTo(sha, start, events, first, n - 1)
         + GapAt(events, n - 1) + LinkAt(start, events, n - 1) + HashAt(sha, start, events, n - 1)
  }

  function StartHash(sha: Sha, expected: Option<Digest>): (d: Digest)
  {
    if expected.Some? then expected.value else Genesis(sha)
  }

  function GenesisErrors(sha: Sha, events: seq<Record>, expected: Option<Digest>): (e: seq<VerificationError>)
    requires events != []
  {
    if expected.None? && events[0].previousHash != Genesis(sha)
    then [VerificationError(events[0].sequence, GenesisMismatch)] else []
  }

  function AllErrors(sha: Sha, events: seq<Record>, expected: Option<Digest>): (e: seq<VerificationError>)
  {
    if events == [] then []
    else ErrorsUpTo(sha, StartHash(sha, expected), events, GenesisErrors(sha, events, expected), |events|)
  }

  method RecomputeHash(sha: Sha, event: Record, previous: Digest) returns (d: Digest)
    ensures d == Compute(sha, previous, Content(event))
  {
    var canonical := EncodeCanonical(FieldsOf(event));
    d := Compute(sha, previous, canonical);
  }

  /** The checks of one loop iteration: continuity, linkage and hash. */
  method CheckEvent(sha: Sha, ghost start: Digest, events: seq<Record>, i: nat, prevHash: Digest)
    returns (gap: seq<VerificationError>, link: seq<VerificationError>, hash: seq<VerificationError>)
    requires i < |events| && prevHash == PrevAt(start, events, i)
    ensures gap == GapAt(events, i)
    ensures link == LinkAt(start, events, i)
    ensures hash == HashAt(sha, start, events, i)
  {
    hide Content;
    gap, link, hash := [], [], [];
    var event := events[i];
    if i > 0 {
      var expectedSeq := events[i - 1].sequence + 1;
      if event.sequence != expectedSeq { gap := [VerificationError(expectedSeq, SequenceGap)]; }
    }
    if event.previousHash != prevHash {
      link := [VerificationError(event.sequence, PreviousHashLinkBroken)];
    }
    var recomputed := RecomputeHash(sha, event, prevHash);
    if recomputed != event.currentHash {
      hash := [VerificationError(event.sequence, HashMismatch)];
    }
  }

  method VerifyEvents(sha: Sha, events: seq<Record>, expected: Option<Digest>) returns (report: Report)
    ensures report.errors == AllErrors(sha, events, expected)
    ensures report.chainValid <==> Accepts(sha, events, expected)
    ensures report.eventCount == |events|
    ensures report.verifiedTo == if events == [] then 0 else events[|events| - 1].sequence
  {
    hide Content, Accepts, GapAt, LinkAt, HashAt;
    AcceptsIffNoErrors(sha, events, expected);
    if events == [] {
      return Report(true, 0, 0, []);
    }
    var errors := [];
    var prevHash;
    if expected.Some? {
      prevHash := expected.value;
    } else {
      var genesis := Genesis(sha);
      if events[0].previousHash != genesis {
        errors := [VerificationError(events[0].sequence, GenesisMismatch)];
      }
      prevHash := genesis;
    }
    ghost var start := prevHash;
    ghost var first := errors;
    assert first == GenesisErrors(sha, events, expected) && start == StartHash(sha, expected);
    for i := 0 to |events|
      invariant prevHash == PrevAt(start, events, i)
      invariant errors == ErrorsUpTo(sha, start, events, first, i)
    {
      var gap, link, hash := CheckEvent(sha, start, events, i, prevHash);
      errors := errors + gap + link + hash;
      prevHash := events[i].currentHash;
    }
    report := Report(errors == [], |events|, events[|events| - 1].sequence, errors);
  }

  // ---- Acceptance, said without the loop ---------------------------------------

  /** Event `i` follows its predecessor and carries the right hash. */
  predicate LinkedAt(sha: Sha, start: Digest, events: seq<Record>, i: nat)
    requires i < |events|
  {
    && (i > 0 ==> events[i].sequence == events[i - 1].sequence + 1)
    && events[i].previousHash == PrevAt(start, events, i)
    && events[i].currentHash == Compute(sha, events[i].previousHash, Content(events[i]))
  }

  ghost predicate Linked(sha: Sha, start: Digest, events: seq<Record>)
  {
    forall i :: 0 <= i < |events| ==> LinkedAt(sha, start, events, i)
  }

  ghost predicate Accepts(sha: Sha, events: seq<Record>, expected: Option<Digest>)
  {
    Linked(sha, StartHash(sha, expected), events)
  }

  lemma LinkedAtIffNoErrors(sha: Sha, start: Digest, events: seq<Record>, i: nat)
    requires i < |events|
    ensures LinkedAt(sha, start, events, i)
            <==> GapAt(events, i) == [] && LinkAt(start, events, i) == [] && HashAt(sha, start, events, i) == []
  {
    hide Content, Compute;
  }

  lemma EmptyConcat<T>(a: seq<T>, b: seq<T>, c: seq<T>, d: seq<T>)
    ensures a + b + c + d == [] <==> a == [] && b == [] && c == [] && d == []
  {
    assert |a + b + c + d| == |a| + |b| + |c| + |d|;
  }

  lemma {:induction false} NoErrorsIffLinked(sha: Sha, start: Digest, events: seq<Record>,
                                             first: seq<VerificationError>, n: nat)
    requires n <= |events|
    ensures ErrorsUpTo(sha, start, events, first, n) == []
            <==> first == [] && forall i :: 0 <= i < n ==> LinkedAt(sha, start, events, i)
  {
    hide LinkedAt, GapAt, LinkAt, HashAt;
    if n > 0 {
      NoErrorsIffLinked(sha, start, events, first, n - 1);
      LinkedAtIffNoErrors(sha, start, events, n - 1);
      EmptyConcat(ErrorsUpTo(sha, start, events, first, n - 1),
                  GapAt(events, n - 1), LinkAt(start, events, n - 1), HashAt(sha, start, events, n - 1));
    }
  }

  lemma AcceptsIffNoErrors(sha: Sha, events: seq<Record>, expected: Option<Digest>)
    ensures AllErrors(sha, events, expected) == [] <==> Accepts(sha, events, expected)
  {
    if events != [] {
      NoErrorsIffLinked(sha, StartHash(sha, expected), events, GenesisErrors(sha, events, expected), |events|);
      assert Accepts(sha, events, expected) ==> LinkedAt(sha, StartHash(sha, expected), events, 0);
    }
  }

  // ---- Tamper evidence -----------------------------------------------------------

  predicate IsCollision(sha: Sha, x: Bytes, y: Bytes) { x != y && sha(x) == sha(y) }

  /** The hash a chain ends in; the empty chain ends in the genesis hash. */
  function EndHash(sha: Sha, events: seq<Record>): (d: Digest)
  {
    PrevAt(Genesis(sha), events, |events|)
  }

  /** The bytes that were hashed to obtain the end of a chain. */
  function EndInput(sha: Sha, events: seq<Record>): (b: Bytes)
  {
    if events == [] then GENESIS_PHRASE
    else EndHash(sha, events[..|events| - 1]) + Content(events[|events| - 1])
  }

  /** Walks two chains backwards until their hashed inputs differ. */
  function FindCollision(sha: Sha, es: seq<Record>, fs: seq<Record>): (c: Option<(Bytes, Bytes)>)
    decreases |es|
  {
    if EndInput(sha, es) != EndInput(sha, fs) then Some((EndInput(sha, es), EndInput(sha, fs)))
    else if es == [] || fs == [] then None
    else FindCollision(sha, es[..|es| - 1], fs[..|fs| - 1])
  }

  /** Same number of events, same hashed bytes and same hashes at every position. */
  ghost predicate SameChain(es: seq<Record>, fs: seq<Record>)
  {
    && |es| == |fs|
    && (forall i :: 0 <= i < |es| ==> Content(es[i]) == Content(fs[i]))
    && (forall i :: 0 <= i < |es| ==>
         es[i].previousHash == fs[i].previousHash && es[i].currentHash == fs[i].currentHash)
  }

  lemma GenesisPhraseIsShort()
    ensures |GENESIS_PHRASE| == 23 && GENESIS_PHRASE == Ascii("kavach-audit-genesis-v1")
  {
  }

  lemma LinkedPrefix(sha: Sha, start: Digest, events: seq<Record>, n: nat)
    requires Linked(sha, start, events) && n <= |events|
    ensures Linked(sha, start, events[..n])
  {
    forall i | 0 <= i < n ensures LinkedAt(sha, start, events[..n], i) {
      assert LinkedAt(sha, start, events, i);
    }
  }

  lemma EndOfLinked(sha: Sha, events: seq<Record>)
    requires Linked(sha, Genesis(sha), events)
    ensures EndHash(sha, events) == sha(EndInput(sha, events))
    ensures events != [] ==>
      events[|events| - 1].previousHash == EndHash(sha, events[..|events| - 1])
  {
    hide Content;
    if events != [] {
      assert LinkedAt(sha, Genesis(sha), events, |events| - 1);
    }
  }

  /** Two accepted chains that end in the same hash are the same chain, or the walk finds a collision. */
  lemma {:induction false} TamperEvidence(sha: Sha, es: seq<Record>, fs: seq<Record>)
    requires Accepts(sha, es, None) && Accepts(sha, fs, None)
    requires EndHash(sha, es) == EndHash(sha, fs)
    ensures match FindCollision(sha, es, fs)
            case Some((x, y)) => IsCollision(sha, x, y)
            case None => SameChain(es, fs)
    decreases |es|
  {
    EndOfLinked(sha, es);
    EndOfLinked(sha, fs);
    hide Linked, SameChain, Genesis, Content;
    if EndInput(sha, es) != EndInput(sha, fs) {
    } else if es == [] || fs == [] {
      EmptyEnds(sha, es, fs);
    } else {
      var n, m := |es| - 1, |fs| - 1;
      SplitInput(EndHash(sha, es[..n]), Content(es[n]), EndHash(sha, fs[..m]), Content(fs[m]));
      LinkedPrefix(sha, Genesis(sha), es, n);
      LinkedPrefix(sha, Genesis(sha), fs, m);
      TamperEvidence(sha, es[..n], fs[..m]);
      if FindCollision(sha, es[..n], fs[..m]).None? { SameChainExtends(es, fs); }
    }
  }

  /** The genesis phrase is shorter than every chained input. */
  lemma EmptyEnds(sha: Sha, es: seq<Record>, fs: seq<Record>)
    requires es == [] || fs == []
    requires EndInput(sha, es) == EndInput(sha, fs)
    ensures es == fs && SameChain(es, fs)
  {
    hide Content;
    GenesisPhraseIsShort();
  }

  lemma SameChainExtends(es: seq<Record>, fs: seq<Record>)
    requires es != [] && fs != [] && SameChain(es[..|es| - 1], fs[..|fs| - 1])
    requires Content(es[|es| - 1]) == Content(fs[|fs| - 1])
    requires es[|es| - 1].previousHash == fs[|fs| - 1].previousHash
    requires es[|es| - 1].currentHash == fs[|fs| - 1].currentHash
    ensures SameChain(es, fs)
  {
    hide Content;
    var n := |es| - 1;
    assert forall i :: 0 <= i < n ==> es[..n][i] == es[i] && fs[..n][i] == fs[i];
  }

  lemma SplitInput(d: Digest, x: Bytes, d': Digest, y: Bytes)
    requires d + x == d' + y
    ensures d == d' && x == y
  {
    assert d == (d + x)[..32] && d' == (d' + y)[..32];
    assert x == (d + x)[32..] && y == (d' + y)[32..];
  }

  ghost predicate AllClean(events: seq<Record>)
  {
    forall i :: 0 <= i < |events| ==> Clean(FieldsOf(events[i]))
  }

  /** On clean events tamper evidence is about the records themselves, field by field. */
  lemma TamperEvidenceOfRecords(sha: Sha, es: seq<Record>, fs: seq<Record>)
    requires Accepts(sha, es, None) && Accepts(sha, fs, None)
    requires EndHash(sha, es) == EndHash(sha, fs)
    requires AllClean(es) && AllClean(fs)
    ensures es == fs || exists x, y :: IsCollision(sha, x, y)
  {
    TamperEvidence(sha, es, fs);
    match FindCollision(sha, es, fs)
    case Some((x, y)) => assert IsCollision(sha, x, y);
    case None =>
      forall i | 0 <= i < |es| ensures es[i] == fs[i] {
        ContentInjective(es[i], fs[i]);
      }
  }

  // ---- Verification errors are local -------------------------------------------------

  function ErrorsAt(sha: Sha, start: Digest, events: seq<Record>, i: nat): (e: seq<VerificationError>)
    requires i < |events|
  {
    GapAt(events, i) + LinkAt(start, events, i) + HashAt(sha, start, events, i)
  }

  /** Errors of a list in which only events `i` and `i + 1` may be wrong. */
  lemma {:induction false} TwoBadEvents(sha: Sha, start: Digest, events: seq<Record>,
                                        first: seq<VerificationError>, i: nat, n: nat)
    requires i < |events| && n <= |events|
    requires forall j :: 0 <= j < |events| && j != i && j != i + 1 ==> LinkedAt(sha, start, events, j)
    ensures ErrorsUpTo(sha, start, events, first, n)
            == first + (if i < n then ErrorsAt(sha, start, events, i) else [])
                     + (if i + 1 < n then ErrorsAt(sha, start, events, i + 1) else [])
  {
    hide Content, GapAt, LinkAt, HashAt, LinkedAt;
    if n > 0 {
      TwoBadEvents(sha, start, events, first, i, n - 1);
      if n - 1 != i && n - 1 != i + 1 { LinkedAtIffNoErrors(sha, start, events, n - 1); }
    }
  }

  /** Errors of a list in which only event `i` may be wrong. */
  lemma OneBadEvent(sha: Sha, start: Digest, events: seq<Record>, first: seq<VerificationError>, i: nat)
    requires i < |events|
    requires forall j :: 0 <= j < |events| && j != i ==> LinkedAt(sha, start, events, j)
    ensures ErrorsUpTo(sha, start, events, first, |events|) == first + ErrorsAt(sha, start, events, i)
  {
    hide ErrorsUpTo, GapAt, LinkAt, HashAt, LinkedAt;
    TwoBadEvents(sha, start, events, first, i, |events|);
    if i + 1 < |events| { LinkedAtIffNoErrors(sha, start, events, i + 1); }
  }

  /** Changing what one event says, but not its sequence or hashes, is reported as exactly one
      hash mismatch at that sequence; it goes unnoticed only by way of a collision. */
  lemma ModificationIsLocal(sha: Sha, es: seq<Record>, i: nat, r: Record)
    requires Accepts(sha, es, None) && i < |es|
    requires r.sequence == es[i].sequence
    requires r.previousHash == es[i].previousHash && r.currentHash == es[i].currentHash
    requires Content(r) != Content(es[i])
    ensures
      var errors := AllErrors(sha, es[i := r], None);
      if IsCollision(sha, r.previousHash + Content(r), r.previousHash + Content(es[i]))
      then errors == []
      else errors == [VerificationError(r.sequence, HashMismatch)]
  {
    var start, fs := Genesis(sha), es[i := r];
    assert LinkedAt(sha, start, es, i) && LinkedAt(sha, start, es, 0);
    OthersStayLinked(sha, start, es, i, r);
    hide Content, Genesis, LinkedAt, ErrorsUpTo;
    OneBadEvent(sha, start, fs, [], i);
    DifferentInputs(r.previousHash, Content(r), Content(es[i]));
  }

  /** Changing the stored previous hash of one event breaks its link and nothing else; for the first
      event the genesis check reports it too. */
  lemma LinkChangeIsLocal(sha: Sha, es: seq<Record>, i: nat, d: Digest)
    requires Accepts(sha, es, None) && i < |es| && d != es[i].previousHash
    ensures
      var broken := VerificationError(es[i].sequence, PreviousHashLinkBroken);
      AllErrors(sha, es[i := es[i].(previousHash := d)], None)
      == if i == 0 then [VerificationError(es[0].sequence, GenesisMismatch), broken] else [broken]
  {
    hide Genesis, Content, ErrorsUpTo, ErrorsAt, LinkedAt;
    var start, fs := Genesis(sha), es[i := es[i].(previousHash := d)];
    FirstLink(sha, start, es);
    LinkChangeHere(sha, start, es, i, d);
    forall j | 0 <= j < |fs| && j != i ensures LinkedAt(sha, start, fs, j) {
      LinkChangeElsewhere(sha, start, es, i, d, j);
    }
    OneBadEvent(sha, start, fs, GenesisErrors(sha, fs, None), i);
  }

  lemma FirstLink(sha: Sha, start: Digest, es: seq<Record>)
    requires es != [] && Linked(sha, start, es)
    ensures es[0].previousHash == start
  {
    hide Content;
    assert LinkedAt(sha, start, es, 0);
  }

  lemma LinkChangeHere(sha: Sha, start: Digest, es: seq<Record>, i: nat, d: Digest)
    requires i < |es| && LinkedAt(sha, start, es, i) && d != es[i].previousHash
    ensures ErrorsAt(sha, start, es[i := es[i].(previousHash := d)], i)
            == [VerificationError(es[i].sequence, PreviousHashLinkBroken)]
  {
    SealKeepsContent(es[i], d, es[i].currentHash);
    hide Content;
  }

  lemma LinkChangeElsewhere(sha: Sha, start: Digest, es: seq<Record>, i: nat, d: Digest, j: nat)
    requires i < |es| && j < |es| && j != i && LinkedAt(sha, start, es, j)
    ensures LinkedAt(sha, start, es[i := es[i].(previousHash := d)], j)
  {
    hide Content;
  }

  /** Changing the stored hash of one event is a hash mismatch there, a broken link at the next event,
      and a hash mismatch at the next event unless the two inputs collide. */
  lemma HashChangeIsLocal(sha: Sha, es: seq<Record>, i: nat, d: Digest)
    requires Accepts(sha, es, None) && i < |es| && d != es[i].currentHash
    ensures
      var errors := AllErrors(sha, es[i := es[i].(currentHash := d)], None);
      var here := VerificationError(es[i].sequence, HashMismatch);
      if i == |es| - 1 then errors == [here]
      else
        var next, text := es[i + 1].sequence, Content(es[i + 1]);
        errors == [here, VerificationError(next, PreviousHashLinkBroken)]
                  + if IsCollision(sha, d + text, es[i].currentHash + text) then []
                    else [VerificationError(next, HashMismatch)]
  {
    hide Genesis, Content, ErrorsUpTo, ErrorsAt, LinkedAt, IsCollision;
    var start, fs := Genesis(sha), es[i := es[i].(currentHash := d)];
    FirstLink(sha, start, es);
    HashChangeHere(sha, start, es, i, d);
    forall j | 0 <= j < |fs| && j != i && j != i + 1 ensures LinkedAt(sha, start, fs, j) {
      HashChangeElsewhere(sha, start, es, i, d, j);
    }
    if i + 1 < |es| { HashChangeNext(sha, start, es, i, d); }
    TwoBadEvents(sha, start, fs, GenesisErrors(sha, fs, None), i, |fs|);
  }

  lemma HashChangeHere(sha: Sha, start: Digest, es: seq<Record>, i: nat, d: Digest)
    requires i < |es| && LinkedAt(sha, start, es, i) && d != es[i].currentHash
    ensures ErrorsAt(sha, start, es[i := es[i].(currentHash := d)], i)
            == [VerificationError(es[i].sequence, HashMismatch)]
  {
    SealKeepsContent(es[i], es[i].previousHash, d);
    hide Content;
  }

  lemma HashChangeNext(sha: Sha, start: Digest, es: seq<Record>, i: nat, d: Digest)
    requires i + 1 < |es| && LinkedAt(sha, start, es, i + 1) && d != es[i].currentHash
    ensures
      var next, text := es[i + 1].sequence, Content(es[i + 1]);
      ErrorsAt(sha, start, es[i := es[i].(currentHash := d)], i + 1)
      == [VerificationError(next, PreviousHashLinkBroken)]
         + if IsCollision(sha, d + text, es[i].currentHash + text) then []
           else [VerificationError(next, HashMismatch)]
  {
    hide Content;
    DifferentStarts(d, es[i].currentHash, Content(es[i + 1]));
  }

  lemma HashChangeElsewhere(sha: Sha, start: Digest, es: seq<Record>, i: nat, d: Digest, j: nat)
    requires i < |es| && j < |es| && j != i && j != i + 1 && LinkedAt(sha, start, es, j)
    ensures LinkedAt(sha, start, es[i := es[i].(currentHash := d)], j)
  {
    hide Content;
  }

  lemma DifferentStarts(d: Digest, e: Digest, x: Bytes)
    requires d != e
    ensures d + x != e + x
  {
    if d + x == e + x { SplitInput(d, x, e, x); }
  }

  /** The two stored hashes are not part of the hashed content. */
  lemma SealKeepsContent(r: Record, previous: Digest, current: Digest)
    ensures Content(r.(previousHash := previous, currentHash := current)) == Content(r)
  {
  }

  lemma OthersStayLinked(sha: Sha, start: Digest, es: seq<Record>, i: nat, r: Record)
    requires Linked(sha, start, es) && i < |es|
    requires r.sequence == es[i].sequence
    requires r.previousHash == es[i].previousHash && r.currentHash == es[i].currentHash
    ensures
      var fs := es[i := r];
      && (forall j :: 0 <= j < |fs| && j != i ==> LinkedAt(sha, start, fs, j))
      && GapAt(fs, i) == [] && LinkAt(start, fs, i) == []
  {
    hide Content, Compute;
    var fs := es[i := r];
    assert LinkedAt(sha, start, es, i);
    forall j | 0 <= j < |fs| && j != i ensures LinkedAt(sha, start, fs, j) {
      assert LinkedAt(sha, start, es, j);
    }
  }

  lemma DifferentInputs(d: Bytes, x: Bytes, y: Bytes)
    requires x != y
    ensures d + x != d + y
  {
    assert x == (d + x)[|d|..] && y == (d + y)[|d|..];
  }

  lemma {:induction false} Consecutive(sha: Sha, start: Digest, events: seq<Record>, i: nat)
    requires Linked(sha, start, events) && i < |events|
    ensures events[i].sequence == events[0].sequence + i
  {
    hide Content, Compute, PrevAt;
    if i > 0 {
      Consecutive(sha, start, events, i - 1);
      assert LinkedAt(sha, start, events, i);
    }
  }

  lemma {:induction false} GapIsReported(sha: Sha, start: Digest, events: seq<Record>,
                                         first: seq<VerificationError>, i: nat, n: nat)
    requires i < n <= |events|
    ensures forall e :: e in GapAt(events, i) ==> e in ErrorsUpTo(sha, start, events, first, n)
  {
    hide Content;
    if n - 1 > i { GapIsReported(sha, start, events, first, i, n - 1); }
  }

  /** Deleting events `a..b` of an accepted chain passes verification exactly when they are the
      last ones, or when they are the first ones and the event before the remainder hashes to the
      genesis value. Deleting from the inside is always reported as a gap. */
  lemma DeletionVerdict(sha: Sha, es: seq<Record>, a: nat, b: nat)
    requires Accepts(sha, es, None) && a < b <= |es|
    ensures Accepts(sha, es[..a] + es[b..], None)
            <==> b == |es| || (a == 0 && es[b - 1].currentHash == Genesis(sha))
    ensures 0 < a && b < |es| ==>
      VerificationError(es[a - 1].sequence + 1, SequenceGap) in AllErrors(sha, es[..a] + es[b..], None)
    ensures es[b - 1].currentHash == Genesis(sha) ==>
      IsCollision(sha, GENESIS_PHRASE, es[b - 1].previousHash + Content(es[b - 1]))
  {
    hide Content;
    var start, fs := Genesis(sha), es[..a] + es[b..];
    GenesisPhraseIsShort();
    assert LinkedAt(sha, start, es, b - 1);
    if b == |es| {
      assert fs == es[..a];
      LinkedPrefix(sha, start, es, a);
    } else if a == 0 {
      assert fs == es[b..];
      SuffixVerdict(sha, start, es, b);
    } else {
      Consecutive(sha, start, es, a - 1);
      Consecutive(sha, start, es, b);
      assert fs[a] == es[b] && fs[a - 1] == es[a - 1];
      GapIsReported(sha, start, fs, GenesisErrors(sha, fs, None), a, |fs|);
      assert VerificationError(es[a - 1].sequence + 1, SequenceGap) in GapAt(fs, a);
      AcceptsIffNoErrors(sha, fs, None);
    }
  }

  lemma SuffixVerdict(sha: Sha, start: Digest, es: seq<Record>, b: nat)
    requires Linked(sha, start, es) && 0 < b < |es|
    ensures forall d: Digest :: Linked(sha, d, es[b..]) <==> es[b - 1].currentHash == d
  {
    hide Content;
    var fs := es[b..];
    forall d: Digest ensures Linked(sha, d, fs) <==> es[b - 1].currentHash == d {
      assert LinkedAt(sha, start, es, b) && fs[0] == es[b];
      if es[b - 1].currentHash == d {
        forall i | 0 <= i < |fs| ensures LinkedAt(sha, d, fs, i) {
          assert LinkedAt(sha, start, es, b + i);
        }
      } else {
        assert !LinkedAt(sha, d, fs, 0);
      }
    }
  }
}
