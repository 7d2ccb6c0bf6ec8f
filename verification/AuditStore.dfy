/** The append-only audit store: the events table in key order, `append`, full and range
    verification, and what holds after every run of appends. */
module AuditStore {
  import opened Text
  import opened Canonical
  import opened AuditEvents
  import opened AuditChain

  const U64_LIMIT: int := 0x1_0000_0000_0000_0000

  datatype AuditError =
    | InvalidField | RedactionFailure | AppendFailure | TransactionFailure | RangeTooLarge | MissingEvent

  /** Redacts one text, or fails. */
  type Redactor = Bytes -> Option<Bytes>

  /** One call of `append`, with everything it obtains from outside: the fresh event ID, the clock,
      and whether the transaction can begin, the insert is accepted and the commit succeeds. */
  datatype Call = Call(input: AppendInput, eventId: Bytes, timestamp: Bytes, begins: bool, inserts: bool, commits: bool)

  // ---- Queries ---------------------------------------------------------------------

  /** Rows with `lo <= sequence <= hi` among the first `n`, in key order. */
  function Select(rows: seq<Record>, lo: nat, hi: nat, n: nat): (r: seq<Record>)
    requires n <= |rows|
  {
    if n == 0 then []
    else Select(rows, lo, hi, n - 1) + (if lo <= rows[n - 1].sequence <= hi then [rows[n - 1]] else [])
  }

  function InRange(rows: seq<Record>, lo: nat, hi: nat): (r: seq<Record>) { Select(rows, lo, hi, |rows|) }

  function BySequence(rows: seq<Record>, sequence: nat): (r: Option<Record>)
    ensures r.Some? ==> r.value in rows && r.value.sequence == sequence
    ensures r.None? ==> forall i :: 0 <= i < |rows| ==> rows[i].sequence != sequence
  {
    if rows == [] then None
    else if rows[|rows| - 1].sequence == sequence then Some(rows[|rows| - 1])
    else BySequence(rows[..|rows| - 1], sequence)
  }

  // ---- What one append does -----------------------------------------------------------

  function RedactOpt(redactor: Option<Redactor>, v: Option<Bytes>): (r: Option<Option<Bytes>>)
  {
    if redactor.None? || v.None? then Some(v)
    else
      var out := redactor.value(v.value);
      if out.None? then None else Some(out)
  }

  /** Every value redacted, keys unchanged; fails if one redaction fails. */
  ghost function RedactEntries(redactor: Option<Redactor>, m: Metadata): (r: Option<Metadata>)
  {
    if redactor.None? then Some(m)
    else if forall i :: 0 <= i < |m| ==> redactor.value(m[i].value).Some? then
      Some(seq(|m|, i requires 0 <= i < |m| && redactor.value(m[i].value).Some? =>
                     Entry(m[i].key, redactor.value(m[i].value).value)))
    else None
  }

  function NextSequence(rows: seq<Record>): (n: nat)
  {
    if rows == [] then 1 else rows[|rows| - 1].sequence + 1
  }

  function LatestHash(sha: Sha, rows: seq<Record>): (d: Digest) { EndHash(sha, rows) }

  /** The record an append builds from its redacted input, before its own hash is known. */
  function Draft(sha: Sha, rows: seq<Record>, c: Call, summary: Option<Bytes>, metadata: Metadata): (r: Record)
  {
    var previous := LatestHash(sha, rows);
    Record(NextSequence(rows), c.eventId, c.timestamp, c.input.category, c.input.requestId, c.input.agentId,
           c.input.operation, c.input.resourceKind, summary, c.input.decision, c.input.reasonCode,
           SortDedup(c.input.matchedRuleIds), metadata, previous, previous)
  }

  function Sealed(sha: Sha, draft: Record): (r: Record)
  {
    draft.(currentHash := Compute(sha, draft.previousHash, Content(draft)))
  }

  predicate HasEventId(rows: seq<Record>, id: Bytes)
  {
    exists i :: 0 <= i < |rows| && rows[i].eventId == id
  }

  /** The outcome of one append: the stored record, or the error that left the table unchanged. */
  ghost function Outcome(sha: Sha, redactor: Option<Redactor>, rows: seq<Record>, c: Call):
    (r: Result<Record, AuditError>)
  {
    var summary := RedactOpt(redactor, c.input.resourceSummary);
    var metadata := RedactEntries(redactor, c.input.metadata);
    if !ValidInput(c.input) then Err(InvalidField)
    else if summary.None? || metadata.None? then Err(RedactionFailure)
    else if !c.begins then Err(TransactionFailure)
    else if NextSequence(rows) >= U64_LIMIT then Err(AppendFailure)
    else if HasEventId(rows, c.eventId) || !c.inserts then Err(AppendFailure)
    else if !c.commits then Err(TransactionFailure)
    else Ok(Sealed(sha, Draft(sha, rows, c, summary.value, metadata.value)))
  }

  ghost function After(rows: seq<Record>, outcome: Result<Record, AuditError>): (r: seq<Record>)
  {
    if outcome.Ok? then rows + [outcome.value] else rows
  }

  class AuditStore {
    const sha: Sha
    const redactor: Option<Redactor>
    var rows: seq<Record>

    constructor (sha: Sha, redactor: Option<Redactor>)
      ensures this.sha == sha && this.redactor == redactor && rows == []
    {
      this.sha := sha;
      this.redactor := redactor;
      rows := [];
    }

    method RedactMetadata(metadata: Metadata) returns (r: Option<Metadata>)
      ensures r == RedactEntries(redactor, metadata)
    {
      if redactor.None? { return Some(metadata); }
      var out: seq<Entry> := [];
      for i := 0 to |metadata|
        invariant |out| == i
        invariant forall j :: 0 <= j < i ==>
          redactor.value(metadata[j].value) == Some(out[j].value) && out[j].key == metadata[j].key
      {
        var redacted := redactor.value(metadata[i].value);
        if redacted.None? { return None; }
        out := out + [Entry(metadata[i].key, redacted.value)];
      }
      ghost var expected := RedactEntries(redactor, metadata);
      assert expected.Some? && out == expected.value;
      return Some(out);
    }

    method Append(c: Call) returns (r: Result<Record, AuditError>)
      modifies this
      ensures r == Outcome(sha, redactor, old(rows), c)
      ensures rows == After(old(rows), r)
      ensures old(Healthy(sha, rows)) ==> Healthy(sha, rows)
    {
      hide Content, Healthy;
      if Healthy(sha, rows) { AppendKeepsHealthy(sha, redactor, rows, c); }
      var valid := Validate(c.input);
      if !valid { return Err(InvalidField); }
      var summary := RedactOpt(redactor, c.input.resourceSummary);
      if summary.None? { return Err(RedactionFailure); }
      var metadata := RedactMetadata(c.input.metadata);
      if metadata.None? { return Err(RedactionFailure); }
      if !c.begins { return Err(TransactionFailure); }
      var sequence, previous := 1, Genesis(sha);
      if rows != [] {
        var latest := rows[|rows| - 1];
        if latest.sequence + 1 >= U64_LIMIT { return Err(AppendFailure); }
        sequence, previous := latest.sequence + 1, latest.currentHash;
      }
      var draft := Record(
        sequence, c.eventId, c.timestamp, c.input.category, c.input.requestId, c.input.agentId,
        c.input.operation, c.input.resourceKind, summary.value, c.input.decision, c.input.reasonCode,
        SortDedup(c.input.matchedRuleIds), metadata.value, previous, previous);
      var currentHash := RecomputeHash(sha, draft, previous);
      var record := draft.(currentHash := currentHash);
      if HasEventId(rows, c.eventId) || !c.inserts { return Err(AppendFailure); }
      if !c.commits { return Err(TransactionFailure); }
      rows := rows + [record];
      return Ok(record);
    }

    method VerifyFull() returns (report: Report)
      ensures report.chainValid <==> Accepts(sha, rows, None)
      ensures report.errors == AllErrors(sha, rows, None)
      ensures report.eventCount == |rows|
      ensures report.verifiedTo == if rows == [] then 0 else rows[|rows| - 1].sequence
    {
      report := VerifyEvents(sha, rows, None);
    }

    method VerifyRange(start: nat, end: nat) returns (r: Result<Report, AuditError>)
      requires start < U64_LIMIT && end < U64_LIMIT
      ensures r.Ok? && r.value.chainValid <==> RangeAccepts(sha, rows, start, end)
      ensures
        var missing := start > 1 && forall i :: 0 <= i < |rows| ==> rows[i].sequence != start - 1;
        if (end - start + 1) % 0x1_0000_0000_0000_0000 > 100_000 then r == Err(RangeTooLarge)
        else if missing then r == Err(MissingEvent)
        else r.Ok?
      ensures r.Ok? ==>
        && r.value.eventCount == |InRange(rows, start, end)|
        && exists prev :: r.value.errors == AllErrors(sha, InRange(rows, start, end), Some(prev))
             && if start > 1 then exists e :: e in rows && e.sequence == start - 1 && e.currentHash == prev
                else prev == Genesis(sha)
    {
      var size := RangeSize(start, end);
      if size > MAX_VERIFICATION_RANGE { return Err(RangeTooLarge); }
      var events := InRange(rows, start, end);
      var prevHash := Genesis(sha);
      if start > 1 {
        var prevEvent := BySequence(rows, start - 1);
        if prevEvent.None? { return Err(MissingEvent); }
        prevHash := prevEvent.value.currentHash;
      }
      var report := VerifyEvents(sha, events, Some(prevHash));
      assert report.errors == AllErrors(sha, events, Some(prevHash));
      return Ok(report);
    }
  }

  // ---- Runs of appends ------------------------------------------------------------------

  /** Sequences are exactly 1..n. */
  ghost predicate Numbered(rows: seq<Record>)
  {
    forall i :: 0 <= i < |rows| ==> rows[i].sequence == i + 1
  }

  ghost predicate Healthy(sha: Sha, rows: seq<Record>)
  {
    Numbered(rows) && Accepts(sha, rows, None)
  }

  /** What a text is stored as: itself without a redactor, the redactor's answer otherwise. */
  predicate StoredAs(redactor: Option<Redactor>, text: Bytes, stored: Bytes)
  {
    match redactor
    case None => stored == text
    case Some(f) => f(text) == Some(stored)
  }

  /** The record holds what the call says, with every free text redacted. */
  ghost predicate Holds(redactor: Option<Redactor>, c: Call, r: Record)
  {
    && r.eventId == c.eventId && r.timestamp == c.timestamp
    && r.category == c.input.category && r.requestId == c.input.requestId && r.agentId == c.input.agentId
    && r.operation == c.input.operation && r.resourceKind == c.input.resourceKind
    && r.decision == c.input.decision && r.reasonCode == c.input.reasonCode
    && r.resourceSummary.Some? == c.input.resourceSummary.Some?
    && (r.resourceSummary.Some? ==> StoredAs(redactor, c.input.resourceSummary.value, r.resourceSummary.value))
    && |r.metadata| == |c.input.metadata|
    && (forall i :: 0 <= i < |r.metadata| ==>
          && r.metadata[i].key == c.input.metadata[i].key
          && StoredAs(redactor, c.input.metadata[i].value, r.metadata[i].value))
    && Increasing(r.matchedRuleIds)
    && (forall id :: id in r.matchedRuleIds <==> id in c.input.matchedRuleIds)
  }

  /** Every free text of the input has a redacted form. */
  ghost predicate Redacts(redactor: Option<Redactor>, input: AppendInput)
  {
    redactor.Some? ==>
      && (input.resourceSummary.Some? ==> redactor.value(input.resourceSummary.value).Some?)
      && forall i :: 0 <= i < |input.metadata| ==> redactor.value(input.metadata[i].value).Some?
  }

  /** When an append is accepted, what it then stores, and which error it gives otherwise. */
  lemma AppendVerdict(sha: Sha, redactor: Option<Redactor>, rows: seq<Record>, c: Call)
    ensures
      var r := Outcome(sha, redactor, rows, c);
      var next := if rows == [] then 1 else rows[|rows| - 1].sequence + 1;
      if !ValidInput(c.input) then r == Err(InvalidField)
      else if !Redacts(redactor, c.input) then r == Err(RedactionFailure)
      else if !c.begins then r == Err(TransactionFailure)
      else if next >= 0x1_0000_0000_0000_0000 || !c.inserts then r == Err(AppendFailure)
      else if exists i :: 0 <= i < |rows| && rows[i].eventId == c.eventId then r == Err(AppendFailure)
      else if !c.commits then r == Err(TransactionFailure)
      else r.Ok? && Holds(redactor, c, r.value) && r.value.sequence == next
  {
    hide Content;
    SortDedupCorrect(c.input.matchedRuleIds);
  }

  lemma AppendKeepsHealthy(sha: Sha, redactor: Option<Redactor>, rows: seq<Record>, c: Call)
    requires Healthy(sha, rows)
    ensures Healthy(sha, After(rows, Outcome(sha, redactor, rows, c)))
  {
    hide Content;
    var outcome := Outcome(sha, redactor, rows, c);
    if outcome.Ok? {
      var summary, metadata :=
        RedactOpt(redactor, c.input.resourceSummary).value, RedactEntries(redactor, c.input.metadata).value;
      var draft := Draft(sha, rows, c, summary, metadata);
      SealKeepsContent(draft, draft.previousHash, Compute(sha, draft.previousHash, Content(draft)));
      var after, start := rows + [outcome.value], Genesis(sha);
      forall i | 0 <= i < |after| ensures LinkedAt(sha, start, after, i) {
        if i < |rows| { assert LinkedAt(sha, start, rows, i); }
      }
    }
  }

  ghost function Run(sha: Sha, redactor: Option<Redactor>, calls: seq<Call>): (rows: seq<Record>)
  {
    if calls == [] then []
    else
      var rows := Run(sha, redactor, calls[..|calls| - 1]);
      After(rows, Outcome(sha, redactor, rows, calls[|calls| - 1]))
  }

  /** How many of the calls were accepted. */
  ghost function Accepted(sha: Sha, redactor: Option<Redactor>, calls: seq<Call>): (n: nat)
  {
    if calls == [] then 0
    else
      var rows := Run(sha, redactor, calls[..|calls| - 1]);
      Accepted(sha, redactor, calls[..|calls| - 1])
      + (if Outcome(sha, redactor, rows, calls[|calls| - 1]).Ok? then 1 else 0)
  }

  /** Every run of accepted and rejected appends leaves sequences 1..n, one per accepted call,
      in a chain that full verification accepts. */
  lemma {:induction false} EveryRunVerifies(sha: Sha, redactor: Option<Redactor>, calls: seq<Call>)
    ensures Healthy(sha, Run(sha, redactor, calls))
    ensures |Run(sha, redactor, calls)| == Accepted(sha, redactor, calls)
  {
    hide Content, Outcome;
    if calls != [] {
      EveryRunVerifies(sha, redactor, calls[..|calls| - 1]);
      AppendKeepsHealthy(sha, redactor, Run(sha, redactor, calls[..|calls| - 1]), calls[|calls| - 1]);
    }
  }

  /** What is stored does not depend on the order or repetition of the rule IDs supplied. */
  lemma AppendIgnoresIdOrder(sha: Sha, redactor: Option<Redactor>, rows: seq<Record>, c: Call, ids: seq<Bytes>)
    requires forall y :: y in ids <==> y in c.input.matchedRuleIds
    requires |ids| <= MAX_MATCHED_RULE_IDS && |c.input.matchedRuleIds| <= MAX_MATCHED_RULE_IDS
    ensures Outcome(sha, redactor, rows, c.(input := c.input.(matchedRuleIds := ids)))
            == Outcome(sha, redactor, rows, c)
  {
    hide Content;
    SortDedupCanonical(ids, c.input.matchedRuleIds);
  }

  // ---- Range verification ------------------------------------------------------------------

  /** `end - start + 1` in 64-bit arithmetic. */
  function RangeSize(start: nat, end: nat): (n: nat) { (end - start + 1) % U64_LIMIT }

  ghost predicate RangeAccepts(sha: Sha, rows: seq<Record>, start: nat, end: nat)
  {
    && RangeSize(start, end) <= MAX_VERIFICATION_RANGE
    && (start > 1 ==> BySequence(rows, start - 1).Some?)
    && var prev := if start > 1 then BySequence(rows, start - 1).value.currentHash else Genesis(sha);
       Accepts(sha, InRange(rows, start, end), Some(prev))
  }

  lemma {:induction false} RangeIsSlice(rows: seq<Record>, a: nat, b: nat, n: nat)
    requires Numbered(rows) && a <= b <= |rows| && n <= |rows|
    ensures Select(rows, a + 1, b, n) == if n <= a then [] else if n <= b then rows[a..n] else rows[a..b]
  {
    if n > 0 {
      RangeIsSlice(rows, a, b, n - 1);
      assert rows[n - 1].sequence == n;
      hide Numbered;
      var before := Select(rows, a + 1, b, n - 1);
      if n <= a || b < n {
        assert before + [] == before;
      } else {
        SliceExtends(rows, a, n);
        assert before == rows[a..n - 1];
      }
    }
  }

  lemma SliceExtends<T>(s: seq<T>, a: nat, n: nat)
    requires a < n <= |s|
    ensures s[a..n] == s[a..n - 1] + [s[n - 1]]
  {
  }

  lemma {:induction false} BySequenceIsIndex(rows: seq<Record>, i: nat)
    requires Numbered(rows) && i < |rows|
    ensures BySequence(rows, i + 1) == Some(rows[i])
  {
    if i < |rows| - 1 { BySequenceIsIndex(rows[..|rows| - 1], i); }
  }

  /** A block looks the same alone, started from the hash before it, as inside the table. */
  lemma BlockLinks(sha: Sha, start: Digest, rows: seq<Record>, a: nat, b: nat)
    requires Numbered(rows) && a < b <= |rows|
    ensures Linked(sha, PrevAt(start, rows, a), rows[a..b])
            <==> forall i :: a <= i < b ==> LinkedAt(sha, start, rows, i)
  {
    hide Content, Compute;
    var prev, block := PrevAt(start, rows, a), rows[a..b];
    forall i | a <= i < b ensures LinkedAt(sha, prev, block, i - a) <==> LinkedAt(sha, start, rows, i) {
      assert block[i - a] == rows[i];
      assert i > a ==> block[i - a - 1] == rows[i - 1];
    }
    hide LinkedAt;
    if Linked(sha, prev, block) {
      forall i | a <= i < b ensures LinkedAt(sha, start, rows, i) {
        assert LinkedAt(sha, prev, block, i - a);
      }
    }
    if forall i :: a <= i < b ==> LinkedAt(sha, start, rows, i) {
      forall i | 0 <= i < b - a ensures LinkedAt(sha, prev, block, i) {
        assert LinkedAt(sha, start, rows, a + i);
      }
    }
  }

  /** Verifying a block of a numbered table checks exactly the links of that block. */
  lemma BlockVerdict(sha: Sha, rows: seq<Record>, a: nat, b: nat)
    requires Numbered(rows) && a < b <= |rows| < U64_LIMIT && b - a <= MAX_VERIFICATION_RANGE
    ensures RangeAccepts(sha, rows, a + 1, b)
            <==> forall i :: a <= i < b ==> LinkedAt(sha, Genesis(sha), rows, i)
  {
    hide Linked, LinkedAt, Genesis, Select, BySequence;
    BlockLinks(sha, Genesis(sha), rows, a, b);
    RangeIsSlice(rows, a, b, |rows|);
    assert InRange(rows, a + 1, b) == rows[a..b];
    assert RangeSize(a + 1, b) == b - a;
    if a > 0 { BySequenceIsIndex(rows, a - 1); }
  }

  /** Block `j` of a partition is non-empty and within the range limit. */
  predicate BlockFits(cuts: seq<nat>, j: nat)
    requires j + 1 < |cuts|
  {
    cuts[j] < cuts[j + 1] <= cuts[j] + MAX_VERIFICATION_RANGE
  }

  predicate Rising(cuts: seq<nat>)
  {
    forall j :: 0 <= j < |cuts| - 1 ==> BlockFits(cuts, j)
  }

  /** `cuts` divides 1..n into consecutive blocks; block `j` is `cuts[j] + 1 .. cuts[j + 1]`. */
  predicate Partition(cuts: seq<nat>, n: nat)
  {
    |cuts| > 0 && cuts[0] == 0 && cuts[|cuts| - 1] == n && Rising(cuts)
  }

  ghost predicate BlockAccepts(sha: Sha, rows: seq<Record>, cuts: seq<nat>, j: nat)
    requires j + 1 < |cuts|
  {
    RangeAccepts(sha, rows, cuts[j] + 1, cuts[j + 1])
  }

  lemma {:induction false} CutsRise(cuts: seq<nat>, j: nat, k: nat)
    requires Rising(cuts) && j <= k < |cuts|
    ensures cuts[j] <= cuts[k]
  {
    if j < k {
      assert BlockFits(cuts, k - 1);
      CutsRise(cuts, j, k - 1);
    }
  }

  lemma {:induction false} BlockOf(cuts: seq<nat>, i: nat, k: nat) returns (j: nat)
    requires Rising(cuts) && k < |cuts| && cuts[0] <= i < cuts[k]
    ensures j < |cuts| - 1 && cuts[j] <= i < cuts[j + 1]
  {
    if cuts[k - 1] <= i { j := k - 1; } else { j := BlockOf(cuts, i, k - 1); }
  }

  lemma PartitionBlockVerdict(sha: Sha, rows: seq<Record>, cuts: seq<nat>, j: nat)
    requires Numbered(rows) && |rows| < U64_LIMIT && Partition(cuts, |rows|) && j + 1 < |cuts|
    ensures cuts[j + 1] <= |rows|
    ensures BlockAccepts(sha, rows, cuts, j)
            <==> forall i :: cuts[j] <= i < cuts[j + 1] ==> LinkedAt(sha, Genesis(sha), rows, i)
  {
    hide Content, RangeAccepts, LinkedAt;
    assert BlockFits(cuts, j);
    CutsRise(cuts, j + 1, |cuts| - 1);
    BlockVerdict(sha, rows, cuts[j], cuts[j + 1]);
  }

  /** Full verification accepts a numbered table exactly when range verification accepts every
      block of any partition of it. */
  lemma FullIffBlocks(sha: Sha, rows: seq<Record>, cuts: seq<nat>)
    requires Numbered(rows) && |rows| < U64_LIMIT && Partition(cuts, |rows|)
    ensures Accepts(sha, rows, None)
            <==> forall j :: 0 <= j < |cuts| - 1 ==> BlockAccepts(sha, rows, cuts, j)
  {
    hide Content, BlockAccepts, LinkedAt;
    var start, last := Genesis(sha), |cuts| - 1;
    if forall j :: 0 <= j < last ==> BlockAccepts(sha, rows, cuts, j) {
      forall i | 0 <= i < |rows| ensures LinkedAt(sha, start, rows, i) {
        var j := BlockOf(cuts, i, last);
        PartitionBlockVerdict(sha, rows, cuts, j);
      }
    }
    if Accepts(sha, rows, None) {
      forall j | 0 <= j < last ensures BlockAccepts(sha, rows, cuts, j) {
        PartitionBlockVerdict(sha, rows, cuts, j);
      }
    }
  }
}
