/** Audit events: categories, append inputs, stored records and their hashed fields. */
module AuditEvents {
  import opened Text
  import opened Canonical

  const MAX_METADATA_ENTRIES: nat := 64
  const MAX_METADATA_KEY_LENGTH: nat := 128
  const MAX_METADATA_VALUE_LENGTH: nat := 1024
  const MAX_RESOURCE_SUMMARY_LENGTH: nat := 2048
  const MAX_REASON_CODE_LENGTH: nat := 128
  const MAX_MATCHED_RULE_IDS: nat := 64
  const MAX_VERIFICATION_RANGE: nat := 100_000
  const SCHEMA_VERSION: nat := 1

  /** A SHA-256 value. The hash function itself is a parameter of the model. */
  type Digest = d: Bytes | |d| == 32 witness seq(32, _ => 0)

  datatype Category =
    | RequestReceived | RequestRejected | DecisionAllow | DecisionDeny
    | ApprovalRequested | ApprovalApproved | ApprovalDenied | ApprovalExpired | ApprovalConsumed
    | ExecutionStarted | ExecutionSucceeded | ExecutionFailed
    | PolicyLoaded | PolicyRejected | AuditVerification | SecurityWarning

  function Label(c: Category): (s: string)
  {
    match c
    case RequestReceived => "RequestReceived"
    case RequestRejected => "RequestRejected"
    case DecisionAllow => "DecisionAllow"
    case DecisionDeny => "DecisionDeny"
    case ApprovalRequested => "ApprovalRequested"
    case ApprovalApproved => "ApprovalApproved"
    case ApprovalDenied => "ApprovalDenied"
    case ApprovalExpired => "ApprovalExpired"
    case ApprovalConsumed => "ApprovalConsumed"
    case ExecutionStarted => "ExecutionStarted"
    case ExecutionSucceeded => "ExecutionSucceeded"
    case ExecutionFailed => "ExecutionFailed"
    case PolicyLoaded => "PolicyLoaded"
    case PolicyRejected => "PolicyRejected"
    case AuditVerification => "AuditVerification"
    case SecurityWarning => "SecurityWarning"
  }

  function Name(c: Category): (b: Bytes) { Ascii(Label(c)) }

  /** Length, first two bytes and bytes eight and nine identify a category. */
  lemma LabelFingerprint(c: Category)
    ensures |Label(c)| >= 10
    ensures (|Label(c)|, Label(c)[0] as int, Label(c)[1] as int, Label(c)[8] as int, Label(c)[9] as int) ==
      match c
      case RequestReceived => (15, 82, 101, 101, 99)
      case RequestRejected => (15, 82, 101, 101, 106)
      case DecisionAllow => (13, 68, 101, 65, 108)
      case DecisionDeny => (12, 68, 101, 68, 101)
      case ApprovalRequested => (17, 65, 112, 82, 101)
      case ApprovalApproved => (16, 65, 112, 65, 112)
      case ApprovalDenied => (14, 65, 112, 68, 101)
      case ApprovalExpired => (15, 65, 112, 69, 120)
      case ApprovalConsumed => (16, 65, 112, 67, 111)
      case ExecutionStarted => (16, 69, 120, 110, 83)
      case ExecutionSucceeded => (18, 69, 120, 110, 83)
      case ExecutionFailed => (15, 69, 120, 110, 70)
      case PolicyLoaded => (12, 80, 111, 97, 100)
      case PolicyRejected => (14, 80, 111, 106, 101)
      case AuditVerification => (17, 65, 117, 105, 102)
      case SecurityWarning => (15, 83, 101, 87, 97)
  {
  }

  lemma NameInjective(c: Category, d: Category)
    requires Name(c) == Name(d)
    ensures c == d
  {
    LabelFingerprint(c);
    LabelFingerprint(d);
    hide Label;
    assert forall i :: 0 <= i < |Name(c)| ==> Name(c)[i] == Name(d)[i];
    var s, t := Label(c), Label(d);
    assert Name(c)[0] == (s[0] as int % 256) as byte && Name(d)[0] == (t[0] as int % 256) as byte;
    assert Name(c)[1] == (s[1] as int % 256) as byte && Name(d)[1] == (t[1] as int % 256) as byte;
    assert Name(c)[8] == (s[8] as int % 256) as byte && Name(d)[8] == (t[8] as int % 256) as byte;
    assert Name(c)[9] == (s[9] as int % 256) as byte && Name(d)[9] == (t[9] as int % 256) as byte;
  }

  /** Ordered-map entries: strictly increasing keys. */
  predicate KeysIncreasing(m: seq<Entry>)
  {
    forall i, j :: 0 <= i < j < |m| ==> Less(m[i].key, m[j].key)
  }

  type Metadata = m: seq<Entry> | KeysIncreasing(m) witness []

  datatype AppendInput = AppendInput(
    category: Category,
    requestId: Option<Bytes>,
    agentId: Option<Bytes>,
    operation: Option<Bytes>,
    resourceKind: Option<Bytes>,
    resourceSummary: Option<Bytes>,
    decision: Option<Bytes>,
    reasonCode: Option<Bytes>,
    matchedRuleIds: seq<Bytes>,
    metadata: Metadata)

  datatype Record = Record(
    sequence: nat,
    eventId: Bytes,
    timestamp: Bytes,
    category: Category,
    requestId: Option<Bytes>,
    agentId: Option<Bytes>,
    operation: Option<Bytes>,
    resourceKind: Option<Bytes>,
    resourceSummary: Option<Bytes>,
    decision: Option<Bytes>,
    reasonCode: Option<Bytes>,
    matchedRuleIds: seq<Bytes>,
    metadata: Metadata,
    previousHash: Digest,
    currentHash: Digest)

  /** The fields of a stored record that are hashed. */
  function FieldsOf(r: Record): (f: Fields)
  {
    Fields(SCHEMA_VERSION, r.sequence, r.eventId, r.timestamp, Name(r.category), r.requestId, r.agentId, r.operation,
           r.resourceKind, r.resourceSummary, r.decision, r.reasonCode, r.matchedRuleIds, r.metadata)
  }

  function Content(r: Record): (b: Bytes) { Encoding(FieldsOf(r)) }

  /** The hashed bytes of a clean record decode to what the record says, field by field. */
  lemma ContentDecodes(r: Record)
    requires Clean(FieldsOf(r))
    ensures Decode(Content(r)).Some?
    ensures
      var f := Decode(Content(r)).value;
      && f.schemaVersion == 1 && f.sequence == r.sequence && f.eventId == r.eventId
      && f.timestamp == r.timestamp && f.category == Name(r.category)
      && f.requestId == r.requestId && f.agentId == r.agentId && f.operation == r.operation
      && f.resourceKind == r.resourceKind && f.resourceSummary == r.resourceSummary
      && f.decision == r.decision && f.reasonCode == r.reasonCode
      && f.matchedRuleIds == r.matchedRuleIds && f.metadata == r.metadata
  {
    hide Clean;
    RoundTrip(FieldsOf(r));
  }

  /** On clean records the hashed bytes and the two hashes determine the record. */
  lemma ContentInjective(r: Record, s: Record)
    requires Clean(FieldsOf(r)) && Clean(FieldsOf(s))
    requires Content(r) == Content(s)
    ensures r.(previousHash := s.previousHash, currentHash := s.currentHash) == s
  {
    EncodingInjective(FieldsOf(r), FieldsOf(s));
    NameInjective(r.category, s.category);
  }

  predicate Within(v: Option<Bytes>, limit: nat) { v.Some? ==> |v.value| <= limit }

  /** Every size limit of an append input. */
  predicate ValidInput(input: AppendInput)
  {
    && |input.metadata| <= 64
    && (forall i :: 0 <= i < |input.metadata| ==>
         |input.metadata[i].key| <= 128 && |input.metadata[i].value| <= 1024)
    && Within(input.resourceSummary, 2048)
    && Within(input.reasonCode, 128)
    && |input.matchedRuleIds| <= 64
    && [] !in input.matchedRuleIds
  }

  /** The limits that remain when the metadata are within theirs. */
  predicate Auditable(summary: Bytes, ruleIds: seq<Bytes>, reason: Option<Bytes>)
  {
    && |summary| <= MAX_RESOURCE_SUMMARY_LENGTH
    && Within(reason, MAX_REASON_CODE_LENGTH)
    && |ruleIds| <= MAX_MATCHED_RULE_IDS
    && [] !in ruleIds
  }

  lemma AuditableIsValid(input: AppendInput)
    requires input.resourceSummary.Some? && |input.metadata| <= MAX_METADATA_ENTRIES
    requires forall e :: e in input.metadata ==>
      |e.key| <= MAX_METADATA_KEY_LENGTH && |e.value| <= MAX_METADATA_VALUE_LENGTH
    ensures ValidInput(input) <==>
      Auditable(input.resourceSummary.value, input.matchedRuleIds, input.reasonCode)
  {
  }

  method Validate(input: AppendInput) returns (ok: bool)
    ensures ok <==> ValidInput(input)
  {
    if |input.metadata| > MAX_METADATA_ENTRIES { return false; }
    for i := 0 to |input.metadata|
      invariant forall j :: 0 <= j < i ==>
        |input.metadata[j].key| <= MAX_METADATA_KEY_LENGTH
        && |input.metadata[j].value| <= MAX_METADATA_VALUE_LENGTH
    {
      if |input.metadata[i].key| > MAX_METADATA_KEY_LENGTH { return false; }
      if |input.metadata[i].value| > MAX_METADATA_VALUE_LENGTH { return false; }
    }
    if input.resourceSummary.Some? && |input.resourceSummary.value| > MAX_RESOURCE_SUMMARY_LENGTH {
      return false;
    }
    if input.reasonCode.Some? && |input.reasonCode.value| > MAX_REASON_CODE_LENGTH { return false; }
    if |input.matchedRuleIds| > MAX_MATCHED_RULE_IDS { return false; }
    if [] in input.matchedRuleIds { return false; }
    return true;
  }
}
