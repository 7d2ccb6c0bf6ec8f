/** The canonical byte form of an audit event, and a decoder that inverts it. */
module Canonical {
  import opened Text

  datatype Entry = Entry(key: Bytes, value: Bytes)

  /** The fields that are hashed. An ordered map is its entry list. */
  datatype Fields = Fields(
    schemaVersion: nat,
    sequence: nat,
    eventId: Bytes,
    timestamp: Bytes,
    category: Bytes,
    requestId: Option<Bytes>,
    agentId: Option<Bytes>,
    operation: Option<Bytes>,
    resourceKind: Option<Bytes>,
    resourceSummary: Option<Bytes>,
    decision: Option<Bytes>,
    reasonCode: Option<Bytes>,
    matchedRuleIds: seq<Bytes>,
    metadata: seq<Entry>)

  const SCHEMA_VERSION_KEY := Ascii("schema_version")
  const SEQUENCE_KEY := Ascii("sequence")
  const EVENT_ID_KEY := Ascii("event_id")
  const TIMESTAMP_KEY := Ascii("timestamp")
  const CATEGORY_KEY := Ascii("category")
  const REQUEST_ID_KEY := Ascii("request_id")
  const AGENT_ID_KEY := Ascii("agent_id")
  const OPERATION_KEY := Ascii("operation")
  const RESOURCE_KIND_KEY := Ascii("resource_kind")
  const RESOURCE_SUMMARY_KEY := Ascii("resource_summary")
  const DECISION_KEY := Ascii("decision")
  const REASON_CODE_KEY := Ascii("reason_code")
  const RULE_IDS_KEY := Ascii("matched_rule_ids")
  const METADATA_KEY := Ascii("metadata")

  // ---- Encoding -------------------------------------------------------------

  /** Decimal text of a number. */
  function Decimal(n: nat): (b: Bytes)
  {
    if n < 10 then [(48 + n) as byte] else Decimal(n / 10) + [(48 + n % 10) as byte]
  }

  function Pair(key: Bytes, value: Bytes): (b: Bytes) { key + [COLON, SPACE] + value }

  function Line(key: Bytes, value: Bytes): (b: Bytes) { Pair(key, value) + [NL] }

  function OptLine(key: Bytes, value: Option<Bytes>): (b: Bytes)
  {
    if value.Some? then Line(key, value.value) else []
  }

  /** The items of the ID array from some position on; `comma` says whether an item came before. */
  function Items(ids: seq<Bytes>, comma: bool): (b: Bytes)
  {
    if ids == [] then [CLOSE]
    else Item(ids[0], comma) + Items(ids[1..], true)
  }

  function Item(id: Bytes, comma: bool): (b: Bytes)
  {
    ItemOpen(comma) + (id + [QUOTE])
  }

  function ItemOpen(comma: bool): (b: Bytes) { if comma then [COMMA, QUOTE] else [QUOTE] }

  function Array(key: Bytes, ids: seq<Bytes>): (b: Bytes)
  {
    Pair(key, [OPEN] + Items(ids, false)) + [NL]
  }

  function Entries(entries: seq<Entry>): (b: Bytes)
  {
    if entries == [] then []
    else EntryLine(entries[0]) + Entries(entries[1..])
  }

  function EntryLine(e: Entry): (b: Bytes) { [SPACE, SPACE] + Line(e.key, e.value) }

  /** The array of rule IDs and the metadata block. */
  function ListPart(f: Fields): (b: Bytes)
  {
    Array(RULE_IDS_KEY, f.matchedRuleIds) + (METADATA_KEY + [COLON, NL] + Entries(f.metadata))
  }

  /** The keys of the optional fields, and the key of the line after them. */
  const OPTIONAL_KEYS: seq<Bytes> :=
    [REQUEST_ID_KEY, AGENT_ID_KEY, OPERATION_KEY, RESOURCE_KIND_KEY, RESOURCE_SUMMARY_KEY, DECISION_KEY,
     REASON_CODE_KEY, RULE_IDS_KEY]

  function Optionals(f: Fields): (v: seq<Option<Bytes>>)
    ensures |v| == 7
  {
    [f.requestId, f.agentId, f.operation, f.resourceKind, f.resourceSummary, f.decision, f.reasonCode]
  }

  /** Optional lines from the `i`th on, each omitted when absent, and what follows them. */
  function OptLines(i: nat, keys: seq<Bytes>, values: seq<Option<Bytes>>, rest: Bytes): (b: Bytes)
    requires i <= |values| <= |keys|
    decreases |values| - i
  {
    if i == |values| then rest else OptLine(keys[i], values[i]) + OptLines(i + 1, keys, values, rest)
  }

  function OptionalPart(f: Fields): (b: Bytes)
  {
    OptLines(0, OPTIONAL_KEYS, Optionals(f), ListPart(f))
  }

  /** What `EncodeCanonical` produces. */
  function Encoding(f: Fields): (b: Bytes)
  {
    Line(SCHEMA_VERSION_KEY, Decimal(f.schemaVersion))
    + (Line(SEQUENCE_KEY, Decimal(f.sequence))
    + (Line(EVENT_ID_KEY, f.eventId)
    + (Line(TIMESTAMP_KEY, f.timestamp)
    + (Line(CATEGORY_KEY, f.category)
    + OptionalPart(f)))))
  }

  /** The growing byte buffer that every writer extends. */
  class Buffer {
    var bytes: Bytes

    constructor ()
      ensures bytes == []
    {
      bytes := [];
    }

    method WriteFmt(key: Bytes, value: Bytes)
      modifies this
      ensures bytes == old(bytes) + Line(key, value)
    {
      bytes := bytes + key;
      bytes := bytes + [COLON];
      bytes := bytes + [SPACE];
      bytes := bytes + value;
      bytes := bytes + [NL];
    }

    method WriteOpt(key: Bytes, value: Option<Bytes>)
      modifies this
      ensures bytes == old(bytes) + OptLine(key, value)
    {
      if value.Some? { WriteFmt(key, value.value); }
    }

    method WriteArray(key: Bytes, values: seq<Bytes>)
      modifies this
      ensures bytes == old(bytes) + Array(key, values)
    {
      bytes := bytes + key;
      bytes := bytes + [COLON, SPACE, OPEN];
      ghost var start := bytes;
      for i := 0 to |values|
        invariant bytes + Items(values[i..], i > 0) == start + Items(values, false)
      {
        ghost var before := bytes;
        WriteItem(values[i], i > 0);
        assert values[i..][1..] == values[i + 1..];
        Assoc(before, Item(values[i], i > 0), Items(values[i + 1..], true));
      }
      bytes := bytes + [CLOSE];
      assert bytes == start + Items(values, false);
      bytes := bytes + [NL];
      assert bytes == old(bytes) + Array(key, values);
    }

    method WriteItem(value: Bytes, comma: bool)
      modifies this
      ensures bytes == old(bytes) + Item(value, comma)
    {
      if comma { bytes := bytes + [COMMA]; }
      bytes := bytes + [QUOTE];
      bytes := bytes + value;
      bytes := bytes + [QUOTE];
    }

    method WriteMap(key: Bytes, entries: seq<Entry>)
      modifies this
      ensures bytes == old(bytes) + (key + [COLON, NL] + Entries(entries))
    {
      bytes := bytes + key;
      bytes := bytes + [COLON, NL];
      ghost var start := bytes;
      for i := 0 to |entries|
        invariant bytes + Entries(entries[i..]) == start + Entries(entries)
      {
        ghost var before := bytes;
        WriteEntry(entries[i]);
        assert entries[i..][1..] == entries[i + 1..];
        Assoc(before, EntryLine(entries[i]), Entries(entries[i + 1..]));
      }
      assert bytes == start + Entries(entries);
    }

    method WriteEntry(e: Entry)
      modifies this
      ensures bytes == old(bytes) + EntryLine(e)
    {
      bytes := bytes + [SPACE, SPACE];
      bytes := bytes + e.key;
      bytes := bytes + [COLON, SPACE];
      bytes := bytes + e.value;
      bytes := bytes + [NL];
    }
  }

  method EncodeCanonical(f: Fields) returns (b: Bytes)
    ensures b == Encoding(f)
  {
    var buf := new Buffer();
    buf.WriteFmt(SCHEMA_VERSION_KEY, Decimal(f.schemaVersion));
    buf.WriteFmt(SEQUENCE_KEY, Decimal(f.sequence));
    buf.WriteFmt(EVENT_ID_KEY, f.eventId);
    buf.WriteFmt(TIMESTAMP_KEY, f.timestamp);
    buf.WriteFmt(CATEGORY_KEY, f.category);
    ScalarsDone(f);
    ghost var scalars := buf.bytes;
    buf.WriteOpt(REQUEST_ID_KEY, f.requestId);
    buf.WriteOpt(AGENT_ID_KEY, f.agentId);
    buf.WriteOpt(OPERATION_KEY, f.operation);
    buf.WriteOpt(RESOURCE_KIND_KEY, f.resourceKind);
    buf.WriteOpt(RESOURCE_SUMMARY_KEY, f.resourceSummary);
    buf.WriteOpt(DECISION_KEY, f.decision);
    buf.WriteOpt(REASON_CODE_KEY, f.reasonCode);
    OptionalsDone(scalars, f);
    ghost var optionals := buf.bytes;
    buf.WriteArray(RULE_IDS_KEY, f.matchedRuleIds);
    buf.WriteMap(METADATA_KEY, f.metadata);
    Assoc(optionals, Array(RULE_IDS_KEY, f.matchedRuleIds), METADATA_KEY + [COLON, NL] + Entries(f.metadata));
    b := buf.bytes;
  }

  /** The scalar lines in writing order, followed by the rest, are the encoding. */
  lemma ScalarsDone(f: Fields)
    ensures [] + Line(SCHEMA_VERSION_KEY, Decimal(f.schemaVersion))
            + Line(SEQUENCE_KEY, Decimal(f.sequence))
            + Line(EVENT_ID_KEY, f.eventId)
            + Line(TIMESTAMP_KEY, f.timestamp)
            + Line(CATEGORY_KEY, f.category)
            + OptionalPart(f) == Encoding(f)
  {
    hide Line, Decimal, OptionalPart;
    var l1, l2, l3, l4, l5 :=
      Line(SCHEMA_VERSION_KEY, Decimal(f.schemaVersion)), Line(SEQUENCE_KEY, Decimal(f.sequence)),
      Line(EVENT_ID_KEY, f.eventId), Line(TIMESTAMP_KEY, f.timestamp), Line(CATEGORY_KEY, f.category);
    Regroup([], l1, l2, l3, l4, l5, OptionalPart(f));
    assert [] + Encoding(f) == Encoding(f);
  }

  lemma OptionalsDone(done: Bytes, f: Fields)
    ensures done + OptLine(REQUEST_ID_KEY, f.requestId)
            + OptLine(AGENT_ID_KEY, f.agentId)
            + OptLine(OPERATION_KEY, f.operation)
            + OptLine(RESOURCE_KIND_KEY, f.resourceKind)
            + OptLine(RESOURCE_SUMMARY_KEY, f.resourceSummary)
            + OptLine(DECISION_KEY, f.decision)
            + OptLine(REASON_CODE_KEY, f.reasonCode)
            + ListPart(f) == done + OptionalPart(f)
  {
    var l1, l2, l3, l4, l5, l6, l7 :=
      OptLine(REQUEST_ID_KEY, f.requestId), OptLine(AGENT_ID_KEY, f.agentId),
      OptLine(OPERATION_KEY, f.operation), OptLine(RESOURCE_KIND_KEY, f.resourceKind),
      OptLine(RESOURCE_SUMMARY_KEY, f.resourceSummary), OptLine(DECISION_KEY, f.decision),
      OptLine(REASON_CODE_KEY, f.reasonCode);
    OptionalUnrolled(f);
    Assoc(done + l1 + l2 + l3 + l4 + l5 + l6, l7, ListPart(f));
    Assoc(done + l1 + l2 + l3 + l4 + l5, l6, l7 + ListPart(f));
    Regroup(done, l1, l2, l3, l4, l5, l6 + (l7 + ListPart(f)));
  }

  lemma OptionalUnrolled(f: Fields)
    ensures OptionalPart(f) ==
            OptLine(REQUEST_ID_KEY, f.requestId)
            + (OptLine(AGENT_ID_KEY, f.agentId)
            + (OptLine(OPERATION_KEY, f.operation)
            + (OptLine(RESOURCE_KIND_KEY, f.resourceKind)
            + (OptLine(RESOURCE_SUMMARY_KEY, f.resourceSummary)
            + (OptLine(DECISION_KEY, f.decision)
            + (OptLine(REASON_CODE_KEY, f.reasonCode)
            + ListPart(f)))))))
  {
    var keys, values, rest := OPTIONAL_KEYS, Optionals(f), ListPart(f);
    assert OptLines(7, keys, values, rest) == rest;
    assert OptLines(6, keys, values, rest) == OptLine(keys[6], values[6]) + OptLines(7, keys, values, rest);
    assert OptLines(5, keys, values, rest) == OptLine(keys[5], values[5]) + OptLines(6, keys, values, rest);
    assert OptLines(4, keys, values, rest) == OptLine(keys[4], values[4]) + OptLines(5, keys, values, rest);
    assert OptLines(3, keys, values, rest) == OptLine(keys[3], values[3]) + OptLines(4, keys, values, rest);
    assert OptLines(2, keys, values, rest) == OptLine(keys[2], values[2]) + OptLines(3, keys, values, rest);
    assert OptLines(1, keys, values, rest) == OptLine(keys[1], values[1]) + OptLines(2, keys, values, rest);
  }

  lemma Regroup(a: Bytes, b: Bytes, c: Bytes, d: Bytes, e: Bytes, g: Bytes, rest: Bytes)
    ensures a + b + c + d + e + g + rest == a + (b + (c + (d + (e + (g + rest)))))
  {
    Assoc(a + b + c + d + e, g, rest);
    Assoc(a + b + c + d, e, g + rest);
    Assoc(a + b + c, d, e + (g + rest));
    Assoc(a + b, c, d + (e + (g + rest)));
    Assoc(a, b, c + (d + (e + (g + rest))));
  }

  // ---- Decoding -------------------------------------------------------------

  function Number(b: Bytes): (n: nat)
  {
    if b == [] then 0
    else
      var last := b[|b| - 1] as int;
      10 * Number(b[..|b| - 1]) + (if last < 48 then 0 else last - 48)
  }

  predicate HasKey(b: Bytes, key: Bytes) { HasPrefix(b, key + [COLON, SPACE]) }

  /** Reads one `key: value` line. */
  function ReadLine(key: Bytes, b: Bytes): (r: Option<(Bytes, Bytes)>)
  {
    if !HasKey(b, key) then None
    else
      var tail := b[|key| + 2..];
      var n := Find(NL, tail);
      if n == |tail| then None else Some((tail[..n], tail[n + 1..]))
  }

  /** Reads the line of an optional field if it comes next. */
  function ReadOpt(key: Bytes, b: Bytes): (r: Option<(Option<Bytes>, Bytes)>)
  {
    if !HasKey(b, key) then Some((None, b))
    else
      var (v, rest) :- ReadLine(key, b);
      Some((Some(v), rest))
  }

  function ReadItems(b: Bytes, comma: bool): (r: Option<seq<Bytes>>)
    decreases |b|
  {
    if b == [CLOSE] then Some([])
    else
      var open := ItemOpen(comma);
      if !HasPrefix(b, open) then None
      else
        var tail := b[|open|..];
        var n := Find(QUOTE, tail);
        if n == |tail| then None
        else
          var ids :- ReadItems(tail[n + 1..], true);
          Some([tail[..n]] + ids)
  }

  function ReadArray(key: Bytes, b: Bytes): (r: Option<(seq<Bytes>, Bytes)>)
  {
    var (v, rest) :- ReadLine(key, b);
    if !HasPrefix(v, [OPEN]) then None
    else
      var ids :- ReadItems(v[1..], false);
      Some((ids, rest))
  }

  function ReadEntries(b: Bytes): (r: Option<seq<Entry>>)
    decreases |b|
  {
    if b == [] then Some([])
    else if !HasPrefix(b, [SPACE, SPACE]) then None
    else
      var k := Find(COLON, b[2..]);
      var (v, rest) :- ReadLine(b[2..][..k], b[2..]);
      var entries :- ReadEntries(rest);
      Some([Entry(b[2..][..k], v)] + entries)
  }

  function ReadMap(key: Bytes, b: Bytes): (r: Option<seq<Entry>>)
  {
    if HasPrefix(b, key + [COLON, NL]) then ReadEntries(b[|key| + 2..]) else None
  }

  function ReadOpts(i: nat, n: nat, keys: seq<Bytes>, b: Bytes): (r: Option<(seq<Option<Bytes>>, Bytes)>)
    requires i <= n <= |keys|
    ensures r.Some? ==> |r.value.0| == n - i
    decreases n - i
  {
    if i == n then Some(([], b))
    else
      var (v, next) :- ReadOpt(keys[i], b);
      var (vs, rest) :- ReadOpts(i + 1, n, keys, next);
      Some(([v] + vs, rest))
  }

  function ReadLists(b: Bytes): (r: Option<(seq<Bytes>, seq<Entry>)>)
  {
    var (ids, rest) :- ReadArray(RULE_IDS_KEY, b);
    var metadata :- ReadMap(METADATA_KEY, rest);
    Some((ids, metadata))
  }

  function Decode(b0: Bytes): (r: Option<Fields>)
  {
    var (schemaVersion, b1) :- ReadLine(SCHEMA_VERSION_KEY, b0);
    var (sequence, b2) :- ReadLine(SEQUENCE_KEY, b1);
    var (eventId, b3) :- ReadLine(EVENT_ID_KEY, b2);
    var (timestamp, b4) :- ReadLine(TIMESTAMP_KEY, b3);
    var (category, b5) :- ReadLine(CATEGORY_KEY, b4);
    var (o, b6) :- ReadOpts(0, 7, OPTIONAL_KEYS, b5);
    var (ids, metadata) :- ReadLists(b6);
    Some(Fields(Number(schemaVersion), Number(sequence), eventId, timestamp, category,
                o[0], o[1], o[2], o[3], o[4], o[5], o[6], ids, metadata))
  }

  // ---- The format, in words -----------------------------------------------------

  function Named(key: string, value: Bytes): (b: Bytes) { Ascii(key) + Ascii(": ") + value + Ascii("\n") }

  function NamedOpt(key: string, value: Option<Bytes>): (b: Bytes)
  {
    match value
    case Some(v) => Named(key, v)
    case None => []
  }

  lemma NamedIsLine(key: string, value: Option<Bytes>)
    ensures value.Some? ==> Named(key, value.value) == Line(Ascii(key), value.value)
    ensures NamedOpt(key, value) == OptLine(Ascii(key), value)
  {
    assert Ascii(": ") == [COLON, SPACE] && Ascii("\n") == [NL];
  }

  /** The fields in order, each under its own name; absent optional fields take no line. */
  lemma EncodingFormat(f: Fields)
    ensures Encoding(f) ==
      Named("schema_version", Decimal(f.schemaVersion)) + (Named("sequence", Decimal(f.sequence))
      + (Named("event_id", f.eventId) + (Named("timestamp", f.timestamp) + (Named("category", f.category)
      + (NamedOpt("request_id", f.requestId) + (NamedOpt("agent_id", f.agentId)
      + (NamedOpt("operation", f.operation) + (NamedOpt("resource_kind", f.resourceKind)
      + (NamedOpt("resource_summary", f.resourceSummary) + (NamedOpt("decision", f.decision)
      + (NamedOpt("reason_code", f.reasonCode)
      + (Named("matched_rule_ids", Ascii("[") + Items(f.matchedRuleIds, false))
      + (Ascii("metadata:\n") + Entries(f.metadata))))))))))))))
  {
    NamedIsLine("schema_version", Some(Decimal(f.schemaVersion)));
    NamedIsLine("sequence", Some(Decimal(f.sequence)));
    NamedIsLine("event_id", Some(f.eventId));
    NamedIsLine("timestamp", Some(f.timestamp));
    NamedIsLine("category", Some(f.category));
    NamedIsLine("request_id", f.requestId);
    NamedIsLine("agent_id", f.agentId);
    NamedIsLine("operation", f.operation);
    NamedIsLine("resource_kind", f.resourceKind);
    NamedIsLine("resource_summary", f.resourceSummary);
    NamedIsLine("decision", f.decision);
    NamedIsLine("reason_code", f.reasonCode);
    OptionalUnrolled(f);
    ListFormat(f);
    hide Named, NamedOpt, Line, OptLine, ListPart, OptionalPart, Decimal, Items, Entries;
  }

  lemma ListFormat(f: Fields)
    ensures ListPart(f) == Named("matched_rule_ids", Ascii("[") + Items(f.matchedRuleIds, false))
                           + (Ascii("metadata:\n") + Entries(f.metadata))
  {
    hide Items, Entries;
    NamedIsLine("matched_rule_ids", Some(Ascii("[") + Items(f.matchedRuleIds, false)));
    assert Ascii("[") == [OPEN];
    var header := Ascii("metadata:\n");
    assert header[..8] == METADATA_KEY && header == METADATA_KEY + [COLON, NL];
  }

  // ---- Round trip -----------------------------------------------------------

  predicate CleanOpt(v: Option<Bytes>) { v.Some? ==> NL !in v.value }

  /** No newline in a value or rule ID, no quote in a rule ID, no colon in a metadata key. */
  predicate Clean(f: Fields)
  {
    && NL !in f.eventId && NL !in f.timestamp && NL !in f.category
    && CleanOpt(f.requestId) && CleanOpt(f.agentId) && CleanOpt(f.operation)
    && CleanOpt(f.resourceKind) && CleanOpt(f.resourceSummary)
    && CleanOpt(f.decision) && CleanOpt(f.reasonCode)
    && CleanIds(f.matchedRuleIds) && CleanEntries(f.metadata)
  }

  predicate CleanIds(ids: seq<Bytes>)
  {
    forall id :: id in ids ==> NL !in id && QUOTE !in id
  }

  predicate CleanEntries(entries: seq<Entry>)
  {
    forall e :: e in entries ==> COLON !in e.key && NL !in e.value
  }

  lemma {:induction false} DecimalRoundTrip(n: nat)
    ensures Number(Decimal(n)) == n
    ensures NL !in Decimal(n)
  {
    if n >= 10 {
      DecimalRoundTrip(n / 10);
      var d := Decimal(n);
      assert d[..|d| - 1] == Decimal(n / 10);
    } else {
      assert Decimal(n)[..0] == [];
    }
  }

  lemma LineRoundTrip(key: Bytes, v: Bytes, rest: Bytes)
    requires NL !in v
    ensures ReadLine(key, Line(key, v) + rest) == Some((v, rest))
    ensures HasKey(Line(key, v) + rest, key)
  {
    var b := Line(key, v) + rest;
    assert b[..|key| + 2] == key + [COLON, SPACE];
    var tail := v + [NL] + rest;
    assert b[|key| + 2..] == tail;
    FindAt(NL, v, rest);
    assert tail[..|v|] == v && tail[|v| + 1..] == rest;
  }

  lemma OptRoundTrip(key: Bytes, v: Option<Bytes>, rest: Bytes)
    requires CleanOpt(v)
    requires !HasKey(rest, key)
    ensures ReadOpt(key, OptLine(key, v) + rest) == Some((v, rest))
  {
    if v.Some? {
      LineRoundTrip(key, v.value, rest);
    } else {
      assert OptLine(key, v) + rest == rest;
    }
  }

  /** The text before the first colon decides which key a line has. */
  lemma OneKey(b: Bytes, k: Bytes, k': Bytes)
    requires COLON !in k && COLON !in k' && k != k'
    requires HasKey(b, k)
    ensures !HasKey(b, k')
  {
    if HasKey(b, k') {
      KeyIsFound(b, k);
      KeyIsFound(b, k');
    }
  }

  lemma KeyIsFound(b: Bytes, k: Bytes)
    requires COLON !in k && HasKey(b, k)
    ensures Find(COLON, b) == |k| && b[..|k|] == k
  {
    var p := k + [COLON, SPACE];
    assert b == p + b[|p|..];
    assert b == k + [COLON] + ([SPACE] + b[|p|..]);
    FindAt(COLON, k, [SPACE] + b[|p|..]);
  }

  /** `b` starts with a line of one of `keys`. */
  ghost predicate StartsWith(b: Bytes, keys: seq<Bytes>)
  {
    exists k :: k in keys && COLON !in k && HasKey(b, k)
  }

  lemma StartsWithOpt(key: Bytes, v: Option<Bytes>, rest: Bytes, keys: seq<Bytes>)
    requires COLON !in key && StartsWith(rest, keys)
    ensures StartsWith(OptLine(key, v) + rest, [key] + keys)
  {
    var b := OptLine(key, v) + rest;
    if v.Some? {
      assert b[..|key| + 2] == key + [COLON, SPACE];
      assert HasKey(b, key);
    } else {
      assert b == rest;
      var k :| k in keys && COLON !in k && HasKey(rest, k);
      assert k in [key] + keys;
    }
  }

  lemma NotAmong(b: Bytes, keys: seq<Bytes>, key: Bytes)
    requires StartsWith(b, keys) && COLON !in key && key !in keys
    ensures !HasKey(b, key)
  {
    var k :| k in keys && COLON !in k && HasKey(b, k);
    OneKey(b, k, key);
  }

  lemma {:induction false} ItemsRoundTrip(ids: seq<Bytes>, comma: bool)
    requires CleanIds(ids)
    ensures ReadItems(Items(ids, comma), comma) == Some(ids)
    ensures NL !in Items(ids, comma)
  {
    if ids != [] {
      ItemsRoundTrip(ids[1..], true);
      ItemRoundTrip(ids[0], comma, Items(ids[1..], true));
      assert ids == [ids[0]] + ids[1..];
    }
  }

  lemma ItemRoundTrip(id: Bytes, comma: bool, rest: Bytes)
    requires NL !in id && QUOTE !in id && NL !in rest
    ensures
      var b := Item(id, comma) + rest;
      && b != [CLOSE] && NL !in b && HasPrefix(b, ItemOpen(comma))
      && var tail := b[|ItemOpen(comma)|..];
      && Find(QUOTE, tail) == |id| < |tail| && tail[..|id|] == id && tail[|id| + 1..] == rest
  {
    var open, tail := ItemOpen(comma), id + [QUOTE] + rest;
    Assoc(open, id + [QUOTE], rest);
    var b := open + tail;
    assert b == Item(id, comma) + rest;
    assert b[..|open|] == open && b[|open|..] == tail;
    FindAt(QUOTE, id, rest);
    assert tail[..|id|] == id && tail[|id| + 1..] == rest;
    assert b[0] == open[0];
  }

  lemma ArrayRoundTrip(key: Bytes, ids: seq<Bytes>, rest: Bytes)
    requires CleanIds(ids)
    ensures ReadArray(key, Array(key, ids) + rest) == Some((ids, rest))
    ensures HasKey(Array(key, ids) + rest, key)
  {
    ItemsRoundTrip(ids, false);
    var v := [OPEN] + Items(ids, false);
    assert v[1..] == Items(ids, false);
    LineRoundTrip(key, v, rest);
  }

  lemma {:induction false} EntriesRoundTrip(entries: seq<Entry>)
    requires CleanEntries(entries)
    ensures ReadEntries(Entries(entries)) == Some(entries)
  {
    if entries != [] {
      EntriesRoundTrip(entries[1..]);
      EntryRoundTrip(entries[0], Entries(entries[1..]));
      assert entries == [entries[0]] + entries[1..];
    }
  }

  lemma EntryRoundTrip(e: Entry, rest: Bytes)
    requires COLON !in e.key && NL !in e.value
    ensures
      var b := EntryLine(e) + rest;
      && b != [] && HasPrefix(b, [SPACE, SPACE])
      && Find(COLON, b[2..]) == |e.key| <= |b[2..]| && b[2..][..|e.key|] == e.key
      && ReadLine(e.key, b[2..]) == Some((e.value, rest))
  {
    var b := EntryLine(e) + rest;
    var tail := Line(e.key, e.value) + rest;
    Assoc([SPACE, SPACE], Line(e.key, e.value), rest);
    assert b == [SPACE, SPACE] + tail;
    assert b[..2] == [SPACE, SPACE] && b[2..] == tail;
    LineRoundTrip(e.key, e.value, rest);
    KeyIsFound(tail, e.key);
  }

  lemma MapRoundTrip(key: Bytes, entries: seq<Entry>)
    requires CleanEntries(entries)
    ensures ReadMap(key, key + [COLON, NL] + Entries(entries)) == Some(entries)
  {
    var b := key + [COLON, NL] + Entries(entries);
    assert b[..|key| + 2] == key + [COLON, NL];
    assert b[|key| + 2..] == Entries(entries);
    EntriesRoundTrip(entries);
  }

  predicate GoodKeys(keys: seq<Bytes>)
  {
    && (forall i :: 0 <= i < |keys| ==> COLON !in keys[i])
    && (forall i, j :: 0 <= i < j < |keys| ==> keys[i] != keys[j])
  }

  lemma KeysHaveNoColon()
    ensures COLON !in REQUEST_ID_KEY && COLON !in AGENT_ID_KEY && COLON !in OPERATION_KEY
    ensures COLON !in RESOURCE_KIND_KEY && COLON !in RESOURCE_SUMMARY_KEY && COLON !in DECISION_KEY
    ensures COLON !in REASON_CODE_KEY && COLON !in RULE_IDS_KEY
  {
  }

  /** Keys of equal length differ in their first byte. */
  lemma KeysDiffer()
    ensures |REQUEST_ID_KEY| == 10 && |AGENT_ID_KEY| == 8 && |OPERATION_KEY| == 9
    ensures |RESOURCE_KIND_KEY| == 13 && |RESOURCE_SUMMARY_KEY| == 16 && |DECISION_KEY| == 8
    ensures |REASON_CODE_KEY| == 11 && |RULE_IDS_KEY| == 16
    ensures AGENT_ID_KEY != DECISION_KEY && RESOURCE_SUMMARY_KEY != RULE_IDS_KEY
  {
    assert AGENT_ID_KEY[0] != DECISION_KEY[0];
    assert RESOURCE_SUMMARY_KEY[0] != RULE_IDS_KEY[0];
  }

  lemma KeysAreGood()
    ensures GoodKeys(OPTIONAL_KEYS)
  {
    KeysHaveNoColon();
    KeysDiffer();
    EightGoodKeys(REQUEST_ID_KEY, AGENT_ID_KEY, OPERATION_KEY, RESOURCE_KIND_KEY, RESOURCE_SUMMARY_KEY,
                  DECISION_KEY, REASON_CODE_KEY, RULE_IDS_KEY);
  }

  lemma EightGoodKeys(a: Bytes, b: Bytes, c: Bytes, d: Bytes, e: Bytes, f: Bytes, g: Bytes, h: Bytes)
    requires COLON !in a && COLON !in b && COLON !in c && COLON !in d
    requires COLON !in e && COLON !in f && COLON !in g && COLON !in h
    requires |a| == 10 && |b| == 8 && |c| == 9 && |d| == 13 && |e| == 16 && |f| == 8 && |g| == 11 && |h| == 16
    requires b != f && e != h
    ensures GoodKeys([a, b, c, d, e, f, g, h])
  {
  }

  lemma {:induction false} OptsStart(i: nat, keys: seq<Bytes>, values: seq<Option<Bytes>>, rest: Bytes)
    requires i <= |values| < |keys|
    requires GoodKeys(keys) && HasKey(rest, keys[|values|])
    ensures StartsWith(OptLines(i, keys, values, rest), keys[i..])
    decreases |values| - i
  {
    if i < |values| {
      OptsStart(i + 1, keys, values, rest);
      StartsWithOpt(keys[i], values[i], OptLines(i + 1, keys, values, rest), keys[i + 1..]);
      assert keys[i..] == [keys[i]] + keys[i + 1..];
    } else {
      assert keys[i] in keys[i..];
    }
  }

  /** Reading the optional lines gives back exactly the present fields. */
  lemma {:induction false} OptsRoundTrip(i: nat, keys: seq<Bytes>, values: seq<Option<Bytes>>, rest: Bytes)
    requires i <= |values| < |keys|
    requires GoodKeys(keys) && HasKey(rest, keys[|values|])
    requires forall v :: v in values ==> CleanOpt(v)
    ensures ReadOpts(i, |values|, keys, OptLines(i, keys, values, rest)) == Some((values[i..], rest))
    decreases |values| - i
  {
    hide ReadOpt, OptLine, CleanOpt, HasKey, GoodKeys;
    if i < |values| {
      OptsRoundTrip(i + 1, keys, values, rest);
      var next := OptLines(i + 1, keys, values, rest);
      NextKeyDiffers(i, keys, values, rest);
      OptRoundTrip(keys[i], values[i], next);
      assert values[i..] == [values[i]] + values[i + 1..];
    }
  }

  lemma NextKeyDiffers(i: nat, keys: seq<Bytes>, values: seq<Option<Bytes>>, rest: Bytes)
    requires i < |values| < |keys|
    requires GoodKeys(keys) && HasKey(rest, keys[|values|])
    ensures !HasKey(OptLines(i + 1, keys, values, rest), keys[i])
  {
    OptsStart(i + 1, keys, values, rest);
    assert keys[i] !in keys[i + 1..];
    NotAmong(OptLines(i + 1, keys, values, rest), keys[i + 1..], keys[i]);
  }

  lemma OptionalsRoundTrip(f: Fields)
    requires Clean(f) && HasKey(ListPart(f), RULE_IDS_KEY)
    ensures ReadOpts(0, 7, OPTIONAL_KEYS, OptionalPart(f)) == Some((Optionals(f), ListPart(f)))
  {
    KeysAreGood();
    var keys, values := OPTIONAL_KEYS, Optionals(f);
    assert keys[7] == RULE_IDS_KEY;
    OptsRoundTrip(0, keys, values, ListPart(f));
    assert values[0..] == values;
  }

  lemma ListRoundTrip(f: Fields)
    requires Clean(f)
    ensures HasKey(ListPart(f), RULE_IDS_KEY)
    ensures ReadLists(ListPart(f)) == Some((f.matchedRuleIds, f.metadata))
  {
    var rest := METADATA_KEY + [COLON, NL] + Entries(f.metadata);
    ArrayRoundTrip(RULE_IDS_KEY, f.matchedRuleIds, rest);
    MapRoundTrip(METADATA_KEY, f.metadata);
  }

  /** The decoder inverts the encoder on every clean event. */
  lemma RoundTrip(f: Fields)
    requires Clean(f)
    ensures Decode(Encoding(f)) == Some(f)
  {
    DecimalRoundTrip(f.schemaVersion);
    DecimalRoundTrip(f.sequence);
    var b5 := OptionalPart(f);
    LineRoundTrip(CATEGORY_KEY, f.category, b5);
    var b4 := Line(CATEGORY_KEY, f.category) + b5;
    LineRoundTrip(TIMESTAMP_KEY, f.timestamp, b4);
    var b3 := Line(TIMESTAMP_KEY, f.timestamp) + b4;
    LineRoundTrip(EVENT_ID_KEY, f.eventId, b3);
    var b2 := Line(EVENT_ID_KEY, f.eventId) + b3;
    LineRoundTrip(SEQUENCE_KEY, Decimal(f.sequence), b2);
    var b1 := Line(SEQUENCE_KEY, Decimal(f.sequence)) + b2;
    LineRoundTrip(SCHEMA_VERSION_KEY, Decimal(f.schemaVersion), b1);
    ListRoundTrip(f);
    OptionalsRoundTrip(f);
  }

  lemma {:induction false} ReadItemsClean(b: Bytes, comma: bool)
    requires NL !in b
    ensures var r := ReadItems(b, comma); r.Some? ==> CleanIds(r.value)
    decreases |b|
  {
    var open := ItemOpen(comma);
    if b != [CLOSE] && HasPrefix(b, open) {
      var tail := b[|open|..];
      var n := Find(QUOTE, tail);
      if n < |tail| {
        SliceAvoids(NL, b, |open|, |open| + n);
        SliceAvoids(NL, b, |open| + n + 1, |b|);
        assert tail[n + 1..] == b[|open| + n + 1..|b|] && tail[..n] == b[|open|..|open| + n];
        ReadItemsClean(tail[n + 1..], true);
      }
    }
  }

  lemma {:induction false} ReadEntriesClean(b: Bytes)
    ensures var r := ReadEntries(b); r.Some? ==> CleanEntries(r.value)
    decreases |b|
  {
    if HasPrefix(b, [SPACE, SPACE]) {
      var k := Find(COLON, b[2..]);
      var r := ReadLine(b[2..][..k], b[2..]);
      if r.Some? { ReadEntriesClean(r.value.1); }
    }
  }

  lemma {:induction false} ReadOptsClean(i: nat, n: nat, keys: seq<Bytes>, b: Bytes)
    requires i <= n <= |keys|
    ensures var r := ReadOpts(i, n, keys, b); r.Some? ==> forall v :: v in r.value.0 ==> CleanOpt(v)
    decreases n - i
  {
    if i < n {
      var r := ReadOpt(keys[i], b);
      if r.Some? { ReadOptsClean(i + 1, n, keys, r.value.1); }
    }
  }

  lemma ReadListsClean(b: Bytes)
    ensures var r := ReadLists(b); r.Some? ==> CleanIds(r.value.0) && CleanEntries(r.value.1)
  {
    var line := ReadLine(RULE_IDS_KEY, b);
    if line.Some? && HasPrefix(line.value.0, [OPEN]) {
      ReadItemsClean(line.value.0[1..], false);
      var rest := line.value.1;
      if HasPrefix(rest, METADATA_KEY + [COLON, NL]) { ReadEntriesClean(rest[|METADATA_KEY| + 2..]); }
    }
  }

  /** The decoder only produces clean events, so it inverts the encoder exactly on those. */
  lemma DecodedIsClean(b0: Bytes)
    ensures Decode(b0).Some? ==> Clean(Decode(b0).value)
  {
    if Decode(b0).Some? {
      var b1 := ReadLine(SCHEMA_VERSION_KEY, b0).value.1;
      var b2 := ReadLine(SEQUENCE_KEY, b1).value.1;
      var b3 := ReadLine(EVENT_ID_KEY, b2).value.1;
      var b4 := ReadLine(TIMESTAMP_KEY, b3).value.1;
      var b5 := ReadLine(CATEGORY_KEY, b4).value.1;
      var o := ReadOpts(0, 7, OPTIONAL_KEYS, b5).value;
      ReadOptsClean(0, 7, OPTIONAL_KEYS, b5);
      ReadListsClean(o.1);
    }
  }

  lemma RoundTripExact(f: Fields)
    ensures Decode(Encoding(f)) == Some(f) <==> Clean(f)
  {
    DecodedIsClean(Encoding(f));
    if Clean(f) { RoundTrip(f); }
  }

  lemma EncodingInjective(f: Fields, g: Fields)
    requires Clean(f) && Clean(g)
    requires Encoding(f) == Encoding(g)
    ensures f == g
  {
    RoundTrip(f);
    RoundTrip(g);
  }

  // ---- Each condition is needed ----------------------------------------------

  /** The event with other optional fields, in the order of their keys. */
  function WithOptionals(f: Fields, v: seq<Option<Bytes>>): (g: Fields)
    requires |v| == 7
    ensures Optionals(g) == v && ListPart(g) == ListPart(f)
  {
    f.(requestId := v[0], agentId := v[1], operation := v[2], resourceKind := v[3], resourceSummary := v[4],
       decision := v[5], reasonCode := v[6])
  }

  lemma {:induction false} OptLinesCollide(j: nat, keys: seq<Bytes>, u: seq<Option<Bytes>>, v: seq<Option<Bytes>>,
                                           rest: Bytes, i: nat)
    requires j <= i && i + 2 <= |u| == |v| <= |keys|
    requires OptLine(keys[i], u[i]) + OptLine(keys[i + 1], u[i + 1])
             == OptLine(keys[i], v[i]) + OptLine(keys[i + 1], v[i + 1])
    requires forall k :: 0 <= k < |u| && k != i && k != i + 1 ==> u[k] == v[k]
    ensures OptLines(j, keys, u, rest) == OptLines(j, keys, v, rest)
    decreases |u| - j
  {
    hide OptLine;
    if j < i {
      OptLinesCollide(j + 1, keys, u, v, rest, i);
    } else {
      var tail := OptLines(i + 2, keys, u, rest);
      SameTail(i + 2, keys, u, v, rest);
      Assoc(OptLine(keys[i], u[i]), OptLine(keys[i + 1], u[i + 1]), tail);
      Assoc(OptLine(keys[i], v[i]), OptLine(keys[i + 1], v[i + 1]), tail);
    }
  }

  lemma {:induction false} SameTail(j: nat, keys: seq<Bytes>, u: seq<Option<Bytes>>, v: seq<Option<Bytes>>,
                                    rest: Bytes)
    requires j <= |u| == |v| <= |keys| && forall k :: j <= k < |u| ==> u[k] == v[k]
    ensures OptLines(j, keys, u, rest) == OptLines(j, keys, v, rest)
    decreases |u| - j
  {
    if j < |u| { SameTail(j + 1, keys, u, v, rest); }
  }

  /** A newline in an optional value can hide the optional field that follows it. */
  lemma NewlineCollides(f: Fields, v: seq<Option<Bytes>>, i: nat, a: Bytes, b: Bytes)
    requires |v| == 7 && i < 6
    ensures
      var hidden := WithOptionals(f, v[i := Some(a + [NL] + Pair(OPTIONAL_KEYS[i + 1], b))][i + 1 := None]);
      var plain := WithOptionals(f, v[i := Some(a)][i + 1 := Some(b)]);
      hidden != plain && Encoding(hidden) == Encoding(plain)
  {
    hide WithOptionals;
    var keys := OPTIONAL_KEYS;
    var x, y := v[i := Some(a + [NL] + Pair(keys[i + 1], b))][i + 1 := None], v[i := Some(a)][i + 1 := Some(b)];
    var hidden, plain := WithOptionals(f, x), WithOptionals(f, y);
    assert Optionals(hidden)[i + 1].None? && Optionals(plain)[i + 1].Some?;
    assert Line(keys[i], a + [NL] + Pair(keys[i + 1], b)) + [] == Line(keys[i], a) + Line(keys[i + 1], b);
    OptLinesCollide(0, keys, x, y, ListPart(f), i);
    SameFront(f, x, y);
  }

  lemma SameFront(f: Fields, x: seq<Option<Bytes>>, y: seq<Option<Bytes>>)
    requires |x| == |y| == 7
    requires OptLines(0, OPTIONAL_KEYS, x, ListPart(f)) == OptLines(0, OPTIONAL_KEYS, y, ListPart(f))
    ensures Encoding(WithOptionals(f, x)) == Encoding(WithOptionals(f, y))
  {
    hide OptLines, ListPart, Line, Decimal;
  }

  /** The metadata header, without its line end. */
  const METADATA_HEADER := METADATA_KEY + [COLON]

  function ArrayText(ids: seq<Bytes>): (b: Bytes) { Pair(RULE_IDS_KEY, [OPEN] + Items(ids, false)) }

  /** A newline in the reason code, the last optional value, can hide the lists that follow it, behind a
      newline in a metadata value. */
  lemma ReasonNewlineCollides(f: Fields, a: Bytes, e: Entry, x: seq<Bytes>, y: seq<Bytes>)
    ensures
      var moved := [NL] + ArrayText(x) + [NL] + METADATA_HEADER + [NL, SPACE, SPACE] + Pair(e.key, e.value);
      var stays := [NL] + ArrayText(y) + [NL] + METADATA_HEADER;
      var hidden := f.(reasonCode := Some(a + moved), matchedRuleIds := y, metadata := []);
      var plain := f.(reasonCode := Some(a), matchedRuleIds := x, metadata := [Entry(e.key, e.value + stays)]);
      hidden != plain && Encoding(hidden) == Encoding(plain)
  {
    var moved := [NL] + ArrayText(x) + [NL] + METADATA_HEADER + [NL, SPACE, SPACE] + Pair(e.key, e.value);
    var stays := [NL] + ArrayText(y) + [NL] + METADATA_HEADER;
    var hidden := f.(reasonCode := Some(a + moved), matchedRuleIds := y, metadata := []);
    var plain := f.(reasonCode := Some(a), matchedRuleIds := x, metadata := [Entry(e.key, e.value + stays)]);
    LastLinesAgree(a, e, x, y);
    SameUpToReason(hidden, plain);
  }

  /** The bytes from the reason code on, one after the other. */
  function Flat(r: Bytes, a: Bytes, x: Bytes, h: Bytes, k: Bytes, v: Bytes, y: Bytes): (b: Bytes)
  {
    r + a + [NL] + x + [NL] + h + [NL, SPACE, SPACE] + k + v + [NL] + y + [NL] + h + [NL]
  }

  lemma LeftFlat(r: Bytes, a: Bytes, x: Bytes, h: Bytes, k: Bytes, v: Bytes, y: Bytes)
    ensures r + (a + ([NL] + x + [NL] + h + [NL, SPACE, SPACE] + (k + v))) + [NL] + (y + [NL] + (h + [NL]))
            == Flat(r, a, x, h, k, v, y)
  {
  }

  lemma RightFlat(r: Bytes, a: Bytes, x: Bytes, h: Bytes, k: Bytes, v: Bytes, y: Bytes)
    ensures r + a + [NL]
            + (x + [NL] + (h + [NL] + ([SPACE, SPACE] + (k + (v + ([NL] + y + [NL] + h)) + [NL]))))
            == Flat(r, a, x, h, k, v, y)
  {
  }

  lemma LastLinesAgree(a: Bytes, e: Entry, x: seq<Bytes>, y: seq<Bytes>)
    ensures
      var moved := [NL] + ArrayText(x) + [NL] + METADATA_HEADER + [NL, SPACE, SPACE] + Pair(e.key, e.value);
      var stays := [NL] + ArrayText(y) + [NL] + METADATA_HEADER;
      Line(REASON_CODE_KEY, a + moved) + (Array(RULE_IDS_KEY, y) + (METADATA_KEY + [COLON, NL] + Entries([])))
      == Line(REASON_CODE_KEY, a)
         + (Array(RULE_IDS_KEY, x) + (METADATA_KEY + [COLON, NL] + Entries([Entry(e.key, e.value + stays)])))
  {
    var r, k := REASON_CODE_KEY + [COLON, SPACE], e.key + [COLON, SPACE];
    LeftFlat(r, a, ArrayText(x), METADATA_HEADER, k, e.value, ArrayText(y));
    RightFlat(r, a, ArrayText(x), METADATA_HEADER, k, e.value, ArrayText(y));
    assert METADATA_KEY + [COLON, NL] == METADATA_HEADER + [NL];
    assert Array(RULE_IDS_KEY, x) == ArrayText(x) + [NL] && Array(RULE_IDS_KEY, y) == ArrayText(y) + [NL];
    hide Items, ArrayText, Array;
    OneEntry(Entry(e.key, e.value + ([NL] + ArrayText(y) + [NL] + METADATA_HEADER)));
    assert METADATA_HEADER + [NL] + Entries([]) == METADATA_HEADER + [NL];
  }

  lemma OneEntry(e: Entry)
    ensures Entries([e]) == EntryLine(e)
  {
    assert [e][1..] == [] && EntryLine(e) + [] == EntryLine(e);
  }

  /** Events that agree on everything before the reason code, and on the bytes from there on. */
  lemma SameUpToReason(f: Fields, g: Fields)
    requires f.schemaVersion == g.schemaVersion && f.sequence == g.sequence && f.eventId == g.eventId
    requires f.timestamp == g.timestamp && f.category == g.category
    requires Optionals(f)[..6] == Optionals(g)[..6]
    requires OptLine(REASON_CODE_KEY, f.reasonCode) + ListPart(f)
             == OptLine(REASON_CODE_KEY, g.reasonCode) + ListPart(g)
    ensures Encoding(f) == Encoding(g)
  {
    SameOptLines(0, f, g);
    hide OptLines, Line, Decimal, ListPart;
  }

  lemma {:induction false} SameOptLines(j: nat, f: Fields, g: Fields)
    requires j <= 6 && Optionals(f)[..6] == Optionals(g)[..6]
    requires OptLine(REASON_CODE_KEY, f.reasonCode) + ListPart(f)
             == OptLine(REASON_CODE_KEY, g.reasonCode) + ListPart(g)
    ensures OptLines(j, OPTIONAL_KEYS, Optionals(f), ListPart(f))
            == OptLines(j, OPTIONAL_KEYS, Optionals(g), ListPart(g))
    decreases 6 - j
  {
    hide ListPart, OptLine;
    if j < 6 {
      assert Optionals(f)[..6][j] == Optionals(g)[..6][j];
      SameOptLines(j + 1, f, g);
    } else {
      assert OPTIONAL_KEYS[6] == REASON_CODE_KEY;
    }
  }

  /** A newline in a metadata value can hide the entry that follows it. */
  lemma MetadataNewlineCollides(f: Fields, first: Entry, second: Entry)
    ensures
      var hidden := f.(metadata := [Entry(first.key, first.value + [NL, SPACE, SPACE]
                                                     + Pair(second.key, second.value))]);
      var plain := f.(metadata := [first, second]);
      hidden != plain && Encoding(hidden) == Encoding(plain)
  {
    var both := Entry(first.key, first.value + [NL, SPACE, SPACE] + Pair(second.key, second.value));
    assert [both][1..] == [] && [first, second][1..] == [second] && [second][1..] == [];
    assert EntryLine(both) == EntryLine(first) + EntryLine(second);
    assert Entries([both]) == Entries([first, second]);
    assert ListPart(f.(metadata := [both])) == ListPart(f.(metadata := [first, second]));
  }

  /** A quote in a rule ID can hide the boundary between two IDs. */
  lemma QuoteCollides(f: Fields, a: Bytes, b: Bytes)
    ensures
      var hidden := f.(matchedRuleIds := [a + [QUOTE, COMMA, QUOTE] + b]);
      var plain := f.(matchedRuleIds := [a, b]);
      hidden != plain && Encoding(hidden) == Encoding(plain)
  {
    var hidden := f.(matchedRuleIds := [a + [QUOTE, COMMA, QUOTE] + b]);
    var plain := f.(matchedRuleIds := [a, b]);
    assert hidden.matchedRuleIds[1..] == [] && plain.matchedRuleIds[1..] == [b] && [b][1..] == [];
    assert Items(hidden.matchedRuleIds, false) == Items(plain.matchedRuleIds, false) by {
      var x := [QUOTE] + a + [QUOTE, COMMA, QUOTE] + b + [QUOTE, CLOSE];
      assert Items(hidden.matchedRuleIds, false) == x;
      assert Items([b], true) == [COMMA, QUOTE] + b + [QUOTE, CLOSE];
      assert Items(plain.matchedRuleIds, false) == x;
    }
    assert ListPart(hidden) == ListPart(plain);
  }

  /** A colon in a metadata key can move the boundary between key and value. */
  lemma ColonCollides(f: Fields, a: Bytes, b: Bytes, c: Bytes)
    ensures
      var hidden := f.(metadata := [Entry(a + [COLON, SPACE] + b, c)]);
      var plain := f.(metadata := [Entry(a, b + [COLON, SPACE] + c)]);
      hidden != plain && Encoding(hidden) == Encoding(plain)
  {
    var hidden := Entry(a + [COLON, SPACE] + b, c);
    var plain := Entry(a, b + [COLON, SPACE] + c);
    assert [hidden][1..] == [] == [plain][1..];
    assert Line(hidden.key, hidden.value) == Line(plain.key, plain.value);
    assert Entries([hidden]) == Entries([plain]);
    assert |hidden.key| > |plain.key|;
    assert ListPart(f.(metadata := [hidden])) == ListPart(f.(metadata := [plain]));
  }
}
