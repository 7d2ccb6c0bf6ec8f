/** Lexical path normalisation: a stack machine over split segments, its meaning as a walk in a
    directory tree, and when normalising twice is the same as normalising once. */
module Paths {
  import opened Text

  const BACKSLASH: byte := 92
  const DOT: byte := 46
  const NUL: byte := 0
  const TAB: byte := 9
  const MAX_PATH_LEN: nat := 4096

  predicate IsSep(b: byte) { b == SLASH || b == BACKSLASH }

  /** The parts between separators; there is always at least one. */
  function Split(b: Bytes): (parts: seq<Bytes>)
    ensures parts != []
  {
    if b == [] then [[]]
    else if IsSep(b[0]) then [[]] + Split(b[1..])
    else
      var parts := Split(b[1..]);
      [[b[0]] + parts[0]] + parts[1..]
  }

  function TrimNul(s: Bytes): (t: Bytes)
  {
    if s != [] && s[|s| - 1] == NUL then TrimNul(s[..|s| - 1]) else s
  }

  function Join(names: seq<Bytes>): (b: Bytes)
  {
    if names == [] then []
    else if |names| == 1 then names[0]
    else names[0] + [SLASH] + Join(names[1..])
  }

  /** What a raw segment says. */
  datatype Move = Stay | Up | Down(name: Bytes)

  function Meaning(raw: Bytes): (m: Move)
  {
    var s := TrimNul(raw);
    if s == [] || s == [DOT] then Stay else if s == [DOT, DOT] then Up else Down(s)
  }

  function Moves(body: Bytes): (moves: seq<Move>)
    ensures |moves| == |Split(body)|
  {
    seq(|Split(body)|, i requires 0 <= i < |Split(body)| => Meaning(Split(body)[i]))
  }

  /** Segments set off by separators of either kind. */
  function Raw(segments: seq<Bytes>, seps: seq<byte>): (b: Bytes)
    requires |segments| == |seps| + 1
  {
    if seps == [] then segments[0] else segments[0] + [seps[0]] + Raw(segments[1..], seps[1..])
  }

  /** A path is the segments between its slashes and backslashes. */
  lemma {:induction false} SplitRaw(segments: seq<Bytes>, seps: seq<byte>)
    requires |segments| == |seps| + 1
    requires forall i :: 0 <= i < |segments| ==> 47 !in segments[i] && 92 !in segments[i]
    requires forall i :: 0 <= i < |seps| ==> seps[i] in {47, 92}
    ensures Split(Raw(segments, seps)) == segments
  {
    assert NoSep(segments[0]);
    if seps == [] {
      SplitPlain(segments[0]);
    } else {
      SplitRaw(segments[1..], seps[1..]);
      SplitAt(segments[0], seps[0], Raw(segments[1..], seps[1..]));
    }
  }

  /** Trailing NULs are dropped; then nothing and `.` stay, `..` goes up, and the rest is a name. */
  lemma {:induction false} MeaningVerdict(s: Bytes, nuls: nat)
    requires s == [] || s[|s| - 1] != 0
    ensures Meaning(s + seq(nuls, _ => 0))
            == if s == [] || s == [46] then Stay else if s == [46, 46] then Up else Down(s)
  {
    var padded := s + seq(nuls, _ => 0);
    if nuls == 0 {
      assert padded == s;
    } else {
      assert padded[..|padded| - 1] == s + seq(nuls - 1, _ => 0);
      MeaningVerdict(s, nuls - 1);
    }
  }

  /** The stack machine: push names, pop on `..`, fail on an empty stack. */
  function Resolve(stack: seq<Bytes>, moves: seq<Move>): (r: Option<seq<Bytes>>)
    decreases |moves|
  {
    if moves == [] then Some(stack)
    else
      match moves[0]
      case Stay => Resolve(stack, moves[1..])
      case Up => if stack == [] then None else Resolve(stack[..|stack| - 1], moves[1..])
      case Down(name) => Resolve(stack + [name], moves[1..])
  }

  function NormalizeBody(body: Bytes): (r: Option<Bytes>)
  {
    var names :- Resolve([], Moves(body));
    Some(Join(names))
  }

  method NormalizeBodyLoop(body: Bytes) returns (r: Option<Bytes>)
    ensures r == NormalizeBody(body)
  {
    var segments: seq<Bytes> := [];
    var parts := Split(body);
    ghost var moves := Moves(body);
    for i := 0 to |parts|
      invariant Resolve(segments, moves[i..]) == Resolve([], moves)
    {
      assert moves[i..][0] == moves[i] && moves[i..][1..] == moves[i + 1..];
      var seg := TrimNul(parts[i]);
      if seg == [] || seg == [DOT] {
      } else if seg == [DOT, DOT] {
        if segments == [] { return None; }
        segments := segments[..|segments| - 1];
      } else {
        segments := segments + [seg];
      }
    }
    return Some(Join(segments));
  }

  // ---- Meaning -----------------------------------------------------------------------

  /** Walking from a directory, as a file system does: `..` at the root stays at the root. */
  function Walk(place: seq<Bytes>, moves: seq<Move>): (r: seq<Bytes>)
    decreases |moves|
  {
    if moves == [] then place
    else
      var next := match moves[0]
        case Stay => place
        case Up => if place == [] then [] else place[..|place| - 1]
        case Down(name) => place + [name];
      Walk(next, moves[1..])
  }

  /** Names minus `..` steps. */
  function Depth(moves: seq<Move>): (d: int)
  {
    if moves == [] then 0
    else Depth(moves[..|moves| - 1]) + (match moves[|moves| - 1] case Stay => 0 case Up => -1 case Down(_) => 1)
  }

  /** After `k` steps, starting `n` levels down, the walk is above the top. */
  predicate Dips(n: nat, moves: seq<Move>, k: nat)
    requires k <= |moves|
  {
    n + Depth(moves[..k]) < 0
  }

  /** Some initial part of the walk would leave the directory it started from. */
  ghost predicate Climbs(moves: seq<Move>)
  {
    exists k :: 0 <= k <= |moves| && Dips(0, moves, k)
  }

  /** A segment that normalisation keeps as it is. */
  predicate IsName(s: Bytes)
  {
    && s != [] && s != [DOT] && s != [DOT, DOT] && s[|s| - 1] != NUL
    && SLASH !in s && BACKSLASH !in s
  }

  predicate AllNames(names: seq<Bytes>) { forall i :: 0 <= i < |names| ==> IsName(names[i]) }

  /** Component-wise prefix test. */
  predicate IsLexicallyUnder(root: seq<Bytes>, candidate: seq<Bytes>)
  {
    |candidate| >= |root| && forall i :: 0 <= i < |root| ==> root[i] == candidate[i]
  }

  function Step(m: Move): (d: int) { match m case Stay => 0 case Up => -1 case Down(_) => 1 }

  lemma {:induction false} DepthFront(m: Move, moves: seq<Move>)
    ensures Depth([m] + moves) == Step(m) + Depth(moves)
  {
    if moves == [] {
      assert ([m] + moves)[..0] == [];
    } else {
      var n := |moves| - 1;
      assert ([m] + moves)[..n + 1] == [m] + moves[..n];
      DepthFront(m, moves[..n]);
    }
  }

  lemma DipsLater(n: nat, n': nat, moves: seq<Move>, k: nat)
    requires moves != [] && n' == n + Step(moves[0]) && k < |moves|
    ensures Dips(n, moves, k + 1) <==> Dips(n', moves[1..], k)
  {
    assert moves[..k + 1] == [moves[0]] + moves[1..][..k];
    DepthFront(moves[0], moves[1..][..k]);
  }

  /** The machine fails exactly when the walk, started `|stack|` levels down, goes above the top. */
  lemma {:induction false} FailsIffClimbs(stack: seq<Bytes>, moves: seq<Move>)
    ensures Resolve(stack, moves).None? <==> exists k :: 0 <= k <= |moves| && Dips(|stack|, moves, k)
    decreases |moves|
  {
    assert moves[..0] == [];
    if moves == [] {
    } else if moves[0].Up? && stack == [] {
      assert moves[..1] == [Up] && [Up][..0] == [];
      assert Dips(0, moves, 1);
    } else {
      var rest := moves[1..];
      var next := match moves[0]
        case Stay => stack
        case Up => stack[..|stack| - 1]
        case Down(name) => stack + [name];
      FailsIffClimbs(next, rest);
      if k :| 0 <= k <= |rest| && Dips(|next|, rest, k) {
        DipsLater(|stack|, |next|, moves, k);
      }
      if k :| 0 <= k <= |moves| && Dips(|stack|, moves, k) {
        DipsLater(|stack|, |next|, moves, k - 1);
      }
    }
  }

  /** The machine's stack on top of any directory is where the walk from that directory is. */
  lemma {:induction false} WalkFollows(base: seq<Bytes>, stack: seq<Bytes>, moves: seq<Move>)
    requires Resolve(stack, moves).Some?
    ensures Walk(base + stack, moves) == base + Resolve(stack, moves).value
    decreases |moves|
  {
    if moves != [] {
      match moves[0]
      case Stay => WalkFollows(base, stack, moves[1..]);
      case Up =>
        assert (base + stack)[..|base + stack| - 1] == base + stack[..|stack| - 1];
        WalkFollows(base, stack[..|stack| - 1], moves[1..]);
      case Down(name) =>
        assert (base + stack) + [name] == base + (stack + [name]);
        WalkFollows(base, stack + [name], moves[1..]);
    }
  }

  lemma {:induction false} ResolvePrefix(stack: seq<Bytes>, moves: seq<Move>, k: nat)
    requires Resolve(stack, moves).Some? && k <= |moves|
    ensures Resolve(stack, moves[..k]).Some?
    decreases |moves|
  {
    if k > 0 {
      assert moves[..k][1..] == moves[1..][..k - 1];
      match moves[0]
      case Stay => ResolvePrefix(stack, moves[1..], k - 1);
      case Up => ResolvePrefix(stack[..|stack| - 1], moves[1..], k - 1);
      case Down(name) => ResolvePrefix(stack + [name], moves[1..], k - 1);
    }
  }

  // ---- Which name stays first -------------------------------------------------------------

  /** Among the first `n` steps of the walk, step `k` leaves the starting level downwards, and the
      walk does not come back to that level. */
  ghost predicate LeavesAt(moves: seq<Move>, n: nat, k: nat)
    requires n <= |moves|
  {
    && k < n && moves[k].Down? && Depth(moves[..k]) == 0
    && forall j :: k < j <= n ==> Depth(moves[..j]) >= 1
  }

  lemma DepthSnoc(moves: seq<Move>, n: nat)
    requires n < |moves|
    ensures Depth(moves[..n + 1]) == Depth(moves[..n]) + Step(moves[n])
  {
    assert moves[..n + 1][..n] == moves[..n];
  }

  /** One more step of the machine. */
  lemma {:induction false} ResolveSnoc(stack: seq<Bytes>, moves: seq<Move>, n: nat)
    requires n < |moves| && Resolve(stack, moves[..n + 1]).Some? && Resolve(stack, moves[..n]).Some?
    ensures
      var before, after := Resolve(stack, moves[..n]).value, Resolve(stack, moves[..n + 1]).value;
      match moves[n]
      case Stay => after == before
      case Up => before != [] && after == before[..|before| - 1]
      case Down(name) => after == before + [name]
    decreases n
  {
    assert moves[..0] == [];
    assert moves[..n + 1][1..] == moves[1..][..n];
    if n == 0 {
      assert moves[..1][1..] == [];
    } else {
      assert moves[..n][1..] == moves[1..][..n - 1];
      match moves[0]
      case Stay => ResolveSnoc(stack, moves[1..], n - 1);
      case Up => ResolveSnoc(stack[..|stack| - 1], moves[1..], n - 1);
      case Down(name) => ResolveSnoc(stack + [name], moves[1..], n - 1);
    }
  }

  lemma {:induction false} StackIsDepth(moves: seq<Move>, n: nat)
    requires n <= |moves| && Resolve([], moves).Some?
    ensures Resolve([], moves[..n]).Some? && |Resolve([], moves[..n]).value| == Depth(moves[..n])
  {
    ResolvePrefix([], moves, n);
    assert moves[..0] == [];
    if n > 0 {
      StackIsDepth(moves, n - 1);
      DepthSnoc(moves, n - 1);
      ResolveSnoc([], moves, n - 1);
    }
  }

  /** The name of that step is the first that the machine keeps. */
  lemma {:induction false} LeavingNameStays(moves: seq<Move>, n: nat, k: nat)
    requires n <= |moves| && Resolve([], moves).Some? && LeavesAt(moves, n, k)
    ensures
      var r := Resolve([], moves[..n]);
      r.Some? && r.value != [] && r.value[0] == moves[k].name
  {
    hide Resolve;
    StackIsDepth(moves, n);
    StackIsDepth(moves, n - 1);
    ResolveSnoc([], moves, n - 1);
    assert Depth(moves[..n]) >= 1;
    if k < n - 1 { LeavingNameStays(moves, n - 1, k); }
  }

  /** A first kept name comes from such a step. */
  lemma {:induction false} FirstNameLeft(moves: seq<Move>, n: nat) returns (k: nat)
    requires n <= |moves| && Resolve([], moves).Some? && Depth(moves[..n]) >= 1
    ensures LeavesAt(moves, n, k)
  {
    assert moves[..0] == [];
    DepthSnoc(moves, n - 1);
    if Depth(moves[..n - 1]) >= 1 {
      k := FirstNameLeft(moves, n - 1);
    } else {
      StackIsDepth(moves, n - 1);
      k := n - 1;
    }
  }

  // ---- The output consists of names ------------------------------------------------------

  predicate NoSep(s: Bytes) { SLASH !in s && BACKSLASH !in s }

  lemma {:induction false} SplitHasNoSep(b: Bytes)
    ensures forall i :: 0 <= i < |Split(b)| ==> NoSep(Split(b)[i])
  {
    if b != [] { SplitHasNoSep(b[1..]); }
  }

  lemma {:induction false} TrimNulKeeps(s: Bytes)
    ensures NoSep(s) ==> NoSep(TrimNul(s))
    ensures TrimNul(s) != [] ==> TrimNul(s)[|TrimNul(s)| - 1] != NUL
  {
    if s != [] && s[|s| - 1] == NUL { TrimNulKeeps(s[..|s| - 1]); }
  }

  predicate DownsAreNames(moves: seq<Move>)
  {
    forall i :: 0 <= i < |moves| && moves[i].Down? ==> IsName(moves[i].name)
  }

  lemma MovesAreNames(body: Bytes)
    ensures DownsAreNames(Moves(body))
  {
    SplitHasNoSep(body);
    forall i | 0 <= i < |Moves(body)| && Moves(body)[i].Down? ensures IsName(Moves(body)[i].name) {
      TrimNulKeeps(Split(body)[i]);
    }
  }

  lemma {:induction false} ResolveNames(stack: seq<Bytes>, moves: seq<Move>)
    requires AllNames(stack) && DownsAreNames(moves) && Resolve(stack, moves).Some?
    ensures AllNames(Resolve(stack, moves).value)
    decreases |moves|
  {
    if moves != [] {
      match moves[0]
      case Stay => ResolveNames(stack, moves[1..]);
      case Up => ResolveNames(stack[..|stack| - 1], moves[1..]);
      case Down(name) => ResolveNames(stack + [name], moves[1..]);
    }
  }

  // ---- Splitting what was joined ------------------------------------------------------------

  lemma {:induction false} SplitPlain(s: Bytes)
    requires NoSep(s)
    ensures Split(s) == [s]
  {
    if s != [] {
      SplitPlain(s[1..]);
      assert s == [s[0]] + s[1..];
    }
  }

  lemma SplitAtSep(s: Bytes, rest: Bytes)
    requires NoSep(s)
    ensures Split(s + [SLASH] + rest) == [s] + Split(rest)
  {
    SplitAt(s, SLASH, rest);
  }

  lemma {:induction false} SplitAt(s: Bytes, sep: byte, rest: Bytes)
    requires NoSep(s) && sep in {47, 92}
    ensures Split(s + [sep] + rest) == [s] + Split(rest)
  {
    var b := s + [sep] + rest;
    if s == [] {
      assert b[1..] == rest;
    } else {
      assert b[1..] == s[1..] + [sep] + rest;
      SplitAt(s[1..], sep, rest);
      assert s == [s[0]] + s[1..];
    }
  }

  lemma {:induction false} SplitJoin(names: seq<Bytes>)
    requires AllNames(names) && names != []
    ensures Split(Join(names)) == names
  {
    if |names| == 1 {
      SplitPlain(names[0]);
    } else {
      SplitJoin(names[1..]);
      SplitAtSep(names[0], Join(names[1..]));
      assert names == [names[0]] + names[1..];
    }
  }

  function Downs(names: seq<Bytes>): (moves: seq<Move>)
  {
    seq(|names|, i requires 0 <= i < |names| => Down(names[i]))
  }

  lemma NameMeansItself(s: Bytes)
    requires IsName(s)
    ensures Meaning(s) == Down(s)
  {
  }

  lemma MovesOfJoin(names: seq<Bytes>)
    requires AllNames(names)
    ensures Moves(Join(names)) == if names == [] then [Stay] else Downs(names)
  {
    if names != [] {
      SplitJoin(names);
      forall i | 0 <= i < |names| ensures Moves(Join(names))[i] == Downs(names)[i] {
        NameMeansItself(names[i]);
      }
    }
  }

  lemma {:induction false} ResolveDowns(stack: seq<Bytes>, names: seq<Bytes>)
    ensures Resolve(stack, Downs(names)) == Some(stack + names)
    decreases |names|
  {
    if names == [] {
      assert stack + names == stack;
    } else {
      assert Downs(names)[1..] == Downs(names[1..]);
      ResolveDowns(stack + [names[0]], names[1..]);
      assert stack + [names[0]] + names[1..] == stack + names;
    }
  }

  lemma ResolveJoin(names: seq<Bytes>)
    requires AllNames(names)
    ensures Resolve([], Moves(Join(names))) == Some(names)
  {
    MovesOfJoin(names);
    ResolveDowns([], names);
    assert [] + names == names;
    assert [Stay][1..] == [];
  }

  // ---- Main results ----------------------------------------------------------------------------

  /** Normalising a body fails exactly when some initial part of the walk would climb above its
      start. Otherwise the result is a list of plain names which, walked from any directory, ends in
      the same place as the raw path, and the raw walk never leaves that directory. */
  lemma BodyMeaning(body: Bytes)
    ensures NormalizeBody(body).None? <==> Climbs(Moves(body))
    ensures NormalizeBody(body).Some? ==>
      var out := NormalizeBody(body).value;
      exists names :: AllNames(names) && out == Join(names) && Reaches(body, out, names)
  {
    var moves := Moves(body);
    FailsIffClimbs([], moves);
    var r := Resolve([], moves);
    if r.Some? {
      MovesAreNames(body);
      ResolveNames([], moves);
      ResolveJoin(r.value);
      ReachesHolds(body, r.value);
    }
  }

  /** From every directory, the raw and the normalised path lead to `names` below it, and every
      intermediate place of the raw walk is below it too. */
  ghost predicate Reaches(body: Bytes, out: Bytes, names: seq<Bytes>)
  {
    forall base :: EndsAt(base, body, out, names)
  }

  ghost predicate EndsAt(base: seq<Bytes>, body: Bytes, out: Bytes, names: seq<Bytes>)
  {
    && Walk(base, Moves(body)) == base + names
    && Walk(base, Moves(out)) == base + names
    && forall k :: 0 <= k <= |Moves(body)| ==> IsLexicallyUnder(base, Walk(base, Moves(body)[..k]))
  }

  lemma ReachesHolds(body: Bytes, names: seq<Bytes>)
    requires Resolve([], Moves(body)) == Some(names)
    requires Resolve([], Moves(Join(names))) == Some(names)
    ensures Reaches(body, Join(names), names)
  {
    forall base ensures EndsAt(base, body, Join(names), names) {
      assert base + [] == base;
      WalkFollows(base, [], Moves(body));
      WalkFollows(base, [], Moves(Join(names)));
      forall k | 0 <= k <= |Moves(body)| ensures IsLexicallyUnder(base, Walk(base, Moves(body)[..k])) {
        ResolvePrefix([], Moves(body), k);
        WalkFollows(base, [], Moves(body)[..k]);
      }
    }
  }

  // ---- Whole paths: prefixes and roots ------------------------------------------------------------

  const VERBATIM: Bytes := [92, 92, 63, 92]                       // \\?\
  const VERBATIM_UNC: Bytes := [92, 92, 63, 92, 117, 110, 99, 92]  // \\?\unc\

  predicate IsAlpha(b: byte) { 65 <= b <= 90 || 97 <= b <= 122 }

  function LowerByte(b: byte): (r: byte) { if 65 <= b <= 90 then b + 32 else b }

  function Lower(s: Bytes): (r: Bytes)
    ensures |r| == |s|
  {
    seq(|s|, i requires 0 <= i < |s| => LowerByte(s[i]))
  }

  predicate HasDrivePrefix(s: Bytes) { |s| >= 2 && IsAlpha(s[0]) && s[1] == COLON }

  /** A recognised prefix and the rest. The `unc` marker is eight bytes long; the label takes seven. */
  function StripKnownPrefix(s: Bytes): (r: Option<(Bytes, Bytes)>)
  {
    if HasPrefix(Lower(s), VERBATIM_UNC) then Some((s[..7], s[7..]))
    else if HasPrefix(Lower(s), VERBATIM) then Some((s[..4], s[4..]))
    else if HasDrivePrefix(s) then Some((s[..2], s[2..]))
    else None
  }

  function MergePrefix(marker: Bytes, body: Bytes): (r: Bytes)
  {
    if body == [] then marker
    else if body[0] == SLASH || (marker != [] && marker[|marker| - 1] == BACKSLASH) then marker + body
    else marker + [SLASH] + body
  }

  function NormalizeLexical(s: Bytes): (r: Option<Bytes>)
  {
    var prefix := StripKnownPrefix(s);
    if prefix.Some? then
      var body :- NormalizeBody(prefix.value.1);
      Some(MergePrefix(prefix.value.0, body))
    else if s != [] && s[0] == SLASH then
      var body :- NormalizeBody(s[1..]);
      Some([SLASH] + body)
    else NormalizeBody(s)
  }

  /** No prefix and no leading slash. */
  predicate Relative(s: Bytes) { StripKnownPrefix(s).None? && (s == [] || s[0] != SLASH) }

  /** A name that reads as a drive followed by more text, such as `c:notes`. */
  predicate DriveLike(name: Bytes) { |name| > 2 && HasDrivePrefix(name) }

  /** A relative path that leaves its starting level for good by a name that reads as a drive. */
  ghost predicate Drifts(s: Bytes)
  {
    && Relative(s)
    && exists k: nat :: LeavesAt(Moves(s), |Moves(s)|, k) && DriveLike(Moves(s)[k].name)
  }

  /** In terms of the machine: its first name reads as a drive. */
  lemma DriftsByFirstName(s: Bytes, names: seq<Bytes>)
    requires Relative(s) && Resolve([], Moves(s)) == Some(names)
    ensures Drifts(s) <==> names != [] && DriveLike(names[0])
  {
    hide Resolve, Moves, DriveLike;
    var moves := Moves(s);
    var n := |moves|;
    assert moves[..n] == moves;
    StackIsDepth(moves, n);
    forall k: nat | LeavesAt(moves, n, k) ensures names != [] && names[0] == moves[k].name {
      LeavingNameStays(moves, n, k);
    }
    if names != [] {
      var k := FirstNameLeft(moves, n);
      assert LeavesAt(moves, n, k);
    }
  }

  lemma {:induction false} JoinHasNoBackslash(names: seq<Bytes>)
    requires AllNames(names)
    ensures BACKSLASH !in Join(names)
    ensures names != [] ==> HasPrefix(Join(names), names[0])
    ensures |names| > 1 ==> HasPrefix(Join(names), names[0] + [SLASH])
    ensures |names| == 1 ==> Join(names) == names[0]
  {
    if |names| > 1 { JoinHasNoBackslash(names[1..]); }
  }

  lemma BodyNames(body: Bytes) returns (names: seq<Bytes>)
    requires NormalizeBody(body).Some?
    ensures Resolve([], Moves(body)) == Some(names) && AllNames(names)
    ensures NormalizeBody(body) == Some(Join(names)) && NormalizeBody(Join(names)) == Some(Join(names))
    ensures BACKSLASH !in Join(names) && (Join(names) != [] ==> Join(names)[0] != SLASH)
  {
    MovesAreNames(body);
    ResolveNames([], Moves(body));
    names := Resolve([], Moves(body)).value;
    ResolveJoin(names);
    JoinHasNoBackslash(names);
    if names != [] { assert IsName(names[0]) && Join(names)[0] == names[0][0]; }
  }

  /** Only a leading backslash can start a verbatim marker. */
  lemma PlainStart(s: Bytes)
    requires s == [] || s[0] != BACKSLASH
    ensures StripKnownPrefix(s) == if HasDrivePrefix(s) then Some((s[..2], s[2..])) else None
  {
    if s != [] {
      assert Lower(s)[0] != BACKSLASH;
      assert |s| >= 4 ==> Lower(s)[..4][0] == Lower(s)[0];
      assert |s| >= 8 ==> Lower(s)[..8][0] == Lower(s)[0];
    }
  }

  lemma VerbatimShape(s: Bytes)
    requires HasPrefix(Lower(s), VERBATIM)
    ensures |s| >= 4 && s[..4] == VERBATIM
  {
    var low := Lower(s)[..4];
    assert forall i :: 0 <= i < 4 ==> low[i] == LowerByte(s[i]);
    assert low[0] == 92 && low[1] == 92 && low[2] == 63 && low[3] == 92;
  }

  lemma UncShape(s: Bytes)
    requires HasPrefix(Lower(s), VERBATIM_UNC)
    ensures |s| >= 8 && s[..4] == VERBATIM && s[7] == BACKSLASH
    ensures LowerByte(s[4]) == 117 && LowerByte(s[5]) == 110 && LowerByte(s[6]) == 99
  {
    var low := Lower(s)[..8];
    assert forall i :: 0 <= i < 4 ==> low[i] == LowerByte(s[i]);
    assert low[0] == 92 && low[1] == 92 && low[2] == 63 && low[3] == 92;
    assert forall i :: 4 <= i < 8 ==> low[i] == LowerByte(s[i]);
    assert low[4] == 117 && low[5] == 110 && low[6] == 99 && low[7] == 92;
  }

  /** A verbatim marker before text without backslashes is just that. */
  lemma VerbatimStart(body: Bytes)
    requires BACKSLASH !in body
    ensures StripKnownPrefix(VERBATIM + body) == Some((VERBATIM, body))
  {
    var r := VERBATIM + body;
    assert r[..4] == VERBATIM && r[4..] == body;
    assert Lower(r)[..4] == VERBATIM;
    assert |r| >= 8 ==> r[7] == body[3];
    if HasPrefix(Lower(r), VERBATIM_UNC) { UncShape(r); }
  }

  lemma SlashRootIdempotent(s: Bytes, r: Bytes)
    requires StripKnownPrefix(s).None? && s != [] && s[0] == SLASH && NormalizeLexical(s) == Some(r)
    ensures NormalizeLexical(r) == Some(r)
  {
    hide StripKnownPrefix, NormalizeBody;
    var names := BodyNames(s[1..]);
    PlainStart(r);
    assert r[0] == SLASH && r[1..] == Join(names);
  }

  /** A drive followed by a normalised body is a fixed point. */
  lemma DriveFixedPoint(drive: Bytes, body: Bytes)
    requires |drive| == 2 && HasDrivePrefix(drive) && NormalizeBody(body) == Some(body)
    requires body != [] ==> body[0] != SLASH
    ensures var r := MergePrefix(drive, body); NormalizeLexical(r) == Some(r)
  {
    hide NormalizeBody;
    var r := MergePrefix(drive, body);
    PlainStart(r);
    assert r[..2] == drive;
    if body == [] {
      assert r[2..] == body;
    } else {
      assert r == drive + [SLASH] + body;
      assert r[2..] == [SLASH] + body;
      LeadingSlashIgnored(body);
    }
  }

  lemma DriveIdempotent(s: Bytes, r: Bytes)
    requires HasDrivePrefix(s) && StripKnownPrefix(s) == Some((s[..2], s[2..])) && NormalizeLexical(s) == Some(r)
    ensures NormalizeLexical(r) == Some(r)
  {
    hide StripKnownPrefix, NormalizeBody;
    var names := BodyNames(s[2..]);
    DriveFixedPoint(s[..2], Join(names));
  }

  lemma LeadingSlashIgnored(body: Bytes)
    ensures NormalizeBody([SLASH] + body) == NormalizeBody(body)
  {
    var b := [SLASH] + body;
    assert b[1..] == body;
    assert Moves(b) == [Stay] + Moves(body);
    assert ([Stay] + Moves(body))[1..] == Moves(body);
  }

  lemma VerbatimFixedPoint(names: seq<Bytes>)
    requires AllNames(names)
    ensures NormalizeLexical(VERBATIM + Join(names)) == Some(VERBATIM + Join(names))
  {
    hide StripKnownPrefix;
    JoinHasNoBackslash(names);
    VerbatimStart(Join(names));
    ResolveJoin(names);
    assert names == [] ==> VERBATIM + Join(names) == VERBATIM;
  }

  lemma VerbatimIdempotent(s: Bytes, r: Bytes)
    requires |s| >= 4 && StripKnownPrefix(s) == Some((VERBATIM, s[4..])) && NormalizeLexical(s) == Some(r)
    ensures NormalizeLexical(r) == Some(r)
  {
    hide StripKnownPrefix, NormalizeBody;
    var names := BodyNames(s[4..]);
    assert r == VERBATIM + Join(names);
    VerbatimFixedPoint(names);
  }

  lemma UncIdempotent(s: Bytes, r: Bytes)
    requires HasPrefix(Lower(s), VERBATIM_UNC) && NormalizeLexical(s) == Some(r)
    ensures NormalizeLexical(r) == Some(r)
  {
    UncShape(s);
    assert StripKnownPrefix(s) == Some((s[..7], s[7..]));
    hide StripKnownPrefix, NormalizeBody, Lower;
    var unc := s[4..7];
    var names := BodyNames(s[7..]);
    assert s[..7] == VERBATIM + unc;
    UncIsName(unc);
    UncJoin(unc, names);
    VerbatimFixedPoint([unc] + names);
  }

  lemma UncIsName(unc: Bytes)
    requires |unc| == 3 && LowerByte(unc[0]) == 117 && LowerByte(unc[1]) == 110 && LowerByte(unc[2]) == 99
    ensures IsName(unc)
  {
    assert unc == [unc[0], unc[1], unc[2]];
  }

  lemma UncJoin(unc: Bytes, names: seq<Bytes>)
    requires AllNames(names) && |unc| == 3 && unc[2] != BACKSLASH
    ensures MergePrefix(VERBATIM + unc, Join(names)) == VERBATIM + Join([unc] + names)
  {
    JoinHasNoBackslash(names);
    var all, body := [unc] + names, Join(names);
    assert all[1..] == names;
    if names == [] {
    } else {
      assert body != [] && body[0] == names[0][0];
      assert Join(all) == unc + [SLASH] + body;
    }
  }

  lemma {:induction false} FirstNameLeads(names: seq<Bytes>)
    requires AllNames(names) && names != []
    ensures
      var r := Join(names);
      && r != [] && r[0] == names[0][0] && r[0] != SLASH && r[0] != BACKSLASH
      && (HasDrivePrefix(r) <==> HasDrivePrefix(names[0]))
  {
    JoinHasNoBackslash(names);
    assert IsName(names[0]);
    var first, r := names[0], Join(names);
    assert forall i :: 0 <= i < |first| ==> r[i] == first[i];
    if |first| == 1 && |names| > 1 {
      assert r[..2][1] == (first + [SLASH])[1] == SLASH;
    }
  }

  /** A relative path's result is a fixed point exactly when it does not read as a drive. */
  lemma RelativeVerdict(s: Bytes, r: Bytes)
    requires Relative(s) && NormalizeLexical(s) == Some(r)
    ensures NormalizeLexical(r) == Some(r) <==> !Drifts(s)
  {
    hide StripKnownPrefix, NormalizeBody, Drifts;
    var names := BodyNames(s);
    DriftsByFirstName(s, names);
    if names == [] {
      PlainStart(r);
    } else {
      FirstNameLeads(names);
      PlainStart(r);
      if HasDrivePrefix(r) { DriveResult(names, r); }
    }
  }

  lemma DriveResult(names: seq<Bytes>, r: Bytes)
    requires AllNames(names) && names != [] && r == Join(names) && HasDrivePrefix(names[0]) && HasDrivePrefix(r)
    requires StripKnownPrefix(r) == Some((r[..2], r[2..]))
    ensures NormalizeLexical(r) == Some(r) <==> !DriveLike(names[0])
  {
    hide StripKnownPrefix, NormalizeBody;
    JoinHasNoBackslash(names);
    if |names[0]| == 2 {
      var rest := names[1..];
      NormalizedJoin(rest);
      if rest != [] { FirstNameLeads(rest); }
      assert r == MergePrefix(names[0], Join(rest));
      DriveFixedPoint(names[0], Join(rest));
    } else {
      assert r[2] == names[0][2] && IsName(names[0]);
      if NormalizeLexical(r) == Some(r) { DriveMoves(r); }
    }
  }

  lemma NormalizedJoin(names: seq<Bytes>)
    requires AllNames(names)
    ensures NormalizeBody(Join(names)) == Some(Join(names))
  {
    ResolveJoin(names);
  }

  /** After a drive, a non-empty normalised body is always set off by a slash. */
  lemma DriveMoves(r: Bytes)
    requires HasDrivePrefix(r) && StripKnownPrefix(r) == Some((r[..2], r[2..])) && NormalizeLexical(r) == Some(r)
    requires |r| > 2
    ensures r[2] == SLASH
  {
    hide StripKnownPrefix, NormalizeBody;
    var names := BodyNames(r[2..]);
    assert r[..2][1] == COLON;
    assert r == MergePrefix(r[..2], Join(names));
  }

  /** Normalising twice is the same as normalising once, except for exactly those relative paths
      whose walk leaves its starting level for good by a name that reads as a drive. */
  lemma IdempotentExactly(s: Bytes)
    requires NormalizeLexical(s).Some?
    ensures NormalizeLexical(NormalizeLexical(s).value) == NormalizeLexical(s) <==> !Drifts(s)
  {
    var r := NormalizeLexical(s).value;
    if HasPrefix(Lower(s), VERBATIM_UNC) {
      UncIdempotent(s, r);
    } else if HasPrefix(Lower(s), VERBATIM) {
      VerbatimShape(s);
      VerbatimIdempotent(s, r);
    } else if HasDrivePrefix(s) {
      DriveIdempotent(s, r);
    } else if s != [] && s[0] == SLASH {
      SlashRootIdempotent(s, r);
    } else {
      RelativeVerdict(s, r);
    }
  }

  /** `./c:x` normalises to `c:x`, which is not a fixed point. */
  lemma DriftExample()
    ensures
      var name: Bytes := [99, COLON, 120];
      var s := [DOT] + [SLASH] + name;
      NormalizeLexical(s) == Some(name) && NormalizeLexical(name) != Some(name)
  {
    var name: Bytes := [99, COLON, 120];
    var s := [DOT] + [SLASH] + name;
    PlainStart(s);
    SplitAtSep([DOT], name);
    SplitPlain(name);
    NameMeansItself(name);
    assert Moves(s) == [Stay] + [Down(name)];
    assert ([Stay] + [Down(name)])[1..] == Downs([name]);
    ResolveDowns([], [name]);
    assert [] + [name] == [name];
    assert Resolve([], Moves(s)) == Some([name]);
    hide Resolve, Moves;
    assert Join([name]) == name;
    DriftsByFirstName(s, [name]);
    IdempotentExactly(s);
  }

  // ---- What a whole path means ---------------------------------------------------------------

  /** How many bytes of a path are its root: seven for `\\?\UNC` before a backslash, in any case, four for
      `\\?\`, two for a drive letter and colon, one for a slash, and none for a relative path. */
  function RootLength(s: Bytes): (n: nat)
    ensures n <= |s| && n in {0, 1, 2, 4, 7}
  {
    if |s| >= 4 && s[0] == 92 && s[1] == 92 && s[2] == 63 && s[3] == 92 then
      if |s| >= 8 && s[4] in {85, 117} && s[5] in {78, 110} && s[6] in {67, 99} && s[7] == 92 then 7 else 4
    else if |s| >= 2 && (65 <= s[0] <= 90 || 97 <= s[0] <= 122) && s[1] == 58 then 2
    else if |s| >= 1 && s[0] == 47 then 1
    else 0
  }

  lemma LowerVerbatim(s: Bytes)
    ensures HasPrefix(Lower(s), VERBATIM) <==>
      |s| >= 4 && s[0] == 92 && s[1] == 92 && s[2] == 63 && s[3] == 92
  {
    if |s| >= 4 {
      var low := Lower(s)[..4];
      assert forall i :: 0 <= i < 4 ==> low[i] == LowerByte(s[i]);
      assert low == VERBATIM <==> low[0] == 92 && low[1] == 92 && low[2] == 63 && low[3] == 92;
    }
  }

  lemma LowerUnc(s: Bytes)
    ensures HasPrefix(Lower(s), VERBATIM_UNC) <==>
      && HasPrefix(Lower(s), VERBATIM) && |s| >= 8
      && s[4] in {85, 117} && s[5] in {78, 110} && s[6] in {67, 99} && s[7] == 92
  {
    if |s| >= 8 {
      var low := Lower(s)[..8];
      assert forall i :: 0 <= i < 8 ==> low[i] == LowerByte(s[i]);
      assert low[..4] == Lower(s)[..4] && VERBATIM_UNC[..4] == VERBATIM;
      assert low == low[..4] + [low[4], low[5], low[6], low[7]];
      assert VERBATIM_UNC == VERBATIM + [117, 110, 99, 92];
      var tail := [low[4], low[5], low[6], low[7]];
      assert tail == [117, 110, 99, 92] <==> tail[0] == 117 && tail[1] == 110 && tail[2] == 99 && tail[3] == 92;
    }
  }

  /** The prefix that is stripped is the root, unless that is a slash or nothing. */
  lemma StrippedIsRoot(s: Bytes)
    ensures
      var n := RootLength(s);
      && StripKnownPrefix(s) == (if n >= 2 then Some((s[..n], s[n..])) else None)
      && (n == 7 || n == 2 ==> s[n - 1] != BACKSLASH)
      && (n == 4 ==> s[3] == BACKSLASH)
  {
    LowerVerbatim(s);
    LowerUnc(s);
    hide Lower;
  }

  /** The root as it was, then the names that the rest leads to, set off by a slash after a drive or UNC. */
  ghost predicate NormalForm(s: Bytes, r: Bytes, names: seq<Bytes>)
  {
    var n := RootLength(s);
    && AllNames(names)
    && r == s[..n] + (if (n == 2 || n == 7) && names != [] then [47] else []) + Join(names)
    && Reaches(s[n..], Join(names), names)
  }

  lemma RestMeaning(body: Bytes)
    ensures NormalizeBody(body).None? <==> Climbs(Moves(body))
    ensures NormalizeBody(body).Some? ==> exists names ::
      && AllNames(names) && NormalizeBody(body).value == Join(names) && Reaches(body, Join(names), names)
  {
    BodyMeaning(body);
  }

  lemma JoinIsEmpty(names: seq<Bytes>)
    requires AllNames(names)
    ensures Join(names) == [] <==> names == []
    ensures names != [] ==> Join(names)[0] != SLASH
  {
    if names != [] { FirstNameLeads(names); }
  }

  /** A path of any kind fails to normalise exactly when the walk of what follows its root climbs above its
      start. Otherwise the result keeps the root, and what follows leads where the raw text leads. */
  lemma PathMeaning(s: Bytes)
    ensures NormalizeLexical(s).None? <==> Climbs(Moves(s[RootLength(s)..]))
    ensures NormalizeLexical(s).Some? ==> exists names :: NormalForm(s, NormalizeLexical(s).value, names)
  {
    var body := s[RootLength(s)..];
    RestMeaning(body);
    NormalizesRest(s);
    hide NormalizeLexical, NormalizeBody, RootLength, Climbs, Moves, Reaches;
    if NormalizeBody(body).Some? {
      var names :| AllNames(names) && NormalizeBody(body).value == Join(names) && Reaches(body, Join(names), names);
      JoinIsEmpty(names);
      assert NormalForm(s, NormalizeLexical(s).value, names);
    }
  }

  /** Only what follows the root is changed, and set off by a slash after a drive or UNC. */
  lemma NormalizesRest(s: Bytes)
    ensures
      var n := RootLength(s);
      var rest := NormalizeBody(s[n..]);
      && (NormalizeLexical(s).None? <==> rest.None?)
      && (rest.Some? && (rest.value == [] || rest.value[0] != SLASH) ==>
            NormalizeLexical(s)
            == Some(s[..n] + (if (n == 2 || n == 7) && rest.value != [] then [47] else []) + rest.value))
  {
    var n := RootLength(s);
    StrippedIsRoot(s);
    OneIsSlash(s);
    hide StripKnownPrefix, NormalizeBody, RootLength;
    assert s[0..] == s && s[..0] == [] && s[..n] + [] == s[..n];
    if n == 1 { assert s[..1] == [SLASH]; }
    if n >= 2 { assert s[..n][n - 1] == s[n - 1]; }
    var rest := NormalizeBody(s[n..]);
    if rest.Some? {
      assert [] + rest.value == rest.value;
      if rest.value == [] { assert s[..n] + rest.value == s[..n]; }
    }
  }

  lemma OneIsSlash(s: Bytes)
    ensures RootLength(s) == 1 <==> StripKnownPrefix(s).None? && s != [] && s[0] == SLASH
  {
    StrippedIsRoot(s);
    hide StripKnownPrefix;
  }

  lemma LeadingSlashWalk(base: seq<Bytes>, body: Bytes)
    ensures Walk(base, Moves([SLASH] + body)) == Walk(base, Moves(body))
  {
    assert ([SLASH] + body)[1..] == body;
    assert Moves([SLASH] + body) == [Stay] + Moves(body);
    assert ([Stay] + Moves(body))[1..] == Moves(body);
    hide Moves;
  }

  /** A path that starts with a slash: the result does too, and leads to the same place from everywhere. */
  lemma SlashPathMeaning(s: Bytes, base: seq<Bytes>)
    requires s != [] && s[0] == SLASH && NormalizeLexical(s).Some?
    ensures
      var r := NormalizeLexical(s).value;
      r != [] && r[0] == SLASH && Walk(base, Moves(r)) == Walk(base, Moves(s))
  {
    PathMeaning(s);
    var r := NormalizeLexical(s).value;
    var names :| NormalForm(s, r, names);
    hide NormalizeLexical, Moves, Walk, AllNames, Join;
    assert RootLength(s) == 1 && s[..1] == [SLASH] && s == [SLASH] + s[1..];
    assert r == [SLASH] + Join(names);
    assert EndsAt(base, s[1..], Join(names), names);
    LeadingSlashWalk(base, s[1..]);
    LeadingSlashWalk(base, Join(names));
  }

  // ---- Validated paths ---------------------------------------------------------------------------

  datatype PathError = Empty | Oversized | InvalidCharacter | Escape | InvalidValue

  datatype NormalizedPath = NormalizedPath(raw: Bytes, normalized: Bytes, absolute: bool)

  predicate HasControl(s: Bytes) { exists i :: 0 <= i < |s| && (s[i] < 32 || s[i] == 127) && s[i] != TAB }

  predicate IsAbsolute(s: Bytes) { (s != [] && IsSep(s[0])) || HasDrivePrefix(s) }

  function NewPath(s: Bytes): (r: Result<NormalizedPath, PathError>)
  {
    if s == [] then Err(Empty)
    else if |s| > MAX_PATH_LEN then Err(Oversized)
    else if HasControl(s) then Err(InvalidCharacter)
    else
      var n := NormalizeLexical(s);
      if n.None? then Err(Escape) else Ok(NormalizedPath(s, n.value, IsAbsolute(s)))
  }

  /** When the constructor succeeds, with what, and which error it gives otherwise. */
  lemma NewPathVerdict(s: Bytes)
    ensures
      if s == [] then NewPath(s) == Err(Empty)
      else if |s| > 4096 then NewPath(s) == Err(Oversized)
      else if exists i :: 0 <= i < |s| && (s[i] < 9 || 9 < s[i] < 32 || s[i] == 127) then
        NewPath(s) == Err(InvalidCharacter)
      else if Climbs(Moves(s[RootLength(s)..])) then NewPath(s) == Err(Escape)
      else
        && NewPath(s).Ok? && NewPath(s).value.raw == s
        && (NewPath(s).value.absolute <==> s[0] == 92 || RootLength(s) > 0)
        && exists names :: NormalForm(s, NewPath(s).value.normalized, names)
  {
    PathMeaning(s);
    StrippedIsRoot(s);
    hide NormalizeLexical, Climbs, Moves, NormalForm, StripKnownPrefix;
    assert HasControl(s) <==> exists i :: 0 <= i < |s| && (s[i] < 9 || 9 < s[i] < 32 || s[i] == 127) by {
      forall i | 0 <= i < |s|
        ensures (s[i] < 9 || 9 < s[i] < 32 || s[i] == 127) <==> (s[i] < 32 || s[i] == 127) && s[i] != TAB
      {
      }
    }
  }

  /** Re-validation of a value that may have been assembled from parts. */
  function ValidateInvariants(p: NormalizedPath): (e: Option<PathError>)
  {
    if p.raw == [] then Some(Empty)
    else if |p.raw| > MAX_PATH_LEN then Some(Oversized)
    else if HasControl(p.raw) then Some(InvalidCharacter)
    else if IsAbsolute(p.raw) != p.absolute then Some(InvalidCharacter)
    else
      var n := NormalizeLexical(p.raw);
      if n.None? then Some(Escape) else if n.value != p.normalized then Some(InvalidValue) else None
  }

  /** Re-validation accepts exactly the values the constructor builds. */
  lemma ValidatedIffConstructed(p: NormalizedPath)
    ensures ValidateInvariants(p).None? <==> exists s :: NewPath(s) == Ok(p)
  {
    if ValidateInvariants(p).None? {
      assert NewPath(p.raw) == Ok(p);
    }
  }
}
