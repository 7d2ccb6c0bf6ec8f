/** Text as the program hashes and compares it: the UTF-8 bytes of a string,
    ordered byte by byte. */
module Text {
  newtype byte = x: int | 0 <= x < 256

  type Bytes = seq<byte>

  datatype Option<+T> = None | Some(value: T) {
    predicate IsFailure() { None? }

    function PropagateFailure<U>(): Option<U>
      requires None?
    {
      None
    }

    function Extract(): T
      requires Some?
    {
      value
    }
  }

  datatype Result<+T, +E> = Ok(value: T) | Err(error: E)

  const NL: byte := 10
  const SPACE: byte := 32
  const QUOTE: byte := 34
  const COMMA: byte := 44
  const SLASH: byte := 47
  const COLON: byte := 58
  const OPEN: byte := 91
  const CLOSE: byte := 93

  /** The bytes of an ASCII literal. */
  function Ascii(s: string): (b: Bytes)
    ensures |b| == |s|
  {
    seq(|s|, i requires 0 <= i < |s| => (s[i] as int % 256) as byte)
  }

  predicate HasPrefix(b: Bytes, p: Bytes) { |p| <= |b| && b[..|p|] == p }

  lemma Assoc(a: Bytes, b: Bytes, c: Bytes)
    ensures (a + b) + c == a + (b + c)
  {
  }

  /** Position of the first `x`, or the length if there is none. */
  function Find(x: byte, b: Bytes): (i: nat)
    ensures i <= |b|
    ensures x !in b[..i]
    ensures i < |b| ==> b[i] == x
  {
    if b == [] || b[0] == x then 0
    else
      var i := 1 + Find(x, b[1..]);
      assert b[..i] == [b[0]] + b[1..][..i - 1];
      i
  }

  lemma SliceAvoids(x: byte, b: Bytes, i: nat, j: nat)
    requires i <= j <= |b| && x !in b
    ensures x !in b[i..j]
  {
  }

  lemma {:induction false} FindAfter(x: byte, a: Bytes, b: Bytes)
    requires x !in a
    ensures Find(x, a + b) == |a| + Find(x, b)
  {
    if a == [] {
      assert a + b == b;
    } else {
      assert (a + b)[1..] == a[1..] + b;
      FindAfter(x, a[1..], b);
    }
  }

  lemma FindAt(x: byte, a: Bytes, rest: Bytes)
    requires x !in a
    ensures Find(x, a + [x] + rest) == |a|
  {
    var b := a + [x] + rest;
    assert b[|a|] == x;
    assert forall j :: 0 <= j < |a| ==> b[j] == a[j];
    assert forall i :: |a| < i <= |b| ==> b[..i][|a|] == x;
  }

  /** Byte-wise lexicographic order, the `Ord` of a string. */
  predicate Less(a: Bytes, b: Bytes)
  {
    b != [] && (a == [] || a[0] < b[0] || (a[0] == b[0] && Less(a[1..], b[1..])))
  }

  lemma {:induction false} LessIrreflexive(a: Bytes)
    ensures !Less(a, a)
  {
    if a != [] { LessIrreflexive(a[1..]); }
  }

  lemma {:induction false} LessTransitive(a: Bytes, b: Bytes, c: Bytes)
    requires Less(a, b) && Less(b, c)
    ensures Less(a, c)
  {
    if a != [] && a[0] == b[0] && b[0] == c[0] {
      LessTransitive(a[1..], b[1..], c[1..]);
    }
  }

  lemma {:induction false} LessConnected(a: Bytes, b: Bytes)
    requires a != b
    ensures Less(a, b) || Less(b, a)
  {
    if a != [] && b != [] && a[0] == b[0] {
      assert a == [a[0]] + a[1..] && b == [b[0]] + b[1..];
      LessConnected(a[1..], b[1..]);
    }
  }

  /** Strictly increasing: sorted and free of repetitions. */
  predicate Increasing(s: seq<Bytes>)
  {
    forall i, j :: 0 <= i < j < |s| ==> Less(s[i], s[j])
  }

  /** Puts `x` in its place in an increasing list; does nothing if it is there. */
  function Insert(x: Bytes, s: seq<Bytes>): (r: seq<Bytes>)
  {
    if s == [] then [x]
    else if x == s[0] then s
    else if Less(x, s[0]) then [x] + s
    else [s[0]] + Insert(x, s[1..])
  }

  lemma {:induction false} InsertElements(x: Bytes, s: seq<Bytes>, y: Bytes)
    ensures y in Insert(x, s) <==> y == x || y in s
  {
    if s != [] {
      assert s == [s[0]] + s[1..];
      InsertElements(x, s[1..], y);
    }
  }

  lemma {:induction false} InsertIncreasing(x: Bytes, s: seq<Bytes>)
    requires Increasing(s)
    ensures Increasing(Insert(x, s))
  {
    if s == [] || x == s[0] {
    } else if Less(x, s[0]) {
      var r := [x] + s;
      forall i, j | 0 <= i < j < |r| ensures Less(r[i], r[j]) {
        if i == 0 && j > 1 { LessTransitive(x, s[0], s[j - 1]); }
      }
    } else {
      LessConnected(x, s[0]);
      InsertIncreasing(x, s[1..]);
      var t := Insert(x, s[1..]);
      forall j | 0 <= j < |t| ensures Less(s[0], t[j]) {
        InsertElements(x, s[1..], t[j]);
      }
    }
  }

  /** `sort` followed by `dedup`. */
  function SortDedup(s: seq<Bytes>): (r: seq<Bytes>)
  {
    if s == [] then [] else Insert(s[0], SortDedup(s[1..]))
  }

  lemma {:induction false} SortDedupCorrect(s: seq<Bytes>)
    ensures Increasing(SortDedup(s))
    ensures forall y :: y in SortDedup(s) <==> y in s
  {
    if s != [] {
      SortDedupCorrect(s[1..]);
      InsertIncreasing(s[0], SortDedup(s[1..]));
      forall y ensures y in SortDedup(s) <==> y in s {
        InsertElements(s[0], SortDedup(s[1..]), y);
        assert s == [s[0]] + s[1..];
      }
    }
  }

  /** An increasing list is determined by its set of elements. */
  lemma {:induction false} IncreasingUnique(s: seq<Bytes>, t: seq<Bytes>)
    requires Increasing(s) && Increasing(t)
    requires forall y :: y in s <==> y in t
    ensures s == t
  {
    if s == [] || t == [] {
      var y := if s != [] then s[0] else if t != [] then t[0] else [];
      assert y in s <==> y in t;
    } else {
      assert s[0] in t && t[0] in s;
      if s[0] != t[0] {
        var i :| 0 <= i < |s| && s[i] == t[0];
        var j :| 0 <= j < |t| && t[j] == s[0];
        LessTransitive(s[0], t[0], s[0]);
        LessIrreflexive(s[0]);
      }
      forall y ensures y in s[1..] <==> y in t[1..] {
        TailElements(s, y);
        TailElements(t, y);
      }
      IncreasingUnique(s[1..], t[1..]);
    }
  }

  lemma TailElements(s: seq<Bytes>, y: Bytes)
    requires s != [] && Increasing(s)
    ensures y in s[1..] <==> y in s && y != s[0]
  {
    LessIrreflexive(s[0]);
    assert s == [s[0]] + s[1..];
  }

  /** Sorting and deduplicating forgets order and repetition, and nothing else. */
  lemma SortDedupCanonical(s: seq<Bytes>, t: seq<Bytes>)
    ensures SortDedup(s) == SortDedup(t) <==> (forall y :: y in s <==> y in t)
  {
    SortDedupCorrect(s);
    SortDedupCorrect(t);
    if forall y :: y in s <==> y in t {
      IncreasingUnique(SortDedup(s), SortDedup(t));
    }
  }

  lemma {:induction false} SubsetIsSmaller<T>(a: set<T>, b: set<T>)
    requires a <= b
    ensures |a| <= |b|
  {
    if a != {} {
      var x :| x in a;
      SubsetIsSmaller(a - {x}, b - {x});
    }
  }
}
