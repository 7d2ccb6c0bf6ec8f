/** The check that every identifier passes, on UTF-8 text. */
module Identifiers {
  import opened Text

  const MAX_ID_LENGTH: nat := 256

  /** How many characters UTF-8 text has: the bytes that do not continue one. */
  function Characters(b: Bytes): (n: nat)
  {
    if b == [] then 0
    else Characters(b[..|b| - 1]) + (if 128 <= b[|b| - 1] < 192 then 0 else 1)
  }

  /** A control character starts at `i`: U+0000 to U+001F, or U+007F to U+009F. */
  predicate ControlAt(b: Bytes, i: nat)
    requires i < |b|
  {
    b[i] < 32 || b[i] == 127 || (b[i] == 0xC2 && i + 1 < |b| && 128 <= b[i + 1] < 160)
  }

  predicate HasControl(b: Bytes) { exists i :: 0 <= i < |b| && ControlAt(b, i) }

  predicate ValidId(b: Bytes) { b != [] && Characters(b) <= MAX_ID_LENGTH && !HasControl(b) }

  predicate ValidIds(ids: seq<Bytes>) { forall i :: 0 <= i < |ids| ==> ValidId(ids[i]) }

  // ---- In terms of characters ------------------------------------------------------------

  /** The UTF-8 form of a code point (RFC 3629, section 3). */
  function Utf8(c: int): (b: Bytes)
    requires 0 <= c < 0x11_0000
    ensures b != []
  {
    if c < 0x80 then [c as byte]
    else if c < 0x800 then [(0xC0 + c / 64) as byte, (0x80 + c % 64) as byte]
    else if c < 0x1_0000 then
      [(0xE0 + c / 4096) as byte, (0x80 + c / 64 % 64) as byte, (0x80 + c % 64) as byte]
    else
      [(0xF0 + c / 262144) as byte, (0x80 + c / 4096 % 64) as byte, (0x80 + c / 64 % 64) as byte,
       (0x80 + c % 64) as byte]
  }

  predicate CodePoints(text: seq<int>) { forall i :: 0 <= i < |text| ==> 0 <= text[i] < 0x11_0000 }

  function Encode(text: seq<int>): (b: Bytes)
    requires CodePoints(text)
  {
    if text == [] then [] else Encode(text[..|text| - 1]) + Utf8(text[|text| - 1])
  }

  /** U+0000 to U+001F and U+007F to U+009F. */
  predicate Control(c: int) { c < 0x20 || 0x7F <= c < 0xA0 }

  lemma {:induction false} CharactersAdd(a: Bytes, b: Bytes)
    ensures Characters(a + b) == Characters(a) + Characters(b)
  {
    if b == [] {
      assert a + b == a;
    } else {
      assert (a + b)[..|a + b| - 1] == a + b[..|b| - 1];
      CharactersAdd(a, b[..|b| - 1]);
    }
  }

  lemma OneCharacter(c: int)
    requires 0 <= c < 0x11_0000
    ensures Characters(Utf8(c)) == 1
  {
    var b := Utf8(c);
    if |b| == 1 {
      OneByte(b);
    } else if |b| == 2 {
      TwoBytes(b);
    } else if |b| == 3 {
      ThreeBytes(b);
    } else {
      FourBytes(b);
    }
  }

  predicate Continues(x: byte) { 128 <= x < 192 }

  lemma OneByte(b: Bytes)
    requires |b| == 1 && !Continues(b[0])
    ensures Characters(b) == 1
  {
    assert b[..0] == [];
  }

  lemma TwoBytes(b: Bytes)
    requires |b| == 2 && !Continues(b[0]) && Continues(b[1])
    ensures Characters(b) == 1
  {
    OneByte(b[..1]);
  }

  lemma ThreeBytes(b: Bytes)
    requires |b| == 3 && !Continues(b[0]) && Continues(b[1]) && Continues(b[2])
    ensures Characters(b) == 1
  {
    TwoBytes(b[..2]);
  }

  lemma FourBytes(b: Bytes)
    requires |b| == 4 && !Continues(b[0]) && Continues(b[1]) && Continues(b[2]) && Continues(b[3])
    ensures Characters(b) == 1
  {
    ThreeBytes(b[..3]);
  }

  lemma ControlOne(c: int)
    requires 0 <= c < 0x11_0000
    ensures HasControl(Utf8(c)) <==> Control(c)
    ensures var b := Utf8(c); b[|b| - 1] != 0xC2
  {
    var b := Utf8(c);
    if c < 0x800 { assert ControlAt(b, 0) <==> Control(c); }
  }

  lemma ControlAdd(a: Bytes, b: Bytes)
    requires a != [] ==> a[|a| - 1] != 0xC2
    ensures HasControl(a + b) <==> HasControl(a) || HasControl(b)
  {
    var c := a + b;
    forall i: nat | i < |a| ensures ControlAt(c, i) <==> ControlAt(a, i) { }
    forall i: nat | i < |b| ensures ControlAt(c, |a| + i) <==> ControlAt(b, i) { }
    if HasControl(c) {
      var i :| 0 <= i < |c| && ControlAt(c, i);
      assert i >= |a| ==> ControlAt(b, i - |a|);
    }
    if HasControl(b) {
      var i :| 0 <= i < |b| && ControlAt(b, i);
      assert ControlAt(c, |a| + i);
    }
  }

  lemma {:induction false} EncodeCounts(text: seq<int>)
    requires CodePoints(text)
    ensures Characters(Encode(text)) == |text| && (Encode(text) == [] <==> text == [])
    ensures HasControl(Encode(text)) <==> exists i :: 0 <= i < |text| && Control(text[i])
    ensures text != [] ==> Encode(text)[|Encode(text)| - 1] != 0xC2
  {
    hide Utf8, Control, HasControl, Characters;
    if text == [] {
      assert Characters([]) == 0 && !HasControl([]) by { Nothing(); }
    } else {
      var n := |text| - 1;
      EncodeCounts(text[..n]);
      OneCharacter(text[n]);
      ControlOne(text[n]);
      CharactersAdd(Encode(text[..n]), Utf8(text[n]));
      ControlAdd(Encode(text[..n]), Utf8(text[n]));
      assert forall i :: 0 <= i < n ==> text[..n][i] == text[i];
    }
  }

  lemma Nothing()
    ensures Characters([]) == 0 && !HasControl([])
  {
  }

  /** An identifier is accepted exactly when it has 1 to 256 characters, none of them a control
      character. */
  lemma IdVerdict(text: seq<int>)
    requires CodePoints(text)
    ensures ValidId(Encode(text)) <==>
      1 <= |text| <= 256 && forall i :: 0 <= i < |text| ==> !Control(text[i])
  {
    EncodeCounts(text);
  }
}
