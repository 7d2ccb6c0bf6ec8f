/** The lexical shell-hazard scanner shared by policy and enforcement. */
module Shell {
  import opened Text

  datatype Hazard =
    | CommandSubstitution
    | Backtick
    | EnvVarBraced
    | EnvVar
    | SubshellOpen
    | SubshellClose
    | ShellAnd
    | ShellOr
    | Pipe
    | Semicolon
    | RedirectOut
    | RedirectIn

  predicate IsSubstitution(h: Hazard)
  {
    h.CommandSubstitution? || h.Backtick? || h.EnvVarBraced? || h.EnvVar?
  }

  const DOLLAR: byte := 36
  const AMPERSAND: byte := 38
  const LPAREN: byte := 40
  const RPAREN: byte := 41
  const SEMICOLON: byte := 59
  const LESS: byte := 60
  const GREATER: byte := 62
  const BACKTICK: byte := 96
  const LBRACE: byte := 123
  const BAR: byte := 124

  /** ASCII letters, digits and underscore. */
  predicate IsNameByte(b: byte)
  {
    48 <= b <= 57 || 65 <= b <= 90 || 97 <= b <= 122 || b == 95
  }

  // ---- What a position holds, whatever precedes it ------------------------------------

  predicate ByteAt(s: Bytes, i: nat, b: byte) { i < |s| && s[i] == b }

  /** A dollar sign followed by something that makes it an expansion. */
  predicate ExpansionAt(s: Bytes, i: nat)
  {
    && ByteAt(s, i, DOLLAR)
    && i + 1 < |s|
    && (s[i + 1] == LPAREN || s[i + 1] == LBRACE || IsNameByte(s[i + 1]))
  }

  predicate SubstitutionAt(s: Bytes, i: nat) { ExpansionAt(s, i) || ByteAt(s, i, BACKTICK) }

  predicate HazardAt(s: Bytes, i: nat)
  {
    || SubstitutionAt(s, i)
    || (i < |s| && s[i] in {LPAREN, RPAREN, AMPERSAND, BAR, SEMICOLON, GREATER, LESS})
  }

  /** Two bytes that are read together. */
  predicate PairAt(s: Bytes, i: nat)
  {
    || ExpansionAt(s, i)
    || (ByteAt(s, i, AMPERSAND) && ByteAt(s, i + 1, AMPERSAND))
    || (ByteAt(s, i, BAR) && ByteAt(s, i + 1, BAR))
  }

  function Kind(s: Bytes, i: nat): (h: Hazard)
    requires HazardAt(s, i)
    ensures IsSubstitution(h) <==> SubstitutionAt(s, i)
  {
    if s[i] == DOLLAR then
      if s[i + 1] == LPAREN then CommandSubstitution
      else if s[i + 1] == LBRACE then EnvVarBraced
      else EnvVar
    else if s[i] == BACKTICK then Backtick
    else if s[i] == LPAREN then SubshellOpen
    else if s[i] == RPAREN then SubshellClose
    else if s[i] == AMPERSAND then ShellAnd
    else if s[i] == BAR then if PairAt(s, i) then ShellOr else Pipe
    else if s[i] == SEMICOLON then Semicolon
    else if s[i] == GREATER then RedirectOut
    else RedirectIn
  }

  /** The text that starts at a position. */
  predicate TextAt(s: Bytes, i: nat, text: string) { i <= |s| && HasPrefix(s[i..], Ascii(text)) }

  /** Which text each kind is reported for. */
  predicate Reads(s: Bytes, i: nat, h: Hazard)
  {
    match h
    case CommandSubstitution => TextAt(s, i, "$(")
    case EnvVarBraced => TextAt(s, i, "${")
    case EnvVar =>
      TextAt(s, i, "$") && i + 1 < |s|
      && (var b := s[i + 1] as char;
          '0' <= b <= '9' || 'A' <= b <= 'Z' || 'a' <= b <= 'z' || b == '_')
    case Backtick => TextAt(s, i, "`")
    case SubshellOpen => TextAt(s, i, "(")
    case SubshellClose => TextAt(s, i, ")")
    case ShellAnd => TextAt(s, i, "&")
    case ShellOr => TextAt(s, i, "||")
    case Pipe => TextAt(s, i, "|") && !TextAt(s, i, "||")
    case Semicolon => TextAt(s, i, ";")
    case RedirectOut => TextAt(s, i, ">")
    case RedirectIn => TextAt(s, i, "<")
  }

  lemma TextAtOne(s: Bytes, i: nat, text: string)
    requires |text| == 1 && text[0] < 128 as char
    ensures TextAt(s, i, text) <==> i < |s| && s[i] as int == text[0] as int
  {
    if i < |s| {
      assert s[i..][..1] == [s[i]];
      assert Ascii(text) == [Ascii(text)[0]];
    }
  }

  lemma TextAtTwo(s: Bytes, i: nat, text: string)
    requires |text| == 2 && text[0] < 128 as char && text[1] < 128 as char
    ensures TextAt(s, i, text) <==>
      i + 1 < |s| && s[i] as int == text[0] as int && s[i + 1] as int == text[1] as int
  {
    if i + 1 < |s| {
      assert s[i..][..2] == [s[i], s[i + 1]];
      assert Ascii(text) == [Ascii(text)[0], Ascii(text)[1]];
    }
  }

  /** A kind is reported for its own text: the text at a hazard reads as one kind only. */
  lemma KindVerdict(s: Bytes, i: nat, h: Hazard)
    ensures HazardAt(s, i) && Kind(s, i) == h <==> Reads(s, i, h)
  {
    TextAtTwo(s, i, "$(");
    TextAtTwo(s, i, "${");
    TextAtTwo(s, i, "||");
    TextAtOne(s, i, "$");
    TextAtOne(s, i, "`");
    TextAtOne(s, i, "(");
    TextAtOne(s, i, ")");
    TextAtOne(s, i, "&");
    TextAtOne(s, i, "|");
    TextAtOne(s, i, ";");
    TextAtOne(s, i, ">");
    TextAtOne(s, i, "<");
    hide TextAt;
  }

  /** Which texts are read as two bytes together. */
  lemma PairVerdict(s: Bytes, i: nat)
    ensures PairAt(s, i) <==>
      || Reads(s, i, CommandSubstitution) || Reads(s, i, EnvVarBraced) || Reads(s, i, EnvVar)
      || TextAt(s, i, "&&") || TextAt(s, i, "||")
  {
    TextAtTwo(s, i, "$(");
    TextAtTwo(s, i, "${");
    TextAtTwo(s, i, "&&");
    TextAtTwo(s, i, "||");
    TextAtOne(s, i, "$");
    hide TextAt;
  }

  // ---- Reference: the hazards at the positions that no earlier pair has used up -------

  predicate Fresh(s: Bytes, i: nat)
  {
    i == 0 || !(Fresh(s, i - 1) && PairAt(s, i - 1))
  }

  /** Hazards at fresh positions below `n`, in order of appearance. */
  function Reported(s: Bytes, n: nat): (r: seq<Hazard>)
  {
    if n == 0 then []
    else if Fresh(s, n - 1) && HazardAt(s, n - 1) then Reported(s, n - 1) + [Kind(s, n - 1)]
    else Reported(s, n - 1)
  }

  lemma SkipPair(s: Bytes, i: nat)
    requires Fresh(s, i) && PairAt(s, i)
    ensures Fresh(s, i + 2) && Reported(s, i + 2) == Reported(s, i) + [Kind(s, i)]
  {
    assert !Fresh(s, i + 1);
  }

  lemma SkipOne(s: Bytes, i: nat)
    requires Fresh(s, i) && !PairAt(s, i)
    ensures Fresh(s, i + 1)
    ensures Reported(s, i + 1) == Reported(s, i) + if HazardAt(s, i) then [Kind(s, i)] else []
  {
  }

  /** The scanner: strides over one or two bytes at a time. */
  method ScanDangerousShellConstructs(s: Bytes) returns (out: seq<Hazard>)
    ensures out == Reported(s, |s|)
  {
    hide Reported, Fresh;
    out := [];
    var i := 0;
    assert Fresh(s, 0) && Reported(s, 0) == [] by { Start(s); }
    while i < |s|
      invariant 0 <= i <= |s|
      invariant Fresh(s, i) && out == Reported(s, i)
    {
      if PairAt(s, i) { SkipPair(s, i); } else { SkipOne(s, i); }
      var b := s[i];
      if b == DOLLAR {
        if i + 1 < |s| && s[i + 1] == LPAREN {
          out, i := out + [CommandSubstitution], i + 2;
        } else if i + 1 < |s| && s[i + 1] == LBRACE {
          out, i := out + [EnvVarBraced], i + 2;
        } else if i + 1 < |s| && IsNameByte(s[i + 1]) {
          out, i := out + [EnvVar], i + 2;
        } else {
          i := i + 1;
        }
      } else if b == BACKTICK {
        out, i := out + [Backtick], i + 1;
      } else if b == LPAREN {
        out, i := out + [SubshellOpen], i + 1;
      } else if b == RPAREN {
        out, i := out + [SubshellClose], i + 1;
      } else if b == AMPERSAND {
        if i + 1 < |s| && s[i + 1] == AMPERSAND {
          out, i := out + [ShellAnd], i + 2;
        } else {
          out, i := out + [ShellAnd], i + 1;
        }
      } else if b == BAR {
        if i + 1 < |s| && s[i + 1] == BAR {
          out, i := out + [ShellOr], i + 2;
        } else {
          out, i := out + [Pipe], i + 1;
        }
      } else if b == SEMICOLON {
        out, i := out + [Semicolon], i + 1;
      } else if b == GREATER {
        out, i := out + [RedirectOut], i + 1;
      } else if b == LESS {
        out, i := out + [RedirectIn], i + 1;
      } else {
        i := i + 1;
      }
    }
  }

  lemma Start(s: Bytes)
    ensures Fresh(s, 0) && Reported(s, 0) == []
  {
  }

  method HasDangerousShellConstruct(s: Bytes) returns (found: bool)
    ensures found <==> exists i :: 0 <= i < |s| && HazardAt(s, i)
  {
    var out := ScanDangerousShellConstructs(s);
    found := out != [];
    ReportedIffHazard(s, |s|);
  }

  method HasSubstitutionHazard(s: Bytes) returns (found: bool)
    ensures found <==> exists i :: 0 <= i < |s| && SubstitutionAt(s, i)
  {
    var out := ScanDangerousShellConstructs(s);
    found := exists k :: 0 <= k < |out| && IsSubstitution(out[k]);
    SubstitutionReportedIff(s, |s|);
  }

  // ---- The verdicts do not depend on the stride ----------------------------------------

  /** Something is reported exactly when some position holds a hazard. */
  lemma {:induction false} ReportedIffHazard(s: Bytes, n: nat)
    ensures Reported(s, n) != [] <==> exists i :: 0 <= i < n && HazardAt(s, i)
  {
    hide Kind, HazardAt, PairAt;
    if n > 0 {
      ReportedIffHazard(s, n - 1);
      if !Fresh(s, n - 1) {
        PairIsHazard(s, n - 2);
        assert HazardAt(s, n - 2);
      }
    }
  }

  lemma PairIsHazard(s: Bytes, i: nat)
    requires PairAt(s, i)
    ensures HazardAt(s, i) && !SubstitutionAt(s, i + 1)
  {
  }

  predicate HasSubstitution(r: seq<Hazard>)
  {
    exists k :: 0 <= k < |r| && IsSubstitution(r[k])
  }

  lemma HasSubstitutionSnoc(r: seq<Hazard>, h: Hazard)
    ensures HasSubstitution(r + [h]) <==> HasSubstitution(r) || IsSubstitution(h)
  {
    hide IsSubstitution;
    var t := r + [h];
    assert t[|r|] == h;
    assert forall k :: 0 <= k < |r| ==> t[k] == r[k];
  }

  /** A substitution position is never the second half of a pair, so each is reported. */
  lemma {:induction false} SubstitutionReportedIff(s: Bytes, n: nat)
    ensures HasSubstitution(Reported(s, n)) <==> exists i :: 0 <= i < n && SubstitutionAt(s, i)
  {
    if n > 0 {
      SubstitutionReportedIff(s, n - 1);
      if !Fresh(s, n - 1) {
        PairIsHazard(s, n - 2);
      } else if HazardAt(s, n - 1) {
        HasSubstitutionSnoc(Reported(s, n - 1), Kind(s, n - 1));
      }
    }
  }

  // ---- Adding text ---------------------------------------------------------------------

  predicate Dangerous(s: Bytes) { exists i :: 0 <= i < |s| && HazardAt(s, i) }

  predicate Substitutes(s: Bytes) { exists i :: 0 <= i < |s| && SubstitutionAt(s, i) }

  /** A trailing dollar sign that the following text turns into an expansion. */
  predicate Completes(a: Bytes, b: Bytes)
  {
    a != [] && b != [] && ExpansionAt([a[|a| - 1], b[0]], 0)
  }

  lemma AtLeft(a: Bytes, b: Bytes, i: nat)
    requires i < |a|
    ensures HazardAt(a + b, i) <==> HazardAt(a, i) || (i == |a| - 1 && Completes(a, b))
    ensures SubstitutionAt(a + b, i) <==> SubstitutionAt(a, i) || (i == |a| - 1 && Completes(a, b))
  {
  }

  lemma AtRight(a: Bytes, b: Bytes, i: nat)
    requires i < |b|
    ensures HazardAt(a + b, |a| + i) <==> HazardAt(b, i)
    ensures SubstitutionAt(a + b, |a| + i) <==> SubstitutionAt(b, i)
  {
  }

  /** A joined text is dangerous exactly when a part is, or a dollar sign at the seam completes. */
  lemma DangerousJoin(a: Bytes, b: Bytes)
    ensures Dangerous(a + b) <==> Dangerous(a) || Dangerous(b) || Completes(a, b)
  {
    hide HazardAt, Completes;
    if Dangerous(a + b) {
      var i :| 0 <= i < |a + b| && HazardAt(a + b, i);
      if i < |a| { AtLeft(a, b, i); } else { AtRight(a, b, i - |a|); }
    }
    if Dangerous(a) {
      var i :| 0 <= i < |a| && HazardAt(a, i);
      AtLeft(a, b, i);
    }
    if Dangerous(b) {
      var i :| 0 <= i < |b| && HazardAt(b, i);
      AtRight(a, b, i);
    }
    if a != [] { AtLeft(a, b, |a| - 1); }
    assert Completes(a, b) ==> a != [] by { NeedsSeam(a, b); }
  }

  lemma NeedsSeam(a: Bytes, b: Bytes)
    ensures Completes(a, b) ==> a != []
  {
  }

  /** The same for substitutions. */
  lemma SubstitutesJoin(a: Bytes, b: Bytes)
    ensures Substitutes(a + b) <==> Substitutes(a) || Substitutes(b) || Completes(a, b)
  {
    hide SubstitutionAt, Completes;
    if Substitutes(a + b) {
      var i :| 0 <= i < |a + b| && SubstitutionAt(a + b, i);
      if i < |a| { AtLeft(a, b, i); } else { AtRight(a, b, i - |a|); }
    }
    if Substitutes(a) {
      var i :| 0 <= i < |a| && SubstitutionAt(a, i);
      AtLeft(a, b, i);
    }
    if Substitutes(b) {
      var i :| 0 <= i < |b| && SubstitutionAt(b, i);
      AtRight(a, b, i);
    }
    if a != [] { AtLeft(a, b, |a| - 1); }
    assert Completes(a, b) ==> a != [] by { NeedsSeam(a, b); }
  }
}
