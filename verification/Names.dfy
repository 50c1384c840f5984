/** Name normalization: lower case, and no Spanish accents (two-byte UTF-8 sequences led by 0xC3). */
module Names {
  import opened Bytes

  const LEAD: byte := 0xC3

  /** The plain letter for the byte that follows LEAD, or 0 when that byte has none. */
  function Letter(n: byte): byte {
    if n in {0x80, 0x81, 0xA0, 0xA1} then 0x61
    else if n in {0x88, 0x89, 0xA8, 0xA9} then 0x65
    else if n in {0x8C, 0x8D, 0xAC, 0xAD} then 0x69
    else if n in {0x92, 0x93, 0xB2, 0xB3} then 0x6F
    else if n in {0x99, 0x9A, 0x9C, 0xB9, 0xBA, 0xBC} then 0x75
    else if n in {0x91, 0xB1} then 0x6E
    else 0
  }

  /** tolower in the "C" locale. */
  function Lower(c: byte): byte {
    if 0x41 <= c <= 0x5A then c + 32 else c
  }

  predicate AccentAt(s: Text, i: nat) {
    i + 1 < |s| && s[i] == LEAD && Letter(s[i + 1]) != 0
  }

  function Normalize(s: Text): Text {
    if s == [] then []
    else if AccentAt(s, 0) then [Letter(s[1])] + Normalize(s[2..])
    else [Lower(s[0])] + Normalize(s[1..])
  }

  /** A name that holds no accented letter and no capital. */
  ghost predicate Plain(t: Text) {
    forall i: nat | i < |t| :: Lower(t[i]) == t[i] && !AccentAt(t, i)
  }

  /** What is left to normalize from i on, behind what has been normalized. */
  lemma NormalizeFrom(s: Text, i: nat, done: Text)
    requires i < |s|
    ensures AccentAt(s, i) ==> done + Normalize(s[i..]) == done + [Letter(s[i + 1])] + Normalize(s[i + 2..])
    ensures !AccentAt(s, i) ==> done + Normalize(s[i..]) == done + [Lower(s[i])] + Normalize(s[i + 1..])
  {
    hide Letter, Lower;
    var rest := s[i..];
    assert AccentAt(rest, 0) <==> AccentAt(s, i);
    if AccentAt(s, i) {
      assert rest[2..] == s[i + 2..];
    } else {
      assert rest[1..] == s[i + 1..];
    }
  }

  method NormalizeName(s: Text) returns (r: Text)
    ensures r == Normalize(s)
  {
    assert Normalize([]) == [] && s[0..] == s && s[|s|..] == [];
    hide Letter, Normalize;
    r := [];
    var i := 0;
    while i < |s|
      invariant 0 <= i <= |s|
      invariant r + Normalize(s[i..]) == Normalize(s)
    {
      NormalizeFrom(s, i, r);
      var c := s[i];
      if c == LEAD && i + 1 < |s| && Letter(s[i + 1]) != 0 {
        r := r + [Letter(s[i + 1])];
        i := i + 2;
        continue;
      }
      r := r + [if c < 0x80 then Lower(c) else c];
      i := i + 1;
    }
  }

  /** Whatever the bytes, stray and doubled lead bytes included, no accent and no capital is left. */
  lemma {:induction false} NormalizeIsPlain(s: Text)
    ensures Plain(Normalize(s))
    ensures s != [] ==> Normalize(s) != []
    // A letter byte at the front of the result was already at the front of the source.
    ensures s != [] && Letter(Normalize(s)[0]) != 0 ==> s[0] == Normalize(s)[0]
  {
    if s == [] {
    } else if AccentAt(s, 0) {
      NormalizeIsPlain(s[2..]);
      PlainCons(Letter(s[1]), Normalize(s[2..]));
    } else {
      NormalizeIsPlain(s[1..]);
      PlainCons(Lower(s[0]), Normalize(s[1..]));
    }
  }

  lemma PlainCons(c: byte, t: Text)
    requires Plain(t) && Lower(c) == c
    requires c == LEAD && t != [] ==> Letter(t[0]) == 0
    ensures Plain([c] + t)
  {
  }

  /** The fixed points of normalization are exactly the plain names. */
  lemma {:induction false} FixedPointsArePlain(t: Text)
    ensures Normalize(t) == t <==> Plain(t)
  {
    NormalizeIsPlain(t);
    if Plain(t) && t != [] {
      assert !AccentAt(t, 0) && Lower(t[0]) == t[0];
      assert Plain(t[1..]) by {
        forall i: nat | i < |t[1..]|
          ensures Lower(t[1..][i]) == t[1..][i] && !AccentAt(t[1..], i)
        {
          assert !AccentAt(t, i + 1) && Lower(t[i + 1]) == t[i + 1];
        }
      }
      FixedPointsArePlain(t[1..]);
      assert t == [t[0]] + t[1..];
    }
  }

  lemma {:induction false} NormalizeIdempotent(s: Text)
    ensures Normalize(Normalize(s)) == Normalize(s)
  {
    NormalizeIsPlain(s);
    FixedPointsArePlain(Normalize(s));
  }

  function Accents(s: Text): nat {
    if |s| < 2 then 0 else (if AccentAt(s, 0) then 1 else 0) + Accents(s[1..])
  }

  /** The result is shorter by exactly one byte per accented letter: none is missed and none is split. */
  lemma {:induction false} NormalizedLength(s: Text)
    ensures |Normalize(s)| + Accents(s) == |s|
  {
    if s == [] {
    } else if AccentAt(s, 0) {
      NormalizedLength(s[2..]);
      assert s[1..][1..] == s[2..];
      assert !AccentAt(s[1..], 0);
    } else {
      NormalizedLength(s[1..]);
    }
  }

  // ---- What the letters become ----

  lemma Alone(c: byte)
    ensures Normalize([c]) == [Lower(c)]
  {
    assert Normalize([c][1..]) == [];
  }

  lemma Accented(n: byte)
    ensures Letter(n) != 0 ==> Normalize([LEAD, n]) == [Letter(n)]
  {
    assert [LEAD, n][2..] == [];
  }

  /** Capitals and small letters have one normal form, the small one, and whatever is no letter stays as it is. */
  lemma CasesAreOne(k: nat, c: byte)
    requires k < 26
    ensures Normalize([0x41 + k]) == Normalize([0x61 + k]) == [0x61 + k]
    ensures c < 0x41 || 0x5A < c ==> Normalize([c]) == [c]
  {
    Alone(0x41 + k);
    Alone(0x61 + k);
    Alone(c);
  }

  /** An accented vowel, acute or grave, large or small, is its vowel; so are u with a diaeresis and n with a tilde. */
  lemma AccentsAreOne()
    ensures forall n | n in [0x80, 0x81, 0xA0, 0xA1] :: Normalize([0xC3, n]) == [0x61]
    ensures forall n | n in [0x88, 0x89, 0xA8, 0xA9] :: Normalize([0xC3, n]) == [0x65]
    ensures forall n | n in [0x8C, 0x8D, 0xAC, 0xAD] :: Normalize([0xC3, n]) == [0x69]
    ensures forall n | n in [0x92, 0x93, 0xB2, 0xB3] :: Normalize([0xC3, n]) == [0x6F]
    ensures forall n | n in [0x99, 0x9A, 0x9C, 0xB9, 0xBA, 0xBC] :: Normalize([0xC3, n]) == [0x75]
    ensures forall n | n in [0x91, 0xB1] :: Normalize([0xC3, n]) == [0x6E]
  {
    hide Normalize;
    forall n: byte ensures Letter(n) != 0 ==> Normalize([0xC3, n]) == [Letter(n)] {
      Accented(n);
    }
  }

  /** Any other byte behind the lead byte is taken by itself, and so is the lead byte. */
  lemma StrayLead(n: byte, t: Text)
    requires Letter(n) == 0
    ensures Normalize([LEAD, n] + t) == [LEAD] + Normalize([n] + t)
  {
    assert ([LEAD, n] + t)[1..] == [n] + t;
  }

  /** A name is normalized piece by piece, as long as no accented letter is cut in two. */
  lemma {:induction false} PieceByPiece(s: Text, t: Text)
    requires s == [] || s[|s| - 1] != LEAD
    ensures Normalize(s + t) == Normalize(s) + Normalize(t)
  {
    assert Normalize([]) == [] && [] + t == t;
    hide Letter, Lower, Normalize;
    if s != [] {
      var n := if AccentAt(s, 0) then 2 else 1;
      var rest := s[n..];
      assert rest != [] ==> rest[|rest| - 1] == s[|s| - 1];
      PieceByPiece(rest, t);
      FrontAndRest(s, []);
      FrontAndRest(s, t);
      assert s + [] == s && rest + [] == rest;
    }
  }

  lemma FrontAndRest(s: Text, t: Text)
    requires s != [] && s[|s| - 1] != LEAD
    ensures AccentAt(s, 0) ==> Normalize(s + t) == [Letter(s[1])] + Normalize(s[2..] + t)
    ensures !AccentAt(s, 0) ==> Normalize(s + t) == [Lower(s[0])] + Normalize(s[1..] + t)
  {
    hide Letter, Lower;
    assert AccentAt(s + t, 0) <==> AccentAt(s, 0);
    if AccentAt(s, 0) {
      assert (s + t)[2..] == s[2..] + t;
    } else {
      assert (s + t)[1..] == s[1..] + t;
    }
  }
}
