/** The identities under which pods register with the cluster. */
module Identity {
  import opened Hexadecimal

  // ---------- CN pods ----------

  /** Two characters of the digest text read as one little-endian 16-bit word. */
  function Word(h: string, k: nat): nat
    requires 2 * k + 1 < |h|
  {
    h[2 * k] as nat + 0x100 * h[2 * k + 1] as nat
  }

  ghost predicate DigestText(h: string) {
    |h| >= 16 && forall i :: 0 <= i < |h| ==> HexDigit(h[i])
  }

  function Dashed(a: string, b: string, c: string, d: string, e: string, f: string, g: string, i: string): string {
    a + b + "-" + c + "-" + d + "-" + e + "-" + f + g + i
  }

  /** The identity the pod's own start script computes: the words as `od -x` prints them, each
      in exactly four digits. */
  function ScriptUUID(h: string): string
    requires |h| >= 16
  {
    Dashed(Padded(Word(h, 0), 4), Padded(Word(h, 1), 4), Padded(Word(h, 2), 4), Padded(Word(h, 3), 4),
           Padded(Word(h, 4), 4), Padded(Word(h, 5), 4), Padded(Word(h, 6), 4), Padded(Word(h, 7), 4))
  }

  /** A word made of two hex characters is at least 0x3030, so it prints in four digits
      without padding. */
  lemma WordHasFourDigits(h: string, k: nat)
    requires DigestText(h) && k < 8
    ensures 0x3030 <= Word(h, k) < 0x1_0000
    ensures |Hex(Word(h, k))| == 4 && Padded(Word(h, k), 4) == Hex(Word(h, k))
    ensures forall i :: 0 <= i < 4 ==> HexDigit(Hex(Word(h, k))[i])
  {
    var w := Word(h, k);
    assert HexDigit(h[2 * k]) && HexDigit(h[2 * k + 1]);
    HexLength(w, 4);
    HexLength(w, 3);
    HexDigits(w);
    assert Pow16(4) == 0x1_0000 && Pow16(3) == 0x1000;
  }

  lemma TwoDigits(n: nat)
    requires 0x10 <= n < 0x100
    ensures Hex(n) == [Digit(n / 16), Digit(n % 16)] && Padded(n, 2) == Hex(n)
  {
  }

  /** A word shows the later character first, each as the two digits of its code. */
  lemma WordShowsLaterFirst(h: string, k: nat)
    requires DigestText(h) && k < 8
    ensures Padded(Word(h, k), 4) == Padded(h[2 * k + 1] as nat, 2) + Padded(h[2 * k] as nat, 2)
  {
    WordHasFourDigits(h, k);
    var a, b, w := h[2 * k] as nat, h[2 * k + 1] as nat, Word(h, k);
    assert HexDigit(h[2 * k]) && HexDigit(h[2 * k + 1]);
    TwoDigits(a);
    TwoDigits(b);
    assert w / 0x100 == b && w % 0x100 == a;
    LastTwoDigits(w, a, b);
  }

  lemma LastTwoDigits(w: nat, a: nat, b: nat)
    requires w == a + 0x100 * b && 0x10 <= a < 0x100 && 0x10 <= b < 0x100
    ensures Hex(w) == Hex(b) + Hex(a)
  {
    var v := w / 16;
    assert v == a / 16 + 16 * b && w % 16 == a % 16;
    assert v / 16 == b && v % 16 == a / 16;
    assert Hex(w) == Hex(v) + [Digit(w % 16)] && Hex(v) == Hex(v / 16) + [Digit(v % 16)];
    TwoDigits(a);
  }

  /** What the operator computes is what the pod computes for itself. */
  method GetCNPodUUID(h: string) returns (uuid: string)
    requires DigestText(h)
    ensures uuid == ScriptUUID(h)
  {
    var s := new nat[8];
    var i := 0;
    while i < 16
      invariant 0 <= i <= 16 && i % 2 == 0
      invariant forall k :: 0 <= k < i / 2 ==> s[k] == Word(h, k)
    {
      s[(i + 1) / 2] := h[i] as nat + 0x100 * h[i + 1] as nat;
      i := i + 2;
    }
    uuid := Dashed(Hex(s[0]), Hex(s[1]), Hex(s[2]), Hex(s[3]), Hex(s[4]), Hex(s[5]), Hex(s[6]), Hex(s[7]));
    forall k | 0 <= k < 8
      ensures Hex(s[k]) == Padded(Word(h, k), 4)
    {
      WordHasFourDigits(h, k);
    }
  }

  /** The text form of section 4 of RFC 9562: 36 characters, hex digits in groups of 8, 4, 4,
      4 and 12. */
  ghost predicate IsUUID(s: string) {
    && |s| == 36
    && forall i :: 0 <= i < 36 ==> if i == 8 || i == 13 || i == 18 || i == 23 then s[i] == '-' else HexDigit(s[i])
  }

  ghost predicate FourDigits(s: string) {
    |s| == 4 && forall i :: 0 <= i < 4 ==> HexDigit(s[i])
  }

  lemma DashedFacts(a: string, b: string, c: string, d: string, e: string, f: string, g: string, i: string)
    requires FourDigits(a) && FourDigits(b) && FourDigits(c) && FourDigits(d)
    requires FourDigits(e) && FourDigits(f) && FourDigits(g) && FourDigits(i)
    ensures var s := Dashed(a, b, c, d, e, f, g, i);
            && IsUUID(s)
            && s[0..4] == a && s[4..8] == b && s[9..13] == c && s[14..18] == d
            && s[19..23] == e && s[24..28] == f && s[28..32] == g && s[32..36] == i
  {
  }

  function At(k: nat): nat
    requires k < 8
  {
    [0, 4, 9, 14, 19, 24, 28, 32][k]
  }

  lemma ScriptUUIDFacts(h: string)
    requires DigestText(h)
    ensures IsUUID(ScriptUUID(h))
    ensures forall k :: 0 <= k < 8 ==> ScriptUUID(h)[At(k)..At(k) + 4] == Padded(Word(h, k), 4)
  {
    forall k | 0 <= k < 8
      ensures FourDigits(Padded(Word(h, k), 4))
    {
      WordHasFourDigits(h, k);
    }
    hide Padded, Word;
    DashedFacts(Padded(Word(h, 0), 4), Padded(Word(h, 1), 4), Padded(Word(h, 2), 4), Padded(Word(h, 3), 4),
                Padded(Word(h, 4), 4), Padded(Word(h, 5), 4), Padded(Word(h, 6), 4), Padded(Word(h, 7), 4));
  }

  /** The identity spells the first sixteen characters of the digest by their codes, two digits
      each, every pair of characters in reverse. */
  lemma ScriptUUIDSpells(h: string, k: nat)
    requires DigestText(h) && k < 8
    ensures IsUUID(ScriptUUID(h))
    ensures ScriptUUID(h)[At(k)..At(k) + 4] == Padded(h[2 * k + 1] as nat, 2) + Padded(h[2 * k] as nat, 2)
  {
    hide ScriptUUID, Padded;
    ScriptUUIDFacts(h);
    WordShowsLaterFirst(h, k);
  }

  lemma BytesMatch(a: char, b: char, c: char, d: char)
    requires HexDigit(a) && HexDigit(b) && HexDigit(c) && HexDigit(d)
    requires a as nat + 0x100 * b as nat == c as nat + 0x100 * d as nat
    ensures a == c && b == d
  {
  }

  /** Equal words come from equal characters. */
  lemma WordsMatch(g: string, h: string, k: nat)
    requires DigestText(g) && DigestText(h) && k < 8
    requires ScriptUUID(g) == ScriptUUID(h)
    ensures g[2 * k] == h[2 * k] && g[2 * k + 1] == h[2 * k + 1]
  {
    ScriptUUIDFacts(g);
    ScriptUUIDFacts(h);
    assert Padded(Word(g, k), 4) == ScriptUUID(g)[At(k)..At(k) + 4] == Padded(Word(h, k), 4);
    PaddedRoundTrip(Word(g, k), 4);
    PaddedRoundTrip(Word(h, k), 4);
    hide ScriptUUID, Padded, At, Value, Hex;
    BytesMatch(g[2 * k], g[2 * k + 1], h[2 * k], h[2 * k + 1]);
  }

  lemma SameCharactersSameWords(g: string, h: string)
    requires |g| >= 16 && |h| >= 16 && g[..16] == h[..16]
    ensures forall k :: 0 <= k < 8 ==> Word(g, k) == Word(h, k)
  {
    assert forall i :: 0 <= i < 16 ==> g[i] == g[..16][i] == h[..16][i] == h[i];
  }

  /** Two pods get the same identity exactly when their digests agree in the first sixteen
      characters. */
  lemma UUIDIsInjective(g: string, h: string)
    requires DigestText(g) && DigestText(h)
    ensures ScriptUUID(g) == ScriptUUID(h) <==> g[..16] == h[..16]
  {
    if g[..16] == h[..16] {
      SameCharactersSameWords(g, h);
    }
    if ScriptUUID(g) == ScriptUUID(h) {
      hide ScriptUUID;
      forall i | 0 <= i < 16
        ensures g[i] == h[i]
      {
        WordsMatch(g, h, i / 2);
        assert i == 2 * (i / 2) || i == 2 * (i / 2) + 1;
      }
    }
  }

  // ---------- log pods ----------

  const ORDINAL_PREFIX := "00000000-0000-0000-0000-"

  /** The identity the operator expects of the log pod with this ordinal. */
  function EncodeOrdinal(ordinal: nat): string { ORDINAL_PREFIX + Padded(ordinal, 12) }

  /** The identity the start script gives to that pod. */
  function ScriptOrdinal(ordinal: nat): string { ORDINAL_PREFIX + "0" + Padded(ordinal, 11) }

  lemma EncodeOrdinalIsInjective(a: nat, b: nat)
    requires EncodeOrdinal(a) == EncodeOrdinal(b)
    ensures a == b
  {
    assert Padded(a, 12) == EncodeOrdinal(a)[|ORDINAL_PREFIX|..] == Padded(b, 12);
    PaddedRoundTrip(a, 12);
    PaddedRoundTrip(b, 12);
  }

  /** Operator and start script agree on a pod's identity exactly for ordinals that fit in
      eleven digits. */
  lemma OrdinalFormsAgree(ordinal: nat)
    ensures EncodeOrdinal(ordinal) == ScriptOrdinal(ordinal) <==> ordinal < Pow16(11)
  {
    HexLength(ordinal, 11);
    HexDigits(ordinal);
    var p, q := Padded(ordinal, 12), "0" + Padded(ordinal, 11);
    assert ScriptOrdinal(ordinal) == ORDINAL_PREFIX + q;
    assert p == EncodeOrdinal(ordinal)[|ORDINAL_PREFIX|..] && q == ScriptOrdinal(ordinal)[|ORDINAL_PREFIX|..];
    if ordinal < Pow16(11) {
      var z := 11 - |Hex(ordinal)|;
      assert "0" + Zeros(z) == Zeros(z + 1);
      assert p == q;
    } else {
      NoLeadingZero(ordinal);
      assert p[0] != q[0];
    }
  }
}
