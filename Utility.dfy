/**
 * String helpers and the clamp step of the Gaussian sampler (Utility.cs).
 */
module Utility {

  /** An optional value; `None` also stands for an operation that threw. */
  datatype Option<T> = None | Some(value: T)

  const NUL: char := '\0'

  /** `n` copies of `c`. */
  function Repeat(c: char, n: nat): (r: string)
    ensures |r| == n && forall i :: 0 <= i < n ==> r[i] == c
  {
    if n == 0 then [] else [c] + Repeat(c, n - 1)
  }

  /** `Trim('\0')` at the front: the longest suffix of `s` that does not start with NUL. */
  function TrimStartNul(s: string): (r: string)
    ensures |r| <= |s| && r == s[|s| - |r|..]
    ensures r == [] || r[0] != NUL
    ensures forall i :: 0 <= i < |s| - |r| ==> s[i] == NUL
  {
    s[FirstNonNul(s, 0)..]
  }

  /** The index of the first character of `s` at or after `k` that is not NUL, or `|s|` when there is none. */
  function FirstNonNul(s: string, k: nat): (n: nat)
    requires k <= |s|
    ensures k <= n <= |s| && (forall i :: k <= i < n ==> s[i] == NUL) && (n == |s| || s[n] != NUL)
    decreases |s| - k
  {
    if k < |s| && s[k] == NUL then FirstNonNul(s, k + 1) else k
  }

  /** `Trim('\0')` at the back: the longest prefix of `s` that does not end with NUL. */
  function TrimEndNul(s: string): (r: string)
    ensures |r| <= |s| && r == s[..|r|]
    ensures r == [] || r[|r| - 1] != NUL
    ensures forall i :: |r| <= i < |s| ==> s[i] == NUL
  {
    s[..EndBeforeNuls(s, |s|)]
  }

  /** The length of `s[..k]` once its trailing NULs are dropped. */
  function EndBeforeNuls(s: string, k: nat): (n: nat)
    requires k <= |s|
    ensures n <= k && (forall i :: n <= i < k ==> s[i] == NUL) && (n == 0 || s[n - 1] != NUL)
  {
    if k > 0 && s[k - 1] == NUL then EndBeforeNuls(s, k - 1) else k
  }

  /** GetStringFromCharArray: the characters with every leading and trailing NUL removed. */
  function TrimNul(s: string): (r: string)
  {
    TrimEndNul(TrimStartNul(s))
  }

  /** The trimmed string is the NUL-free core of `s`: what is removed is NUL only, and the ends of the result are not NUL. */
  lemma TrimNulCore(s: string)
    ensures var a := |s| - |TrimStartNul(s)|; var r := TrimNul(s);
      && a + |r| <= |s| && s[a..a + |r|] == r
      && (forall i :: 0 <= i < a ==> s[i] == NUL)
      && (forall i :: a + |r| <= i < |s| ==> s[i] == NUL)
      && (r == [] || (r[0] != NUL && r[|r| - 1] != NUL))
  {
    var t := TrimStartNul(s);
    var r := TrimEndNul(t);
    var a := |s| - |t|;
    assert s[a..a + |r|] == t[..|r|];
    if r != [] {
      assert r[0] == t[0];
    }
  }

  /** Trimming removes exactly the NUL padding around a core that neither starts nor ends with NUL. */
  lemma {:induction false} TrimNulPadded(a: nat, core: string, b: nat)
    requires core == [] || (core[0] != NUL && core[|core| - 1] != NUL)
    ensures TrimNul(Repeat(NUL, a) + core + Repeat(NUL, b)) == core
  {
    var s := Repeat(NUL, a) + core + Repeat(NUL, b);
    if core != [] {
      StartOfPadded(a, core + Repeat(NUL, b));
      assert s == Repeat(NUL, a) + (core + Repeat(NUL, b));
      EndOfPadded(core, b);
    }
  }

  lemma {:induction false} StartOfPadded(a: nat, t: string)
    requires t == [] || t[0] != NUL
    ensures TrimStartNul(Repeat(NUL, a) + t) == t
  {
    if a > 0 {
      assert (Repeat(NUL, a) + t)[1..] == Repeat(NUL, a - 1) + t;
      StartOfPadded(a - 1, t);
    }
  }

  lemma {:induction false} EndOfPadded(core: string, b: nat)
    requires core == [] || core[|core| - 1] != NUL
    ensures TrimEndNul(core + Repeat(NUL, b)) == core
  {
    if b > 0 {
      var s := core + Repeat(NUL, b);
      assert s[..|s| - 1] == core + Repeat(NUL, b - 1);
      EndOfPadded(core, b - 1);
    } else {
      assert core + Repeat(NUL, b) == core;
    }
  }

  /** Trimming is idempotent. */
  lemma TrimNulIdempotent(s: string)
    ensures TrimNul(TrimNul(s)) == TrimNul(s)
  {
    var r := TrimNul(s);
    TrimNulCore(s);
    assert r == Repeat(NUL, 0) + r + Repeat(NUL, 0);
    TrimNulPadded(0, r, 0);
  }

  /** ASCII upper-casing of one character (`ToUpper` on the names the simulation sends). */
  function UpperChar(c: char): (r: char)
    ensures 'a' <= c <= 'z' ==> r as int == c as int - 32
    ensures !('a' <= c <= 'z') ==> r == c
  {
    if 'a' <= c <= 'z' then (c as int - 32) as char else c
  }

  function ToUpper(s: string): (r: string)
    ensures |r| == |s| && forall i :: 0 <= i < |s| ==> r[i] == UpperChar(s[i])
  {
    if s == [] then [] else [UpperChar(s[0])] + ToUpper(s[1..])
  }

  function Min(a: int, b: int): int { if a <= b then a else b }

  function Max(a: int, b: int): int { if a >= b then a else b }

  //// numbers rendered as text ////

  function DigitChar(d: nat): (c: char)
    requires d < 10
  {
    ('0' as int + d) as char
  }

  function DigitValue(c: char): int
  {
    c as int - '0' as int
  }

  /** `n.ToString()` for a non-negative `n`. */
  function NatToString(n: nat): (r: string)
    ensures |r| >= 1
    ensures forall i :: 0 <= i < |r| ==> '0' <= r[i] <= '9'
    decreases n
  {
    if n < 10 then [DigitChar(n)] else NatToString(n / 10) + [DigitChar(n % 10)]
  }

  /** `i.ToString()`: a minus sign in front of a negative value. */
  function IntToString(i: int): string
  {
    if i < 0 then "-" + NatToString(-i) else NatToString(i)
  }

  /** `s.PadLeft(width, c)`. */
  function PadLeft(s: string, width: nat, c: char): (r: string)
    ensures |r| == Max(|s|, width)
    ensures r[|r| - |s|..] == s
    ensures forall i :: 0 <= i < |r| - |s| ==> r[i] == c
  {
    if |s| >= width then s else Repeat(c, width - |s|) + s
  }

  /** The value of a string of decimal digits, most significant first. */
  function ParseDigits(s: string): int
  {
    if s == [] then 0 else ParseDigits(s[..|s| - 1]) * 10 + DigitValue(s[|s| - 1])
  }

  lemma {:induction false} ParseNatToString(n: nat)
    ensures ParseDigits(NatToString(n)) == n
    decreases n
  {
    if n >= 10 {
      var s := NatToString(n / 10) + [DigitChar(n % 10)];
      assert s[..|s| - 1] == NatToString(n / 10);
      ParseNatToString(n / 10);
    }
  }

  lemma {:induction false} ParseLeadingZero(s: string)
    ensures ParseDigits("0" + s) == ParseDigits(s)
    decreases |s|
  {
    if s != [] {
      assert ("0" + s)[..|"0" + s| - 1] == "0" + s[..|s| - 1];
      ParseLeadingZero(s[..|s| - 1]);
    }
  }

  //// property names ////

  function PdMPropertyPrefix(): string { "PdM_" }

  function ParticipantPrefix(isPlayer: bool, index: int): (r: string)
    ensures |r| >= |PdMPropertyPrefix()| && r[..|PdMPropertyPrefix()|] == PdMPropertyPrefix()
    ensures r[|r| - 1] == '_'
  {
    if isPlayer then PdMPropertyPrefix() + "Player_"
    else PdMPropertyPrefix() + "Participant" + PadLeft(IntToString(index), 2, '0') + "_"
  }

  function SessionPrefix(): (r: string)
    ensures |r| >= |PdMPropertyPrefix()| && r[..|PdMPropertyPrefix()|] == PdMPropertyPrefix()
  {
    PdMPropertyPrefix() + "Session_"
  }

  /** Reads back the index from a plain participant prefix; the inverse of ParticipantPrefix(false, _). */
  function ParticipantIndexOf(name: string): int
  {
    var head := |"PdM_Participant"|;
    if |name| > head then ParseDigits(name[head..|name| - 1]) else -1
  }

  /** The player prefix never depends on the index. */
  lemma PlayerPrefixIgnoresIndex(i: int, j: int)
    ensures ParticipantPrefix(true, i) == ParticipantPrefix(true, j) == "PdM_Player_"
  {
  }

  /** A position below 10 is written with a leading zero: "PdM_Participant07_". */
  lemma ParticipantPrefixSingleDigit(i: nat)
    requires i < 10
    ensures ParticipantPrefix(false, i) == "PdM_Participant0" + [DigitChar(i)] + "_"
  {
  }

  /** Round trip: the index is recovered from the prefix, so different indices give different names. */
  lemma ParticipantPrefixRoundTrip(i: nat)
    ensures ParticipantIndexOf(ParticipantPrefix(false, i)) == i
  {
    var digits := NatToString(i);
    var padded := PadLeft(digits, 2, '0');
    var name := ParticipantPrefix(false, i);
    assert name == "PdM_Participant" + padded + "_";
    assert name[|"PdM_Participant"|..|name| - 1] == padded;
    ParseNatToString(i);
    if |digits| < 2 {
      assert padded == "0" + digits;
      ParseLeadingZero(digits);
    }
  }

  lemma ParticipantPrefixInjective(i: nat, j: nat)
    requires ParticipantPrefix(false, i) == ParticipantPrefix(false, j)
    ensures i == j
  {
    ParticipantPrefixRoundTrip(i);
    ParticipantPrefixRoundTrip(j);
  }

  //// random numbers ////

  /**
   * The clamp step of GaussianRandom applied to an already drawn sample `x`
   * (the Box-Muller draw itself is not modelled).
   */
  function ClampSample(x: real, lo: real, hi: real): (r: real)
    ensures lo <= hi ==> lo <= r <= hi
    ensures lo <= x <= hi ==> r == x
    ensures x < lo ==> r == lo
    ensures x > hi && x >= lo ==> r == hi
  {
    if x < lo then lo else if x > hi then hi else x
  }
}
