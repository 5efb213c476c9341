/** String normalisation as the Python code performs it: `str.lower()`,
    `str.strip()` and their composition, plus the decimal rendering of an
    integer inside an f-string. */
module Text {

  /** Python's `str.isspace` for one character (the set `str.strip()` removes). */
  predicate IsSpace(c: char)
  {
    || ('\t' <= c <= '\r')
    || ('\U{1C}' <= c <= '\U{1F}')
    || c == ' '
    || c == '\U{85}'
    || c == '\U{A0}'
    || c == '\U{1680}'
    || ('\U{2000}' <= c <= '\U{200A}')
    || c == '\U{2028}'
    || c == '\U{2029}'
    || c == '\U{202F}'
    || c == '\U{205F}'
    || c == '\U{3000}'
  }

  predicate AllSpace(s: string)
  {
    forall i :: 0 <= i < |s| ==> IsSpace(s[i])
  }

  /** Upper-case letters of ASCII and Latin-1 (À..Þ without ×). */
  predicate IsUpper(c: char)
  {
    ('A' <= c <= 'Z') || ('\U{C0}' <= c <= '\U{DE}' && c != '\U{D7}')
  }

  function LowerChar(c: char): (l: char)
    ensures !IsUpper(l)
    ensures IsSpace(l) <==> IsSpace(c)
    ensures !IsUpper(c) ==> l == c
  {
    if IsUpper(c) then (c as int + 32) as char else c
  }

  /** `str.lower()`, character by character. */
  function Lower(s: string): string
  {
    seq(|s|, i requires 0 <= i < |s| => LowerChar(s[i]))
  }

  /** Two strings that differ only in letter case. */
  predicate EqualIgnoringCase(a: string, b: string)
  {
    |a| == |b| && forall i :: 0 <= i < |a| ==> LowerChar(a[i]) == LowerChar(b[i])
  }

  /** Number of leading whitespace characters. */
  function LeadingSpace(s: string): (k: nat)
    ensures k <= |s|
    ensures AllSpace(s[..k])
    ensures k < |s| ==> !IsSpace(s[k])
  {
    if |s| == 0 || !IsSpace(s[0]) then 0
    else
      var k' := LeadingSpace(s[1..]);
      assert s[1..][..k'] == s[1..k' + 1];
      1 + k'
  }

  /** Number of trailing whitespace characters. */
  function TrailingSpace(s: string): (k: nat)
    ensures k <= |s|
    ensures AllSpace(s[|s| - k..])
    ensures k < |s| ==> !IsSpace(s[|s| - k - 1])
  {
    if |s| == 0 || !IsSpace(s[|s| - 1]) then 0
    else
      var k' := TrailingSpace(s[..|s| - 1]);
      assert s[..|s| - 1][|s| - 1 - k'..] == s[|s| - 1 - k'..|s| - 1];
      1 + k'
  }

  /** `str.strip()`: removes leading and trailing whitespace. */
  function Strip(s: string): (r: string)
    ensures |r| <= |s|
    ensures r == [] || (!IsSpace(r[0]) && !IsSpace(r[|r| - 1]))
  {
    var t := s[LeadingSpace(s)..];
    t[..|t| - TrailingSpace(t)]
  }

  /** `str.lower().strip()`, the normalisation applied to queried e-mails and
      to form actions. */
  function Normalize(s: string): string
  {
    Strip(Lower(s))
  }

  /** A string whose ends are not whitespace (or which is empty): what
      `Strip` produces. */
  predicate Trimmed(t: string)
  {
    t == [] || (!IsSpace(t[0]) && !IsSpace(t[|t| - 1]))
  }

  lemma {:induction false} LeadingSpaceOfPadded(p: string, u: string)
    requires AllSpace(p)
    requires u == [] || !IsSpace(u[0])
    ensures LeadingSpace(p + u) == |p|
  {
    if p == [] {
      assert p + u == u;
    } else {
      var p' := p[1..];
      assert AllSpace(p') by {
        forall i | 0 <= i < |p'| ensures IsSpace(p'[i]) {
          assert p'[i] == p[i + 1];
        }
      }
      assert (p + u)[0] == p[0];
      assert (p + u)[1..] == p' + u;
      LeadingSpaceOfPadded(p', u);
    }
  }

  /** Whitespace followed by whitespace is whitespace. */
  lemma AllSpaceConcat(a: string, b: string)
    requires AllSpace(a) && AllSpace(b)
    ensures AllSpace(a + b)
  {
    forall i | 0 <= i < |a + b| ensures IsSpace((a + b)[i]) {
      if i < |a| { assert (a + b)[i] == a[i]; } else { assert (a + b)[i] == b[i - |a|]; }
    }
  }

  lemma {:induction false} TrailingSpaceOfPadded(u: string, q: string)
    requires AllSpace(q)
    requires u == [] || !IsSpace(u[|u| - 1])
    ensures TrailingSpace(u + q) == |q|
  {
    if q == [] {
      assert u + q == u;
    } else {
      var q' := q[..|q| - 1];
      assert AllSpace(q') by {
        forall i | 0 <= i < |q'| ensures IsSpace(q'[i]) {
          assert q'[i] == q[i];
        }
      }
      assert (u + q)[|u + q| - 1] == q[|q| - 1];
      assert (u + q)[..|u + q| - 1] == u + q';
      TrailingSpaceOfPadded(u, q');
    }
  }

  /** `Strip` is characterised by its result: whenever `s` is a trimmed
      string padded on both sides by whitespace, stripping returns exactly
      that string. */
  lemma {:induction false} StripCharacterization(p: string, t: string, q: string)
    requires AllSpace(p) && AllSpace(q) && Trimmed(t)
    ensures Strip(p + t + q) == t
  {
    if t == [] {
      var s := p + q;
      assert p + t + q == s + [] == s;
      AllSpaceConcat(p, q);
      LeadingSpaceOfPadded(s, []);
      assert s[|s|..] == [];
    } else {
      var u := t + q;
      assert p + t + q == p + u;
      assert u[0] == t[0];
      LeadingSpaceOfPadded(p, u);
      assert (p + u)[|p|..] == u;
      TrailingSpaceOfPadded(t, q);
      assert u[..|t|] == t;
    }
  }

  /** Every string is its stripped form padded by whitespace. */
  lemma StripDecomposition(s: string) returns (p: string, q: string)
    ensures AllSpace(p) && AllSpace(q)
    ensures s == p + Strip(s) + q
  {
    var a := LeadingSpace(s);
    var e := |s| - TrailingSpace(s[a..]);
    p := s[..a];
    q := s[e..];
    assert Strip(s) == s[a..e];
    SplitInThree(s, a, e);
  }

  lemma SplitInThree(s: string, a: nat, e: nat)
    requires a <= e <= |s|
    ensures s == s[..a] + s[a..e] + s[e..]
  {
  }

  lemma LowerConcat(a: string, b: string)
    ensures Lower(a + b) == Lower(a) + Lower(b)
  {
  }

  lemma LowerKeepsSpace(s: string)
    requires AllSpace(s)
    ensures AllSpace(Lower(s))
  {
  }

  lemma LowerOfLowerFree(s: string)
    requires forall i :: 0 <= i < |s| ==> !IsUpper(s[i])
    ensures Lower(s) == s
  {
  }

  /** Stripping twice is stripping once. */
  lemma StripIdempotent(s: string)
    ensures Strip(Strip(s)) == Strip(s)
  {
    var t := Strip(s);
    assert [] + t + [] == t;
    StripCharacterization([], t, []);
  }

  /** Normalisation is idempotent: a normalised string is its own
      normal form. */
  lemma NormalizeIdempotent(s: string)
    ensures Normalize(Normalize(s)) == Normalize(s)
  {
    var l := Lower(s);
    var t := Strip(l);
    var p, q := StripDecomposition(l);
    assert forall i :: 0 <= i < |t| ==> !IsUpper(t[i]) by {
      forall i | 0 <= i < |t| ensures !IsUpper(t[i]) {
        assert t[i] == l[|p| + i];
      }
    }
    LowerOfLowerFree(t);
    StripIdempotent(l);
  }

  /** Stripping ignores whitespace padding around the string. */
  lemma StripIgnoresPadding(s: string, p: string, q: string)
    requires AllSpace(p) && AllSpace(q)
    ensures Strip(p + s + q) == Strip(s)
  {
    var p', q' := StripDecomposition(s);
    var t := Strip(s);
    AllSpaceConcat(p, p');
    AllSpaceConcat(q', q);
    Regroup(p, p', t, q', q);
    StripCharacterization(p + p', t, q' + q);
  }

  lemma Regroup(a: string, b: string, c: string, d: string, e: string)
    ensures a + (b + c + d) + e == (a + b) + c + (d + e)
  {
  }

  /** Normalisation ignores letter case and whitespace around the string. */
  lemma NormalizeIgnoresCaseAndPadding(s: string, s': string, p: string, q: string)
    requires EqualIgnoringCase(s, s')
    requires AllSpace(p) && AllSpace(q)
    ensures Normalize(p + s' + q) == Normalize(s)
  {
    assert Lower(s') == Lower(s);
    LowerConcat(p + s', q);
    LowerConcat(p, s');
    LowerKeepsSpace(p);
    LowerKeepsSpace(q);
    assert Lower(p + s' + q) == Lower(p) + Lower(s) + Lower(q);
    StripIgnoresPadding(Lower(s), Lower(p), Lower(q));
  }

  // Decimal rendering of a natural number, as an f-string prints an int.

  function DigitChar(d: nat): (c: char)
    requires d < 10
    ensures '0' <= c <= '9'
  {
    (('0' as int) + d) as char
  }

  function DigitValue(c: char): nat
    requires '0' <= c <= '9'
  {
    (c as int) - ('0' as int)
  }

  predicate AllDigits(s: string)
  {
    forall i :: 0 <= i < |s| ==> '0' <= s[i] <= '9'
  }

  function NatToString(n: nat): (s: string)
    ensures |s| >= 1 && AllDigits(s)
    ensures s[0] == '0' ==> n == 0
  {
    if n < 10 then [DigitChar(n)]
    else NatToString(n / 10) + [DigitChar(n % 10)]
  }

  function ParseDigits(s: string): nat
    requires AllDigits(s)
  {
    if |s| == 0 then 0
    else ParseDigits(s[..|s| - 1]) * 10 + DigitValue(s[|s| - 1])
  }

  /** Reading back the rendered digits gives the number, so the rendering
      is injective. */
  lemma {:induction false} NatToStringRoundTrip(n: nat)
    ensures ParseDigits(NatToString(n)) == n
  {
    if n >= 10 {
      NatToStringRoundTrip(n / 10);
      var s := NatToString(n);
      assert s[..|s| - 1] == NatToString(n / 10);
    }
  }
}
