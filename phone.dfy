/** Phone normalisation: `phone.replace(/\D/g, "")` in the verify-otp handler.
    Without the `u` flag, `\d` in a JavaScript regular expression is exactly the
    ASCII digits `0`-`9`, so every other character is removed. The result is the
    key of the OTP store and the seed of the derived customer email. */
module Phone {

  predicate IsDigit(c: char) {
    '0' <= c <= '9'
  }

  predicate AllDigits(s: string) {
    forall i :: 0 <= i < |s| ==> IsDigit(s[i])
  }

  /** Removes every character that is not an ASCII digit, keeping the order of the rest. */
  function Normalize(s: string): (r: string)
    ensures AllDigits(r)
    ensures |r| <= |s|
    ensures |r| == |s| ==> r == s
  {
    if s == [] then []
    else if IsDigit(s[0]) then [s[0]] + Normalize(s[1..])
    else Normalize(s[1..])
  }

  /** Normalising a concatenation normalises each part in place: no digit moves across another. */
  lemma {:induction false} NormalizeAppend(a: string, b: string)
    ensures Normalize(a + b) == Normalize(a) + Normalize(b)
  {
    if a == [] {
      assert a + b == b;
    } else {
      assert (a + b)[1..] == a[1..] + b;
      NormalizeAppend(a[1..], b);
    }
  }

  /** One character survives exactly when it is a digit. Together with NormalizeAppend
      this fixes Normalize on every string. */
  lemma NormalizeChar(c: char)
    ensures Normalize([c]) == if IsDigit(c) then [c] else []
  {
  }

  /** Every digit occurs in the result exactly as often as in the input; nothing else occurs. */
  lemma {:induction false} NormalizeCounts(s: string, c: char)
    ensures multiset(Normalize(s))[c] == if IsDigit(c) then multiset(s)[c] else 0
  {
    if s != [] {
      NormalizeCounts(s[1..], c);
      assert s == [s[0]] + s[1..];
      assert multiset(s) == multiset{s[0]} + multiset(s[1..]);
      if IsDigit(s[0]) {
        assert multiset(Normalize(s)) == multiset{s[0]} + multiset(Normalize(s[1..]));
      }
    }
  }

  /** A string is left unchanged exactly when it holds digits only. */
  lemma {:induction false} NormalizeFixesDigits(s: string)
    ensures Normalize(s) == s <==> AllDigits(s)
  {
    if s != [] {
      NormalizeFixesDigits(s[1..]);
      assert AllDigits(s) <==> IsDigit(s[0]) && AllDigits(s[1..]);
      if IsDigit(s[0]) {
        assert s == [s[0]] + s[1..];
      }
    }
  }

  /** Normalising twice gives the same key as normalising once. */
  lemma NormalizeIdempotent(s: string)
    ensures Normalize(Normalize(s)) == Normalize(s)
  {
  }

  /** A `+` in front of a digit string is dropped again: the phone given to a created
      customer normalises back to the store key it was made from. */
  lemma NormalizePlusPrefix(key: string)
    requires AllDigits(key)
    ensures Normalize("+" + key) == key
  {
    NormalizeAppend("+", key);
    NormalizeFixesDigits(key);
  }
}
