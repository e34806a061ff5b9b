/** How numbers and words go to disk and come back: `file << tid`, `file >> tid` and
    `file >> password` of the C++ streams used by the server. */
module Text {

  predicate Digit(c: char) {
    '0' <= c <= '9'
  }

  function DigitChar(d: nat): (c: char)
    requires d < 10
    ensures Digit(c) && DigitValue(c) == d
  {
    '0' + d as char
  }

  function DigitValue(c: char): (d: nat)
    requires Digit(c)
  {
    (c - '0') as int
  }

  /** Decimal digits of a number, as `file << n` writes them. */
  function Show(n: nat): (s: string)
    ensures s != "" && forall i :: 0 <= i < |s| ==> Digit(s[i])
  {
    if n < 10 then [DigitChar(n)] else Show(n / 10) + [DigitChar(n % 10)]
  }

  /** The number read by `file >> n`: the longest run of digits at the front, 0 when there is none. */
  function Parse(s: string): nat {
    ParseFrom(0, s)
  }

  function ParseFrom(acc: nat, s: string): nat
    decreases s
  {
    if s == "" || !Digit(s[0]) then acc else ParseFrom(acc * 10 + DigitValue(s[0]), s[1..])
  }

  lemma {:induction false} ParseLastDigit(acc: nat, s: string, c: char)
    requires Digit(c) && forall i :: 0 <= i < |s| ==> Digit(s[i])
    ensures ParseFrom(acc, s + [c]) == ParseFrom(acc, s) * 10 + DigitValue(c)
    decreases s
  {
    if s == "" {
      assert (s + [c])[1..] == "";
      assert (s + [c])[0] == c;
    } else {
      assert (s + [c])[1..] == s[1..] + [c];
      assert (s + [c])[0] == s[0];
      ParseLastDigit(acc * 10 + DigitValue(s[0]), s[1..], c);
    }
  }

  /** A written number is read back. */
  lemma {:induction false} ParseShow(n: nat)
    ensures Parse(Show(n)) == n
  {
    if n < 10 {
      assert Show(n) == "" + [DigitChar(n)];
      ParseLastDigit(0, "", DigitChar(n));
    } else {
      ParseShow(n / 10);
      ParseLastDigit(0, Show(n / 10), DigitChar(n % 10));
    }
  }

  function Pow10(k: nat): (p: nat)
    ensures p > 0
  {
    if k == 0 then 1 else 10 * Pow10(k - 1)
  }

  /** Dividing by ten and then by a power of ten is dividing by the next power. */
  lemma DivideTwice(n: nat, p: nat)
    requires p > 0
    ensures n / 10 / p == n / (10 * p)
  {
    var q, r := n / 10 / p, n / 10 % p;
    assert n == 10 * (q * p + r) + n % 10;
    assert n == q * (10 * p) + (10 * r + n % 10);
    Quotient(n, 10 * p, q, 10 * r + n % 10);
  }

  lemma Quotient(n: nat, d: nat, q: nat, r: nat)
    requires d > 0 && n == q * d + r && r < d
    ensures n / d == q
  {
    var p := n / d;
    assert n == d * p + n % d;
    if p < q {
      Times(q - p, d);
    } else if p > q {
      Times(p - q, d);
    }
  }

  lemma {:induction false} Times(k: nat, d: nat)
    requires k > 0
    ensures k * d >= d
    decreases k
  {
    if k > 1 {
      Times(k - 1, d);
      assert k * d == (k - 1) * d + d;
    }
  }

  /** The digit `i` places from the right is that of the i-th power of ten, and there is no zero in front. */
  lemma {:induction false} ShowDigit(n: nat, i: nat)
    requires i < |Show(n)|
    ensures DigitValue(Show(n)[|Show(n)| - 1 - i]) == n / Pow10(i) % 10
    ensures n > 0 ==> Show(n)[0] != '0'
    decreases n
  {
    if n >= 10 {
      if i > 0 {
        ShowDigit(n / 10, i - 1);
        DivideTwice(n, Pow10(i - 1));
      } else {
        ShowDigit(n / 10, 0);
      }
    }
  }

  predicate Space(c: char) {
    c == ' ' || '\t' <= c <= '\r'
  }

  /** The word read by `file >> word`: leading white space is skipped, the word ends at the next one. */
  function Token(s: string): string {
    if s == "" then "" else if Space(s[0]) then Token(s[1..]) else Word(s)
  }

  function Word(s: string): string {
    if s == "" || Space(s[0]) then "" else [s[0]] + Word(s[1..])
  }

  predicate NoSpace(s: string) {
    forall i :: 0 <= i < |s| ==> !Space(s[i])
  }

  lemma {:induction false} WordBound(s: string)
    ensures |Word(s)| <= |s|
    ensures Word(s) == s <==> NoSpace(s)
  {
    if s == "" || Space(s[0]) {
    } else {
      WordBound(s[1..]);
      assert s == [s[0]] + s[1..];
      if Word(s) == s {
        assert Word(s)[1..] == Word(s[1..]);
        forall i | 0 <= i < |s| ensures !Space(s[i]) {
          if i > 0 { assert s[i] == s[1..][i - 1]; }
        }
      }
      if NoSpace(s) {
        assert forall i :: 0 <= i < |s[1..]| ==> s[1..][i] == s[i + 1];
      }
    }
  }

  lemma {:induction false} TokenShorter(s: string)
    ensures |Token(s)| <= |s|
  {
    if s == "" {
    } else if Space(s[0]) {
      TokenShorter(s[1..]);
    } else {
      WordBound(s);
    }
  }

  /** A written word is read back exactly when it holds no white space. */
  lemma TokenExact(s: string)
    ensures Token(s) == s <==> NoSpace(s)
  {
    if s != "" {
      if Space(s[0]) {
        TokenShorter(s[1..]);
      } else {
        WordBound(s);
      }
    }
  }

  lemma {:induction false} WordNoSpace(s: string)
    ensures NoSpace(Word(s))
  {
    if s != "" && !Space(s[0]) {
      WordNoSpace(s[1..]);
      forall i | 0 <= i < |Word(s)| ensures !Space(Word(s)[i]) {
        if i > 0 { assert Word(s)[i] == Word(s[1..])[i - 1]; }
      }
    }
  }

  /** Reading a word a second time changes nothing. */
  lemma {:induction false} TokenTwice(s: string)
    ensures Token(Token(s)) == Token(s)
  {
    if s == "" {
    } else if Space(s[0]) {
      TokenTwice(s[1..]);
    } else {
      WordNoSpace(s);
      TokenExact(Word(s));
    }
  }

  /** The word starts after the white space in front and goes as far as the next; it is empty when nothing else is
      there. */
  lemma {:induction false} TokenIsFirstWord(s: string) returns (i: nat)
    ensures i + |Token(s)| <= |s| && s[i..i + |Token(s)|] == Token(s)
    ensures (forall k :: 0 <= k < i ==> Space(s[k])) && NoSpace(Token(s))
    ensures i + |Token(s)| == |s| || (Token(s) != "" && Space(s[i + |Token(s)|]))
  {
    if s == "" {
      i := 0;
    } else if Space(s[0]) {
      i := TokenIsFirstWord(s[1..]);
      assert forall k :: 0 < k <= i ==> s[k] == s[1..][k - 1];
      i := i + 1;
    } else {
      i := 0;
      WordNoSpace(s);
      WordEnds(s);
    }
  }

  lemma {:induction false} WordEnds(s: string)
    ensures |Word(s)| <= |s| && s[..|Word(s)|] == Word(s)
    ensures |Word(s)| == |s| || Space(s[|Word(s)|])
  {
    if s != "" && !Space(s[0]) {
      WordEnds(s[1..]);
    }
  }
}
