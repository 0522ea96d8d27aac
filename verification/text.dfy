/** The two string conversions the core relies on: printing a count in a
    template literal and `String.prototype.toLowerCase`, restricted to ASCII. */
module Text {

  function Digit(n: nat): (c: char)
    requires n < 10
  {
    ['0', '1', '2', '3', '4', '5', '6', '7', '8', '9'][n]
  }

  function DigitValue(c: char): nat {
    if '0' <= c <= '9' then (c as int - '0' as int) else 0
  }

  /** The decimal digits of `n`, as a template literal or `toString` prints
      it for a safe integer (below 2^53); above that JavaScript prints the
      shortest round-tripping digits, and from 1e21 on exponent form. */
  function Decimal(n: nat): (s: string)
    ensures |s| >= 1
    ensures forall i :: 0 <= i < |s| ==> '0' <= s[i] <= '9'
    ensures n > 0 ==> s[0] != '0'
    decreases n
  {
    if n < 10 then [Digit(n)] else Decimal(n / 10) + [Digit(n % 10)]
  }

  /** The number a string of decimal digits denotes, most significant first. */
  function DecimalValue(s: string): nat
    decreases |s|
  {
    if |s| == 0 then 0 else DecimalValue(s[..|s| - 1]) * 10 + DigitValue(s[|s| - 1])
  }

  /** A printed digit reads back as itself. */
  lemma DigitRoundTrip(n: nat)
    requires n < 10
    ensures DigitValue(Digit(n)) == n
  {
  }

  /** Reading back the printed digits gives the number. */
  lemma {:induction false} DecimalRoundTrip(n: nat)
    ensures DecimalValue(Decimal(n)) == n
    decreases n
  {
    var s := Decimal(n);
    if n < 10 {
      DigitRoundTrip(n);
      assert s[..|s| - 1] == [];
    } else {
      var q, d := n / 10, n % 10;
      assert s == Decimal(q) + [Digit(d)];
      assert s[..|s| - 1] == Decimal(q);
      DigitRoundTrip(d);
      DecimalRoundTrip(q);
      assert DecimalValue(s) == q * 10 + d;
    }
  }

  /** Printing is injective: different counts give different messages. */
  lemma DecimalInjective(m: nat, n: nat)
    ensures Decimal(m) == Decimal(n) <==> m == n
  {
    if Decimal(m) == Decimal(n) {
      DecimalRoundTrip(m);
      DecimalRoundTrip(n);
    }
  }

  predicate IsUpper(c: char) {
    'A' <= c <= 'Z'
  }

  function LowerChar(c: char): char {
    if IsUpper(c) then (c as int + 32) as char else c
  }

  /** `toLowerCase` on ASCII letters; every other character is kept. */
  function Lower(s: string): (r: string)
    ensures |r| == |s|
    ensures forall i :: 0 <= i < |s| ==> !IsUpper(r[i])
    ensures forall i :: 0 <= i < |s| && !IsUpper(s[i]) ==> r[i] == s[i]
    ensures forall i :: 0 <= i < |s| && IsUpper(s[i]) ==> r[i] as int == s[i] as int + 32
  {
    seq(|s|, i requires 0 <= i < |s| => LowerChar(s[i]))
  }

  /** Lowering twice is lowering once. */
  lemma LowerIdempotent(s: string)
    ensures Lower(Lower(s)) == Lower(s)
  {
  }

  /** A string without capitals is its own lower case. */
  lemma LowerFixesLowercase(s: string)
    requires forall i :: 0 <= i < |s| ==> !IsUpper(s[i])
    ensures Lower(s) == s
  {
  }

  /** "ADMIN", "Admin" and "admin" all lower to "admin". */
  lemma LowerExamples()
    ensures Lower("ADMIN") == "admin"
    ensures Lower("Admin") == "admin"
    ensures Lower("Team Member") == "team member"
  {
  }
}
