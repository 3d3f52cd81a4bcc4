/** Splitting, joining and number spelling, as the profile checker uses them. */
module Texts {
  import opened Bits

  function Split(s: string, separator: char): (parts: seq<string>)
    ensures parts != []
  {
    if s == "" then [""]
    else
      var rest := Split(s[1..], separator);
      if s[0] == separator then [""] + rest else [[s[0]] + rest[0]] + rest[1..]
  }

  function Join(parts: seq<string>, separator: char): string {
    if parts == [] then ""
    else if |parts| == 1 then parts[0]
    else parts[0] + [separator] + Join(parts[1..], separator)
  }

  predicate NoneHas(parts: seq<string>, c: char) {
    forall i | 0 <= i < |parts| :: c !in parts[i]
  }

  lemma {:induction false} SplitAfter(first: string, rest: string, c: char)
    requires c !in first
    ensures Split(first + [c] + rest, c) == [first] + Split(rest, c)
  {
    var s := first + [c] + rest;
    if first == "" {
      assert s[1..] == rest;
    } else {
      SplitAfter(first[1..], rest, c);
      assert s[1..] == first[1..] + [c] + rest;
      assert s[0] == first[0] && s[0] in first;
      assert [first[0]] + first[1..] == first;
    }
  }

  lemma {:induction false} SplitWhole(s: string, c: char)
    requires c !in s
    ensures Split(s, c) == [s]
  {
    if s != "" {
      SplitWhole(s[1..], c);
      assert s[0] in s;
      assert [s[0]] + s[1..] == s;
    }
  }

  /** Splitting undoes joining. */
  lemma {:induction false} SplitOfJoin(parts: seq<string>, c: char)
    requires parts != [] && NoneHas(parts, c)
    ensures Split(Join(parts, c), c) == parts
  {
    if |parts| == 1 {
      SplitWhole(parts[0], c);
    } else {
      SplitOfJoin(parts[1..], c);
      SplitAfter(parts[0], Join(parts[1..], c), c);
    }
  }

  // ----- numbers -----

  predicate IsBase(base: nat) {
    base == 10 || base == 16
  }

  function DigitValue(c: char): int {
    if '0' <= c <= '9' then c as int - '0' as int
    else if 'a' <= c <= 'f' then c as int - 'a' as int + 10
    else if 'A' <= c <= 'F' then c as int - 'A' as int + 10
    else -1
  }

  predicate IsDigit(c: char, base: nat) {
    0 <= DigitValue(c) < base
  }

  function DigitOf(d: nat): (c: char)
    requires d < 16
    ensures DigitValue(c) == d && (c <= '9' <==> d < 10)
    ensures '0' <= c <= '9' || 'a' <= c <= 'f'
  {
    if d < 10 then '0' + d as char else 'a' + (d - 10) as char
  }

  /** The digits in their usual order, either case being read and the lower written. */
  lemma DigitsInOrder(d: nat)
    requires d < 16
    ensures DigitOf(d) == "0123456789abcdef"[d]
    ensures DigitValue("0123456789abcdef"[d]) == d && DigitValue("0123456789ABCDEF"[d]) == d
    ensures forall c: char :: DigitValue(c) >= 0 <==> c in "0123456789abcdefABCDEF"
  {
    var lower, upper, either := "0123456789abcdef", "0123456789ABCDEF", "0123456789abcdefABCDEF";
    assert lower[d] == (if d < 10 then '0' + d as char else 'a' + (d - 10) as char);
    forall c: char
      ensures DigitValue(c) >= 0 <==> c in either
    {
      if '0' <= c <= '9' {
        assert either[c as int - '0' as int] == c;
      } else if 'a' <= c <= 'f' {
        assert either[c as int - 'a' as int + 10] == c;
      } else if 'A' <= c <= 'F' {
        assert either[c as int - 'A' as int + 16] == c;
      }
    }
  }

  predicate AllDigits(s: string, base: nat) {
    forall i | 0 <= i < |s| :: IsDigit(s[i], base)
  }

  /** The number that a string of digits denotes. */
  function NumberOf(s: string, base: nat): nat
    requires IsBase(base) && AllDigits(s, base)
  {
    if s == "" then 0 else NumberOf(s[..|s| - 1], base) * base + DigitValue(s[|s| - 1])
  }

  /** The number without leading zeros, in lower case. */
  function Spelled(n: nat, base: nat): (s: string)
    requires IsBase(base)
    ensures s != "" && AllDigits(s, base)
    ensures forall i | 0 <= i < |s| :: '0' <= s[i] <= '9' || 'a' <= s[i] <= 'f'
  {
    if n < base then [DigitOf(n)] else Spelled(n / base, base) + [DigitOf(n % base)]
  }

  lemma {:induction false} NumberOfSpelled(n: nat, base: nat)
    requires IsBase(base)
    ensures NumberOf(Spelled(n, base), base) == n
    ensures Spelled(n, base)[0] == '0' ==> n == 0
    ensures n == 0 ==> Spelled(n, base) == "0"
  {
    if n < base {
      assert Spelled(n, base)[..0] == "";
    } else {
      NumberOfSpelled(n / base, base);
      assert Spelled(n, base)[..|Spelled(n, base)| - 1] == Spelled(n / base, base);
      Division(n, base);
    }
  }

  /** How many digits a bounded number takes. */
  lemma {:induction false} SpelledLength(n: nat, base: nat, bound: nat, digits: nat)
    requires IsBase(base) && digits > 0 && n < bound == Power(base, digits)
    ensures |Spelled(n, base)| <= digits
  {
    if n >= base {
      SpelledLength(n / base, base, Power(base, digits - 1), digits - 1);
    }
  }

  function Power(base: nat, n: nat): nat {
    if n == 0 then 1 else base * Power(base, n - 1)
  }

  /** A decimal or hexadecimal number without leading zeros, in lower case. */
  predicate IsPlain(s: string, base: nat)
    requires IsBase(base)
  {
    && s != "" && AllDigits(s, base) && (s[0] == '0' ==> s == "0")
    && forall i | 0 <= i < |s| :: !('A' <= s[i] <= 'Z')
  }

  lemma SpelledOneMore(high: nat, base: nat, d: nat)
    requires IsBase(base) && d < base && high > 0
    ensures Spelled(high * base + d, base) == Spelled(high, base) + [DigitOf(d)]
  {
    DivModUnique(high * base + d, base, high, d);
  }

  lemma DigitAgain(c: char, base: nat)
    requires IsBase(base) && IsDigit(c, base) && !('A' <= c <= 'Z')
    ensures DigitOf(DigitValue(c)) == c
  {
  }

  lemma FrontIsPlain(s: string, base: nat)
    requires IsBase(base) && IsPlain(s, base) && |s| > 1
    ensures IsPlain(s[..|s| - 1], base) && s[0] != '0'
  {
    assert forall i | 0 <= i < |s| - 1 :: s[..|s| - 1][i] == s[i];
  }

  /** A plain number is the spelling of what it denotes. */
  lemma {:induction false} SpelledOfPlain(s: string, base: nat)
    requires IsBase(base) && IsPlain(s, base)
    ensures Spelled(NumberOf(s, base), base) == s
  {
    hide Spelled, DigitOf, DigitValue;
    var front, last := s[..|s| - 1], s[|s| - 1];
    DigitAgain(last, base);
    if front == "" {
      assert s == [last] && NumberOf(front, base) == 0;
      SpelledDigit(DigitValue(last), base);
    } else {
      FrontIsPlain(s, base);
      SpelledOfPlain(front, base);
      NumberOfSpelled(NumberOf(front, base), base);
      SpelledOneMore(NumberOf(front, base), base, DigitValue(last));
      assert s == front + [last];
    }
  }

  lemma SpelledDigit(d: nat, base: nat)
    requires IsBase(base) && d < base
    ensures Spelled(d, base) == [DigitOf(d)]
  {
  }
}
