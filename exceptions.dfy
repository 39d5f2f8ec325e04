/** The `Exception` class of project/src/Utility/Exception.cpp and the `DEFINE_EXCEPTION` /
    `THROW_EXCEPTION` macros of Exception.h. The `what()` text is fixed when the exception is built. */
module Exceptions {
  import StringUtil

  datatype Exception = Exception(code: int, kind: string, message: string, what: string)

  /** A call that either returns a value or throws. */
  datatype Result<T> = Ok(value: T) | Throw(error: Exception)

  /** A call that returns nothing or throws. */
  datatype Outcome = Done | Fail(error: Exception)

  // ---------------------------------------------------------------- printf "%d" / "%X"

  function DigitChar(d: nat): char
    requires d < 16
  {
    "0123456789ABCDEF"[d]
  }

  function DigitValue(c: char): nat
  {
    if '0' <= c <= '9' then c as nat - '0' as nat
    else if 'A' <= c <= 'F' then c as nat - 'A' as nat + 10
    else 0
  }

  /** The digits of `n` in the given base, most significant first, without leading zeros. */
  function NatToBase(n: nat, base: nat): (s: string)
    requires 2 <= base <= 16
    ensures |s| > 0
    decreases n
  {
    if n < base then [DigitChar(n)] else NatToBase(n / base, base) + [DigitChar(n % base)]
  }

  function ParseBase(s: string, base: nat): nat
  {
    if s == [] then 0 else ParseBase(s[..|s| - 1], base) * base + DigitValue(s[|s| - 1])
  }

  /** Reading the printed digits back gives the number. */
  lemma {:induction false} ParsePrinted(n: nat, base: nat)
    requires 2 <= base <= 16
    ensures ParseBase(NatToBase(n, base), base) == n
    decreases |NatToBase(n, base)|
  {
    var s := NatToBase(n, base);
    if n < base {
      DigitRoundTrip(n);
      assert s[..0] == [];
    } else {
      var q, r := n / base, n % base;
      var front := NatToBase(q, base);
      assert s == front + [DigitChar(r)];
      assert s[..|s| - 1] == front;
      ParsePrinted(q, base);
      DigitRoundTrip(r);
      assert ParseBase(s, base) == ParseBase(front, base) * base + DigitValue(DigitChar(r));
      assert ParseBase(s, base) == q * base + r;
      DivMod(n, base);
    }
  }

  lemma DivMod(n: nat, base: nat)
    requires base > 0
    ensures (n / base) * base + n % base == n
  {
  }

  lemma DigitRoundTrip(d: nat)
    requires d < 16
    ensures DigitValue(DigitChar(d)) == d
  {
  }

  /** `%d` (also used for `%u` and `%llu` of non-negative values). */
  function Decimal(n: int): (s: string)
    ensures n >= 0 ==> s == NatToBase(n, 10)
    ensures n < 0 ==> s == "-" + NatToBase(-n, 10)
  {
    if n < 0 then "-" + NatToBase(-n, 10) else NatToBase(n, 10)
  }

  /** `%X`. */
  function Hex(n: nat): string
  {
    NatToBase(n, 16)
  }

  /** Two different numbers never print the same. */
  lemma DecimalInjective(a: int, b: int)
    requires Decimal(a) == Decimal(b)
    ensures a == b
  {
    if a >= 0 && b >= 0 {
      ParsePrinted(a, 10);
      ParsePrinted(b, 10);
    } else if a < 0 && b < 0 {
      assert Decimal(a)[1..] == NatToBase(-a, 10);
      assert Decimal(b)[1..] == NatToBase(-b, 10);
      ParsePrinted(-a, 10);
      ParsePrinted(-b, 10);
    } else {
      NoMinusInDigits(if a >= 0 then a else b);
    }
  }

  /** `%d` prints only a sign and decimal digits. */
  lemma DecimalChars(n: int)
    ensures forall k :: 0 <= k < |Decimal(n)| ==> Decimal(n)[k] == '-' || '0' <= Decimal(n)[k] <= '9'
  {
    DigitsOnly(if n < 0 then -n else n);
  }

  lemma {:induction false} DigitsOnly(n: nat)
    ensures forall k :: 0 <= k < |NatToBase(n, 10)| ==> '0' <= NatToBase(n, 10)[k] <= '9'
    decreases n
  {
    if n >= 10 {
      DigitsOnly(n / 10);
    }
  }

  lemma {:induction false} NoMinusInDigits(n: nat)
    ensures NatToBase(n, 10)[0] != '-'
    decreases n
  {
    if n >= 10 {
      NoMinusInDigits(n / 10);
    }
  }

  // ---------------------------------------------------------------- constructors

  /** `Exception(int code, std::string type, std::string message)`. */
  function WithCode(code: int, kind: string, message: string): (e: Exception)
    ensures e.code == code && e.kind == kind && e.message == message
  {
    Exception(code, kind, message,
      if StringUtil.EqualsSpec(kind, "", true) then Decimal(code) + " - " + message
      else "[" + kind + "] " + Decimal(code) + " - " + message)
  }

  /** `Exception(std::string type, std::string message)`. */
  function WithKind(kind: string, message: string): (e: Exception)
    ensures e.code == -1 && e.kind == kind && e.message == message
  {
    Exception(-1, kind, message,
      if StringUtil.EqualsSpec(kind, "", true) then message else "[" + kind + "] " + message)
  }

  /** `Exception(std::string message)`. */
  function Plain(message: string): (e: Exception)
    ensures e.code == -1 && e.kind == "" && e.message == message && e.what == message
  {
    Exception(-1, "", message, message)
  }

  /** `DEFINE_EXCEPTION(Name)` + `THROW_EXCEPTION(Name, ...)`: the class name, stringified, is the type. */
  function Thrown(name: string, message: string): Exception
  {
    WithKind(name, message)
  }

  /** `what()` of the code-carrying constructor. */
  lemma WhatWithCode(code: int, kind: string, message: string)
    ensures kind == "" ==> WithCode(code, kind, message).what == Decimal(code) + " - " + message
    ensures kind != "" ==> WithCode(code, kind, message).what == "[" + kind + "] " + Decimal(code) + " - " + message
  {
    if kind != "" {
      assert !StringUtil.EqualsSpec(kind, "", true);
    }
  }

  /** `what()` of the type-and-message constructor; the plain constructor agrees with it for an empty type. */
  lemma WhatWithKind(kind: string, message: string)
    ensures kind == "" ==> WithKind(kind, message).what == message
    ensures kind != "" ==> WithKind(kind, message).what == "[" + kind + "] " + message
    ensures WithKind("", message) == Plain(message)
  {
    if kind != "" {
      assert !StringUtil.EqualsSpec(kind, "", true);
    }
  }

  /** From the `what()` text of a defined exception, the type and the message can be read back
      (when the type has no ']'), so two different thrown exceptions never describe themselves alike. */
  lemma {:induction false} ThrownWhatDetermines(n1: string, m1: string, n2: string, m2: string)
    requires n1 != "" && n2 != "" && ']' !in n1 && ']' !in n2
    requires Thrown(n1, m1).what == Thrown(n2, m2).what
    ensures n1 == n2 && m1 == m2
  {
    WhatWithKind(n1, m1);
    WhatWithKind(n2, m2);
    var w := Thrown(n1, m1).what;
    assert w == "[" + (n1 + "]" + (" " + m1));
    assert w == "[" + (n2 + "]" + (" " + m2));
    assert w[1..] == n1 + "]" + (" " + m1);
    assert w[1..] == n2 + "]" + (" " + m2);
    BracketSplit(n1, " " + m1, n2, " " + m2);
    assert m1 == (" " + m1)[1..];
  }

  lemma {:induction false} BracketSplit(a: string, x: string, b: string, y: string)
    requires ']' !in a && ']' !in b
    requires a + "]" + x == b + "]" + y
    ensures a == b && x == y
  {
    if a == [] || b == [] {
      assert (a + "]" + x)[0] == (b + "]" + y)[0];
      assert a == [] && b == [];
      assert x == (a + "]" + x)[1..];
    } else {
      assert a[0] == (a + "]" + x)[0] == (b + "]" + y)[0] == b[0];
      assert a[1..] + "]" + x == (a + "]" + x)[1..];
      assert b[1..] + "]" + y == (b + "]" + y)[1..];
      BracketSplit(a[1..], x, b[1..], y);
      assert a == [a[0]] + a[1..];
      assert b == [b[0]] + b[1..];
    }
  }
}
