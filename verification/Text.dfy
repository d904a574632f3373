/** Strings: code-point order, separators, zero-padded decimals. */
module Text {
  import opened Sequences

  // ---------- order ----------

  /** Python's `<=` on strings: lexicographic by code point. */
  predicate StrLe(a: string, b: string) {
    a == [] || (b != [] && (a[0] < b[0] || (a[0] == b[0] && StrLe(a[1..], b[1..]))))
  }

  const ByText: (string, string) -> bool := (a: string, b: string) => StrLe(a, b)

  lemma {:induction false} StrLeTotal(a: string, b: string)
    ensures StrLe(a, b) || StrLe(b, a)
    ensures StrLe(a, b) && StrLe(b, a) ==> a == b
  {
    if a != [] && b != [] && a[0] == b[0] {
      StrLeTotal(a[1..], b[1..]);
      assert a == [a[0]] + a[1..] && b == [b[0]] + b[1..];
    }
  }

  lemma {:induction false} StrLeTransitive(a: string, b: string, c: string)
    requires StrLe(a, b) && StrLe(b, c)
    ensures StrLe(a, c)
  {
    if a != [] && a[0] == b[0] && b[0] == c[0] {
      StrLeTransitive(a[1..], b[1..], c[1..]);
    }
  }

  lemma {:induction false} TextOrder()
    ensures TotalPreorder(ByText)
    ensures forall a, b :: StrLe(a, b) && StrLe(b, a) ==> a == b
  {
    forall a: string, b: string ensures StrLe(a, b) || StrLe(b, a) {
      StrLeTotal(a, b);
    }
    forall a: string, b: string ensures StrLe(a, b) && StrLe(b, a) ==> a == b {
      StrLeTotal(a, b);
    }
    forall a: string, b: string, c: string | StrLe(a, b) && StrLe(b, c) ensures StrLe(a, c) {
      StrLeTransitive(a, b, c);
    }
  }

  lemma {:induction false} StrLePrefix(p: string, a: string, b: string)
    ensures StrLe(p + a, p + b) == StrLe(a, b)
  {
    if p == [] {
      assert p + a == a && p + b == b;
    } else {
      assert (p + a)[1..] == p[1..] + a && (p + b)[1..] == p[1..] + b;
      StrLePrefix(p[1..], a, b);
    }
  }

  /** `sorted` on a list of strings. */
  function SortText(s: seq<string>): seq<string> {
    SortBy(ByText, s)
  }

  lemma {:induction false} SortTextOne(x: string)
    ensures SortText([x]) == [x]
  {
    assert [x][1..] == [] && SortBy(ByText, []) == [];
    assert SortBy(ByText, [x]) == Insert(ByText, x, []);
  }

  lemma {:induction false} SortTextTwo(x: string, y: string)
    requires StrLe(x, y)
    ensures SortText([x, y]) == [x, y]
  {
    SortTextOne(y);
    assert [x, y][1..] == [y];
    assert SortBy(ByText, [x, y]) == Insert(ByText, x, [y]);
  }

  lemma {:induction false} SortTextCanonical(a: seq<string>, b: seq<string>)
    ensures multiset(SortText(a)) == multiset(a) && |SortText(a)| == |a|
    ensures multiset(a) == multiset(b) <==> SortText(a) == SortText(b)
    ensures SortedBy(ByText, SortText(a))
  {
    TextOrder();
    SortByPermutes(ByText, a);
    SortByPermutes(ByText, b);
    SortBySorted(ByText, a);
    if multiset(a) == multiset(b) {
      SortByCanonical(ByText, a, b);
    }
  }

  // ---------- separators ----------

  /** Everything before a separator is determined when it holds no separator itself. */
  lemma {:induction false} SplitFirst(a: string, x: string, b: string, y: string, sep: char)
    requires sep !in a && sep !in b
    requires a + [sep] + x == b + [sep] + y
    ensures a == b && x == y
  {
    var s, t := a + [sep] + x, b + [sep] + y;
    assert s[|a|] == sep && t[|b|] == sep;
    assert |a| == |b|;
    assert a == s[..|a|] && b == t[..|b|];
    assert x == s[|a| + 1..] && y == t[|b| + 1..];
  }

  /** Everything after the last separator is determined too. */
  lemma {:induction false} SplitLast(a: string, x: string, b: string, y: string, sep: char)
    requires sep !in x && sep !in y
    requires a + [sep] + x == b + [sep] + y
    ensures a == b && x == y
  {
    var s, t := a + [sep] + x, b + [sep] + y;
    assert s[|a|] == sep && t[|b|] == sep;
    assert |a| == |b|;
    assert a == s[..|a|] && b == t[..|b|];
    assert x == s[|a| + 1..] && y == t[|b| + 1..];
  }

  /** Python's `sep.join(parts)`. */
  function Join(sep: char, parts: seq<string>): string {
    if parts == [] then ""
    else if |parts| == 1 then parts[0]
    else parts[0] + [sep] + Join(sep, parts[1..])
  }

  lemma {:induction false} JoinAvoids(sep: char, parts: seq<string>, c: char)
    requires c != sep && forall p | p in parts :: c !in p
    ensures c !in Join(sep, parts)
  {
    if |parts| > 1 {
      JoinAvoids(sep, parts[1..], c);
    }
  }

  lemma {:induction false} JoinNonEmpty(sep: char, parts: seq<string>)
    requires parts != [] && forall p | p in parts :: p != ""
    ensures Join(sep, parts) != ""
  {
    assert parts[0] in parts;
  }

  /** A list of non-empty, separator-free parts is determined by its join. */
  lemma {:induction false} JoinInjective(sep: char, a: seq<string>, b: seq<string>)
    requires forall p | p in a :: p != "" && sep !in p
    requires forall p | p in b :: p != "" && sep !in p
    requires Join(sep, a) == Join(sep, b)
    ensures a == b
  {
    if a == [] {
      if b != [] { JoinNonEmpty(sep, b); }
    } else if b == [] {
      JoinNonEmpty(sep, a);
    } else {
      JoinInjectiveStep(sep, a, b);
    }
  }

  /** The same for a fixed positive number of parts, which may then be empty. */
  lemma {:induction false} JoinInjectiveStep(sep: char, a: seq<string>, b: seq<string>)
    requires a != [] && b != []
    requires |a| == |b| || forall p | p in a + b :: p != ""
    requires forall p | p in a + b :: sep !in p
    requires Join(sep, a) == Join(sep, b)
    ensures a == b
  {
    assert a[0] in a + b && b[0] in a + b;
    assert |a| > 1 <==> sep in Join(sep, a);
    assert |b| > 1 <==> sep in Join(sep, b);
    if |a| > 1 {
      SplitFirst(a[0], Join(sep, a[1..]), b[0], Join(sep, b[1..]), sep);
      forall p | p in a[1..] + b[1..] ensures p in a + b {}
      JoinInjectiveStep(sep, a[1..], b[1..]);
      assert a == [a[0]] + a[1..] && b == [b[0]] + b[1..];
    }
  }

  // ---------- decimals ----------

  function DigitChar(d: nat): char
    requires d < 10
  {
    '0' + d as char
  }

  function Decimal(n: nat): string {
    if n < 10 then [DigitChar(n)] else Decimal(n / 10) + [DigitChar(n % 10)]
  }

  function Zeros(k: nat): string {
    seq(k, _ => '0')
  }

  /** Python's `f"{n:04d}"`. */
  function Pad4(n: nat): string {
    if |Decimal(n)| < 4 then Zeros(4 - |Decimal(n)|) + Decimal(n) else Decimal(n)
  }

  /** Python's `f"{n}"` for a signed integer. */
  function IntText(n: int): string {
    if n < 0 then "-" + Decimal(-n) else Decimal(n)
  }

  predicate IsDigit(c: char) { '0' <= c <= '9' }

  function DigitValue(c: char): nat
    requires IsDigit(c)
  {
    c as int - '0' as int
  }

  ghost function Value(s: string): nat
    requires forall c | c in s :: IsDigit(c)
  {
    if s == [] then 0 else 10 * Value(s[..|s| - 1]) + DigitValue(s[|s| - 1])
  }

  lemma {:induction false} DecimalValue(n: nat)
    ensures forall c | c in Decimal(n) :: IsDigit(c)
    ensures Value(Decimal(n)) == n
  {
    if n < 10 {
      assert [DigitChar(n)][..0] == [];
    } else {
      DecimalValue(n / 10);
      assert Decimal(n)[..|Decimal(n)| - 1] == Decimal(n / 10);
    }
  }

  lemma {:induction false} LeadingZeros(k: nat, s: string)
    requires forall c | c in s :: IsDigit(c)
    ensures forall c | c in Zeros(k) + s :: IsDigit(c)
    ensures Value(Zeros(k) + s) == Value(s)
  {
    if s == [] {
      assert Zeros(k) + s == Zeros(k);
      if k > 0 {
        LeadingZeros(k - 1, s);
        assert Zeros(k)[..k - 1] == Zeros(k - 1) + s;
      }
    } else {
      var t := Zeros(k) + s;
      LeadingZeros(k, s[..|s| - 1]);
      assert t[..|t| - 1] == Zeros(k) + s[..|s| - 1];
    }
  }

  lemma {:induction false} Pad4Injective(m: nat, n: nat)
    ensures Pad4(m) == Pad4(n) ==> m == n
    ensures ':' !in Pad4(n)
  {
    Pad4Value(m);
    Pad4Value(n);
  }

  lemma {:induction false} Pad4Value(n: nat)
    ensures forall c | c in Pad4(n) :: IsDigit(c)
    ensures Value(Pad4(n)) == n
  {
    DecimalValue(n);
    if |Decimal(n)| < 4 {
      LeadingZeros(4 - |Decimal(n)|, Decimal(n));
    }
  }

  /** Below 10000 the padded text has exactly four digits. */
  lemma {:induction false} Pad4Digits(n: nat)
    requires n < 10000
    ensures Pad4(n) == [DigitChar(n / 1000), DigitChar(n / 100 % 10), DigitChar(n / 10 % 10), DigitChar(n % 10)]
  {
    assert Decimal(n / 10 / 10 / 10) == [DigitChar(n / 1000)];
    if n < 10 {
      assert Pad4(n) == Zeros(3) + [DigitChar(n)];
    } else if n < 100 {
      assert Decimal(n) == [DigitChar(n / 10)] + [DigitChar(n % 10)];
      assert Pad4(n) == Zeros(2) + Decimal(n);
    } else if n < 1000 {
      assert Decimal(n / 10) == [DigitChar(n / 100)] + [DigitChar(n / 10 % 10)];
      assert Pad4(n) == Zeros(1) + Decimal(n);
    } else {
      assert Decimal(n / 10 / 10) == [DigitChar(n / 1000)] + [DigitChar(n / 100 % 10)];
      assert Decimal(n / 10) == Decimal(n / 10 / 10) + [DigitChar(n / 10 % 10)];
      assert Decimal(n) == Decimal(n / 10) + [DigitChar(n % 10)];
    }
  }

  /** Zero-padded ids below 10000 sort by number. */
  lemma {:induction false} Pad4Ordered(m: nat, n: nat)
    requires m <= n < 10000
    ensures StrLe(Pad4(m), Pad4(n))
  {
    Pad4Digits(m);
    Pad4Digits(n);
    FourChars(Pad4(m), Pad4(n));
    FourDigits(m);
    FourDigits(n);
  }

  lemma {:induction false} FourDigits(n: nat)
    requires n < 10000
    ensures n == 1000 * (n / 1000) + 100 * (n / 100 % 10) + 10 * (n / 10 % 10) + n % 10
    ensures n / 1000 < 10 && n / 100 % 10 < 10 && n / 10 % 10 < 10 && n % 10 < 10
  {
    var q, r := n / 10, n / 100;
    assert n == 10 * q + n % 10;
    assert r == q / 10 && q == 10 * r + q % 10;
    assert n / 1000 == r / 10 && r == 10 * (r / 10) + r % 10;
  }

  lemma {:induction false} FourChars(s: string, t: string)
    requires |s| == |t| == 4
    ensures StrLe(s, t) <==> s[0] < t[0] || (s[0] == t[0] && (s[1] < t[1] || (s[1] == t[1] &&
                               (s[2] < t[2] || (s[2] == t[2] && s[3] <= t[3])))))
  {
    assert StrLe(s[1..][1..][1..][1..], t[1..][1..][1..][1..]);
    assert s[1..][1..] == s[2..] && t[1..][1..] == t[2..];
    assert s[2..][1..] == s[3..] && t[2..][1..] == t[3..];
    assert StrLe(s[3..], t[3..]) <==> s[3] <= t[3];
    assert StrLe(s[2..], t[2..]) <==> s[2] < t[2] || (s[2] == t[2] && s[3] <= t[3]);
  }

  /** At 10000 the padding runs out, and the text order no longer follows the number. */
  lemma {:induction false} Pad4OutOfOrder()
    ensures Pad4(10000) == "10000" && Pad4(1001) == "1001"
    ensures !StrLe(Pad4(1001), Pad4(10000))
  {
    Pad4Digits(1001);
    assert Decimal(10) == "1" + "0";
    assert Decimal(100) == Decimal(10) + "0";
    assert Decimal(1000) == Decimal(100) + "0";
    assert Decimal(10000) == Decimal(1000) + "0";
    assert Pad4(10000) == "10000";
    var s, t := "1001", "10000";
    assert s[1..] == "001" && t[1..] == "0000";
    assert s[1..][1..] == "01" && t[1..][1..] == "000";
    assert s[1..][1..][1..] == "1" && t[1..][1..][1..] == "00";
  }
}
