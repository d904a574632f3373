/** Unpadded base64url, sections 3.2 and 5 of RFC 4648, with the lenient decoder of the Python library. */
module Base64 {
  import opened Wrappers

  type Byte = x: int | 0 <= x < 256

  function SextetChar(v: int): char
    requires 0 <= v < 64
  {
    if v < 26 then 'A' + v as char
    else if v < 52 then 'a' + (v - 26) as char
    else if v < 62 then '0' + (v - 52) as char
    else if v == 62 then '-'
    else '_'
  }

  /** The decoder accepts both alphabets; anything else has no value. */
  function CharSextet(c: char): (r: Option<int>)
    ensures r.Some? ==> 0 <= r.value < 64
  {
    if 'A' <= c <= 'Z' then Some(c as int - 'A' as int)
    else if 'a' <= c <= 'z' then Some(c as int - 'a' as int + 26)
    else if '0' <= c <= '9' then Some(c as int - '0' as int + 52)
    else if c == '-' || c == '+' then Some(62)
    else if c == '_' || c == '/' then Some(63)
    else None
  }

  /** Four characters for three bytes. */
  function Group(a: Byte, b: Byte, c: Byte): string {
    [SextetChar(a / 4), SextetChar(a % 4 * 16 + b / 16), SextetChar(b % 16 * 4 + c / 64), SextetChar(c % 64)]
  }

  /** `urlsafe_b64encode`: groups of three bytes, the last one padded with `=`. */
  function Padded(raw: seq<Byte>): string {
    if raw == [] then ""
    else if |raw| == 1 then Group(raw[0], 0, 0)[..2] + "=="
    else if |raw| == 2 then Group(raw[0], raw[1], 0)[..3] + "="
    else Group(raw[0], raw[1], raw[2]) + Padded(raw[3..])
  }

  /** `rstrip("=")`. */
  function Strip(s: string): string {
    if s != "" && s[|s| - 1] == '=' then Strip(s[..|s| - 1]) else s
  }

  /** `-len(s) % 4` padding characters. */
  function Padding(n: nat): string {
    seq((4 - n % 4) % 4, _ => '=')
  }

  /** `a2b_base64` without strict mode: foreign characters are skipped, a completed pad ends the input. */
  function Scan(s: string, quad: int, left: int, pads: nat, output: seq<Byte>): Option<seq<Byte>>
    requires 0 <= quad < 4
    requires 0 <= left < (if quad == 1 then 64 else if quad == 2 then 16 else if quad == 3 then 4 else 1)
    decreases |s|
  {
    if s == "" then (if quad == 0 then Some(output) else None)
    else if s[0] == '=' then
      (if quad >= 2 && quad + pads + 1 >= 4 then Some(output)
       else Scan(s[1..], quad, left, if quad >= 2 then pads + 1 else pads, output))
    else match CharSextet(s[0])
      case None => Scan(s[1..], quad, left, pads, output)
      case Some(v) =>
        if quad == 0 then Scan(s[1..], 1, v, 0, output)
        else if quad == 1 then Scan(s[1..], 2, v % 16, 0, output + [left * 4 + v / 16])
        else if quad == 2 then Scan(s[1..], 3, v % 4, 0, output + [left * 16 + v / 4])
        else Scan(s[1..], 0, 0, 0, output + [left * 64 + v])
  }

  predicate Ascii(s: string) {
    forall c | c in s :: c < 128 as char
  }

  function B64e(raw: seq<Byte>): string {
    Strip(Padded(raw))
  }

  function B64d(s: string): Option<seq<Byte>> {
    if !Ascii(s) then None else Scan(s + Padding(|s|), 0, 0, 0, [])
  }

  // ---------- the encoder ----------

  predicate UrlSafe(c: char) {
    'A' <= c <= 'Z' || 'a' <= c <= 'z' || '0' <= c <= '9' || c == '-' || c == '_'
  }

  lemma {:induction false} SextetRoundTrip(v: int)
    requires 0 <= v < 64
    ensures CharSextet(SextetChar(v)) == Some(v) && UrlSafe(SextetChar(v))
  {
  }

  lemma {:induction false} StripAfter(s: string, c: char)
    requires c != '='
    ensures Strip(s + [c]) == s + [c]
    ensures Strip(s + [c] + "=") == s + [c] && Strip(s + [c] + "==") == s + [c]
  {
    assert (s + [c] + "=")[..|s| + 1] == s + [c];
    assert (s + [c] + "==")[..|s| + 2] == s + [c] + "=";
  }

  lemma {:induction false} StripPrefix(p: string, s: string)
    requires p != "" && p[|p| - 1] != '='
    ensures Strip(p + s) == p + Strip(s)
  {
    if s == "" {
      assert p + s == p;
    } else if s[|s| - 1] == '=' {
      StripPrefix(p, s[..|s| - 1]);
      assert (p + s)[..|p + s| - 1] == p + s[..|s| - 1];
    }
  }

  ghost predicate Repads(padded: string) {
    && Strip(padded) + Padding(|Strip(padded)|) == padded
    && forall c | c in Strip(padded) :: UrlSafe(c)
  }

  lemma {:induction false} RepadsTail(s: string, c: char, pad: string)
    requires (forall d | d in s :: UrlSafe(d)) && UrlSafe(c)
    requires (|s| == 1 && pad == "==") || (|s| == 2 && pad == "=")
    ensures Repads(s + [c] + pad)
  {
    StripAfter(s, c);
    assert Padding(|s| + 1) == pad;
  }

  lemma {:induction false} RepadsFour(p: string, rest: string)
    requires |p| == 4 && (forall c | c in p :: UrlSafe(c)) && Repads(rest)
    ensures Repads(p + rest)
  {
    assert UrlSafe(p[3]);
    StripPrefix(p, rest);
    assert |p + Strip(rest)| % 4 == |Strip(rest)| % 4;
    assert p + Strip(rest) + Padding(|Strip(rest)|) == p + rest;
  }

  lemma {:induction false} GroupSafe(a: Byte, b: Byte, c: Byte)
    ensures |Group(a, b, c)| == 4 && forall d | d in Group(a, b, c) :: UrlSafe(d)
  {
    SextetRoundTrip(a / 4);
    SextetRoundTrip(a % 4 * 16 + b / 16);
    SextetRoundTrip(b % 16 * 4 + c / 64);
    SextetRoundTrip(c % 64);
  }

  /** Stripping then re-padding is the identity on encoder output, and the stripped text is url-safe. */
  lemma {:induction false} Repad(raw: seq<Byte>)
    ensures Repads(Padded(raw))
  {
    if |raw| == 1 {
      var g := Group(raw[0], 0, 0);
      GroupSafe(raw[0], 0, 0);
      RepadsTail(g[..1], g[1], "==");
      assert Padded(raw) == g[..1] + [g[1]] + "==";
    } else if |raw| == 2 {
      var g := Group(raw[0], raw[1], 0);
      GroupSafe(raw[0], raw[1], 0);
      RepadsTail(g[..2], g[2], "=");
      assert Padded(raw) == g[..2] + [g[2]] + "=";
    } else if |raw| > 2 {
      GroupSafe(raw[0], raw[1], raw[2]);
      Repad(raw[3..]);
      RepadsFour(Group(raw[0], raw[1], raw[2]), Padded(raw[3..]));
    }
  }

  // ---------- the round trip ----------

  /** One character of a group; `tail` is what follows it. */
  lemma {:induction false} ScanOne(c: char, tail: string, v: int, quad: int, left: int, output: seq<Byte>)
    requires CharSextet(c) == Some(v) && 0 <= quad < 4
    requires 0 <= left < (if quad == 1 then 64 else if quad == 2 then 16 else if quad == 3 then 4 else 1)
    ensures Scan([c] + tail, quad, left, 0, output) ==
              if quad == 0 then Scan(tail, 1, v, 0, output)
              else if quad == 1 then Scan(tail, 2, v % 16, 0, output + [left * 4 + v / 16])
              else if quad == 2 then Scan(tail, 3, v % 4, 0, output + [left * 16 + v / 4])
              else Scan(tail, 0, 0, 0, output + [left * 64 + v])
  {
    assert ([c] + tail)[1..] == tail;
  }

  lemma {:induction false} ScanTwoChars(c0: char, c1: char, tail: string, output: seq<Byte>, v0: int, v1: int)
    requires CharSextet(c0) == Some(v0) && CharSextet(c1) == Some(v1)
    ensures Scan([c0, c1] + tail, 0, 0, 0, output) == Scan(tail, 2, v1 % 16, 0, output + [v0 * 4 + v1 / 16])
  {
    ScanOne(c0, [c1] + tail, v0, 0, 0, output);
    ScanOne(c1, tail, v1, 1, v0, output);
    assert [c0, c1] + tail == [c0] + ([c1] + tail);
  }

  lemma {:induction false} ScanThreeChars(c0: char, c1: char, c2: char, tail: string, output: seq<Byte>, v0: int, v1: int, v2: int)
    requires CharSextet(c0) == Some(v0) && CharSextet(c1) == Some(v1) && CharSextet(c2) == Some(v2)
    ensures Scan([c0, c1, c2] + tail, 0, 0, 0, output)
         == Scan(tail, 3, v2 % 4, 0, output + [v0 * 4 + v1 / 16, v1 % 16 * 16 + v2 / 4])
  {
    var first := output + [v0 * 4 + v1 / 16];
    ScanTwoChars(c0, c1, [c2] + tail, output, v0, v1);
    ScanOne(c2, tail, v2, 2, v1 % 16, first);
    assert [c0, c1, c2] + tail == [c0, c1] + ([c2] + tail);
    assert first + [v1 % 16 * 16 + v2 / 4] == output + [v0 * 4 + v1 / 16, v1 % 16 * 16 + v2 / 4];
  }

  lemma {:induction false} ScanFour(c0: char, c1: char, c2: char, c3: char, rest: string, output: seq<Byte>, v0: int, v1: int, v2: int, v3: int)
    requires CharSextet(c0) == Some(v0) && CharSextet(c1) == Some(v1)
    requires CharSextet(c2) == Some(v2) && CharSextet(c3) == Some(v3)
    ensures Scan([c0, c1, c2, c3] + rest, 0, 0, 0, output)
         == Scan(rest, 0, 0, 0, output + [v0 * 4 + v1 / 16, v1 % 16 * 16 + v2 / 4, v2 % 4 * 64 + v3])
  {
    var two := output + [v0 * 4 + v1 / 16, v1 % 16 * 16 + v2 / 4];
    ScanThreeChars(c0, c1, c2, [c3] + rest, output, v0, v1, v2);
    ScanOne(c3, rest, v3, 3, v2 % 4, two);
    assert [c0, c1, c2, c3] + rest == [c0, c1, c2] + ([c3] + rest);
    assert two + [v2 % 4 * 64 + v3] == output + [v0 * 4 + v1 / 16, v1 % 16 * 16 + v2 / 4, v2 % 4 * 64 + v3];
  }

  lemma {:induction false} ScanTwo(c0: char, c1: char, output: seq<Byte>, v0: int, v1: int)
    requires CharSextet(c0) == Some(v0) && CharSextet(c1) == Some(v1)
    ensures Scan([c0, c1, '=', '='], 0, 0, 0, output) == Some(output + [v0 * 4 + v1 / 16])
  {
    var first := output + [v0 * 4 + v1 / 16];
    ScanTwoChars(c0, c1, "==", output, v0, v1);
    assert [c0, c1, '=', '='] == [c0, c1] + "==";
    assert "=="[1..] == "=";
    assert Scan("=", 2, v1 % 16, 1, first) == Some(first);
  }

  lemma {:induction false} ScanThree(c0: char, c1: char, c2: char, output: seq<Byte>, v0: int, v1: int, v2: int)
    requires CharSextet(c0) == Some(v0) && CharSextet(c1) == Some(v1) && CharSextet(c2) == Some(v2)
    ensures Scan([c0, c1, c2, '='], 0, 0, 0, output) == Some(output + [v0 * 4 + v1 / 16, v1 % 16 * 16 + v2 / 4])
  {
    ScanThreeChars(c0, c1, c2, "=", output, v0, v1, v2);
    assert [c0, c1, c2, '='] == [c0, c1, c2] + "=";
  }

  /** Three bytes survive being cut into four sextets. */
  lemma {:induction false} Regroup(a: Byte, b: Byte, c: Byte)
    ensures var v0, v1, v2, v3 := a / 4, a % 4 * 16 + b / 16, b % 16 * 4 + c / 64, c % 64;
            v0 * 4 + v1 / 16 == a && v1 % 16 * 16 + v2 / 4 == b && v2 % 4 * 64 + v3 == c
  {
  }

  lemma {:induction false} ScanByte(a: Byte, output: seq<Byte>)
    ensures Scan(Padded([a]), 0, 0, 0, output) == Some(output + [a])
  {
    SextetRoundTrip(a / 4);
    SextetRoundTrip(a % 4 * 16);
    Regroup(a, 0, 0);
    ScanTwo(SextetChar(a / 4), SextetChar(a % 4 * 16), output, a / 4, a % 4 * 16);
    assert Padded([a]) == [SextetChar(a / 4), SextetChar(a % 4 * 16), '=', '='];
  }

  lemma {:induction false} ScanPair(a: Byte, b: Byte, output: seq<Byte>)
    ensures Scan(Padded([a, b]), 0, 0, 0, output) == Some(output + [a, b])
  {
    var v0, v1, v2 := a / 4, a % 4 * 16 + b / 16, b % 16 * 4;
    SextetRoundTrip(v0);
    SextetRoundTrip(v1);
    SextetRoundTrip(v2);
    Regroup(a, b, 0);
    ScanThree(SextetChar(v0), SextetChar(v1), SextetChar(v2), output, v0, v1, v2);
    assert Padded([a, b]) == [SextetChar(v0), SextetChar(v1), SextetChar(v2), '='];
  }

  lemma {:induction false} ScanGroup(a: Byte, b: Byte, c: Byte, rest: string, output: seq<Byte>)
    ensures Scan(Group(a, b, c) + rest, 0, 0, 0, output) == Scan(rest, 0, 0, 0, output + [a, b, c])
  {
    var v0, v1, v2, v3 := a / 4, a % 4 * 16 + b / 16, b % 16 * 4 + c / 64, c % 64;
    SextetRoundTrip(v0);
    SextetRoundTrip(v1);
    SextetRoundTrip(v2);
    SextetRoundTrip(v3);
    Regroup(a, b, c);
    ScanFour(SextetChar(v0), SextetChar(v1), SextetChar(v2), SextetChar(v3), rest, output, v0, v1, v2, v3);
  }

  lemma {:induction false} ScanPadded(raw: seq<Byte>, output: seq<Byte>)
    ensures Scan(Padded(raw), 0, 0, 0, output) == Some(output + raw)
  {
    if raw == [] {
      assert output + raw == output;
    } else if |raw| == 1 {
      ScanByte(raw[0], output);
      assert raw == [raw[0]];
    } else if |raw| == 2 {
      ScanPair(raw[0], raw[1], output);
      assert raw == [raw[0], raw[1]];
    } else {
      var first := [raw[0], raw[1], raw[2]];
      ScanGroup(raw[0], raw[1], raw[2], Padded(raw[3..]), output);
      ScanPadded(raw[3..], output + first);
      assert output + first + raw[3..] == output + raw;
    }
  }

  /** Decoding an encoded byte string gives it back; the text holds neither `.` nor `=`. */
  lemma {:induction false} RoundTrip(raw: seq<Byte>)
    ensures B64d(B64e(raw)) == Some(raw)
    ensures '.' !in B64e(raw) && '=' !in B64e(raw) && Ascii(B64e(raw))
  {
    Repad(raw);
    ScanPadded(raw, []);
    assert [] + raw == raw;
  }
}
