/** The encoding is that of RFC 4648, and what the lenient decoder makes of other text. */
module Base64Theorems {
  import opened Wrappers
  import opened Base64

  /** The URL-safe alphabet, table 2 in section 5 of RFC 4648, as ASCII codes: A-Z, a-z, 0-9, then `-` and `_`. */
  function AlphabetCode(v: int): int {
    if v <= 25 then 65 + v else if v <= 51 then 71 + v else if v <= 61 then v - 4 else if v == 62 then 45 else 95
  }

  lemma {:induction false} EncoderAlphabet(v: int)
    requires 0 <= v < 64
    ensures SextetChar(v) as int == AlphabetCode(v)
  {
  }

  /** The decoder knows that alphabet, `+` and `/`, and no other character. */
  lemma {:induction false} DecoderAlphabet(c: char, v: int)
    requires 0 <= v < 64
    ensures CharSextet(c) == Some(v) <==> c as int == AlphabetCode(v) || (v == 62 && c == '+') || (v == 63 && c == '/')
  {
    EncoderAlphabet(v);
    SextetRoundTrip(v);
    if CharSextet(c) == Some(v) {
      CharOfSextet(c);
    }
  }

  lemma {:induction false} CharOfSextet(c: char)
    ensures CharSextet(c).Some? ==> c == SextetChar(CharSextet(c).value) || c == '+' || c == '/'
  {
  }

  /** A group writes its three bytes as one number of four digits in base 64. */
  lemma {:induction false} GroupIsNumber(a: Byte, b: Byte, c: Byte) returns (w: int, x: int, y: int, z: int)
    ensures 0 <= w < 64 && 0 <= x < 64 && 0 <= y < 64 && 0 <= z < 64
    ensures Group(a, b, c) == [SextetChar(w), SextetChar(x), SextetChar(y), SextetChar(z)]
    ensures ((w * 64 + x) * 64 + y) * 64 + z == (a * 256 + b) * 256 + c
  {
    w, x, y, z := a / 4, a % 4 * 16 + b / 16, b % 16 * 4 + c / 64, c % 64;
    Digits(a, b, c);
  }

  lemma {:induction false} Digits(a: Byte, b: Byte, c: Byte)
    ensures var w, x, y, z := a / 4, a % 4 * 16 + b / 16, b % 16 * 4 + c / 64, c % 64;
            && 0 <= w < 64 && 0 <= x < 64 && 0 <= y < 64 && 0 <= z < 64
            && ((w * 64 + x) * 64 + y) * 64 + z == (a * 256 + b) * 256 + c
  {
  }

  // ---------- how the text is laid out ----------

  lemma {:induction false} StripPads(s: string, c: char, pad: string)
    requires c != '=' && (pad == "" || pad == "=" || pad == "==")
    ensures Strip(s + [c] + pad) == s + [c]
  {
    StripAfter(s, c);
  }

  lemma {:induction false} TailSafe(a: Byte, b: Byte)
    ensures Group(a, b, 0)[1] != '=' && Group(a, b, 0)[2] != '='
  {
    GroupSafe(a, b, 0);
    assert Group(a, b, 0)[1] in Group(a, b, 0) && Group(a, b, 0)[2] in Group(a, b, 0);
  }

  /** Whole groups of four characters, and two or three for a last one or two bytes, written as if zeros followed. */
  lemma {:induction false} EncodeByGroups(raw: seq<Byte>)
    ensures raw == [] ==> B64e(raw) == ""
    ensures |raw| == 1 ==> B64e(raw) == Group(raw[0], 0, 0)[..2]
    ensures |raw| == 2 ==> B64e(raw) == Group(raw[0], raw[1], 0)[..3]
    ensures |raw| > 2 ==> B64e(raw) == Group(raw[0], raw[1], raw[2]) + B64e(raw[3..])
  {
    if |raw| == 1 {
      var g := Group(raw[0], 0, 0);
      TailSafe(raw[0], 0);
      StripPads([g[0]], g[1], "==");
      assert g[..2] == [g[0]] + [g[1]];
    } else if |raw| == 2 {
      var g := Group(raw[0], raw[1], 0);
      TailSafe(raw[0], raw[1]);
      StripPads([g[0], g[1]], g[2], "=");
      assert g[..3] == [g[0], g[1]] + [g[2]];
    } else if |raw| > 2 {
      var g := Group(raw[0], raw[1], raw[2]);
      GroupSafe(raw[0], raw[1], raw[2]);
      assert g[3] in g;
      StripPrefix(g, Padded(raw[3..]));
    }
  }

  /** The test vectors of section 10 of RFC 4648, without their padding. */
  lemma {:induction false} TestVectors()
    ensures B64e([]) == ""
    ensures B64e([102]) == "Zg"
    ensures B64e([102, 111]) == "Zm8"
    ensures B64e([102, 111, 111]) == "Zm9v"
    ensures B64e([102, 111, 111, 98]) == "Zm9vYg"
    ensures B64e([102, 111, 111, 98, 97]) == "Zm9vYmE"
    ensures B64e([102, 111, 111, 98, 97, 114]) == "Zm9vYmFy"
  {
    EncodeByGroups([]);
    Vector12();
    Vector3();
    Vector4();
    Vector5();
    Vector6();
  }

  lemma {:induction false} Vector12()
    ensures B64e([102]) == "Zg" && B64e([102, 111]) == "Zm8"
  {
    EncodeByGroups([102]);
    EncodeByGroups([102, 111]);
  }

  lemma {:induction false} Vector3()
    ensures Group(102, 111, 111) == "Zm9v" && B64e([102, 111, 111]) == "Zm9v"
  {
    var raw: seq<Byte> := [102, 111, 111];
    EncodeByGroups(raw);
    EncodeByGroups([]);
    assert raw[3..] == [];
  }

  /** One more group in front. */
  lemma {:induction false} AfterFoo(rest: seq<Byte>)
    requires rest != []
    ensures B64e([102, 111, 111] + rest) == "Zm9v" + B64e(rest)
  {
    var raw: seq<Byte> := [102, 111, 111] + rest;
    Vector3();
    EncodeByGroups(raw);
    assert raw[3..] == rest;
  }

  lemma {:induction false} Vector4()
    ensures B64e([102, 111, 111, 98]) == "Zm9vYg"
  {
    AfterFoo([98]);
    EncodeByGroups([98]);
    assert [102, 111, 111] + [98] == [102, 111, 111, 98];
  }

  lemma {:induction false} Vector5()
    ensures B64e([102, 111, 111, 98, 97]) == "Zm9vYmE"
  {
    AfterFoo([98, 97]);
    EncodeByGroups([98, 97]);
    assert [102, 111, 111] + [98, 97] == [102, 111, 111, 98, 97];
  }

  lemma {:induction false} Vector6()
    ensures B64e([102, 111, 111, 98, 97, 114]) == "Zm9vYmFy"
  {
    var bar: seq<Byte> := [98, 97, 114];
    AfterFoo(bar);
    VectorBar();
    assert [102, 111, 111] + bar == [102, 111, 111, 98, 97, 114];
  }

  lemma {:induction false} VectorBar()
    ensures B64e([98, 97, 114]) == "YmFy"
  {
    var raw: seq<Byte> := [98, 97, 114];
    EncodeByGroups(raw);
    EncodeByGroups([]);
    assert raw[3..] == [];
    assert Group(98, 97, 114) == "YmFy";
  }

  // ---------- the lenient decoder ----------

  /** A character of neither alphabet, other than the pad, is skipped wherever it stands. */
  lemma {:induction false} ForeignSkipped(p: string, c: char, q: string, quad: int, left: int, pads: nat, output: seq<Byte>)
    requires CharSextet(c).None? && c != '='
    requires 0 <= quad < 4 && 0 <= left < (if quad == 1 then 64 else if quad == 2 then 16 else if quad == 3 then 4 else 1)
    ensures Scan(p + [c] + q, quad, left, pads, output) == Scan(p + q, quad, left, pads, output)
    decreases |p|
  {
    if p == "" {
      assert (p + [c] + q)[1..] == q && p + q == q;
    } else {
      var d := p[0];
      assert (p + [c] + q)[1..] == p[1..] + [c] + q && (p + q)[1..] == p[1..] + q;
      if d == '=' {
        if !(quad >= 2 && quad + pads + 1 >= 4) {
          ForeignSkipped(p[1..], c, q, quad, left, if quad >= 2 then pads + 1 else pads, output);
        }
      } else {
        match CharSextet(d)
        case None => ForeignSkipped(p[1..], c, q, quad, left, pads, output);
        case Some(v) =>
          if quad == 0 { ForeignSkipped(p[1..], c, q, 1, v, 0, output); }
          else if quad == 1 { ForeignSkipped(p[1..], c, q, 2, v % 16, 0, output + [left * 4 + v / 16]); }
          else if quad == 2 { ForeignSkipped(p[1..], c, q, 3, v % 4, 0, output + [left * 16 + v / 4]); }
          else { ForeignSkipped(p[1..], c, q, 0, 0, 0, output + [left * 64 + v]); }
      }
    }
  }

  /** Text with a character beyond ASCII does not decode. */
  lemma {:induction false} NonAsciiRefused(s: string, c: char)
    requires c in s && c as int >= 128
    ensures B64d(s).None?
  {
  }

  ghost predicate InAlphabets(s: string) {
    forall k | 0 <= k < |s| :: CharSextet(s[k]).Some?
  }

  function Pads(n: nat): string {
    seq(n, _ => '=')
  }

  lemma {:induction false} ScanPads(n: nat, quad: int, left: int, pads: nat, output: seq<Byte>)
    requires 0 <= quad < 4 && 0 <= left < (if quad == 1 then 64 else if quad == 2 then 16 else if quad == 3 then 4 else 1)
    ensures Scan(Pads(n), quad, left, pads, output) ==
              if quad == 0 || (quad >= 2 && n > 0 && quad + pads + n >= 4) then Some(output) else None
    decreases n
  {
    if n > 0 {
      assert Pads(n)[1..] == Pads(n - 1);
      if !(quad >= 2 && quad + pads + 1 >= 4) {
        ScanPads(n - 1, quad, left, if quad >= 2 then pads + 1 else pads, output);
      }
    }
  }

  /** One character of the alphabets moves the scan to the next place in its group. */
  lemma {:induction false} ScanStep(c: char, tail: string, quad: int, left: int, output: seq<Byte>) returns (quad': int, left': int, output': seq<Byte>)
    requires CharSextet(c).Some?
    requires 0 <= quad < 4 && 0 <= left < (if quad == 1 then 64 else if quad == 2 then 16 else if quad == 3 then 4 else 1)
    ensures quad' == (quad + 1) % 4
    ensures 0 <= left' < (if quad' == 1 then 64 else if quad' == 2 then 16 else if quad' == 3 then 4 else 1)
    ensures Scan([c] + tail, quad, left, 0, output) == Scan(tail, quad', left', 0, output')
  {
    var v := CharSextet(c).value;
    ScanOne(c, tail, v, quad, left, output);
    if quad == 0 {
      quad', left', output' := 1, v, output;
    } else if quad == 1 {
      quad', left', output' := 2, v % 16, output + [left * 4 + v / 16];
    } else if quad == 2 {
      quad', left', output' := 3, v % 4, output + [left * 16 + v / 4];
    } else {
      quad', left', output' := 0, 0, output + [left * 64 + v];
    }
  }

  /** Text of the alphabets, with `n` pads after it, scans exactly when it ends on a group or the pads complete one. */
  lemma {:induction false} ScanText(s: string, n: nat, quad: int, left: int, output: seq<Byte>)
    requires InAlphabets(s)
    requires 0 <= quad < 4 && 0 <= left < (if quad == 1 then 64 else if quad == 2 then 16 else if quad == 3 then 4 else 1)
    ensures var last := (quad + |s|) % 4;
            Scan(s + Pads(n), quad, left, 0, output).Some? <==> last == 0 || (last >= 2 && n > 0 && last + n >= 4)
    decreases |s|
  {
    if s == "" {
      assert s + Pads(n) == Pads(n);
      ScanPads(n, quad, left, 0, output);
    } else {
      var quad', left', output' := ScanStep(s[0], s[1..] + Pads(n), quad, left, output);
      assert s + Pads(n) == [s[0]] + (s[1..] + Pads(n));
      ScanText(s[1..], n, quad', left', output');
    }
  }

  /** Unpadded text of the alphabets decodes exactly when its length is not one more than a multiple of four. */
  lemma {:induction false} DecodesIff(s: string)
    requires InAlphabets(s)
    ensures B64d(s).Some? <==> |s| % 4 != 1
  {
    assert Ascii(s) by {
      forall c | c in s ensures c < 128 as char {
        var k :| 0 <= k < |s| && s[k] == c;
        assert CharSextet(s[k]).Some?;
      }
    }
    assert Padding(|s|) == Pads((4 - |s| % 4) % 4);
    ScanText(s, (4 - |s| % 4) % 4, 0, 0, []);
  }
}
