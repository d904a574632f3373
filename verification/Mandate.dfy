/** Assets and the mandate signature that binds their rights. */
module Mandate {
  import opened Wrappers
  import opened Sequences
  import opened Text
  import opened Base64

  /** Times are microseconds. */
  datatype Asset = Asset(
    assetId: string, custodianId: string, tenantId: string, contentHash: string, rightsMandate: string,
    mandateSignature: string, usageConstraints: seq<string>, grantedScopes: seq<string>, requiresConsent: bool,
    validFrom: int, validUntil: int, withdrawn: bool)

  type Key = seq<Byte>

  /** The signing primitives: a keyed MAC over message text, and the ISO rendering of a time. */
  datatype Signer = Signer(hmac: (Key, string) -> seq<Byte>, iso: int -> string)

  function ConsentFlag(a: Asset): string {
    if a.requiresConsent then "consent" else "no-consent"
  }

  /** The signed text of a list. */
  function ListText(l: seq<string>): string {
    Join(',', SortText(l))
  }

  function MessageParts(s: Signer, a: Asset): seq<string> {
    [a.assetId, a.contentHash, a.custodianId, a.tenantId, s.iso(a.validFrom), s.iso(a.validUntil), a.rightsMandate,
     ListText(a.usageConstraints), ListText(a.grantedScopes), ConsentFlag(a)]
  }

  function MandateMessage(s: Signer, a: Asset): string {
    Join('|', MessageParts(s, a))
  }

  // ---------- hexadecimal signatures ----------

  function HexChar(v: int): char
    requires 0 <= v < 16
  {
    if v < 10 then '0' + v as char else 'a' + (v - 10) as char
  }

  function HexValue(c: char): (r: Option<int>)
    ensures r.Some? ==> 0 <= r.value < 16
  {
    if '0' <= c <= '9' then Some(c as int - '0' as int)
    else if 'a' <= c <= 'f' then Some(c as int - 'a' as int + 10)
    else if 'A' <= c <= 'F' then Some(c as int - 'A' as int + 10)
    else None
  }

  function ToHex(raw: seq<Byte>): string {
    if raw == [] then "" else [HexChar(raw[0] / 16), HexChar(raw[0] % 16)] + ToHex(raw[1..])
  }

  predicate HexSpace(c: char) {
    c == ' ' || '\t' <= c <= '\r'
  }

  /** `bytes.fromhex`: ASCII whitespace may separate bytes; anything else is a value error. */
  function FromHex(s: string): Option<seq<Byte>> {
    if s == "" then Some([])
    else if HexSpace(s[0]) then FromHex(s[1..])
    else if |s| < 2 then None
    else match (HexValue(s[0]), HexValue(s[1]))
      case (Some(hi), Some(lo)) =>
        (match FromHex(s[2..])
         case None => None
         case Some(rest) => Some([(hi * 16 + lo) as Byte] + rest))
      case _ => None
  }

  lemma {:induction false} HexRoundTrip(raw: seq<Byte>)
    ensures FromHex(ToHex(raw)) == Some(raw)
  {
    if raw != [] {
      HexRoundTrip(raw[1..]);
      var s := ToHex(raw);
      assert s[2..] == ToHex(raw[1..]);
      assert raw == [raw[0]] + raw[1..];
    }
  }

  function SignMandate(s: Signer, a: Asset, key: Key): string {
    ToHex(s.hmac(key, MandateMessage(s, a)))
  }

  function VerifyMandate(s: Signer, a: Asset, key: Key): bool {
    FromHex(a.mandateSignature) == Some(s.hmac(key, MandateMessage(s, a)))
  }

  /** The store's withdrawal: a copy with the flag set. */
  function Withdrawn(a: Asset): Asset {
    a.(withdrawn := true)
  }

  // ---------- theorems ----------

  /** A signed asset verifies. */
  lemma {:induction false} SignedVerifies(s: Signer, a: Asset, key: Key)
    ensures VerifyMandate(s, a.(mandateSignature := SignMandate(s, a, key)), key)
  {
    var b := a.(mandateSignature := SignMandate(s, a, key));
    HexRoundTrip(s.hmac(key, MandateMessage(s, a)));
    assert MessageParts(s, a) == MessageParts(s, b);
  }

  /** One field and what follows it. */
  function Then(field: string, rest: string): string {
    field + "|" + rest
  }

  /** The signed text, written out. */
  lemma {:induction false} MessageText(s: Signer, a: Asset)
    ensures MandateMessage(s, a) ==
              Then(a.assetId, Then(a.contentHash, Then(a.custodianId, Then(a.tenantId,
              Then(s.iso(a.validFrom), Then(s.iso(a.validUntil), Then(a.rightsMandate,
              Then(Join(',', SortText(a.usageConstraints)), Then(Join(',', SortText(a.grantedScopes)),
              if a.requiresConsent then "consent" else "no-consent")))))))))
  {
    var p := MessageParts(s, a);
    assert p[0..] == p && p[9..] == [p[9]];
    JoinStep(p, 0);
    JoinStep(p, 1);
    JoinStep(p, 2);
    JoinStep(p, 3);
    JoinStep(p, 4);
    JoinStep(p, 5);
    JoinStep(p, 6);
    JoinStep(p, 7);
    JoinStep(p, 8);
  }

  lemma {:induction false} JoinStep(p: seq<string>, k: nat)
    requires k + 1 < |p|
    ensures Join('|', p[k..]) == Then(p[k], Join('|', p[k + 1..]))
  {
    assert p[k..][1..] == p[k + 1..];
  }

  /** ASCII white space between bytes is skipped. */
  lemma {:induction false} HexSkipsSpace(c: char, t: string)
    requires c in " \t\n\r"
    ensures FromHex([c] + t) == FromHex(t)
  {
    assert ([c] + t)[1..] == t;
  }

  lemma {:induction false} UpperDigit(t: string)
    requires t != ""
    ensures HexValue(Upper(t)[0]) == HexValue(t[0]) && (HexSpace(Upper(t)[0]) <==> HexSpace(t[0]))
  {
  }

  /** Upper-case digits decode like lower-case ones. */
  lemma {:induction false} HexIgnoresCase(t: string)
    ensures FromHex(Upper(t)) == FromHex(t)
  {
    if t != "" {
      UpperDigit(t);
      UpperTail(t);
      HexIgnoresCase(t[1..]);
      if |t| > 1 {
        UpperDigit(t[1..]);
        HexIgnoresCase(t[2..]);
      }
    }
  }

  /** `a` to `f` in upper case. */
  function Upper(t: string): string {
    seq(|t|, i requires 0 <= i < |t| => if 'a' <= t[i] <= 'f' then (t[i] as int - 32) as char else t[i])
  }

  lemma {:induction false} UpperTail(t: string)
    requires t != ""
    ensures Upper(t)[1..] == Upper(t[1..]) && (|t| > 1 ==> Upper(t)[2..] == Upper(t[2..]))
  {
  }

  /** A signature is accepted exactly when its bytes are the MAC of the asset's own message under the key. */
  lemma {:induction false} SignatureIff(s: Signer, a: Asset, key: Key, raw: seq<Byte>)
    ensures VerifyMandate(s, a.(mandateSignature := ToHex(raw)), key) <==> raw == s.hmac(key, MandateMessage(s, a))
  {
    HexRoundTrip(raw);
    assert MessageParts(s, a.(mandateSignature := ToHex(raw))) == MessageParts(s, a);
  }

  /** Lower-case hexadecimal text of whole bytes, as the asset schema leaves it. */
  predicate LowerHex(t: string) {
    |t| % 2 == 0 && forall k | 0 <= k < |t| :: '0' <= t[k] <= '9' || 'a' <= t[k] <= 'f'
  }

  lemma {:induction false} HexOfText(t: string) returns (raw: seq<Byte>)
    requires LowerHex(t)
    ensures ToHex(raw) == t
  {
    if t == "" {
      raw := [];
    } else {
      var rest := HexOfText(t[2..]);
      var hi, lo := HexValue(t[0]).value, HexValue(t[1]).value;
      raw := [(hi * 16 + lo) as Byte] + rest;
      assert raw[1..] == rest && raw[0] / 16 == hi && raw[0] % 16 == lo;
      assert t == [t[0], t[1]] + t[2..];
    }
  }

  /** For a stored signature: it is accepted exactly when it is the one signing would give. */
  lemma {:induction false} StoredSignatureIff(s: Signer, a: Asset, key: Key)
    requires LowerHex(a.mandateSignature)
    ensures VerifyMandate(s, a, key) <==> a.mandateSignature == SignMandate(s, a, key)
  {
    var raw := HexOfText(a.mandateSignature);
    SignatureIff(s, a, key, raw);
    HexRoundTrip(raw);
    HexRoundTrip(s.hmac(key, MandateMessage(s, a)));
    assert a.(mandateSignature := ToHex(raw)) == a;
  }

  /** Withdrawal changes neither the signed message nor the outcome of verification. */
  lemma {:induction false} WithdrawKeepsMandate(s: Signer, a: Asset, key: Key)
    ensures MandateMessage(s, Withdrawn(a)) == MandateMessage(s, a)
    ensures VerifyMandate(s, Withdrawn(a), key) == VerifyMandate(s, a, key)
  {
    assert MessageParts(s, a) == MessageParts(s, Withdrawn(a));
  }

  /** No field and no list entry holds the field separator. */
  ghost predicate BarFree(s: Signer, a: Asset) {
    && '|' !in a.assetId && '|' !in a.contentHash && '|' !in a.custodianId && '|' !in a.tenantId
    && '|' !in s.iso(a.validFrom) && '|' !in s.iso(a.validUntil) && '|' !in a.rightsMandate
    && (forall c | c in a.usageConstraints :: '|' !in c)
    && (forall c | c in a.grantedScopes :: '|' !in c)
  }

  /** No entry is empty or holds the list separator. */
  ghost predicate CleanList(l: seq<string>) {
    forall c | c in l :: c != "" && ',' !in c
  }

  ghost predicate SeparatorFree(s: Signer, a: Asset) {
    BarFree(s, a) && CleanList(a.usageConstraints) && CleanList(a.grantedScopes)
  }

  /** The signed fields that are no lists agree. */
  ghost predicate SameFields(a: Asset, b: Asset) {
    && a.assetId == b.assetId && a.contentHash == b.contentHash && a.custodianId == b.custodianId
    && a.tenantId == b.tenantId && a.validFrom == b.validFrom && a.validUntil == b.validUntil
    && a.rightsMandate == b.rightsMandate && a.requiresConsent == b.requiresConsent
  }

  /** The signed fields agree, the two lists up to order. */
  ghost predicate SameRights(a: Asset, b: Asset) {
    && SameFields(a, b)
    && multiset(a.usageConstraints) == multiset(b.usageConstraints)
    && multiset(a.grantedScopes) == multiset(b.grantedScopes)
  }

  lemma {:induction false} SortedElements(l: seq<string>)
    ensures forall c | c in SortText(l) :: c in l
    ensures |SortText(l)| == |l|
  {
    SortTextCanonical(l, l);
    forall c | c in SortText(l) ensures c in l {
      assert c in multiset(SortText(l));
    }
  }

  lemma {:induction false} ListTextBarFree(l: seq<string>)
    requires forall c | c in l :: '|' !in c
    ensures '|' !in ListText(l)
  {
    SortedElements(l);
    JoinAvoids(',', SortText(l), '|');
  }

  lemma {:induction false} PartsAvoidBar(s: Signer, a: Asset)
    requires BarFree(s, a)
    ensures forall p | p in MessageParts(s, a) :: '|' !in p
  {
    ListTextBarFree(a.usageConstraints);
    ListTextBarFree(a.grantedScopes);
  }

  /** The ten parts are determined by the message. */
  lemma {:induction false} PartsFromMessage(s: Signer, a: Asset, b: Asset)
    requires BarFree(s, a) && BarFree(s, b)
    ensures MandateMessage(s, a) == MandateMessage(s, b) <==> MessageParts(s, a) == MessageParts(s, b)
  {
    PartsAvoidBar(s, a);
    PartsAvoidBar(s, b);
    if MandateMessage(s, a) == MandateMessage(s, b) {
      JoinInjectiveStep('|', MessageParts(s, a), MessageParts(s, b));
    }
  }

  /** And the parts are the fields and the texts of the lists. */
  lemma {:induction false} FieldsFromParts(s: Signer, a: Asset, b: Asset)
    requires forall t, u :: s.iso(t) == s.iso(u) ==> t == u
    ensures MessageParts(s, a) == MessageParts(s, b) <==>
              && SameFields(a, b)
              && ListText(a.usageConstraints) == ListText(b.usageConstraints)
              && ListText(a.grantedScopes) == ListText(b.grantedScopes)
  {
    var p, q := MessageParts(s, a), MessageParts(s, b);
    if p == q {
      forall k | 0 <= k < 10 ensures p[k] == q[k] {}
      assert a.assetId == p[0] && b.assetId == q[0];
      assert p[1] == a.contentHash && q[1] == b.contentHash;
      assert p[2] == a.custodianId && q[2] == b.custodianId;
      assert p[3] == a.tenantId && q[3] == b.tenantId;
      assert p[4] == s.iso(a.validFrom) && q[4] == s.iso(b.validFrom);
      assert p[5] == s.iso(a.validUntil) && q[5] == s.iso(b.validUntil);
      assert p[6] == a.rightsMandate && q[6] == b.rightsMandate;
      assert p[7] == ListText(a.usageConstraints) && q[7] == ListText(b.usageConstraints);
      assert p[8] == ListText(a.grantedScopes) && q[8] == ListText(b.grantedScopes);
      assert p[9] == ConsentFlag(a) && q[9] == ConsentFlag(b);
      assert |"consent"| != |"no-consent"|;
    }
  }

  lemma {:induction false} MessageIff(s: Signer, a: Asset, b: Asset)
    requires BarFree(s, a) && BarFree(s, b)
    requires forall t, u :: s.iso(t) == s.iso(u) ==> t == u
    ensures MandateMessage(s, a) == MandateMessage(s, b) <==>
              && SameFields(a, b)
              && ListText(a.usageConstraints) == ListText(b.usageConstraints)
              && ListText(a.grantedScopes) == ListText(b.grantedScopes)
  {
    PartsFromMessage(s, a, b);
    FieldsFromParts(s, a, b);
  }

  lemma {:induction false} CleanListIff(a: seq<string>, b: seq<string>)
    requires CleanList(a) && CleanList(b)
    ensures ListText(a) == ListText(b) <==> multiset(a) == multiset(b)
  {
    SortedElements(a);
    SortedElements(b);
    SortTextCanonical(a, b);
    if ListText(a) == ListText(b) {
      JoinInjective(',', SortText(a), SortText(b));
    }
  }

  /** Canonical encoding: separator-free assets share a message exactly when their signed rights agree. */
  lemma {:induction false} MessageDeterminesRights(s: Signer, a: Asset, b: Asset)
    requires SeparatorFree(s, a) && SeparatorFree(s, b)
    requires forall t, u :: s.iso(t) == s.iso(u) ==> t == u
    ensures MandateMessage(s, a) == MandateMessage(s, b) <==> SameRights(a, b)
  {
    MessageIff(s, a, b);
    CleanListIff(a.usageConstraints, b.usageConstraints);
    CleanListIff(a.grantedScopes, b.grantedScopes);
  }

  /**
   * The promise of the mandate: an asset that carries the signature of a verifying one verifies itself exactly when no
   * signed right was altered, unless the MAC collides on the two messages.
   */
  lemma {:induction false} AlteredRightsDetected(s: Signer, a: Asset, b: Asset, key: Key)
    requires SeparatorFree(s, a) && SeparatorFree(s, b)
    requires forall t, u :: s.iso(t) == s.iso(u) ==> t == u
    requires VerifyMandate(s, a, key) && b.mandateSignature == a.mandateSignature
    requires s.hmac(key, MandateMessage(s, a)) == s.hmac(key, MandateMessage(s, b)) ==> MandateMessage(s, a) == MandateMessage(s, b)
    ensures VerifyMandate(s, b, key) <==> SameRights(a, b)
  {
    MessageDeterminesRights(s, a, b);
  }

  // ---------- which stored assets bind their rights on their own ----------

  /** One entry, not empty, that cannot be cut at a comma into two entries in order. */
  ghost predicate Rigid(l: seq<string>) {
    && |l| == 1 && l[0] != ""
    && forall i | 0 <= i < |l[0]| && l[0][i] == ',' :: !StrLe(l[0][..i], l[0][i + 1..])
  }

  lemma {:induction false} OneText(x: string)
    ensures ListText([x]) == x && ListText([]) == ""
  {
    SortTextOne(x);
  }

  lemma {:induction false} TwoText(x: string, y: string)
    requires StrLe(x, y)
    ensures ListText([x, y]) == x + "," + y
  {
    SortTextTwo(x, y);
    assert [x, y][1..] == [y];
    assert Join(',', [x, y]) == x + [','] + Join(',', [y]);
  }

  lemma {:induction false} CutList(x: string, i: nat) returns (m: seq<string>)
    requires i < |x| && x[i] == ',' && StrLe(x[..i], x[i + 1..]) && '|' !in x
    ensures ListText(m) == ListText([x]) && multiset(m) != multiset([x]) && forall c | c in m :: '|' !in c
  {
    m := [x[..i], x[i + 1..]];
    TwoText(x[..i], x[i + 1..]);
    OneText(x);
    assert x == x[..i] + "," + x[i + 1..];
    assert |multiset(m)| == 2 && |multiset([x])| == 1;
  }

  /** A list that is not rigid has another list of the same text. */
  lemma {:induction false} OtherList(l: seq<string>) returns (m: seq<string>)
    requires !Rigid(l) && forall c | c in l :: '|' !in c
    ensures ListText(m) == ListText(l) && multiset(m) != multiset(l) && forall c | c in m :: '|' !in c
  {
    if |l| != 1 {
      m := [ListText(l)];
      OneText(ListText(l));
      ListTextBarFree(l);
      assert |multiset(m)| == 1 && |multiset(l)| == |l|;
    } else if l[0] == "" {
      m := [];
      OneText("");
      assert l == [""] && |multiset(l)| == 1;
    } else {
      var i :| 0 <= i < |l[0]| && l[0][i] == ',' && StrLe(l[0][..i], l[0][i + 1..]);
      assert l[0] in l && l == [l[0]];
      m := CutList(l[0], i);
    }
  }

  lemma {:induction false} StrLePrefixOf(a: string, x: string)
    ensures StrLe(a, a + x)
  {
    if a != "" {
      assert (a + x)[1..] == a[1..] + x;
      StrLePrefixOf(a[1..], x);
    }
  }

  lemma {:induction false} JoinFromFirst(m: seq<string>)
    requires m != []
    ensures StrLe(m[0], Join(',', m))
  {
    if |m| == 1 {
      StrLeTotal(m[0], m[0]);
    } else {
      assert Join(',', m) == m[0] + ([','] + Join(',', m[1..]));
      StrLePrefixOf(m[0], [','] + Join(',', m[1..]));
    }
  }

  /** Cutting a sorted list after its first entry leaves two texts in order. */
  lemma {:induction false} FirstCut(m: seq<string>)
    requires |m| > 1 && SortedBy(ByText, m)
    ensures Join(',', m) == m[0] + "," + Join(',', m[1..])
    ensures StrLe(m[0], Join(',', m[1..]))
  {
    assert ByText(m[0], m[1]);
    JoinFromFirst(m[1..]);
    StrLeTransitive(m[0], m[1], Join(',', m[1..]));
  }

  lemma {:induction false} CutNotRigid(p: string, q: string)
    requires StrLe(p, q)
    ensures !Rigid([p + "," + q])
  {
    var x, i := p + "," + q, |p|;
    assert x[i] == ',' && x[..i] == p && x[i + 1..] == q;
  }

  /** A rigid list is the only one of its text. */
  lemma {:induction false} RigidAlone(l: seq<string>, m: seq<string>)
    requires Rigid(l) && ListText(m) == ListText(l)
    ensures multiset(m) == multiset(l)
  {
    OneText(l[0]);
    assert l == [l[0]];
    if |m| == 1 {
      OneText(m[0]);
      assert m == [m[0]];
    } else if |m| > 1 {
      SortTextCanonical(m, m);
      FirstCut(SortText(m));
      CutNotRigid(SortText(m)[0], Join(',', SortText(m)[1..]));
    }
  }

  /** Some other grant of rights, without the field separator, signs the same message. */
  ghost predicate Ambiguous(s: Signer, a: Asset) {
    exists b :: BarFree(s, b) && MandateMessage(s, b) == MandateMessage(s, a) && !SameRights(a, b)
  }

  /**
   * Which mandates bind their rights by themselves: among assets without the field separator, the message of `a` stands
   * for other rights as well exactly when one of its two lists is not rigid.
   */
  lemma {:induction false} AmbiguousIff(s: Signer, a: Asset)
    requires BarFree(s, a)
    requires forall t, u :: s.iso(t) == s.iso(u) ==> t == u
    ensures Ambiguous(s, a) <==> !Rigid(a.usageConstraints) || !Rigid(a.grantedScopes)
  {
    if !Rigid(a.usageConstraints) {
      var m := OtherList(a.usageConstraints);
      MessageIff(s, a, a.(usageConstraints := m));
    }
    if !Rigid(a.grantedScopes) {
      var m := OtherList(a.grantedScopes);
      MessageIff(s, a, a.(grantedScopes := m));
    }
    if b :| BarFree(s, b) && MandateMessage(s, b) == MandateMessage(s, a) && !SameRights(a, b) {
      MessageIff(s, a, b);
      BothRigid(a, b);
    }
  }

  lemma {:induction false} BothRigid(a: Asset, b: Asset)
    requires SameFields(a, b) && !SameRights(a, b)
    requires ListText(a.usageConstraints) == ListText(b.usageConstraints)
    requires ListText(a.grantedScopes) == ListText(b.grantedScopes)
    ensures !Rigid(a.usageConstraints) || !Rigid(a.grantedScopes)
  {
    if Rigid(a.usageConstraints) { RigidAlone(a.usageConstraints, b.usageConstraints); }
    if Rigid(a.grantedScopes) { RigidAlone(a.grantedScopes, b.grantedScopes); }
  }

  /**
   * For one: granting the two scopes `x` and `y` signs the same message as granting the one scope `x,y`, so neither
   * asset binds its scopes.
   */
  lemma {:induction false} CommaCollision(s: Signer, a: Asset)
    ensures var one, two := a.(grantedScopes := ["x,y"]), a.(grantedScopes := ["x", "y"]);
            MandateMessage(s, one) == MandateMessage(s, two) && !SameRights(one, two)
  {
    var one, two := a.(grantedScopes := ["x,y"]), a.(grantedScopes := ["x", "y"]);
    OneText("x,y");
    TwoText("x", "y");
    assert ListText(one.grantedScopes) == "x,y" == "x" + "," + "y" == ListText(two.grantedScopes);
    assert MessageParts(s, one) == MessageParts(s, two);
    assert |multiset(["x", "y"])| == 2 && |multiset(["x,y"])| == 1;
  }
}
