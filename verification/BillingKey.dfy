/** The idempotency key of a charge (billing/worker.go): "billing:<uuid>:<minute>". */
module BillingKey {
  import opened CreditLedger
  import Hostdev

  function Pow16(w: nat): (p: nat)
    ensures p > 0
  {
    if w == 0 then 1 else 16 * Pow16(w - 1)
  }

  type Uuid = n: nat | n < 0x1_0000_0000_0000_0000_0000_0000_0000_0000

  function HexDigit(d: nat): (c: char)
    requires d < 16
  {
    "0123456789abcdef"[d]
  }

  // The w lowest hexadecimal digits, highest first.
  function Hex(n: nat, w: nat): (s: string)
    ensures |s| == w
    decreases w, n
  {
    if w == 0 then "" else Hex(n / 16, w - 1) + [HexDigit(n % 16)]
  }

  // uuid.UUID.String: 8-4-4-4-12
  function UuidText(id: Uuid): (s: string)
    ensures |s| == 36
  {
    var h := Hex(id, 32);
    h[..8] + "-" + h[8..12] + "-" + h[12..16] + "-" + h[16..20] + "-" + h[20..]
  }

  function DecimalNat(n: nat): (s: string)
    ensures |s| > 0 && forall i :: 0 <= i < |s| ==> '0' <= s[i] <= '9'
  {
    if n < 10 then ["0123456789"[n]] else DecimalNat(n / 10) + ["0123456789"[n % 10]]
  }

  // %d
  function Decimal(n: int): string {
    if n < 0 then "-" + DecimalNat(-n) else DecimalNat(n)
  }

  function BillKey(id: Uuid, bucket: int): Key {
    Key("billing:" + UuidText(id) + ":" + Decimal(bucket))
  }

  lemma {:induction false} HexInjective(a: nat, b: nat, w: nat)
    requires a < Pow16(w) && b < Pow16(w) && Hex(a, w) == Hex(b, w)
    ensures a == b
  {
    if w > 0 {
      var p, q := Hex(a / 16, w - 1), Hex(b / 16, w - 1);
      assert p == Hex(a, w)[..w - 1] && q == Hex(b, w)[..w - 1];
      assert HexDigit(a % 16) == Hex(a, w)[w - 1] && HexDigit(b % 16) == Hex(b, w)[w - 1];
      HexInjective(a / 16, b / 16, w - 1);
    }
  }

  /** Read back, the digits are the number; and they are lower case. */
  lemma {:induction false} HexReads(n: nat, w: nat)
    requires n < Pow16(w)
    ensures forall i :: 0 <= i < w ==> '0' <= Hex(n, w)[i] <= '9' || 'a' <= Hex(n, w)[i] <= 'f'
    ensures Hostdev.HexValue(Hex(n, w), w) == n
    decreases w
  {
    if w > 0 {
      HexReads(n / 16, w - 1);
      var before, s := Hex(n / 16, w - 1), Hex(n, w);
      assert s[..w - 1] == before;
      Hostdev.HexValueOfPrefix(s, before, w - 1);
    }
  }

  lemma Pow16Of32()
    ensures Pow16(32) == 0x1_0000_0000_0000_0000_0000_0000_0000_0000
  {
    assert Pow16(4) == 0x1_0000;
    assert Pow16(8) == 0x1_0000_0000;
    assert Pow16(12) == 0x1_0000_0000_0000;
    assert Pow16(16) == 0x1_0000_0000_0000_0000;
    assert Pow16(20) == 0x1_0000_0000_0000_0000_0000;
    assert Pow16(24) == 0x1_0000_0000_0000_0000_0000_0000;
    assert Pow16(28) == 0x1_0000_0000_0000_0000_0000_0000_0000;
  }

  lemma UuidTextInjective(a: Uuid, b: Uuid)
    requires UuidText(a) == UuidText(b)
    ensures a == b
  {
    var s, h, g := UuidText(a), Hex(a, 32), Hex(b, 32);
    assert h[..8] == s[..8] == g[..8];
    assert h[8..12] == s[9..13] == g[8..12];
    assert h[12..16] == s[14..18] == g[12..16];
    assert h[16..20] == s[19..23] == g[16..20];
    assert h[20..] == s[24..] == g[20..];
    assert h == h[..8] + h[8..12] + h[12..16] + h[16..20] + h[20..];
    assert g == g[..8] + g[8..12] + g[12..16] + g[16..20] + g[20..];
    Pow16Of32();
    HexInjective(a, b, 32);
  }

  /** A printed id: groups of 8, 4, 4, 4 and 12 lower-case digits, which read back give the id. */
  lemma UuidTextReads(id: Uuid)
    ensures var s := UuidText(id);
            var digits := s[..8] + s[9..13] + s[14..18] + s[19..23] + s[24..];
            && s[8] == s[13] == s[18] == s[23] == '-' && |digits| == 32
            && (forall i :: 0 <= i < 32 ==> '0' <= digits[i] <= '9' || 'a' <= digits[i] <= 'f')
            && Hostdev.HexValue(digits, 32) == id
  {
    var s, h := UuidText(id), Hex(id, 32);
    assert h[..8] == s[..8] && h[8..12] == s[9..13] && h[12..16] == s[14..18] && h[16..20] == s[19..23] && h[20..] == s[24..];
    assert h == s[..8] + s[9..13] + s[14..18] + s[19..23] + s[24..];
    Pow16Of32();
    HexReads(id, 32);
  }

  // The value of the first n decimal digits.
  function DecimalValue(s: string, n: nat): int
    requires n <= |s|
  {
    if n == 0 then 0 else 10 * DecimalValue(s, n - 1) + (s[n - 1] as int - '0' as int)
  }

  lemma {:induction false} DecimalValueOfPrefix(s: string, p: string, n: nat)
    requires n <= |p| && p <= s
    ensures DecimalValue(s, n) == DecimalValue(p, n)
  {
    if n > 0 { DecimalValueOfPrefix(s, p, n - 1); }
  }

  /** Read back, the decimal digits are the number, and none of them leads in vain. */
  lemma {:induction false} DecimalNatReads(n: nat)
    ensures DecimalValue(DecimalNat(n), |DecimalNat(n)|) == n
    ensures n > 0 ==> DecimalNat(n)[0] != '0'
  {
    if n >= 10 {
      DecimalNatReads(n / 10);
      DecimalValueOfPrefix(DecimalNat(n), DecimalNat(n / 10), |DecimalNat(n / 10)|);
    } else {
      assert DecimalValue(DecimalNat(n), 0) == 0;
    }
  }

  lemma {:induction false} DecimalNatInjective(a: nat, b: nat)
    requires DecimalNat(a) == DecimalNat(b)
    ensures a == b
  {
    var s := DecimalNat(a);
    assert "0123456789"[a % 10] == s[|s| - 1] == "0123456789"[b % 10];
    assert if a < 10 then |s| == 1 else |s| == |DecimalNat(a / 10)| + 1 >= 2;
    assert if b < 10 then |s| == 1 else |s| == |DecimalNat(b / 10)| + 1 >= 2;
    if a >= 10 {
      assert DecimalNat(a / 10) == s[..|s| - 1] == DecimalNat(b / 10);
      DecimalNatInjective(a / 10, b / 10);
    }
  }

  lemma DecimalInjective(a: int, b: int)
    requires Decimal(a) == Decimal(b)
    ensures a == b
  {
    assert a < 0 <==> Decimal(a)[0] == '-';
    assert b < 0 <==> Decimal(b)[0] == '-';
    if a < 0 {
      assert DecimalNat(-a) == Decimal(a)[1..] == DecimalNat(-b);
      DecimalNatInjective(-a, -b);
    } else {
      DecimalNatInjective(a, b);
    }
  }

  lemma KeyParts(u: string, d: string, u': string, d': string)
    requires |u| == |u'| == 36 && "billing:" + u + ":" + d == "billing:" + u' + ":" + d'
    ensures u == u' && d == d'
  {
    var s := "billing:" + u + ":" + d;
    assert u == s[8..44] == u';
    assert d == s[45..] == d';
  }

  /** Two printed keys are equal only for the same instance and the same bucket. */
  lemma BillKeyInjective(a: Uuid, p: int, b: Uuid, q: int)
    ensures BillKey(a, p) == BillKey(b, q) <==> a == b && p == q
  {
    if BillKey(a, p) == BillKey(b, q) {
      KeyParts(UuidText(a), Decimal(p), UuidText(b), Decimal(q));
      UuidTextInjective(a, b);
      DecimalInjective(p, q);
    }
  }
}
