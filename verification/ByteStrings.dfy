/** Byte strings, their lexicographic order, and the decimal formats the broker
    builds keys from. A Go `string` or `[]byte` is a `Bytes` everywhere. */
module ByteStrings {

  type Byte = b: int | 0 <= b < 256
  type Bytes = seq<Byte>

  /** An MQTT packet identifier. */
  type PacketID = x: int | 0 <= x < 0x1_0000

  datatype Option<+T> = None | Some(value: T)

  const SLASH: Byte := 47
  const COLON: Byte := 58
  const ZERO: Byte := 48

  predicate HasPrefix(s: Bytes, prefix: Bytes) {
    |prefix| <= |s| && s[..|prefix|] == prefix
  }

  /** Chunks written one after the other. */
  function Concat(chunks: seq<Bytes>): Bytes {
    if chunks == [] then [] else Concat(chunks[..|chunks| - 1]) + chunks[|chunks| - 1]
  }

  lemma ConcatSnoc(chunks: seq<Bytes>, c: Bytes)
    ensures Concat(chunks + [c]) == Concat(chunks) + c
  {
    assert (chunks + [c])[..|chunks|] == chunks;
  }

  lemma {:induction false} ConcatHead(chunks: seq<Bytes>)
    requires chunks != []
    ensures Concat(chunks) == chunks[0] + Concat(chunks[1..])
  {
    var n := |chunks| - 1;
    if n == 0 {
      assert Concat(chunks) == Concat([]) + chunks[0];
      assert chunks[1..] == [];
    } else {
      var middle := chunks[1..n];
      ConcatHead(chunks[..n]);
      assert chunks[..n][1..] == middle && chunks[1..] == middle + [chunks[n]];
      ConcatSnoc(middle, chunks[n]);
      assert chunks[0] + Concat(middle) + chunks[n] == chunks[0] + (Concat(middle) + chunks[n]);
    }
  }

  // ----- Lexicographic order -----

  predicate LexLess(a: Bytes, b: Bytes) {
    if b == [] then false
    else if a == [] then true
    else a[0] < b[0] || (a[0] == b[0] && LexLess(a[1..], b[1..]))
  }

  lemma LexTotal(a: Bytes, b: Bytes)
    ensures LexLess(a, b) || LexLess(b, a) || a == b
  {
    if a != [] && b != [] && a[0] == b[0] {
      LexTotal(a[1..], b[1..]);
      assert a == [a[0]] + a[1..] && b == [b[0]] + b[1..];
    }
  }

  lemma LexIrreflexive(a: Bytes)
    ensures !LexLess(a, a)
  {
    if a != [] { LexIrreflexive(a[1..]); }
  }

  lemma LexTransitive(a: Bytes, b: Bytes, c: Bytes)
    requires LexLess(a, b) && LexLess(b, c)
    ensures LexLess(a, c)
  {
    if a != [] && a[0] == b[0] == c[0] {
      LexTransitive(a[1..], b[1..], c[1..]);
    }
  }

  /** A common prefix does not affect the order. */
  lemma LexCommonPrefix(p: Bytes, a: Bytes, b: Bytes)
    ensures LexLess(p + a, p + b) <==> LexLess(a, b)
  {
    if p == [] {
      assert p + a == a && p + b == b;
    } else {
      assert (p + a)[1..] == p[1..] + a && (p + b)[1..] == p[1..] + b;
      LexCommonPrefix(p[1..], a, b);
    }
  }

  /** Strings of one length are ordered by everything but the last byte first. */
  lemma LexSnoc(a: Bytes, x: Byte, b: Bytes, y: Byte)
    requires |a| == |b|
    ensures LexLess(a + [x], b + [y]) <==> LexLess(a, b) || (a == b && x < y)
  {
    if a == [] {
      assert a + [x] == [x] && b + [y] == [y];
    } else {
      assert (a + [x])[1..] == a[1..] + [x] && (b + [y])[1..] == b[1..] + [y];
      LexSnoc(a[1..], x, b[1..], y);
      assert a == [a[0]] + a[1..] && b == [b[0]] + b[1..];
    }
  }

  // ----- Decimal formats -----

  function Zeros(n: nat): (s: Bytes)
    ensures |s| == n
  {
    if n == 0 then [] else Zeros(n - 1) + [ZERO]
  }

  /** `fmt.Sprintf("%0<w>d", n)`; width 0 is plain `%d`. */
  function Decimal(n: nat, w: nat): (s: Bytes)
    ensures |s| >= w && |s| >= 1
    ensures forall i :: 0 <= i < |s| ==> ZERO <= s[i] <= ZERO + 9
    decreases n
  {
    if n < 10 then
      ZerosAreDigits(if w == 0 then 0 else w - 1);
      Zeros(if w == 0 then 0 else w - 1) + [ZERO + n]
    else
      Decimal(n / 10, if w == 0 then 0 else w - 1) + [ZERO + n % 10]
  }

  lemma ZerosAreDigits(n: nat)
    ensures forall i :: 0 <= i < n ==> Zeros(n)[i] == ZERO
  {
    if n > 0 { ZerosAreDigits(n - 1); }
  }

  function Pow10(w: nat): (p: nat)
    ensures p >= 1
  {
    if w == 0 then 1 else 10 * Pow10(w - 1)
  }

  /** The number a digit string denotes. */
  function Number(s: Bytes): int {
    if s == [] then 0 else 10 * Number(s[..|s| - 1]) + (s[|s| - 1] - ZERO)
  }

  lemma NumberOfZeros(n: nat)
    ensures Number(Zeros(n)) == 0
  {
    if n > 0 {
      NumberOfZeros(n - 1);
      assert Zeros(n)[..n - 1] == Zeros(n - 1);
    }
  }

  lemma {:induction false} NumberOfDecimal(n: nat, w: nat)
    ensures Number(Decimal(n, w)) == n
    decreases n
  {
    var v := if w == 0 then 0 else w - 1;
    var s := Decimal(n, w);
    if n < 10 {
      NumberOfZeros(v);
      assert s[..|s| - 1] == Zeros(v);
    } else {
      NumberOfDecimal(n / 10, v);
      assert s[..|s| - 1] == Decimal(n / 10, v);
    }
  }

  lemma {:induction false} DecimalWidth(n: nat, w: nat)
    requires 1 <= w && n < Pow10(w)
    ensures |Decimal(n, w)| == w
    decreases n
  {
    if n >= 10 {
      assert w > 1 by { assert Pow10(1) == 10; }
      DecimalWidth(n / 10, w - 1);
    }
  }

  /** Zero-padded numbers of one width sort numerically. */
  lemma {:induction false} PaddedOrder(n: nat, m: nat, w: nat)
    requires 1 <= w && n < m < Pow10(w)
    ensures LexLess(Decimal(n, w), Decimal(m, w))
    decreases m
  {
    DecimalWidth(n, w);
    DecimalWidth(m, w);
    var a, b := Decimal(n, w), Decimal(m, w);
    if m < 10 {
      LexSnoc(Zeros(w - 1), ZERO + n, Zeros(w - 1), ZERO + m);
    } else {
      assert w > 1 by { assert Pow10(1) == 10; }
      TenthOf(n, w);
      TenthOf(m, w);
      if n / 10 < m / 10 {
        PaddedOrder(n / 10, m / 10, w - 1);
      }
      DecimalWidth(n / 10, w - 1);
      DecimalWidth(m / 10, w - 1);
      LexSnoc(Decimal(n / 10, w - 1), ZERO + n % 10, Decimal(m / 10, w - 1), ZERO + m % 10);
    }
  }

  /** Every padded number is its tenth, padded one shorter, and a last digit. */
  lemma TenthOf(n: nat, w: nat)
    requires 2 <= w
    ensures Decimal(n, w) == Decimal(n / 10, w - 1) + [ZERO + n % 10]
  {
    if n < 10 {
      assert n / 10 == 0 && ZERO + n / 10 == ZERO;
      assert Decimal(0, w - 1) == Zeros(w - 2) + [ZERO] == Zeros(w - 1);
    }
  }
}
