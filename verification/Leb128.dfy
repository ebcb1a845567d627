/** LEB128 numbers: little-endian groups of seven bits, at most five bytes long. */
module Leb128 {
  import opened Bytes
  import opened Options

  const UINT32: nat := 0x1_0000_0000

  datatype Leb = Leb(value: nat, next: nat)

  // The seven bits of a byte that count.
  function Low(b: nat): nat { b % 0x80 }

  // The number whose k-th byte is at pos; the fifth byte is the last, and only four bits of it count.
  function UnsignedLebRest(s: seq<Byte>, pos: nat, k: nat): (r: Option<Leb>)
    requires k <= 4
    ensures r.Some? ==> pos < r.value.next <= |s| && r.value.next - pos <= 5 - k
    decreases 4 - k
  {
    if pos >= |s| then None
    else if k == 4 then Some(Leb(s[pos] % 16, pos + 1))
    else if s[pos] <= 0x7f then Some(Leb(s[pos], pos + 1))
    else match UnsignedLebRest(s, pos + 1, k + 1)
         case None => None
         case Some(r) => Some(Leb(Low(s[pos]) + 0x80 * r.value, r.next))
  }

  // None: the stream ends first.
  function UnsignedLeb(s: seq<Byte>, pos: nat): (r: Option<Leb>)
    ensures r.Some? ==> pos < r.value.next <= |s| && r.value.next - pos <= 5
  {
    UnsignedLebRest(s, pos, 0)
  }

  // 2 to the power of 7 * n, for n bytes.
  function Weight(n: nat): (w: nat)
    ensures w > 0 && (n > 0 ==> w % 0x80 == 0)
  {
    if n == 0 then 1 else 0x80 * Weight(n - 1)
  }

  // The value of n bytes with the sign in their highest bit; five bytes make a 32-bit number.
  function Signed(value: nat, n: nat): int {
    var top := if n >= 5 then UINT32 else Weight(n);
    if value >= top / 2 then value - top else value
  }

  // One byte, and the number that the bytes behind it make.
  lemma LebUnfolds(s: seq<Byte>, pos: nat, k: nat)
    requires k <= 4 && UnsignedLebRest(s, pos, k).Some?
    ensures pos < |s|
    ensures UnsignedLebRest(s, pos, k).value ==
            if k == 4 then Leb(s[pos] % 16, pos + 1)
            else if s[pos] <= 0x7f then Leb(Low(s[pos]), pos + 1)
            else Leb(Low(s[pos]) + 0x80 * UnsignedLebRest(s, pos + 1, k + 1).value.value,
                UnsignedLebRest(s, pos + 1, k + 1).value.next)
    ensures k < 4 && s[pos] > 0x7f ==> UnsignedLebRest(s, pos + 1, k + 1).Some?
  {
  }

  lemma LowIs(b: Byte)
    ensures b <= 0x7f ==> Low(b) == b
  {
  }

  /** `DecodeUnsignedLeb128` */
  method DecodeUnsignedLeb128(s: seq<Byte>, pos: nat) returns (result: nat, next: nat)
    requires UnsignedLeb(s, pos).Some?
    ensures UnsignedLeb(s, pos) == Some(Leb(result, next))
  {
    hide UnsignedLebRest, Low;
    LebUnfolds(s, pos, 0);
    next, result := pos + 1, s[pos];
    LowIs(s[pos]);
    if result > 0x7f {
      LebUnfolds(s, pos + 1, 1);
      var cur: nat := s[next];
      next := next + 1;
      result := Low(result) + 0x80 * Low(cur);
      if cur > 0x7f {
        LebUnfolds(s, pos + 2, 2);
        cur := s[next];
        next := next + 1;
        result := result + 0x4000 * Low(cur);
        if cur > 0x7f {
          LebUnfolds(s, pos + 3, 3);
          cur := s[next];
          next := next + 1;
          result := result + 0x20_0000 * Low(cur);
          if cur > 0x7f {
            LebUnfolds(s, pos + 4, 4);
            cur := s[next];
            next := next + 1;
            result := result + 0x1000_0000 * (cur % 16);
          }
        }
      }
    }
  }

  /** `DecodeSignedLeb128` */
  method DecodeSignedLeb128(s: seq<Byte>, pos: nat) returns (result: int, next: nat)
    requires UnsignedLeb(s, pos).Some?
    ensures UnsignedLeb(s, pos).value.next == next && result == Signed(UnsignedLeb(s, pos).value.value, next - pos)
  {
    hide UnsignedLebRest, Low, Signed;
    LebUnfolds(s, pos, 0);
    LowIs(s[pos]);
    var value: nat := s[pos];
    next := pos + 1;
    if value <= 0x7f { return Signed(value, 1), next; }
    LebUnfolds(s, pos + 1, 1);
    var cur: nat := s[next];
    next := next + 1;
    value := Low(value) + 0x80 * Low(cur);
    if cur <= 0x7f { return Signed(value, 2), next; }
    LebUnfolds(s, pos + 2, 2);
    cur := s[next];
    next := next + 1;
    value := value + 0x4000 * Low(cur);
    if cur <= 0x7f { return Signed(value, 3), next; }
    LebUnfolds(s, pos + 3, 3);
    cur := s[next];
    next := next + 1;
    value := value + 0x20_0000 * Low(cur);
    if cur <= 0x7f { return Signed(value, 4), next; }
    LebUnfolds(s, pos + 4, 4);
    cur := s[next];
    next := next + 1;
    value := value + 0x1000_0000 * (cur % 16);
    return Signed(value, 5), next;
  }

  // The encoding that the Dalvik Executable format prescribes.
  function EncodeUnsigned(n: nat): (bytes: seq<Byte>)
    ensures bytes != []
  {
    if n < 0x80 then [n] else [n % 0x80 + 0x80] + EncodeUnsigned(n / 0x80)
  }

  /** Decoding finds an encoded number, wherever it stands, and what follows it. */
  lemma {:induction false} DecodesEncoded(s: seq<Byte>, pos: nat, n: nat, k: nat)
    requires k <= 4 && n * Weight(k) < UINT32
    requires pos + |EncodeUnsigned(n)| <= |s| && s[pos..pos + |EncodeUnsigned(n)|] == EncodeUnsigned(n)
    ensures UnsignedLebRest(s, pos, k) == Some(Leb(n, pos + |EncodeUnsigned(n)|))
    decreases n
  {
    var bytes := EncodeUnsigned(n);
    assert s[pos] == bytes[0];
    if n < 0x80 {
      if k == 4 { FourBits(n); }
    } else {
      var m := n / 0x80;
      assert n == 0x80 * m + n % 0x80;
      WeightGrows(m, n, k);
      assert s[pos + 1..pos + 1 + |EncodeUnsigned(m)|] == bytes[1..];
      DecodesEncoded(s, pos + 1, m, k + 1);
    }
  }

  lemma FourBits(n: nat)
    requires n * Weight(4) < UINT32
    ensures n < 16
  {
    assert Weight(4) == 0x80 * (0x80 * (0x80 * (0x80 * Weight(0))));
  }

  lemma WeightGrows(m: nat, n: nat, k: nat)
    requires 0x80 * m <= n && m > 0 && n * Weight(k) < UINT32 && k <= 4
    ensures m * Weight(k + 1) < UINT32 && k < 4
  {
    var w := Weight(k);
    assert m * Weight(k + 1) == (0x80 * m) * w;
    Monotone(0x80 * m, n, w);
    if k == 4 { FourBits(n); }
  }

  lemma Monotone(a: int, b: int, w: nat)
    requires a <= b
    ensures a * w <= b * w
  {
  }

  /** `UnsignedLeb128Size` */
  method UnsignedLeb128Size(data: nat) returns (count: nat)
    ensures count == |EncodeUnsigned(data)|
  {
    var rest: nat := data / 0x80;
    count := 1;
    while rest != 0
      invariant count + (if rest == 0 then 0 else |EncodeUnsigned(rest)|) == |EncodeUnsigned(data)|
    {
      rest := rest / 0x80;
      count := count + 1;
    }
  }

  function EncodeSigned(n: int): (bytes: seq<Byte>)
    ensures bytes != []
    decreases if n < 0 then -n - 1 else n
  {
    if -64 <= n < 64 then [n % 0x80] else [n % 0x80 + 0x80] + EncodeSigned(n / 0x80)
  }

  // 2 to the power of 32 - 7 * k: what the bytes from the k-th on can tell apart.
  function Span(k: nat): nat {
    if k == 0 then UINT32 else if k == 1 then 0x200_0000 else if k == 2 then 0x4_0000 else if k == 3 then 0x800 else 16
  }

  function Modulus(k: nat, n: nat): (m: nat)
    ensures m > 0
  {
    if k + n >= 5 then Span(k) else Weight(n)
  }

  lemma SplitModulus(n: int, m: int, v: nat, top: nat)
    requires n == 0x80 * m + n % 0x80 && top > 0 && v == m % top
    ensures n % 0x80 + 0x80 * v == n % (0x80 * top)
  {
    var q := m / top;
    assert m == top * q + v;
    Remainder(n, 0x80 * top, q, n % 0x80 + 0x80 * v);
  }

  lemma Remainder(n: int, d: nat, q: int, r: nat)
    requires d > 0 && n == d * q + r && r < d
    ensures n % d == r
  {
    var q', r' := n / d, n % d;
    assert n == d * q' + r';
    if q' < q { Monotone(q' + 1, q, d); } else if q' > q { Monotone(q + 1, q', d); }
  }

  lemma {:induction false} SignedRest(s: seq<Byte>, pos: nat, n: int, k: nat)
    requires k <= 4 && -(Span(k) / 2) <= n < Span(k) / 2
    requires pos + |EncodeSigned(n)| <= |s| && s[pos..pos + |EncodeSigned(n)|] == EncodeSigned(n)
    ensures var len := |EncodeSigned(n)|;
            k + len <= 5 && UnsignedLebRest(s, pos, k) == Some(Leb(n % Modulus(k, len), pos + len))
    decreases 4 - k
  {
    if -64 <= n < 64 {
      LastByte(s, pos, n, k);
    } else {
      var m := n / 0x80;
      FirstByte(s, pos, n);
      SignedRest(s, pos + 1, m, k + 1);
      hide UnsignedLebRest, EncodeSigned, Modulus, Weight, Low;
      var len := |EncodeSigned(m)|;
      SplitModulus(n, m, m % Modulus(k + 1, len), Modulus(k + 1, len));
      ModulusGrows(k, len);
      MoreBytes(s, pos, k);
    }
  }

  lemma LastByte(s: seq<Byte>, pos: nat, n: int, k: nat)
    requires k <= 4 && pos < |s| && -64 <= n < 64 && s[pos..pos + 1] == EncodeSigned(n)
    ensures |EncodeSigned(n)| == 1 && UnsignedLebRest(s, pos, k) == Some(Leb(n % Modulus(k, 1), pos + 1))
  {
    assert s[pos] == s[pos..pos + 1][0] == n % 0x80;
    OneByte();
    if k == 4 { Sixteen(n); }
  }

  lemma FirstByte(s: seq<Byte>, pos: nat, n: int)
    requires !(-64 <= n < 64)
    requires pos + |EncodeSigned(n)| <= |s| && s[pos..pos + |EncodeSigned(n)|] == EncodeSigned(n)
    ensures var m := n / 0x80;
            && n == 0x80 * m + n % 0x80 && |EncodeSigned(n)| == 1 + |EncodeSigned(m)| && s[pos] > 0x7f &&
                 Low(s[pos]) == n % 0x80
            && s[pos + 1..pos + 1 + |EncodeSigned(m)|] == EncodeSigned(m)
  {
    var bytes := EncodeSigned(n);
    assert s[pos] == bytes[0];
    assert s[pos + 1..pos + 1 + |EncodeSigned(n / 0x80)|] == bytes[1..];
  }

  lemma MoreBytes(s: seq<Byte>, pos: nat, k: nat)
    requires k < 4 && pos < |s| && s[pos] > 0x7f && UnsignedLebRest(s, pos + 1, k + 1).Some?
    ensures var r := UnsignedLebRest(s, pos + 1, k + 1).value;
            UnsignedLebRest(s, pos, k) == Some(Leb(Low(s[pos]) + 0x80 * r.value, r.next))
  {
  }

  lemma OneByte()
    ensures Weight(1) == 0x80
  {
    assert Weight(1) == 0x80 * Weight(0);
  }

  lemma ModulusGrows(k: nat, len: nat)
    requires k < 4
    ensures Modulus(k, len + 1) == 0x80 * Modulus(k + 1, len)
  {
  }

  lemma Sixteen(n: int)
    ensures n % 0x80 % 16 == n % 16
  {
    var q := n / 0x80;
    assert n == 16 * (8 * q) + n % 0x80;
  }

  lemma {:induction false} SignedRange(n: int)
    ensures var top := Weight(|EncodeSigned(n)|); -(top / 2) <= n < top / 2
    decreases if n < 0 then -n - 1 else n
  {
    assert Weight(1) == 0x80 * Weight(0) == 0x80;
    if !(-64 <= n < 64) {
      SignedRange(n / 0x80);
      var len := |EncodeSigned(n / 0x80)|;
      assert |EncodeSigned(n)| == len + 1 && Weight(len + 1) == 0x80 * Weight(len);
    }
  }

  lemma SignedIs(n: int, top: nat)
    requires top > 0 && top % 2 == 0 && -(top / 2) <= n < top / 2
    ensures n == if n % top >= top / 2 then n % top - top else n % top
  {
    if n >= 0 { Remainder(n, top, 0, n); } else { Remainder(n, top, -1, n + top); }
  }

  /** Decoding finds an encoded signed number of 32 bits, too. */
  lemma DecodesSigned(s: seq<Byte>, pos: nat, n: int)
    requires -0x8000_0000 <= n < 0x8000_0000
    requires pos + |EncodeSigned(n)| <= |s| && s[pos..pos + |EncodeSigned(n)|] == EncodeSigned(n)
    ensures UnsignedLeb(s, pos).Some? && UnsignedLeb(s, pos).value.next == pos + |EncodeSigned(n)|
    ensures Signed(UnsignedLeb(s, pos).value.value, |EncodeSigned(n)|) == n
  {
    hide UnsignedLebRest, EncodeSigned, Weight, Modulus, Signed;
    FullSpan();
    SignedRest(s, pos, n, 0);
    SignedRange(n);
    SignedOf(n, |EncodeSigned(n)|);
  }

  lemma FullSpan()
    ensures Span(0) == UINT32
  {
  }

  lemma SignedOf(n: int, len: nat)
    requires 0 < len && -0x8000_0000 <= n < 0x8000_0000 && -(Weight(len) / 2) <= n < Weight(len) / 2
    ensures Signed(n % Modulus(0, len), len) == n
  {
    WeightIsEven(len);
    if len >= 5 { SignedIs(n, UINT32); } else { SignedIs(n, Weight(len)); }
    hide Weight;
  }

  lemma WeightIsEven(len: nat)
    requires len > 0
    ensures Weight(len) % 2 == 0
  {
    assert Weight(len) == 2 * (0x40 * Weight(len - 1));
  }

  // Where the parts of a stream are.
  lemma Splits(s: seq<Byte>, pos: nat, a: seq<Byte>, b: seq<Byte>)
    requires pos <= |s| && s[pos..] == a + b
    ensures pos + |a| <= |s| && s[pos..pos + |a|] == a && s[pos + |a|..] == b
    ensures a != [] ==> s[pos] == a[0]
  {
    var t := s[pos..];
    assert s[pos..pos + |a|] == t[..|a|] && s[pos + |a|..] == t[|a|..];
    assert a != [] ==> t[0] == s[pos];
  }

  // A number is decoded where it is encoded.
  lemma NumberAt(s: seq<Byte>, pos: nat, n: nat, rest: seq<Byte>)
    requires pos <= |s| && s[pos..] == EncodeUnsigned(n) + rest && n < UINT32
    ensures var next := pos + |EncodeUnsigned(n)|;
            next <= |s| && s[next..] == rest && UnsignedLeb(s, pos) == Some(Leb(n, next))
  {
    Splits(s, pos, EncodeUnsigned(n), rest);
    assert Weight(0) == 1;
    DecodesEncoded(s, pos, n, 0);
    hide EncodeUnsigned, UnsignedLebRest;
  }
}
