/**
  Comparison of order-revealing (CLLW) terms: the constant-time loop, what it
  computes, and why that is the order of the plaintexts.
 */
module OreTerms {
  import opened Prelude

  type Bit = x: int | 0 <= x <= 1

  type Bytes = seq<Byte>

  // ----- the constant-time primitives -----

  function ByteEq(x: Byte, y: Byte): (r: Bit) { if x == y then 1 else 0 }

  function Select(v: Bit, x: int, y: int): (r: int) { if v == 1 then x else y }

  function And(x: Bit, y: Bit): (r: Bit) { if x == 1 && y == 1 then 1 else 0 }

  /** Conversion to `uint8`, for a byte plus at most one byte more. */
  function ToByte(x: int): (r: Byte)
    requires 0 <= x < 512
  {
    if x < 256 then x else x - 256
  }

  // ----- what the comparison computes -----

  /** The first position at which two equally long terms differ, or their length. */
  function FirstDiff(a: Bytes, b: Bytes): (i: nat)
    requires |a| == |b|
    ensures i <= |a| && forall j :: 0 <= j < i ==> a[j] == b[j]
    ensures i < |a| ==> a[i] != b[i]
  {
    if a == [] || a[0] != b[0] then 0 else FirstDiff(a[1..], b[1..]) + 1
  }

  /** The side one greater, modulo 256, at the first difference is the greater. */
  function SliceOrder(a: Bytes, b: Bytes): (r: int)
    requires |a| == |b|
  {
    var i := FirstDiff(a, b);
    if i == |a| then 0 else if a[i] == ToByte(b[i] as int + 1) then 1 else -1
  }

  function Sign(x: int): (r: int) { if x < 0 then -1 else if x > 0 then 1 else 0 }

  function Min(x: nat, y: nat): (r: nat) { if x < y then x else y }

  /** The order on the common prefix, then by length. */
  function TermOrder(a: Bytes, b: Bytes): (r: int) {
    var n := Min(|a|, |b|);
    var c := SliceOrder(a[..n], b[..n]);
    if c != 0 then c else Sign(|a| - |b|)
  }

  lemma FirstDiffIsFirst(a: Bytes, b: Bytes, i: nat)
    requires |a| == |b| && i <= |a| && (forall j :: 0 <= j < i ==> a[j] == b[j]) && (i < |a| ==> a[i] != b[i])
    ensures FirstDiff(a, b) == i
  {
  }

  /** The loop: every byte pair is looked at, and only the first difference is kept. */
  method CompareSlice(a: Bytes, b: Bytes) returns (r: int)
    requires |a| == |b|
    ensures r == SliceOrder(a, b)
  {
    var diffX, diffY: int := 0, 0;
    var found: Bit := 0;
    for i := 0 to |a|
      invariant found == 0 ==> (forall j :: 0 <= j < i ==> a[j] == b[j]) && diffX == diffY == 0
      invariant found == 1 ==> FirstDiff(a, b) < i && diffX == a[FirstDiff(a, b)] && diffY == b[FirstDiff(a, b)]
    {
      var isDiff: Bit := 1 - ByteEq(a[i], b[i]);
      var record := And(isDiff, 1 - found);
      if record == 1 {
        FirstDiffIsFirst(a, b, i);
      }
      diffX := Select(record, a[i], diffX);
      diffY := Select(record, b[i], diffY);
      found := Select(record, isDiff, found);
    }
    var greater := ByteEq(ToByte(diffY + 1), diffX);
    if found == 0 {
      FirstDiffIsFirst(a, b, |a|);
      return 0;
    }
    if greater == 1 {
      return 1;
    }
    return -1;
  }

  method Compare(a: Bytes, b: Bytes) returns (r: int)
    ensures r == TermOrder(a, b)
  {
    var n := Min(|a|, |b|);
    if n > 0 {
      var c := CompareSlice(a[..n], b[..n]);
      if c != 0 {
        return c;
      }
    }
    if |a| < |b| {
      return -1;
    }
    if |a| > |b| {
      return 1;
    }
    return 0;
  }

  // ----- terms of the Chenette-Lewi-Weis-Wu scheme -----

  type Bits = seq<bool>

  /** A keyed function of the bits before a position; nothing about it is assumed. */
  type Prf = Bits -> Byte

  /** The byte for one plaintext bit: the function of the bits before it, plus the bit, modulo 256. */
  function TermByte(prf: Prf, bits: Bits, i: nat): (r: Byte)
    requires i < |bits|
  {
    ToByte(prf(bits[..i]) as int + if bits[i] then 1 else 0)
  }

  function Encrypt(prf: Prf, bits: Bits): (term: Bytes)
    ensures |term| == |bits|
  {
    seq<Byte>(|bits|, i requires 0 <= i < |bits| => TermByte(prf, bits, i))
  }

  /** Lexicographic order of bit strings, a proper prefix first. */
  function BitOrder(x: Bits, y: Bits): (r: int) {
    if x == [] || y == [] then Sign(|x| - |y|)
    else if x[0] == y[0] then BitOrder(x[1..], y[1..])
    else if x[0] then 1 else -1
  }

  /** The place where two bit strings part, or the end of the shorter one. */
  function Parting(x: Bits, y: Bits): (i: nat)
    ensures i <= |x| && i <= |y| && x[..i] == y[..i]
    ensures i < |x| && i < |y| ==> x[i] != y[i]
  {
    if x == [] || y == [] || x[0] != y[0] then 0
    else
      var i := Parting(x[1..], y[1..]) + 1;
      assert x[..i] == [x[0]] + x[1..][..i - 1] && y[..i] == [y[0]] + y[1..][..i - 1];
      i
  }

  lemma {:induction false} BitOrderAtParting(x: Bits, y: Bits)
    ensures var i := Parting(x, y);
            BitOrder(x, y) == if i < |x| && i < |y| then (if x[i] then 1 else -1) else Sign(|x| - |y|)
  {
    if x != [] && y != [] && x[0] == y[0] {
      BitOrderAtParting(x[1..], y[1..]);
    }
  }

  /** Encryptions agree exactly as far as their plaintexts do. */
  lemma TermsPartWherePlaintextsDo(prf: Prf, x: Bits, y: Bits)
    ensures var (a, b, i) := (Encrypt(prf, x), Encrypt(prf, y), Parting(x, y));
            && (forall j :: 0 <= j < i ==> a[j] == b[j])
            && (i < |x| && i < |y| ==> a[i] != b[i] && (x[i] <==> a[i] == ToByte(b[i] as int + 1)))
  {
    var i := Parting(x, y);
    forall j | 0 <= j < i ensures TermByte(prf, x, j) == TermByte(prf, y, j) {
      assert x[..j] == x[..i][..j] && y[..j] == y[..i][..j];
      assert x[j] == x[..i][j] && y[j] == y[..i][j];
    }
  }

  /**
    Comparing terms is comparing plaintexts: for any keyed function, including where a
    byte wraps from 255 to 0, the order of two terms is the lexicographic order of the
    plaintext bits with the shorter first.
   */
  lemma TermOrderIsPlaintextOrder(prf: Prf, x: Bits, y: Bits)
    ensures TermOrder(Encrypt(prf, x), Encrypt(prf, y)) == BitOrder(x, y)
  {
    var (a, b, i) := (Encrypt(prf, x), Encrypt(prf, y), Parting(x, y));
    var n := Min(|a|, |b|);
    BitOrderAtParting(x, y);
    TermsPartWherePlaintextsDo(prf, x, y);
    FirstDiffIsFirst(a[..n], b[..n], i);
  }

  // ----- hence a total order on such terms -----

  lemma {:induction false} BitOrderIsTotal(x: Bits, y: Bits, z: Bits)
    ensures BitOrder(x, y) == -BitOrder(y, x)
    ensures BitOrder(x, y) == 0 <==> x == y
    ensures BitOrder(x, y) <= 0 && BitOrder(y, z) <= 0 ==> BitOrder(x, z) <= 0
  {
    if x != [] && y != [] {
      assert x == [x[0]] + x[1..] && y == [y[0]] + y[1..];
      BitOrderIsTotal(x[1..], y[1..], if z == [] then [] else z[1..]);
    } else if y != [] && z != [] {
      BitOrderIsTotal([], y[1..], z[1..]);
    }
  }

  lemma TermOrderIsTotal(prf: Prf, x: Bits, y: Bits, z: Bits)
    ensures var (a, b, c) := (Encrypt(prf, x), Encrypt(prf, y), Encrypt(prf, z));
            && TermOrder(a, b) == -TermOrder(b, a)
            && (TermOrder(a, b) == 0 <==> a == b)
            && (TermOrder(a, b) <= 0 && TermOrder(b, c) <= 0 ==> TermOrder(a, c) <= 0)
  {
    BitOrderIsTotal(x, y, z);
    TermOrderIsPlaintextOrder(prf, x, y);
    TermOrderIsPlaintextOrder(prf, y, x);
    TermOrderIsPlaintextOrder(prf, y, z);
    TermOrderIsPlaintextOrder(prf, x, z);
    if Encrypt(prf, x) == Encrypt(prf, y) {
      TermsPartWherePlaintextsDo(prf, x, y);
      assert x == x[..|x|] && y == y[..|y|];
    }
  }

  /** On arbitrary bytes the comparison is antisymmetric exactly when the first differing bytes are neighbours modulo 256. */
  lemma AntisymmetricOnNeighbours(a: Bytes, b: Bytes)
    ensures var n := Min(|a|, |b|);
            var i := FirstDiff(a[..n], b[..n]);
            TermOrder(a, b) == -TermOrder(b, a) <==>
              (i == n || a[i] == ToByte(b[i] as int + 1) || b[i] == ToByte(a[i] as int + 1))
  {
    var n := Min(|a|, |b|);
    FirstDiffIsFirst(b[..n], a[..n], FirstDiff(a[..n], b[..n]));
  }

  // ----- where it is not the plain byte order -----

  /** Plain byte order, as a database would sort the column. */
  function ByteOrder(a: Bytes, b: Bytes): (r: int) {
    if a == [] || b == [] then Sign(|a| - |b|)
    else if a[0] == b[0] then ByteOrder(a[1..], b[1..])
    else Sign(a[0] as int - b[0] as int)
  }

  lemma {:induction false} ByteOrderAtDiff(a: Bytes, b: Bytes, i: nat)
    requires i <= |a| && i <= |b| && forall j :: 0 <= j < i ==> a[j] == b[j]
    requires i == |a| || i == |b| || a[i] != b[i]
    ensures ByteOrder(a, b) == if i < |a| && i < |b| then Sign(a[i] as int - b[i] as int) else Sign(|a| - |b|)
  {
    if i > 0 {
      ByteOrderAtDiff(a[1..], b[1..], i - 1);
    }
  }

  /** The byte order agrees exactly when the shared byte does not wrap where the plaintexts part. */
  lemma ByteOrderAgreesUnlessWrapped(prf: Prf, x: Bits, y: Bits)
    ensures ByteOrder(Encrypt(prf, x), Encrypt(prf, y)) == BitOrder(x, y) <==>
            !(Parting(x, y) < |x| && Parting(x, y) < |y| && prf(x[..Parting(x, y)]) == 255)
  {
    var (a, b, i) := (Encrypt(prf, x), Encrypt(prf, y), Parting(x, y));
    BitOrderAtParting(x, y);
    TermsPartWherePlaintextsDo(prf, x, y);
    ByteOrderAtDiff(a, b, i);
  }
}
