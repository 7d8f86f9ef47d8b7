/** The Internet checksum of the raw-socket clients, in its two C forms: a 32-bit
    accumulator folded exactly twice, and a 64-bit accumulator folded in a loop.
    Both are proved against the one's-complement sum of section 1 of RFC 1071. */
module Checksum {
  type byte = x: int | 0 <= x < 0x100
  type word = x: int | 0 <= x < 0x1_0000

  const WORD32: int := 0x1_0000_0000
  const WORD64: int := 0x1_0000_0000_0000_0000
  const INT_MAX: int := 0x7FFF_FFFF

  // ---- Reference definitions -------------------------------------------------------

  /** The 16-bit value of two adjacent bytes on a little-endian machine. */
  function Pair(lo: byte, hi: byte): word {
    var low: int := lo;
    low + 0x100 * hi
  }

  /** The 16-bit words of a buffer in little-endian order; a last odd byte is a word by itself. */
  function Words(s: seq<byte>): (ws: seq<word>)
    ensures |ws| == (|s| + 1) / 2
  {
    if |s| == 0 then []
    else if |s| == 1 then [s[0]]
    else [Pair(s[0], s[1])] + Words(s[2..])
  }

  /** Addition with end-around carry. */
  function OnesAdd(a: word, b: word): word {
    if a + b >= 0x1_0000 then a + b - 0xFFFF else a + b
  }

  /** The one's-complement sum of RFC 1071. */
  function OnesSum(ws: seq<word>): word {
    if ws == [] then 0 else OnesAdd(ws[0], OnesSum(ws[1..]))
  }

  /** The checksum of RFC 1071: the complement of the one's-complement sum. */
  function Reference(s: seq<byte>): word {
    0xFFFF - OnesSum(Words(s))
  }

  // ---- What the C code computes ----------------------------------------------------

  /** The sum the accumulation loops would reach in an unbounded register. */
  function Total(ws: seq<word>): nat {
    if ws == [] then 0 else ws[0] + Total(ws[1..])
  }

  /** One carry fold: the low half plus the high half. */
  function Fold(sum: nat): nat {
    sum % 0x1_0000 + sum / 0x1_0000
  }

  /** The tail of the two-fold form, on a 32-bit sum: fold, add the carry, complement, truncate. */
  function TwoFold(sum: nat): (r: word)
    requires sum < WORD32
  {
    var once := Fold(sum);
    0xFFFF - (once + once / 0x1_0000) % 0x1_0000
  }

  /** The 32-bit form as a function of the whole buffer. */
  function TwoFoldChecksum(s: seq<byte>): word {
    TwoFold(Total(Words(s)) % WORD32)
  }

  /** The residue modulo 0xFFFF that one's-complement arithmetic keeps: 0 only for 0. */
  function Residue(x: nat): (r: word)
    ensures r == 0 <==> x == 0
    ensures exists q: nat :: x == r + 0xFFFF * q
  {
    if x == 0 then
      assert 0 == 0 + 0xFFFF * 0; 0
    else
      assert x == ((x - 1) % 0xFFFF + 1) + 0xFFFF * ((x - 1) / 0xFFFF);
      (x - 1) % 0xFFFF + 1
  }

  /** A 16-bit value congruent to x, and zero only with x, is the residue of x. */
  lemma ResidueUnique(x: nat, v: word, q: int)
    requires x == v + 0xFFFF * q
    requires v == 0 <==> x == 0
    ensures v == Residue(x)
  {
  }

  lemma ResidueAdd(x: nat, y: nat)
    ensures OnesAdd(Residue(x), Residue(y)) == Residue(x + y)
  {
    var p: nat :| x == Residue(x) + 0xFFFF * p;
    var q: nat :| y == Residue(y) + 0xFFFF * q;
    var v := OnesAdd(Residue(x), Residue(y));
    ResidueUnique(x + y, v, if Residue(x) + Residue(y) >= 0x1_0000 then p + q + 1 else p + q);
  }

  /** The reference sum is the residue of the plain sum. */
  lemma {:induction false} OnesSumIsResidue(ws: seq<word>)
    ensures OnesSum(ws) == Residue(Total(ws))
  {
    if ws == [] {
    } else {
      OnesSumIsResidue(ws[1..]);
      ResidueUnique(ws[0], ws[0], 0);
      ResidueAdd(ws[0], Total(ws[1..]));
    }
  }

  lemma FoldKeepsResidue(x: nat)
    ensures Residue(Fold(x)) == Residue(x)
    ensures x >= 0x1_0000 ==> Fold(x) < x
  {
    var p: nat :| x == Residue(x) + 0xFFFF * p;
    ResidueUnique(Fold(x), Residue(x), p - x / 0x1_0000);
  }

  /** Two folds are enough for any 32-bit sum. */
  lemma TwoFoldIsResidue(sum: nat)
    requires sum < WORD32
    ensures TwoFold(sum) == 0xFFFF - Residue(sum)
  {
    var once := Fold(sum);
    FoldKeepsResidue(sum);
    assert once <= 2 * 0xFFFF;
    ResidueUnique(once, if once < 0x1_0000 then once else once - 0xFFFF, if once < 0x1_0000 then 0 else 1);
  }

  lemma {:induction false} TotalBound(ws: seq<word>)
    ensures Total(ws) <= 0xFFFF * |ws|
  {
    if ws == [] {
    } else {
      TotalBound(ws[1..]);
    }
  }

  // ---- The two forms against each other and against RFC 1071 -------------------------

  /** Losing carries above bit 32 always changes the residue of a sum this small. */
  lemma WrapChangesResidue(w: nat)
    requires w < 0x8000_0000 * 0xFFFF
    ensures Residue(w % WORD32) == Residue(w) <==> w < WORD32
  {
    var low, high := w % WORD32, w / WORD32;
    assert w == low + WORD32 * high;
    if Residue(low) == Residue(w) {
      var p: nat :| w == Residue(w) + 0xFFFF * p;
      var q: nat :| low == Residue(low) + 0xFFFF * q;
      assert high == 0xFFFF * (p - q - 0x1_0001 * high);
      assert high < 0xFFFF;
    }
  }

  /** For every buffer whose length fits the C parameter, the 32-bit two-fold form returns the
      RFC 1071 checksum if and only if the plain sum of the words fits 32 bits. */
  lemma TwoFoldCorrectIff(s: seq<byte>)
    requires |s| <= INT_MAX
    ensures TwoFoldChecksum(s) == Reference(s) <==> Total(Words(s)) < WORD32
  {
    var w := Total(Words(s));
    OnesSumIsResidue(Words(s));
    TwoFoldIsResidue(w % WORD32);
    TotalBound(Words(s));
    WrapChangesResidue(w);
  }

  /** At most 65537 words cannot overflow the 32-bit sum, so there the two forms agree. */
  lemma TwoFoldCorrectUpTo65537Words(s: seq<byte>)
    requires |Words(s)| <= 65537
    ensures TwoFoldChecksum(s) == Reference(s)
  {
    TotalBound(Words(s));
    TwoFoldCorrectIff(s);
  }

  /** The bound is tight: one word more, all of them 0xFFFF, and the two forms differ. */
  lemma TwoFoldWrongAt65538Words(s: seq<byte>)
    requires |s| == 2 * 65538 && forall k :: 0 <= k < |s| ==> s[k] == 0xFF
    ensures TwoFoldChecksum(s) != Reference(s)
  {
    TotalOfOnes(s);
    TwoFoldCorrectIff(s);
  }

  lemma {:induction false} TotalOfOnes(s: seq<byte>)
    requires |s| % 2 == 0 && forall k :: 0 <= k < |s| ==> s[k] == 0xFF
    ensures Total(Words(s)) == 0xFFFF * (|s| / 2)
  {
    if s == [] {
    } else {
      TotalOfOnes(s[2..]);
    }
  }

  // ---- The C loops -------------------------------------------------------------------

  lemma {:induction false} WordsStep(s: seq<byte>)
    requires |s| > 1
    ensures Total(Words(s)) == Pair(s[0], s[1]) + Total(Words(s[2..]))
  {
    assert Words(s)[1..] == Words(s[2..]);
  }

  /** What is still to be added when the first i bytes of s are done. */
  ghost function Rest(s: seq<byte>, i: nat): nat
    requires i <= |s|
  {
    Total(Words(s[i..]))
  }

  lemma ReferenceIsResidue(s: seq<byte>)
    ensures Reference(s) == 0xFFFF - Residue(Rest(s, 0))
  {
    OnesSumIsResidue(Words(s));
    assert s[0..] == s;
  }

  lemma NextWord(s: seq<byte>, i: nat)
    requires i < |s|
    ensures i + 1 < |s| ==> Rest(s, i) == Pair(s[i], s[i + 1]) + Rest(s, i + 2)
    ensures i + 1 == |s| ==> Rest(s, i) == s[i]
  {
    if i + 1 < |s| {
      WordsStep(s[i..]);
      assert s[i..][2..] == s[i + 2..];
    } else {
      assert s[i..] == [s[i]];
      var last := Words(s[i..]);
      assert last == [s[i]] && Total(last) == last[0] + Total(last[1..]);
    }
  }

  /** `len` is a C int: a length below 1 sums nothing. */
  function Covered(buf: array<byte>, start: nat, len: int): seq<byte>
    requires start <= buf.Length && start + len <= buf.Length
    reads buf
  {
    if len < 0 then [] else buf[start..start + len]
  }

  /** Addition in a 64-bit `unsigned long`: the words of an `int`-sized buffer cannot wrap it. */
  method AddLong(sum: nat, w: word) returns (r: nat)
    ensures sum + w <= 0xFFFF * 0x4000_0000 ==> r == sum + w
  {
    r := (sum + w) % WORD64;
  }

  /** The fold loop: it stops, because every fold of a wider sum makes it smaller. */
  method FoldAll(total: nat) returns (sum: word)
    ensures sum == Residue(total)
  {
    var x := total;
    while x / 0x1_0000 != 0
      invariant 0 <= x && Residue(x) == Residue(total)
      decreases x
    {
      FoldKeepsResidue(x);
      x := x % 0x1_0000 + x / 0x1_0000;
    }
    ResidueUnique(x, x, 0);
    sum := x;
  }

  /** The form with an `unsigned long` accumulator and a fold loop. */
  method LoopChecksum(buf: array<byte>, start: nat, length: int) returns (r: word)
    requires start <= buf.Length && start + length <= buf.Length && length <= INT_MAX
    ensures r == Reference(Covered(buf, start, length))
  {
    ghost var s := Covered(buf, start, length);
    var sum, data, len := 0, start, length;
    assert s[0..] == s;
    assert Rest(s, 0) <= 0xFFFF * 0x4000_0000 by { TotalBound(Words(s)); }
    while len > 1
      invariant start <= data <= start + |s| && (length >= 0 ==> len == start + |s| - data >= 0)
      invariant 0 <= sum && sum + Rest(s, data - start) == Rest(s, 0)
    {
      NextWord(s, data - start);
      sum := AddLong(sum, Pair(buf[data], buf[data + 1]));
      data := data + 2;
      len := len - 2;
    }
    if len == 1 {
      NextWord(s, data - start);
      sum := AddLong(sum, buf[data]);
    }
    ReferenceIsResidue(s);
    sum := FoldAll(sum);
    r := 0xFFFF - sum;
  }

  /** Addition in a 32-bit `unsigned int`, with the number of carries lost so far. */
  method AddInt(sum: nat, w: word, ghost carries: nat) returns (r: nat, ghost lost: nat)
    requires sum < WORD32
    ensures r < WORD32 && r + WORD32 * lost == sum + w + WORD32 * carries
  {
    r := (sum + w) % WORD32;
    lost := if sum + w < WORD32 then carries else carries + 1;
  }

  lemma WrappedSum(total: nat, sum: int, carries: int)
    requires 0 <= sum < WORD32 && sum + WORD32 * carries == total
    ensures total % WORD32 == sum
  {
  }

  /** The form with an `unsigned int` accumulator, wrapping at 32 bits, and exactly two folds. */
  method TwoFoldSum(buf: array<byte>, start: nat, length: int) returns (r: word)
    requires start <= buf.Length && start + length <= buf.Length && length <= INT_MAX
    ensures r == TwoFoldChecksum(Covered(buf, start, length))
  {
    ghost var s := Covered(buf, start, length);
    var sum, data, len := 0, start, length;
    ghost var carries := 0;
    assert s[0..] == s;
    while len > 1
      invariant start <= data <= start + |s| && (length >= 0 ==> len == start + |s| - data >= 0)
      invariant 0 <= sum < WORD32 && sum + WORD32 * carries + Rest(s, data - start) == Rest(s, 0)
    {
      NextWord(s, data - start);
      sum, carries := AddInt(sum, Pair(buf[data], buf[data + 1]), carries);
      data := data + 2;
      len := len - 2;
    }
    if len == 1 {
      NextWord(s, data - start);
      sum, carries := AddInt(sum, buf[data], carries);
    }
    WrappedSum(Total(Words(s)), sum, carries);
    TwoFoldIsResidue(sum);
    r := FoldTwice(sum);
  }

  /** The two folds and the complement of the 32-bit form. */
  method FoldTwice(total: nat) returns (r: word)
    requires total < WORD32
    ensures r == 0xFFFF - Residue(total)
  {
    var sum := total / 0x1_0000 + total % 0x1_0000;
    sum := sum + sum / 0x1_0000;
    TwoFoldIsResidue(total);
    r := 0xFFFF - sum % 0x1_0000;
  }

  // ---- Self-verification --------------------------------------------------------------

  /** The buffer with the 16-bit value c stored at offset k in little-endian order. */
  function Store(s: seq<byte>, k: nat, c: word): (t: seq<byte>)
    requires k + 1 < |s|
    ensures |t| == |s|
  {
    s[k := c % 0x100][k + 1 := c / 0x100]
  }

  lemma {:induction false} StoreAddsToTotal(s: seq<byte>, k: nat, c: word)
    requires k % 2 == 0 && k + 1 < |s| && s[k] == s[k + 1] == 0
    ensures Total(Words(Store(s, k, c))) == Total(Words(s)) + c
  {
    var t := Store(s, k, c);
    WordsStep(s);
    WordsStep(t);
    if k == 0 {
      assert t[2..] == s[2..];
      assert Pair(t[0], t[1]) == c;
    } else {
      assert t[2..] == Store(s[2..], k - 2, c);
      assert t[0] == s[0] && t[1] == s[1];
      StoreAddsToTotal(s[2..], k - 2, c);
    }
  }

  /** Storing the checksum of a block into its zeroed, aligned check word makes the block verify. */
  lemma SelfVerifying(s: seq<byte>, k: nat)
    requires k % 2 == 0 && k + 1 < |s| && s[k] == s[k + 1] == 0
    ensures Reference(Store(s, k, Reference(s))) == 0
  {
    var c := Reference(s);
    var w := Total(Words(s));
    StoreAddsToTotal(s, k, c);
    OnesSumIsResidue(Words(s));
    OnesSumIsResidue(Words(Store(s, k, c)));
    var q: nat :| w == Residue(w) + 0xFFFF * q;
    ResidueUnique(w + c, 0xFFFF, q);
  }

  // ---- Byte order, order of words, padding, splitting ---------------------------------

  function SwapBytes(w: word): word {
    w / 0x100 + 0x100 * (w % 0x100)
  }

  function SwapEach(s: seq<byte>): (t: seq<byte>)
    requires |s| % 2 == 0
    ensures |t| == |s|
  {
    if s == [] then [] else [s[1], s[0]] + SwapEach(s[2..])
  }

  lemma {:induction false} SwapEachTotal(s: seq<byte>) returns (q: nat)
    requires |s| % 2 == 0
    ensures Total(Words(SwapEach(s))) == 0x100 * Total(Words(s)) - 0xFFFF * q
    ensures Total(Words(s)) <= 0x100 * Total(Words(SwapEach(s)))
  {
    if s == [] {
      q := 0;
    } else {
      WordsStep(s);
      WordsStep(SwapEach(s));
      assert SwapEach(s)[2..] == SwapEach(s[2..]);
      var p := SwapEachTotal(s[2..]);
      q := p + s[1];
    }
  }

  /** Byte-order independence: swapping the bytes of every word swaps the bytes of the checksum. */
  lemma ByteOrderIndependent(s: seq<byte>)
    requires |s| % 2 == 0
    ensures Reference(SwapEach(s)) == SwapBytes(Reference(s))
  {
    OnesSumIsResidue(Words(s));
    OnesSumIsResidue(Words(SwapEach(s)));
    var q := SwapEachTotal(s);
    SwapResidue(Total(Words(s)), Total(Words(SwapEach(s))), q);
    var sum := OnesSum(Words(s));
    assert OnesSum(Words(SwapEach(s))) == SwapBytes(sum);
    SwapComplement(sum);
  }

  lemma SwapResidue(w: nat, v: nat, q: nat)
    requires v == 0x100 * w - 0xFFFF * q && w <= 0x100 * v
    ensures Residue(v) == SwapBytes(Residue(w))
  {
    var r := Residue(w);
    var p: nat :| w == r + 0xFFFF * p;
    var lo, hi := r % 0x100, r / 0x100;
    assert 0x100 * r == SwapBytes(r) + 0xFFFF * hi;
    ResidueUnique(v, SwapBytes(r), hi + 0x100 * p - q);
  }

  lemma SwapComplement(w: word)
    ensures SwapBytes(0xFFFF - w) == 0xFFFF - SwapBytes(w)
  {
    var lo, hi := w % 0x100, w / 0x100;
    assert 0xFFFF - w == (0xFF - lo) + 0x100 * (0xFF - hi);
    assert (0xFFFF - w) / 0x100 == 0xFF - hi;
  }

  lemma {:induction false} TotalTakesOut(ws: seq<word>, k: nat)
    requires k < |ws|
    ensures Total(ws) == ws[k] + Total(ws[..k] + ws[k + 1..])
  {
    if k == 0 {
      assert ws[..0] + ws[1..] == ws[1..];
    } else {
      TotalTakesOut(ws[1..], k - 1);
      assert (ws[..k] + ws[k + 1..])[1..] == ws[1..][..k - 1] + ws[1..][k..];
    }
  }

  lemma {:induction false} TotalOfPermutation(us: seq<word>, vs: seq<word>)
    requires multiset(us) == multiset(vs)
    ensures Total(us) == Total(vs)
  {
    if us == [] {
      assert |vs| == |multiset(vs)| == |multiset(us)| == 0;
    } else {
      assert us[0] in multiset(vs);
      var k :| 0 <= k < |vs| && vs[k] == us[0];
      TotalTakesOut(vs, k);
      assert us == [us[0]] + us[1..];
      assert multiset(us[1..]) == multiset(us) - multiset{us[0]};
      assert vs == vs[..k] + [vs[k]] + vs[k + 1..];
      TotalOfPermutation(us[1..], vs[..k] + vs[k + 1..]);
    }
  }

  /** The checksum does not depend on the order of the words. */
  lemma WordOrderIrrelevant(s: seq<byte>, t: seq<byte>)
    requires multiset(Words(s)) == multiset(Words(t))
    ensures Reference(s) == Reference(t)
  {
    TotalOfPermutation(Words(s), Words(t));
    OnesSumIsResidue(Words(s));
    OnesSumIsResidue(Words(t));
  }

  lemma {:induction false} WordsOfConcat(s: seq<byte>, t: seq<byte>)
    requires |s| % 2 == 0
    ensures Words(s + t) == Words(s) + Words(t)
  {
    if s == [] {
      assert s + t == t;
    } else {
      assert (s + t)[2..] == s[2..] + t;
      WordsOfConcat(s[2..], t);
    }
  }

  lemma {:induction false} TotalOfConcat(us: seq<word>, vs: seq<word>)
    ensures Total(us + vs) == Total(us) + Total(vs)
  {
    if us == [] {
      assert us + vs == vs;
    } else {
      assert (us + vs)[1..] == us[1..] + vs;
      TotalOfConcat(us[1..], vs);
    }
  }

  lemma OnesSumOfConcat(us: seq<word>, vs: seq<word>)
    ensures OnesSum(us + vs) == OnesAdd(OnesSum(us), OnesSum(vs))
  {
    TotalOfConcat(us, vs);
    OnesSumIsResidue(us);
    OnesSumIsResidue(vs);
    OnesSumIsResidue(us + vs);
    ResidueAdd(Total(us), Total(vs));
  }

  /** A buffer split after an even number of bytes: the folded sums of the parts decide the result. */
  lemma SplitChecksum(s: seq<byte>, t: seq<byte>)
    requires |s| % 2 == 0
    ensures 0xFFFF - Reference(s + t) == OnesAdd(0xFFFF - Reference(s), 0xFFFF - Reference(t))
  {
    WordsOfConcat(s, t);
    OnesSumOfConcat(Words(s), Words(t));
  }

  /** An odd buffer checksums like the same buffer padded with one zero byte. */
  lemma PaddingNeutral(s: seq<byte>)
    requires |s| % 2 == 1
    ensures Reference(s + [0]) == Reference(s)
  {
    var even, last := s[..|s| - 1], s[|s| - 1..];
    assert s == even + last && s + [0] == even + (last + [0]);
    assert (last + [0])[2..] == [];
    assert Words(last + [0]) == [last[0]] == Words(last);
    WordsOfConcat(even, last);
    WordsOfConcat(even, last + [0]);
  }

  // ---- Error detection -----------------------------------------------------------------

  /** Exactly which single-word errors escape: the word changes between 0x0000 and 0xFFFF, and the
      other words are not all zero. Every other change of one aligned word changes the checksum. */
  lemma UndetectedSingleWordError(s: seq<byte>, t: seq<byte>, k: nat)
    requires |s| == |t| && k < |Words(s)|
    requires Words(s)[k] != Words(t)[k]
    requires forall j :: 0 <= j < |Words(s)| && j != k ==> Words(s)[j] == Words(t)[j]
    ensures Reference(s) == Reference(t) <==>
              && ((Words(s)[k] == 0 && Words(t)[k] == 0xFFFF) || (Words(s)[k] == 0xFFFF && Words(t)[k] == 0))
              && exists j :: 0 <= j < |Words(s)| && j != k && Words(s)[j] != 0
  {
    SingleWordError(Words(s), Words(t), k);
  }

  lemma SingleWordError(us: seq<word>, vs: seq<word>, k: nat)
    requires |us| == |vs| && k < |us| && us[k] != vs[k]
    requires forall j :: 0 <= j < |us| && j != k ==> us[j] == vs[j]
    ensures OnesSum(us) == OnesSum(vs) <==>
              && ((us[k] == 0 && vs[k] == 0xFFFF) || (us[k] == 0xFFFF && vs[k] == 0))
              && exists j :: 0 <= j < |us| && j != k && us[j] != 0
  {
    var rest := us[..k] + us[k + 1..];
    assert rest == vs[..k] + vs[k + 1..];
    TotalTakesOut(us, k);
    TotalTakesOut(vs, k);
    var x, a, b := Total(rest), us[k], vs[k];
    OnesSumIsResidue(us);
    OnesSumIsResidue(vs);
    assert OnesSum(us) == Residue(x + a) && OnesSum(vs) == Residue(x + b);
    SameResidueIff(x, a, b);
    RestZeroIff(us, k);
  }

  lemma RestZeroIff(us: seq<word>, k: nat)
    requires k < |us|
    ensures Total(us[..k] + us[k + 1..]) > 0 <==> exists j :: 0 <= j < |us| && j != k && us[j] != 0
  {
    var rest := us[..k] + us[k + 1..];
    TotalZeroIff(rest);
    forall j | 0 <= j < |us| && j != k
      ensures us[j] in rest
    {
      assert us[j] == rest[if j < k then j else j - 1];
    }
    forall j | 0 <= j < |rest|
      ensures exists i :: 0 <= i < |us| && i != k && us[i] == rest[j]
    {
      assert rest[j] == us[if j < k then j else j + 1];
    }
  }

  lemma SameResidueIff(x: nat, a: word, b: word)
    requires a != b
    ensures Residue(x + a) == Residue(x + b) <==>
              x > 0 && ((a == 0 && b == 0xFFFF) || (a == 0xFFFF && b == 0))
  {
    var p: nat :| x + a == Residue(x + a) + 0xFFFF * p;
    var q: nat :| x + b == Residue(x + b) + 0xFFFF * q;
    if x > 0 && a == 0 && b == 0xFFFF {
      ResidueUnique(x + b, Residue(x + a), p + 1);
    } else if x > 0 && a == 0xFFFF && b == 0 {
      ResidueUnique(x + a, Residue(x + b), q + 1);
    }
    assert Residue(x + a) == Residue(x + b) ==> a - b == 0xFFFF * (p - q);
  }

  lemma {:induction false} TotalZeroIff(ws: seq<word>)
    ensures Total(ws) == 0 <==> forall j :: 0 <= j < |ws| ==> ws[j] == 0
  {
    if ws == [] {
    } else {
      TotalZeroIff(ws[1..]);
      if forall j :: 0 <= j < |ws[1..]| ==> ws[1..][j] == 0 {
        assert forall j :: 1 <= j < |ws| ==> ws[j] == ws[1..][j - 1];
      }
    }
  }
}
