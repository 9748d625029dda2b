/** The base64 codec of common/base64.hpp (sections 4 and 5 of RFC 4648). Text and data are both
    sequences of bytes, as decoding may write over its own input. Shifts and masks are written as
    division and remainder. */
module Base64 {

  import opened Wrappers

  type Sextet = v: int | 0 <= v < 64

  datatype Alphabet = Auto | Standard | UrlSafe

  const PAD: Byte := '=' as int

  function Symbol(a: Alphabet, v: Sextet): Byte {
    if v < 26 then 'A' as int + v
    else if v < 52 then 'a' as int + v - 26
    else if v < 62 then '0' as int + v - 52
    else if v == 62 then (if a.UrlSafe? then '-' as int else '+' as int)
    else (if a.UrlSafe? then '_' as int else '/' as int)
  }

  /** The value of a character, and the alphabet after seeing it. */
  function ValueOf(a: Alphabet, c: Byte): Option<(Sextet, Alphabet)> {
    if 'A' as int <= c <= 'Z' as int then Some((c - 'A' as int, a))
    else if 'a' as int <= c <= 'z' as int then Some((c - 'a' as int + 26, a))
    else if '0' as int <= c <= '9' as int then Some((c - '0' as int + 52, a))
    else if !a.UrlSafe? && c == '+' as int then Some((62, Standard))
    else if !a.UrlSafe? && c == '/' as int then Some((63, Standard))
    else if !a.Standard? && c == '-' as int then Some((62, UrlSafe))
    else if !a.Standard? && c == '_' as int then Some((63, UrlSafe))
    else None
  }

  /** Each value's character is read back as that value, by its own alphabet and by detection. */
  lemma SymbolValue(a: Alphabet, v: Sextet)
    requires !a.Auto?
    ensures Symbol(a, v) != PAD
    ensures ValueOf(a, Symbol(a, v)) == Some((v, a))
    ensures ValueOf(Auto, Symbol(a, v)) == Some((v, if v < 62 then Auto else a))
  {
  }

  // ---------------------------------------------------------------- bits

  const BYTE: nat := 8
  const SIX: nat := 6

  function Pow2(k: nat): (p: nat)
    ensures p > 0
  {
    if k == 0 then 1 else 2 * Pow2(k - 1)
  }

  /** The low `k` bits of a number, the highest first. */
  function Bits(v: nat, k: nat): (r: seq<bool>)
    ensures |r| == k
  {
    if k == 0 then [] else Bits(v / 2, k - 1) + [v % 2 == 1]
  }

  lemma {:induction false} BitsJoin(hi: nat, j: nat, lo: nat, m: nat)
    requires lo < Pow2(m)
    ensures Bits(hi * Pow2(m) + lo, j + m) == Bits(hi, j) + Bits(lo, m)
  {
    if m > 0 {
      var v := hi * Pow2(m) + lo;
      Halve(hi, Pow2(m - 1), lo, v);
      BitsJoin(hi, j, lo / 2, m - 1);
      JoinStep(v, j, hi, lo, m);
    } else {
      assert hi * Pow2(m) + lo == hi;
      assert Bits(hi, j) + Bits(lo, m) == Bits(hi, j);
    }
  }

  lemma JoinStep(v: nat, j: nat, hi: nat, lo: nat, m: nat)
    requires m > 0 && v % 2 == lo % 2 && Bits(v / 2, j + m - 1) == Bits(hi, j) + Bits(lo / 2, m - 1)
    ensures Bits(v, j + m) == Bits(hi, j) + Bits(lo, m)
  {
    Assoc(Bits(hi, j), Bits(lo / 2, m - 1), [v % 2 == 1]);
  }

  lemma Halve(hi: nat, p: nat, lo: nat, v: nat)
    requires v == hi * (2 * p) + lo
    ensures v / 2 == hi * p + lo / 2 && v % 2 == lo % 2
  {
    var q := hi * p;
    assert v == 2 * q + lo;
  }

  lemma Assoc(a: seq<bool>, b: seq<bool>, c: seq<bool>)
    ensures (a + b) + c == a + (b + c)
  {
  }

  lemma {:induction false} BitsInjective(x: nat, y: nat, k: nat)
    requires Bits(x, k) == Bits(y, k) && x < Pow2(k) && y < Pow2(k)
    ensures x == y
  {
    if k > 0 {
      assert Bits(x, k)[..k - 1] == Bits(x / 2, k - 1) && Bits(y, k)[..k - 1] == Bits(y / 2, k - 1);
      assert Bits(x, k)[k - 1] == (x % 2 == 1) && Bits(y, k)[k - 1] == (y % 2 == 1);
      BitsInjective(x / 2, y / 2, k - 1);
    }
  }

  function BitsOf(s: seq<Byte>): (r: seq<bool>)
    ensures |r| == 8 * |s|
  {
    if s == [] then [] else BitsOf(s[..|s| - 1]) + Bits(s[|s| - 1], BYTE)
  }

  function BitsOfSextets(s: seq<Sextet>): (r: seq<bool>)
    ensures |r| == 6 * |s|
  {
    if s == [] then [] else BitsOfSextets(s[..|s| - 1]) + Bits(s[|s| - 1], SIX)
  }

  lemma {:induction false} BytesInjective(s: seq<Byte>, t: seq<Byte>)
    requires BitsOf(s) == BitsOf(t)
    ensures s == t
  {
    assert |s| == |t|;
    if s != [] {
      var n := |s| - 1;
      assert BitsOf(s)[..8 * n] == BitsOf(s[..n]) && BitsOf(t)[..8 * n] == BitsOf(t[..n]);
      assert BitsOf(s)[8 * n..] == Bits(s[n], BYTE) && BitsOf(t)[8 * n..] == Bits(t[n], BYTE);
      BytesInjective(s[..n], t[..n]);
      Pow2Byte();
      BitsInjective(s[n], t[n], BYTE);
      assert s == s[..n] + [s[n]] && t == t[..n] + [t[n]];
    }
  }

  // ---------------------------------------------------------------- decoding values

  /** The decoder's registers: the last value, how many of its bits are not yet used, and the output. */
  datatype State = State(last: Sextet, bits: nat, out: seq<Byte>)

  const START := State(0, 0, [])

  function Joined(last: Sextet, bits: nat, part: Sextet): Byte
    requires bits in {2, 4, 6}
  {
    if bits == 6 then (last * 4) % 256 + part / 16
    else if bits == 4 then (last * 16) % 256 + part / 4
    else (last * 64) % 256 + part
  }

  function Feed(st: State, part: Sextet): State
    requires st.bits in {0, 2, 4, 6}
  {
    if st.bits + 6 >= 8 then State(part, st.bits - 2, st.out + [Joined(st.last, st.bits, part)])
    else State(part, st.bits + 6, st.out)
  }

  function Decoded(vals: seq<Sextet>): (st: State)
    ensures st.bits in {0, 2, 4, 6} && 8 * |st.out| + st.bits == 6 * |vals|
  {
    if vals == [] then START else Feed(Decoded(vals[..|vals| - 1]), vals[|vals| - 1])
  }

  lemma Pow2Byte()
    ensures Pow2(0) == 1 && Pow2(2) == 4 && Pow2(4) == 16 && Pow2(SIX) == 64 && Pow2(BYTE) == 256
  {
    assert Pow2(6) == 64 && Pow2(8) == 256;
  }

  /** The high and the low bits of a value. */
  lemma SextetSplit(v: Sextet, hi: nat, j: nat, lo: nat, m: nat, p: nat)
    requires j + m == SIX && p == Pow2(m) && lo < p && v == hi * p + lo
    ensures Bits(v, SIX)[..j] == Bits(hi, j) && Bits(v, SIX)[j..] == Bits(lo, m)
  {
    BitsJoin(hi, j, lo, m);
  }

  lemma LowByte(q: nat, r: nat)
    requires r < 256
    ensures (q * 256 + r) % 256 == r
  {
  }

  lemma JoinedValue6(last: Sextet, part: Sextet)
    ensures Joined(last, 6, part) == last * 4 + part / 16
  {
  }

  lemma JoinedValue4(last: Sextet, part: Sextet)
    ensures Joined(last, 4, part) == (last % 16) * 16 + part / 4
  {
    assert last == (last / 16) * 16 + last % 16;
    LowByte(last / 16, (last % 16) * 16);
  }

  lemma JoinedValue2(last: Sextet, part: Sextet)
    ensures Joined(last, 2, part) == (last % 4) * 64 + part
  {
    assert last == (last / 4) * 4 + last % 4;
    LowByte(last / 4, (last % 4) * 64);
  }

  /** The end of one value and the beginning of the next, as numbers and as bits. */
  lemma ByteJoin(byte: nat, low: nat, j: nat, high: nat, m: nat, p: nat)
    requires j + m == BYTE && p == Pow2(m) && high < p && byte == low * p + high
    ensures Bits(byte, BYTE) == Bits(low, j) + Bits(high, m)
  {
    assert byte == low * Pow2(m) + high;
    BitsJoin(low, j, high, m);
  }

  lemma Joined6(last: Sextet, part: Sextet, j: nat)
    requires j == 6
    ensures Bits(Joined(last, j, part), BYTE) == Bits(last, SIX)[SIX - j..] + Bits(part, SIX)[..BYTE - j]
  {
    Pow2Byte();
    JoinedValue6(last, part);
    var high, tail := part / 16, part % 16;
    assert part == high * 16 + tail && high < 4 && last == 0 * 64 + last;
    SextetSplit(last, 0, SIX - j, last, j, 64);
    SextetSplit(part, high, BYTE - j, tail, j - 2, 16);
    ByteJoin(Joined(last, j, part), last, j, high, BYTE - j, 4);
  }

  lemma Joined4(last: Sextet, part: Sextet, j: nat)
    requires j == 4
    ensures Bits(Joined(last, j, part), BYTE) == Bits(last, SIX)[SIX - j..] + Bits(part, SIX)[..BYTE - j]
  {
    Pow2Byte();
    JoinedValue4(last, part);
    assert part == (part / 4) * 4 + part % 4 && part / 4 < 16 && last == (last / 16) * 16 + last % 16;
    SextetSplit(last, last / 16, SIX - j, last % 16, j, 16);
    SextetSplit(part, part / 4, BYTE - j, part % 4, j - 2, 4);
    ByteJoin(Joined(last, j, part), last % 16, j, part / 4, BYTE - j, 16);
  }

  lemma Joined2(last: Sextet, part: Sextet, j: nat)
    requires j == 2
    ensures Bits(Joined(last, j, part), BYTE) == Bits(last, SIX)[SIX - j..] + Bits(part, SIX)[..BYTE - j]
  {
    Pow2Byte();
    JoinedValue2(last, part);
    assert last == (last / 4) * 4 + last % 4 && part == part * 1 + 0;
    SextetSplit(last, last / 4, SIX - j, last % 4, j, 4);
    SextetSplit(part, part, BYTE - j, 0, j - 2, 1);
    ByteJoin(Joined(last, j, part), last % 4, j, part, BYTE - j, 64);
  }

  /** A byte is made of the unused low bits of one value and the high bits of the next. */
  lemma JoinedBits(last: Sextet, bits: nat, part: Sextet)
    requires bits in {2, 4, 6}
    ensures Bits(Joined(last, bits, part), BYTE) == Bits(last, SIX)[SIX - bits..] + Bits(part, SIX)[..BYTE - bits]
  {
    if bits == 6 {
      Joined6(last, part, bits);
    } else if bits == 4 {
      Joined4(last, part, bits);
    } else {
      Joined2(last, part, bits);
    }
  }

  /** The bytes are the bits of the values, as far as they go. */
  lemma {:induction false} DecodedBits(vals: seq<Sextet>)
    ensures var st := Decoded(vals);
            && (vals != [] ==> st.last == vals[|vals| - 1])
            && BitsOfSextets(vals) == BitsOf(st.out) + Bits(st.last, SIX)[SIX - st.bits..]
  {
    if vals == [] {
      assert Bits(0, SIX)[SIX..] == [];
    } else {
      var n := |vals| - 1;
      DecodedBits(vals[..n]);
      FeedBits(Decoded(vals[..n]), BitsOfSextets(vals[..n]), vals[n]);
    }
  }

  lemma FeedBits(st: State, before: seq<bool>, part: Sextet)
    requires st.bits in {0, 2, 4, 6} && before == BitsOf(st.out) + Bits(st.last, SIX)[SIX - st.bits..]
    ensures var st' := Feed(st, part);
            st'.bits <= 6 && before + Bits(part, SIX) == BitsOf(st'.out) + Bits(st'.last, SIX)[SIX - st'.bits..]
  {
    if st.bits == 0 {
      assert Bits(st.last, SIX)[SIX..] == [] && Bits(part, SIX)[0..] == Bits(part, SIX);
    } else {
      var byte := Joined(st.last, st.bits, part);
      JoinedBits(st.last, st.bits, part);
      BitsSnoc(st.out, byte);
      Cut(BitsOf(st.out), Bits(st.last, SIX)[SIX - st.bits..], Bits(part, SIX), BYTE - st.bits);
    }
  }

  lemma BitsSnoc(out: seq<Byte>, byte: Byte)
    ensures BitsOf(out + [byte]) == BitsOf(out) + Bits(byte, BYTE)
  {
    assert (out + [byte])[..|out|] == out;
  }

  lemma Cut(a: seq<bool>, b: seq<bool>, c: seq<bool>, k: nat)
    requires k <= |c|
    ensures (a + b) + c == (a + (b + c[..k])) + c[k..]
  {
  }

  // ---------------------------------------------------------------- encoding

  function Group(x: Byte, y: Byte, z: Byte): seq<Sextet> {
    [x / 4, (x % 4) * 16 + y / 16, (y % 16) * 4 + z / 64, z % 64]
  }

  function LastOne(x: Byte): seq<Sextet> {
    [x / 4, (x % 4) * 16]
  }

  function LastTwo(x: Byte, y: Byte): seq<Sextet> {
    [x / 4, (x % 4) * 16 + y / 16, (y % 16) * 4]
  }

  /** The values of the first `k` groups of three bytes. */
  function EncodeGroups(s: seq<Byte>, k: nat): (r: seq<Sextet>)
    requires 3 * k <= |s|
    ensures |r| == 4 * k
  {
    if k == 0 then [] else EncodeGroups(s, k - 1) + Group(s[3 * k - 3], s[3 * k - 2], s[3 * k - 1])
  }

  /** The values of one or two bytes left over after `k` groups. */
  function LeftOver(s: seq<Byte>, k: nat): seq<Sextet>
    requires 3 * k <= |s| < 3 * k + 3
  {
    if |s| == 3 * k then [] else if |s| == 3 * k + 1 then LastOne(s[3 * k]) else LastTwo(s[3 * k], s[3 * k + 1])
  }

  function EncodeValues(s: seq<Byte>): seq<Sextet> {
    EncodeGroups(s, |s| / 3) + LeftOver(s, |s| / 3)
  }

  function Symbols(a: Alphabet, vals: seq<Sextet>): (r: seq<Byte>)
    ensures |r| == |vals|
  {
    seq(|vals|, i requires 0 <= i < |vals| => Symbol(a, vals[i]))
  }

  /** Two padding characters after one byte left over, one after two. */
  function Padding(n: nat): seq<Byte> {
    if n % 3 == 0 then [] else if n % 3 == 1 then [PAD, PAD] else [PAD]
  }

  /** How many bits of the last value are filling. */
  function ZeroCount(n: nat): nat {
    if n % 3 == 0 then 0 else if n % 3 == 1 then 4 else 2
  }

  function Encode(a: Alphabet, s: seq<Byte>): seq<Byte> {
    Symbols(a, EncodeValues(s)) + Padding(|s|)
  }

  /** The decoder's formula undoes the encoder's, byte by byte. */
  lemma JoinsBack(x: Byte, y: Byte, z: Byte)
    ensures Joined(x / 4, 6, (x % 4) * 16 + y / 16) == x
    ensures Joined((x % 4) * 16 + y / 16, 4, (y % 16) * 4 + z / 64) == y
    ensures Joined((y % 16) * 4 + z / 64, 2, z % 64) == z
  {
    JoinedValue6(x / 4, (x % 4) * 16 + y / 16);
    JoinedValue4((x % 4) * 16 + y / 16, (y % 16) * 4 + z / 64);
    JoinedValue2((y % 16) * 4 + z / 64, z % 64);
  }

  lemma FeedTwo(vals: seq<Sextet>, a: Sextet, b: Sextet)
    requires Decoded(vals).bits == 0
    ensures Decoded(vals + [a, b]) == State(b, 4, Decoded(vals).out + [Joined(a, 6, b)])
  {
    assert (vals + [a, b])[..|vals| + 1] == vals + [a] && (vals + [a])[..|vals|] == vals;
  }

  lemma FeedThree(vals: seq<Sextet>, a: Sextet, b: Sextet, c: Sextet)
    requires Decoded(vals).bits == 0
    ensures Decoded(vals + [a, b, c]) == State(c, 2, Decoded(vals).out + [Joined(a, 6, b), Joined(b, 4, c)])
  {
    FeedTwo(vals, a, b);
    assert (vals + [a, b, c])[..|vals| + 2] == vals + [a, b];
  }

  lemma FeedFour(vals: seq<Sextet>, a: Sextet, b: Sextet, c: Sextet, d: Sextet)
    requires Decoded(vals).bits == 0
    ensures Decoded(vals + [a, b, c, d]) ==
            State(d, 0, Decoded(vals).out + [Joined(a, 6, b), Joined(b, 4, c), Joined(c, 2, d)])
  {
    FeedThree(vals, a, b, c);
    assert (vals + [a, b, c, d])[..|vals| + 3] == vals + [a, b, c];
  }

  lemma FeedGroup(vals: seq<Sextet>, x: Byte, y: Byte, z: Byte)
    requires Decoded(vals).bits == 0
    ensures Decoded(vals + Group(x, y, z)) == State(z % 64, 0, Decoded(vals).out + [x, y, z])
  {
    JoinsBack(x, y, z);
    FeedAll(vals, Group(x, y, z));
  }

  lemma FeedAll(vals: seq<Sextet>, g: seq<Sextet>)
    requires Decoded(vals).bits == 0 && |g| == 4
    ensures Decoded(vals + g) ==
            State(g[3], 0, Decoded(vals).out + [Joined(g[0], 6, g[1]), Joined(g[1], 4, g[2]), Joined(g[2], 2, g[3])])
  {
    assert g == [g[0], g[1], g[2], g[3]];
    FeedFour(vals, g[0], g[1], g[2], g[3]);
  }

  lemma FeedLastOne(vals: seq<Sextet>, x: Byte)
    requires Decoded(vals).bits == 0
    ensures Decoded(vals + LastOne(x)) == State((x % 4) * 16, 4, Decoded(vals).out + [x])
  {
    JoinsBack(x, 0, 0);
    FeedTwo(vals, x / 4, (x % 4) * 16);
  }

  lemma FeedLastTwo(vals: seq<Sextet>, x: Byte, y: Byte)
    requires Decoded(vals).bits == 0
    ensures Decoded(vals + LastTwo(x, y)) == State((y % 16) * 4, 2, Decoded(vals).out + [x, y])
  {
    JoinsBack(x, y, 0);
    FeedThree(vals, x / 4, (x % 4) * 16 + y / 16, (y % 16) * 4);
  }

  lemma {:induction false} GroupsBack(s: seq<Byte>, k: nat)
    requires 3 * k <= |s|
    ensures Decoded(EncodeGroups(s, k)).out == s[..3 * k] && Decoded(EncodeGroups(s, k)).bits == 0
  {
    if k > 0 {
      var n := 3 * k;
      GroupsBack(s, k - 1);
      FeedGroup(EncodeGroups(s, k - 1), s[n - 3], s[n - 2], s[n - 1]);
      assert s[..n] == s[..n - 3] + [s[n - 3], s[n - 2], s[n - 1]];
    }
  }

  predicate FourLow(v: Sextet) {
    v % 16 == 0
  }

  predicate TwoLow(v: Sextet) {
    v % 4 == 0
  }

  lemma LowZeroBits(x: Byte)
    ensures FourLow((x % 4) * 16) && TwoLow((x % 16) * 4)
  {
  }

  lemma OneBack(s: seq<Byte>, k: nat)
    requires |s| == 3 * k + 1
    ensures var st := Decoded(EncodeGroups(s, k) + LastOne(s[3 * k])); st.out == s && st.bits == 4 && FourLow(st.last)
  {
    GroupsBack(s, k);
    FeedLastOne(EncodeGroups(s, k), s[3 * k]);
    LowZeroBits(s[3 * k]);
    assert s == s[..3 * k] + [s[3 * k]];
  }

  lemma TwoBack(s: seq<Byte>, k: nat)
    requires |s| == 3 * k + 2
    ensures var st := Decoded(EncodeGroups(s, k) + LastTwo(s[3 * k], s[3 * k + 1]));
            st.out == s && st.bits == 2 && TwoLow(st.last)
  {
    GroupsBack(s, k);
    SplitTwo(s, 3 * k);
    LowZeroBits(s[3 * k + 1]);
    FeedLastTwo(EncodeGroups(s, k), s[3 * k], s[3 * k + 1]);
  }

  lemma SplitTwo(s: seq<Byte>, n: nat)
    requires |s| == n + 2
    ensures s == s[..n] + [s[n], s[n + 1]]
  {
  }

  lemma TailBack(s: seq<Byte>, k: nat)
    requires 3 * k <= |s| < 3 * k + 3
    ensures var st := Decoded(EncodeGroups(s, k) + LeftOver(s, k));
            && st.out == s && st.bits == (if |s| == 3 * k then 0 else if |s| == 3 * k + 1 then 4 else 2)
            && (st.bits == 4 ==> FourLow(st.last)) && (st.bits == 2 ==> TwoLow(st.last))
  {
    if |s| == 3 * k {
      GroupsBack(s, k);
      assert EncodeGroups(s, k) + LeftOver(s, k) == EncodeGroups(s, k);
    } else if |s| == 3 * k + 1 {
      OneBack(s, k);
    } else {
      TwoBack(s, k);
    }
  }

  /** Decoding the encoded values gives the bytes back; what is left in the last value is zero. */
  lemma ValuesBack(s: seq<Byte>)
    ensures var st := Decoded(EncodeValues(s));
            && st.out == s && st.bits == ZeroCount(|s|)
            && (st.bits == 4 ==> FourLow(st.last)) && (st.bits == 2 ==> TwoLow(st.last))
  {
    TailBack(s, |s| / 3);
  }

  // ---- encoding is cutting the bits into sixes

  function Zeros(k: nat): seq<bool> {
    seq(k, _ => false)
  }

  lemma {:induction false} ZeroBits(k: nat)
    ensures Bits(0, k) == Zeros(k)
  {
    if k > 0 {
      ZeroBits(k - 1);
    }
  }

  lemma LowZeros(v: Sextet, hi: nat, j: nat, m: nat)
    requires j + m == SIX && v == hi * Pow2(m)
    ensures Bits(v, SIX)[j..] == Zeros(m)
  {
    SextetSplit(v, hi, j, 0, m, Pow2(m));
    ZeroBits(m);
  }

  /** The encoded values are the bits of the data, filled up with fewer than six zeros. */
  lemma EncodeBits(s: seq<Byte>)
    ensures BitsOfSextets(EncodeValues(s)) == BitsOf(s) + Zeros(ZeroCount(|s|))
  {
    var st := Decoded(EncodeValues(s));
    DecodedBits(EncodeValues(s));
    ValuesBack(s);
    RestIsZero(st.last, ZeroCount(|s|));
  }

  lemma RestIsZero(v: Sextet, k: nat)
    requires k == 0 || (k == 4 && FourLow(v)) || (k == 2 && TwoLow(v))
    ensures Bits(v, SIX)[SIX - k..] == Zeros(k)
  {
    if k == 0 {
      assert Bits(v, SIX)[SIX..] == [];
    } else if k == 4 {
      FourZeros(v);
    } else {
      TwoZeros(v);
    }
  }

  lemma FourZeros(v: Sextet)
    requires FourLow(v)
    ensures Bits(v, SIX)[SIX - 4..] == Zeros(4)
  {
    Pow2Byte();
    LowZeros(v, v / 16, SIX - 4, 4);
  }

  lemma TwoZeros(v: Sextet)
    requires TwoLow(v)
    ensures Bits(v, SIX)[SIX - 2..] == Zeros(2)
  {
    Pow2Byte();
    LowZeros(v, v / 4, SIX - 2, 2);
  }

  // ---------------------------------------------------------------- text

  /** The values of a text without padding, and the alphabet after it. */
  function ReadAll(a: Alphabet, text: seq<Byte>): Option<(seq<Sextet>, Alphabet)> {
    if text == [] then Some(([], a))
    else
      var n := |text| - 1;
      var init := ReadAll(a, text[..n]);
      if init.None? then None
      else
        var v := ValueOf(init.value.1, text[n]);
        if v.None? then None else Some((init.value.0 + [v.value.0], v.value.1))
  }

  function FirstPad(text: seq<Byte>): (k: nat)
    ensures k <= |text| && (forall i :: 0 <= i < k ==> text[i] != PAD) && (k < |text| ==> text[k] == PAD)
  {
    if text == [] || text[0] == PAD then 0 else 1 + FirstPad(text[1..])
  }

  predicate OnlyPads(text: seq<Byte>, k: nat) {
    forall i :: k <= i < |text| ==> text[i] == PAD
  }

  function Decode(text: seq<Byte>, a: Alphabet, loose: bool): Option<seq<Byte>> {
    var k := FirstPad(text);
    var vals := ReadAll(a, text[..k]);
    if vals.None? || (!loose && !OnlyPads(text, k)) then None else Some(Decoded(vals.value.0).out)
  }

  function Written(a: Alphabet): Alphabet {
    if a.UrlSafe? then UrlSafe else Standard
  }

  lemma {:induction false} ReadSymbols(a: Alphabet, vals: seq<Sextet>)
    ensures ReadAll(Written(a), Symbols(a, vals)) == Some((vals, Written(a)))
    ensures ReadAll(Auto, Symbols(a, vals)).Some? && ReadAll(Auto, Symbols(a, vals)).value.0 == vals
    ensures ReadAll(Auto, Symbols(a, vals)).value.1 in {Auto, Written(a)}
  {
    if vals != [] {
      var n := |vals| - 1;
      ReadSymbols(a, vals[..n]);
      assert Symbols(a, vals)[..n] == Symbols(a, vals[..n]);
      SymbolValue(Written(a), vals[n]);
      assert vals == vals[..n] + [vals[n]];
    }
  }

  lemma {:induction false} FirstPadOf(s: seq<Byte>, pads: seq<Byte>)
    requires (forall i :: 0 <= i < |s| ==> s[i] != PAD) && (forall i :: 0 <= i < |pads| ==> pads[i] == PAD)
    ensures FirstPad(s + pads) == |s| && OnlyPads(s + pads, |s|)
  {
    if s == [] {
      assert s + pads == pads;
    } else {
      assert (s + pads)[1..] == s[1..] + pads;
      FirstPadOf(s[1..], pads);
    }
  }

  lemma SymbolsNotPad(a: Alphabet, vals: seq<Sextet>)
    ensures forall i :: 0 <= i < |vals| ==> Symbols(a, vals)[i] != PAD
  {
    forall i | 0 <= i < |vals|
      ensures Symbols(a, vals)[i] != PAD
    {
      SymbolValue(Written(a), vals[i]);
    }
  }

  /** What was encoded is decoded, by the same alphabet and by detection, strictly or loosely. */
  lemma RoundTrip(a: Alphabet, s: seq<Byte>, loose: bool)
    ensures Decode(Encode(a, s), Written(a), loose) == Some(s)
    ensures Decode(Encode(a, s), Auto, loose) == Some(s)
  {
    var vals := EncodeValues(s);
    SymbolsNotPad(a, vals);
    FirstPadOf(Symbols(a, vals), Padding(|s|));
    assert Encode(a, s)[..|vals|] == Symbols(a, vals);
    ReadSymbols(a, vals);
    ValuesBack(s);
  }

  // ---------------------------------------------------------------- texts that come back

  lemma {:induction false} SextetsInjective(u: seq<Sextet>, v: seq<Sextet>)
    requires BitsOfSextets(u) == BitsOfSextets(v)
    ensures u == v
  {
    assert |u| == |v|;
    if u != [] {
      var n := |u| - 1;
      assert BitsOfSextets(u)[..6 * n] == BitsOfSextets(u[..n]) && BitsOfSextets(v)[..6 * n] == BitsOfSextets(v[..n]);
      assert BitsOfSextets(u)[6 * n..] == Bits(u[n], SIX) && BitsOfSextets(v)[6 * n..] == Bits(v[n], SIX);
      SextetsInjective(u[..n], v[..n]);
      Pow2Byte();
      BitsInjective(u[n], v[n], SIX);
      assert u == u[..n] + [u[n]] && v == v[..n] + [v[n]];
    }
  }

  /** Reading undone: one alphabet has one character for each value. */
  lemma {:induction false} SymbolsRead(a: Alphabet, text: seq<Byte>)
    requires ReadAll(Written(a), text).Some?
    ensures Symbols(a, ReadAll(Written(a), text).value.0) == text
  {
    if text != [] {
      var n := |text| - 1;
      var vals := ReadAll(Written(a), text[..n]).value.0;
      ReadFixed(text[..n]);
      var v := ValueOf(Written(a), text[n]).value.0;
      SymbolsRead(a, text[..n]);
      SymbolsAppend(a, vals, [v]);
      SymbolRead(a, text[n]);
      assert text == text[..n] + [text[n]];
    }
  }

  lemma SymbolRead(a: Alphabet, c: Byte)
    requires ValueOf(Written(a), c).Some?
    ensures Symbol(a, ValueOf(Written(a), c).value.0) == c
  {
  }

  /** Whole groups of values, or two with four bits unused, or three with two; the unused bits zero. */
  predicate Filled(vals: seq<Sextet>) {
    var n := |vals|;
    n % 4 == 0 || (n % 4 == 2 && FourLow(vals[n - 1])) || (n % 4 == 3 && TwoLow(vals[n - 1]))
  }

  /** The bits left and the bytes written, by how many values follow the last whole group. */
  predicate Left(n: nat, bytes: nat, bits: nat) {
    match n % 4
    case 0 => bits == 0 && bytes % 3 == 0
    case 1 => bits == 6 && bytes % 3 == 0
    case 2 => bits == 4 && bytes % 3 == 1
    case _ => bits == 2 && bytes % 3 == 2
  }

  lemma SixEight(n: nat, bytes: nat, bits: nat)
    requires 6 * n == 8 * bytes + bits && bits <= 6
    ensures Left(n, bytes, bits)
  {
    SixEightAt(n / 4, n % 4, bytes, bits);
    Thirds(n / 4, bytes - 3 * (n / 4));
  }

  lemma SixEightAt(q: nat, r: nat, bytes: nat, bits: nat)
    requires r < 4 && 24 * q + 6 * r == 8 * bytes + bits && bits <= 6
    ensures bytes == 3 * q + (if r == 0 then 0 else r - 1) && bits == (if r == 0 then 0 else 8 - 2 * r)
  {
  }

  lemma Thirds(q: nat, c: nat)
    requires c < 3
    ensures (3 * q + c) % 3 == c
  {
  }

  lemma BitsLeft(vals: seq<Sextet>)
    ensures Left(|vals|, |Decoded(vals).out|, Decoded(vals).bits)
  {
    SixEight(|vals|, |Decoded(vals).out|, Decoded(vals).bits);
  }

  /** The values of the decoded bytes are the ones read, exactly when those are filled up with zeros. */
  lemma ValuesExact(vals: seq<Sextet>)
    ensures EncodeValues(Decoded(vals).out) == vals <==> Filled(vals)
  {
    var st := Decoded(vals);
    BitsLeft(vals);
    DecodedBits(vals);
    if Filled(vals) {
      RestIsZero(st.last, st.bits);
      EncodeBits(st.out);
      SextetsInjective(EncodeValues(st.out), vals);
    }
    ValuesBack(st.out);
  }

  /** The text is the encoding of something: right length, right padding and nothing in the unused bits. */
  predicate Canonical(a: Alphabet, text: seq<Byte>) {
    var k := FirstPad(text);
    var vals := ReadAll(Written(a), text[..k]);
    vals.Some? && Filled(vals.value.0) && OnlyPads(text, k) && |text| % 4 == 0 && |text| < k + 4
  }

  lemma CanonicalPads(text: seq<Byte>, k: nat, m: nat)
    requires k <= |text| < k + 4 && |text| % 4 == 0 && OnlyPads(text, k)
    requires k % 4 != 1 && m % 3 == (if k % 4 == 0 then 0 else k % 4 - 1)
    ensures text[k..] == Padding(m)
  {
  }

  lemma CanonicalBack(a: Alphabet, text: seq<Byte>)
    requires Canonical(a, text)
    ensures Encode(a, Decoded(ReadAll(Written(a), text[..FirstPad(text)]).value.0).out) == text
  {
    var k := FirstPad(text);
    var vals := ReadAll(Written(a), text[..k]).value.0;
    ReadLength(Written(a), text[..k]);
    SymbolsRead(a, text[..k]);
    ValuesExact(vals);
    BitsLeft(vals);
    CanonicalPads(text, k, |Decoded(vals).out|);
    assert text == text[..k] + text[k..];
  }

  lemma EncodedCanonical(a: Alphabet, s: seq<Byte>)
    ensures Canonical(a, Encode(a, s))
  {
    EncodedFilled(s);
    EncodedFours(s);
    Assembled(a, EncodeValues(s), Padding(|s|));
  }

  lemma EncodedFilled(s: seq<Byte>)
    ensures Filled(EncodeValues(s))
  {
    ValuesBack(s);
    ValuesExact(EncodeValues(s));
  }

  lemma EncodedFours(s: seq<Byte>)
    ensures (|EncodeValues(s)| + |Padding(|s|)|) % 4 == 0
  {
    var q := |s| / 3;
    Thirds(q, |s| - 3 * q);
    assert |EncodeValues(s)| + |Padding(|s|)| == 4 * (if |s| == 3 * q then q else q + 1);
  }

  lemma Assembled(a: Alphabet, vals: seq<Sextet>, pads: seq<Byte>)
    requires Filled(vals) && (forall i :: 0 <= i < |pads| ==> pads[i] == PAD)
    requires |pads| < 4 && (|vals| + |pads|) % 4 == 0
    ensures Canonical(a, Symbols(a, vals) + pads)
  {
    SymbolsNotPad(a, vals);
    FirstPadOf(Symbols(a, vals), pads);
    assert (Symbols(a, vals) + pads)[..|vals|] == Symbols(a, vals);
    ReadSymbols(a, vals);
  }

  /** A decoded text is what encoding writes exactly when it is canonical. The decoder takes others too. */
  lemma EncodeBackExact(a: Alphabet, text: seq<Byte>, loose: bool)
    requires Decode(text, Written(a), loose).Some?
    ensures Encode(a, Decode(text, Written(a), loose).value) == text <==> Canonical(a, text)
  {
    if Canonical(a, text) {
      CanonicalBack(a, text);
    }
    EncodedCanonical(a, Decode(text, Written(a), loose).value);
  }

  // ---------------------------------------------------------------- detection and sizes

  /** Detection reads what some single alphabet reads, and as that one does. */
  lemma {:induction false} ReadAuto(text: seq<Byte>)
    ensures var r, std, url := ReadAll(Auto, text), ReadAll(Standard, text), ReadAll(UrlSafe, text);
            match r
            case None => std.None? && url.None?
            case Some((v, Auto)) => std == Some((v, Standard)) && url == Some((v, UrlSafe))
            case Some((v, Standard)) => std == Some((v, Standard)) && url.None?
            case Some((v, UrlSafe)) => std.None? && url == Some((v, UrlSafe))
  {
    if text != [] {
      ReadAuto(text[..|text| - 1]);
      ReadFixed(text[..|text| - 1]);
    }
  }

  lemma {:induction false} ReadFixed(text: seq<Byte>)
    ensures ReadAll(Standard, text).Some? ==> ReadAll(Standard, text).value.1 == Standard
    ensures ReadAll(UrlSafe, text).Some? ==> ReadAll(UrlSafe, text).value.1 == UrlSafe
  {
    if text != [] {
      ReadFixed(text[..|text| - 1]);
    }
  }

  /** Detection accepts a text exactly when one of the two alphabets does, with the same result. */
  lemma AutoExact(text: seq<Byte>, loose: bool)
    ensures var r, std, url := Decode(text, Auto, loose), Decode(text, Standard, loose), Decode(text, UrlSafe, loose);
            && (r.Some? <==> std.Some? || url.Some?)
            && (std.Some? ==> std == r) && (url.Some? ==> url == r)
  {
    ReadAuto(text[..FirstPad(text)]);
  }

  function RequiredEncodeSize(n: nat): nat {
    (n / 3 + if n % 3 != 0 then 1 else 0) * 4
  }

  function MaxDecodeSize(n: nat): nat {
    (n / 4 + if n % 4 != 0 then 1 else 0) * 3
  }

  lemma EncodeSize(a: Alphabet, s: seq<Byte>)
    ensures |Encode(a, s)| == RequiredEncodeSize(|s|)
  {
  }

  lemma {:induction false} ReadLength(a: Alphabet, text: seq<Byte>)
    ensures ReadAll(a, text).Some? ==> |ReadAll(a, text).value.0| == |text|
  {
    if text != [] {
      ReadLength(a, text[..|text| - 1]);
    }
  }

  lemma DecodeSize(text: seq<Byte>, a: Alphabet, loose: bool)
    ensures Decode(text, a, loose).Some? ==> |Decode(text, a, loose).value| <= MaxDecodeSize(|text|)
  {
    ReadLength(a, text[..FirstPad(text)]);
    ThreeQuarters(FirstPad(text), |text|);
  }

  lemma ThreeQuarters(k: nat, n: nat)
    requires k <= n
    ensures 6 * k <= 8 * MaxDecodeSize(n)
  {
    assert n == 4 * (n / 4) + n % 4;
  }

  // ---------------------------------------------------------------- the loops

  lemma SymbolsAppend(a: Alphabet, u: seq<Sextet>, v: seq<Sextet>)
    ensures Symbols(a, u + v) == Symbols(a, u) + Symbols(a, v)
  {
  }

  method EncodeText(s: seq<Byte>, a: Alphabet) returns (out: seq<Byte>)
    ensures out == Encode(a, s)
  {
    out := [];
    var i := 0;
    ghost var k := 0;
    while i < |s|
      invariant i == 3 * k <= |s| && out == Symbols(a, EncodeGroups(s, k))
      decreases |s| - i
    {
      ghost var before := out;
      var x := s[i];
      out := out + [Symbol(a, x / 4)];
      if i + 1 == |s| {
        out := out + [Symbol(a, (x % 4) * 16)] + [PAD] + [PAD];
        LastOneText(a, s, k, before, out);
        return;
      }
      var y := s[i + 1];
      out := out + [Symbol(a, (x % 4) * 16 + y / 16)];
      if i + 2 == |s| {
        out := out + [Symbol(a, (y % 16) * 4)] + [PAD];
        LastTwoText(a, s, k, before, out);
        return;
      }
      var z := s[i + 2];
      out := out + [Symbol(a, (y % 16) * 4 + z / 64)] + [Symbol(a, z % 64)];
      GroupText(a, s, k, before, out);
      i := i + 3;
      k := k + 1;
    }
    NothingLeft(a, s, k);
  }

  lemma NothingLeft(a: Alphabet, s: seq<Byte>, k: nat)
    requires |s| == 3 * k
    ensures Encode(a, s) == Symbols(a, EncodeGroups(s, k))
  {
    assert |s| / 3 == k && LeftOver(s, k) == [] && Padding(|s|) == [];
    assert EncodeValues(s) == EncodeGroups(s, k);
  }

  lemma GroupText(a: Alphabet, s: seq<Byte>, k: nat, before: seq<Byte>, out: seq<Byte>)
    requires 3 * k + 3 <= |s| && before == Symbols(a, EncodeGroups(s, k))
    requires var g := Group(s[3 * k], s[3 * k + 1], s[3 * k + 2]);
             out == before + [Symbol(a, g[0])] + [Symbol(a, g[1])] + [Symbol(a, g[2])] + [Symbol(a, g[3])]
    ensures out == Symbols(a, EncodeGroups(s, k + 1))
  {
    var g := Group(s[3 * k], s[3 * k + 1], s[3 * k + 2]);
    SymbolsAppend(a, EncodeGroups(s, k), g);
    assert Symbols(a, g) == [Symbol(a, g[0])] + [Symbol(a, g[1])] + [Symbol(a, g[2])] + [Symbol(a, g[3])];
  }

  lemma LastOneText(a: Alphabet, s: seq<Byte>, k: nat, before: seq<Byte>, out: seq<Byte>)
    requires |s| == 3 * k + 1 && before == Symbols(a, EncodeGroups(s, k))
    requires var g := LastOne(s[3 * k]); out == before + [Symbol(a, g[0])] + [Symbol(a, g[1])] + [PAD] + [PAD]
    ensures out == Encode(a, s)
  {
    var g := LastOne(s[3 * k]);
    assert |s| / 3 == k && LeftOver(s, k) == g && Padding(|s|) == [PAD, PAD];
    SymbolsAppend(a, EncodeGroups(s, k), g);
    assert Symbols(a, g) == [Symbol(a, g[0])] + [Symbol(a, g[1])];
  }

  lemma LastTwoText(a: Alphabet, s: seq<Byte>, k: nat, before: seq<Byte>, out: seq<Byte>)
    requires |s| == 3 * k + 2 && before == Symbols(a, EncodeGroups(s, k))
    requires var g := LastTwo(s[3 * k], s[3 * k + 1]);
             out == before + [Symbol(a, g[0])] + [Symbol(a, g[1])] + [Symbol(a, g[2])] + [PAD]
    ensures out == Encode(a, s)
  {
    var g := LastTwo(s[3 * k], s[3 * k + 1]);
    assert |s| / 3 == k && LeftOver(s, k) == g && Padding(|s|) == [PAD];
    SymbolsAppend(a, EncodeGroups(s, k), g);
    assert Symbols(a, g) == [Symbol(a, g[0])] + [Symbol(a, g[1])] + [Symbol(a, g[2])];
  }

  lemma {:induction false} ReadStops(a: Alphabet, text: seq<Byte>, k: nat)
    requires k <= |text| && ReadAll(a, text[..k]).None?
    ensures ReadAll(a, text).None?
  {
    if k == |text| {
      assert text[..k] == text;
    } else {
      var n := |text| - 1;
      assert text[..n][..k] == text[..k];
      ReadStops(a, text[..n], k);
    }
  }

  lemma {:induction false} PadAt(text: seq<Byte>, k: nat)
    requires k <= |text| && (forall i :: 0 <= i < k ==> text[i] != PAD) && (k < |text| ==> text[k] == PAD)
    ensures FirstPad(text) == k
  {
    if k > 0 {
      PadAt(text[1..], k - 1);
    }
  }

  lemma NoPadYet(text: seq<Byte>, k: nat)
    requires k <= |text| && forall i :: 0 <= i < k ==> text[i] != PAD
    ensures k <= FirstPad(text)
  {
  }

  /** `read` characters have been read, none of them padding. */
  ghost predicate Reading(text: seq<Byte>, a: Alphabet, alphabet: Alphabet, vals: seq<Sextet>, read: nat) {
    && read <= |text| && (forall i :: 0 <= i < read ==> text[i] != PAD)
    && ReadAll(a, text[..read]) == Some((vals, alphabet)) && |vals| == read
  }

  lemma ReadNext(text: seq<Byte>, a: Alphabet, alphabet: Alphabet, vals: seq<Sextet>, read: nat, part: Sextet,
                 next: Alphabet)
    requires Reading(text, a, alphabet, vals, read) && read < |text| && text[read] != PAD
    requires ValueOf(alphabet, text[read]) == Some((part, next))
    ensures Reading(text, a, next, vals + [part], read + 1)
    ensures Decoded(vals + [part]) == Feed(Decoded(vals), part)
  {
    assert text[..read + 1][..read] == text[..read];
    assert (vals + [part])[..|vals|] == vals;
  }

  lemma ReadFails(text: seq<Byte>, a: Alphabet, alphabet: Alphabet, vals: seq<Sextet>, read: nat, loose: bool)
    requires Reading(text, a, alphabet, vals, read) && read < |text| && text[read] != PAD
    requires ValueOf(alphabet, text[read]).None?
    ensures Decode(text, a, loose).None?
  {
    assert text[..read + 1][..read] == text[..read];
    NoPadYet(text, read + 1);
    var data := text[..FirstPad(text)];
    assert data[..read + 1] == text[..read + 1];
    ReadStops(a, data, read + 1);
  }

  lemma ReadDone(text: seq<Byte>, a: Alphabet, alphabet: Alphabet, vals: seq<Sextet>, read: nat, loose: bool)
    requires Reading(text, a, alphabet, vals, read) && (read < |text| ==> text[read] == PAD)
    ensures Decode(text, a, loose) == if loose || OnlyPads(text, read) then Some(Decoded(vals).out) else None
  {
    PadAt(text, read);
  }

  /** Decoding into a separate buffer. */
  method DecodeText(text: seq<Byte>, a: Alphabet, loose: bool) returns (r: Option<seq<Byte>>)
    ensures r == Decode(text, a, loose)
  {
    ghost var vals: seq<Sextet> := [];
    var out: seq<Byte> := [];
    var alphabet, last: Sextet, bits: nat, read: nat := a, 0, 0, 0;
    while read < |text| && text[read] != PAD
      invariant Reading(text, a, alphabet, vals, read)
      invariant Decoded(vals) == State(last, bits, out)
    {
      var v := ValueOf(alphabet, text[read]);
      if v.None? {
        ReadFails(text, a, alphabet, vals, read, loose);
        return None;
      }
      var part := v.value.0;
      ReadNext(text, a, alphabet, vals, read, part, v.value.1);
      vals := vals + [part];
      alphabet := v.value.1;
      if bits + 6 >= 8 {
        out := out + [Joined(last, bits, part)];
        bits := bits - 2;
      } else {
        bits := bits + 6;
      }
      last := part;
      read := read + 1;
    }
    ReadDone(text, a, alphabet, vals, read, loose);
    if !loose {
      for i := read to |text|
        invariant forall j :: read <= j < i ==> text[j] == PAD
      {
        if text[i] != PAD {
          return None;
        }
      }
    }
    return Some(out);
  }

  method OnlyPadsFrom(buf: array<Byte>, k: nat) returns (ok: bool)
    requires k <= buf.Length
    ensures ok == OnlyPads(buf[..], k)
  {
    for i := k to buf.Length
      invariant forall j :: k <= j < i ==> buf[j] == PAD
    {
      if buf[i] != PAD {
        return false;
      }
    }
    return true;
  }

  /** Decoding over its own input: the place written is never past the place read, so the result
      is what decoding into a separate buffer gives. */
  method DecodeInPlace(buf: array<Byte>, a: Alphabet, loose: bool) returns (r: Option<nat>)
    modifies buf
    ensures match Decode(old(buf[..]), a, loose)
            case None => r.None?
            case Some(data) => r == Some(|data|) && |data| <= buf.Length
                               && buf[..|data|] == data && buf[|data|..] == old(buf[|data|..])
  {
    ghost var text := buf[..];
    ghost var vals: seq<Sextet> := [];
    var alphabet, last: Sextet, bits: nat, read: nat, write: nat := a, 0, 0, 0, 0;
    while read < buf.Length
      invariant write <= read <= buf.Length && buf[write..] == text[write..]
      invariant Reading(text, a, alphabet, vals, read)
      invariant Decoded(vals) == State(last, bits, buf[..write])
    {
      var c := buf[read];
      assert c == buf[write..][read - write] == text[read];
      if c == PAD {
        break;
      }
      var v := ValueOf(alphabet, c);
      if v.None? {
        ReadFails(text, a, alphabet, vals, read, loose);
        return None;
      }
      var part := v.value.0;
      ReadNext(text, a, alphabet, vals, read, part, v.value.1);
      vals := vals + [part];
      alphabet := v.value.1;
      if bits + 6 >= 8 {
        Write(buf, write, Joined(last, bits, part), text);
        write := write + 1;
        bits := bits - 2;
      } else {
        bits := bits + 6;
      }
      last := part;
      read := read + 1;
    }
    ReadDone(text, a, alphabet, vals, read, loose);
    if !loose {
      var ok := OnlyPadsFrom(buf, read);
      SamePads(buf[..], text, write, read);
      if !ok {
        return None;
      }
    }
    return Some(write);
  }

  method Write(buf: array<Byte>, write: nat, byte: Byte, ghost text: seq<Byte>)
    requires write < buf.Length == |text| && buf[write..] == text[write..]
    modifies buf
    ensures buf[..write + 1] == old(buf[..write]) + [byte] && buf[write + 1..] == text[write + 1..]
  {
    assert buf[write + 1..] == buf[write..][1..] == text[write + 1..];
    buf[write] := byte;
  }

  lemma SamePads(a: seq<Byte>, b: seq<Byte>, w: nat, k: nat)
    requires w <= k <= |a| == |b| && a[w..] == b[w..]
    ensures OnlyPads(a, k) <==> OnlyPads(b, k)
  {
    assert forall i :: k <= i < |a| ==> a[i] == a[w..][i - w] && b[i] == b[w..][i - w];
  }
}
