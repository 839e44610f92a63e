/** The checksums of `ngx_crc32.h` with the tables of `ngx_crc32.c`: a table for half bytes and one
    for bytes, against the register that takes one bit at a time. */
module Crc32 {

  const POLYNOMIAL: bv32 := 0xedb88320
  const ONES: bv32 := 0xffffffff

  // ---------- one bit at a time ----------

  /** The register takes a bit: it is shifted, and the polynomial is taken off. */
  function Feed(crc: bv32, bit: bv32): bv32 {
    if (crc ^ bit) & 1 == 1 then (crc >> 1) ^ POLYNOMIAL else crc >> 1
  }

  function Low(b: bv32): bv32 {
    b & 1
  }

  function Half(b: bv32): bv32 {
    b >> 1
  }

  function Xor(a: bv32, b: bv32): bv32 {
    a ^ b
  }

  function Nibble(b: bv32): bv32 {
    b & 0xf
  }

  function Upper(b: bv32): bv32 {
    b >> 4
  }

  /** The `n` low bits of a number, the lowest first. */
  function FeedBits(crc: bv32, b: bv32, n: nat): bv32
    decreases n
  {
    if n == 0 then crc else FeedBits(Feed(crc, Low(b)), Half(b), n - 1)
  }

  function FeedByte(crc: bv32, c: bv8): bv32 {
    FeedBits(crc, c as bv32, 8)
  }

  function Serial(crc: bv32, p: seq<bv8>): bv32
    decreases |p|
  {
    if p == [] then crc else Serial(FeedByte(crc, p[0]), p[1..])
  }

  // ---------- the tables ----------

  /** `ngx_crc32_table16` */
  function Table16(l: bv32): bv32 {
    if l == 0 then 0x00000000 else if l == 1 then 0x1db71064 else if l == 2 then 0x3b6e20c8 else if l == 3 then 0x26d930ac else
    if l == 4 then 0x76dc4190 else if l == 5 then 0x6b6b51f4 else if l == 6 then 0x4db26158 else if l == 7 then 0x5005713c else
    if l == 8 then 0xedb88320 else if l == 9 then 0xf00f9344 else if l == 10 then 0xd6d6a3e8 else if l == 11 then 0xcb61b38c else
    if l == 12 then 0x9b64c2b0 else if l == 13 then 0x86d3d2d4 else if l == 14 then 0xa00ae278 else 0xbdbdf21c
  }

  // The rows of `ngx_crc32_table256`.

  function Row0(l: bv32): bv32 {
    if l == 0 then 0x00000000 else if l == 1 then 0x77073096 else if l == 2 then 0xee0e612c else if l == 3 then 0x990951ba else
    if l == 4 then 0x076dc419 else if l == 5 then 0x706af48f else if l == 6 then 0xe963a535 else if l == 7 then 0x9e6495a3 else
    if l == 8 then 0x0edb8832 else if l == 9 then 0x79dcb8a4 else if l == 10 then 0xe0d5e91e else if l == 11 then 0x97d2d988 else
    if l == 12 then 0x09b64c2b else if l == 13 then 0x7eb17cbd else if l == 14 then 0xe7b82d07 else 0x90bf1d91
  }

  function Row1(l: bv32): bv32 {
    if l == 0 then 0x1db71064 else if l == 1 then 0x6ab020f2 else if l == 2 then 0xf3b97148 else if l == 3 then 0x84be41de else
    if l == 4 then 0x1adad47d else if l == 5 then 0x6ddde4eb else if l == 6 then 0xf4d4b551 else if l == 7 then 0x83d385c7 else
    if l == 8 then 0x136c9856 else if l == 9 then 0x646ba8c0 else if l == 10 then 0xfd62f97a else if l == 11 then 0x8a65c9ec else
    if l == 12 then 0x14015c4f else if l == 13 then 0x63066cd9 else if l == 14 then 0xfa0f3d63 else 0x8d080df5
  }

  function Row2(l: bv32): bv32 {
    if l == 0 then 0x3b6e20c8 else if l == 1 then 0x4c69105e else if l == 2 then 0xd56041e4 else if l == 3 then 0xa2677172 else
    if l == 4 then 0x3c03e4d1 else if l == 5 then 0x4b04d447 else if l == 6 then 0xd20d85fd else if l == 7 then 0xa50ab56b else
    if l == 8 then 0x35b5a8fa else if l == 9 then 0x42b2986c else if l == 10 then 0xdbbbc9d6 else if l == 11 then 0xacbcf940 else
    if l == 12 then 0x32d86ce3 else if l == 13 then 0x45df5c75 else if l == 14 then 0xdcd60dcf else 0xabd13d59
  }

  function Row3(l: bv32): bv32 {
    if l == 0 then 0x26d930ac else if l == 1 then 0x51de003a else if l == 2 then 0xc8d75180 else if l == 3 then 0xbfd06116 else
    if l == 4 then 0x21b4f4b5 else if l == 5 then 0x56b3c423 else if l == 6 then 0xcfba9599 else if l == 7 then 0xb8bda50f else
    if l == 8 then 0x2802b89e else if l == 9 then 0x5f058808 else if l == 10 then 0xc60cd9b2 else if l == 11 then 0xb10be924 else
    if l == 12 then 0x2f6f7c87 else if l == 13 then 0x58684c11 else if l == 14 then 0xc1611dab else 0xb6662d3d
  }

  function Row4(l: bv32): bv32 {
    if l == 0 then 0x76dc4190 else if l == 1 then 0x01db7106 else if l == 2 then 0x98d220bc else if l == 3 then 0xefd5102a else
    if l == 4 then 0x71b18589 else if l == 5 then 0x06b6b51f else if l == 6 then 0x9fbfe4a5 else if l == 7 then 0xe8b8d433 else
    if l == 8 then 0x7807c9a2 else if l == 9 then 0x0f00f934 else if l == 10 then 0x9609a88e else if l == 11 then 0xe10e9818 else
    if l == 12 then 0x7f6a0dbb else if l == 13 then 0x086d3d2d else if l == 14 then 0x91646c97 else 0xe6635c01
  }

  function Row5(l: bv32): bv32 {
    if l == 0 then 0x6b6b51f4 else if l == 1 then 0x1c6c6162 else if l == 2 then 0x856530d8 else if l == 3 then 0xf262004e else
    if l == 4 then 0x6c0695ed else if l == 5 then 0x1b01a57b else if l == 6 then 0x8208f4c1 else if l == 7 then 0xf50fc457 else
    if l == 8 then 0x65b0d9c6 else if l == 9 then 0x12b7e950 else if l == 10 then 0x8bbeb8ea else if l == 11 then 0xfcb9887c else
    if l == 12 then 0x62dd1ddf else if l == 13 then 0x15da2d49 else if l == 14 then 0x8cd37cf3 else 0xfbd44c65
  }

  function Row6(l: bv32): bv32 {
    if l == 0 then 0x4db26158 else if l == 1 then 0x3ab551ce else if l == 2 then 0xa3bc0074 else if l == 3 then 0xd4bb30e2 else
    if l == 4 then 0x4adfa541 else if l == 5 then 0x3dd895d7 else if l == 6 then 0xa4d1c46d else if l == 7 then 0xd3d6f4fb else
    if l == 8 then 0x4369e96a else if l == 9 then 0x346ed9fc else if l == 10 then 0xad678846 else if l == 11 then 0xda60b8d0 else
    if l == 12 then 0x44042d73 else if l == 13 then 0x33031de5 else if l == 14 then 0xaa0a4c5f else 0xdd0d7cc9
  }

  function Row7(l: bv32): bv32 {
    if l == 0 then 0x5005713c else if l == 1 then 0x270241aa else if l == 2 then 0xbe0b1010 else if l == 3 then 0xc90c2086 else
    if l == 4 then 0x5768b525 else if l == 5 then 0x206f85b3 else if l == 6 then 0xb966d409 else if l == 7 then 0xce61e49f else
    if l == 8 then 0x5edef90e else if l == 9 then 0x29d9c998 else if l == 10 then 0xb0d09822 else if l == 11 then 0xc7d7a8b4 else
    if l == 12 then 0x59b33d17 else if l == 13 then 0x2eb40d81 else if l == 14 then 0xb7bd5c3b else 0xc0ba6cad
  }

  function Row8(l: bv32): bv32 {
    if l == 0 then 0xedb88320 else if l == 1 then 0x9abfb3b6 else if l == 2 then 0x03b6e20c else if l == 3 then 0x74b1d29a else
    if l == 4 then 0xead54739 else if l == 5 then 0x9dd277af else if l == 6 then 0x04db2615 else if l == 7 then 0x73dc1683 else
    if l == 8 then 0xe3630b12 else if l == 9 then 0x94643b84 else if l == 10 then 0x0d6d6a3e else if l == 11 then 0x7a6a5aa8 else
    if l == 12 then 0xe40ecf0b else if l == 13 then 0x9309ff9d else if l == 14 then 0x0a00ae27 else 0x7d079eb1
  }

  function Row9(l: bv32): bv32 {
    if l == 0 then 0xf00f9344 else if l == 1 then 0x8708a3d2 else if l == 2 then 0x1e01f268 else if l == 3 then 0x6906c2fe else
    if l == 4 then 0xf762575d else if l == 5 then 0x806567cb else if l == 6 then 0x196c3671 else if l == 7 then 0x6e6b06e7 else
    if l == 8 then 0xfed41b76 else if l == 9 then 0x89d32be0 else if l == 10 then 0x10da7a5a else if l == 11 then 0x67dd4acc else
    if l == 12 then 0xf9b9df6f else if l == 13 then 0x8ebeeff9 else if l == 14 then 0x17b7be43 else 0x60b08ed5
  }

  function Row10(l: bv32): bv32 {
    if l == 0 then 0xd6d6a3e8 else if l == 1 then 0xa1d1937e else if l == 2 then 0x38d8c2c4 else if l == 3 then 0x4fdff252 else
    if l == 4 then 0xd1bb67f1 else if l == 5 then 0xa6bc5767 else if l == 6 then 0x3fb506dd else if l == 7 then 0x48b2364b else
    if l == 8 then 0xd80d2bda else if l == 9 then 0xaf0a1b4c else if l == 10 then 0x36034af6 else if l == 11 then 0x41047a60 else
    if l == 12 then 0xdf60efc3 else if l == 13 then 0xa867df55 else if l == 14 then 0x316e8eef else 0x4669be79
  }

  function Row11(l: bv32): bv32 {
    if l == 0 then 0xcb61b38c else if l == 1 then 0xbc66831a else if l == 2 then 0x256fd2a0 else if l == 3 then 0x5268e236 else
    if l == 4 then 0xcc0c7795 else if l == 5 then 0xbb0b4703 else if l == 6 then 0x220216b9 else if l == 7 then 0x5505262f else
    if l == 8 then 0xc5ba3bbe else if l == 9 then 0xb2bd0b28 else if l == 10 then 0x2bb45a92 else if l == 11 then 0x5cb36a04 else
    if l == 12 then 0xc2d7ffa7 else if l == 13 then 0xb5d0cf31 else if l == 14 then 0x2cd99e8b else 0x5bdeae1d
  }

  function Row12(l: bv32): bv32 {
    if l == 0 then 0x9b64c2b0 else if l == 1 then 0xec63f226 else if l == 2 then 0x756aa39c else if l == 3 then 0x026d930a else
    if l == 4 then 0x9c0906a9 else if l == 5 then 0xeb0e363f else if l == 6 then 0x72076785 else if l == 7 then 0x05005713 else
    if l == 8 then 0x95bf4a82 else if l == 9 then 0xe2b87a14 else if l == 10 then 0x7bb12bae else if l == 11 then 0x0cb61b38 else
    if l == 12 then 0x92d28e9b else if l == 13 then 0xe5d5be0d else if l == 14 then 0x7cdcefb7 else 0x0bdbdf21
  }

  function Row13(l: bv32): bv32 {
    if l == 0 then 0x86d3d2d4 else if l == 1 then 0xf1d4e242 else if l == 2 then 0x68ddb3f8 else if l == 3 then 0x1fda836e else
    if l == 4 then 0x81be16cd else if l == 5 then 0xf6b9265b else if l == 6 then 0x6fb077e1 else if l == 7 then 0x18b74777 else
    if l == 8 then 0x88085ae6 else if l == 9 then 0xff0f6a70 else if l == 10 then 0x66063bca else if l == 11 then 0x11010b5c else
    if l == 12 then 0x8f659eff else if l == 13 then 0xf862ae69 else if l == 14 then 0x616bffd3 else 0x166ccf45
  }

  function Row14(l: bv32): bv32 {
    if l == 0 then 0xa00ae278 else if l == 1 then 0xd70dd2ee else if l == 2 then 0x4e048354 else if l == 3 then 0x3903b3c2 else
    if l == 4 then 0xa7672661 else if l == 5 then 0xd06016f7 else if l == 6 then 0x4969474d else if l == 7 then 0x3e6e77db else
    if l == 8 then 0xaed16a4a else if l == 9 then 0xd9d65adc else if l == 10 then 0x40df0b66 else if l == 11 then 0x37d83bf0 else
    if l == 12 then 0xa9bcae53 else if l == 13 then 0xdebb9ec5 else if l == 14 then 0x47b2cf7f else 0x30b5ffe9
  }

  function Row15(l: bv32): bv32 {
    if l == 0 then 0xbdbdf21c else if l == 1 then 0xcabac28a else if l == 2 then 0x53b39330 else if l == 3 then 0x24b4a3a6 else
    if l == 4 then 0xbad03605 else if l == 5 then 0xcdd70693 else if l == 6 then 0x54de5729 else if l == 7 then 0x23d967bf else
    if l == 8 then 0xb3667a2e else if l == 9 then 0xc4614ab8 else if l == 10 then 0x5d681b02 else if l == 11 then 0x2a6f2b94 else
    if l == 12 then 0xb40bbe37 else if l == 13 then 0xc30c8ea1 else if l == 14 then 0x5a05df1b else 0x2d02ef8d
  }

  /** `ngx_crc32_table256` */
  function Table256(i: bv32): bv32 {
    TableAt(i >> 4, i & 0xf)
  }

  function TableAt(h: bv32, l: bv32): bv32 {
    if h == 0 then Row0(l) else if h == 1 then Row1(l) else if h == 2 then Row2(l) else if h == 3 then Row3(l) else
    if h == 4 then Row4(l) else if h == 5 then Row5(l) else if h == 6 then Row6(l) else if h == 7 then Row7(l) else
    if h == 8 then Row8(l) else if h == 9 then Row9(l) else if h == 10 then Row10(l) else if h == 11 then Row11(l) else
    if h == 12 then Row12(l) else if h == 13 then Row13(l) else if h == 14 then Row14(l) else Row15(l)
  }

  // ---------- the entries ----------

  /** Zero bits. */
  function Shift(x: bv32, n: nat): bv32
    decreases n
  {
    if n == 0 then x else Shift(Feed(x, 0), n - 1)
  }

  function Halves(x: bv32, n: nat): bv32
    decreases n
  {
    if n == 0 then x else Halves(Half(x), n - 1)
  }

  predicate Clear(x: bv32, n: nat)
    decreases n
  {
    n == 0 || (Low(x) == 0 && Clear(Half(x), n - 1))
  }

  lemma FeedAhead(r: bv32, z: bv32)
    ensures Xor(Feed(r, Low(z)), Half(z)) == Feed(Xor(r, z), 0)
  {
    FeedLow(r, z);
    FeedCases(Xor(r, z));
    LowHalf(r, z);
    Polynomials(Half(r), Half(z));
    hide Feed, Low, Half, Xor;
  }

  lemma FeedLow(r: bv32, z: bv32)
    ensures Feed(r, Low(z)) == if (Low(r) == 1) != (Low(z) == 1) then Xor(Half(r), POLYNOMIAL) else Half(r)
  {
  }

  /** Bits may as well be put into the register before it is shifted. */
  lemma {:induction false} FeedBitsIs(crc: bv32, b: bv32, n: nat)
    ensures Xor(FeedBits(crc, b, n), Halves(b, n)) == Shift(Xor(crc, b), n)
    decreases n
  {
    hide Feed, Low, Half, Xor;
    if n > 0 {
      FeedAhead(crc, b);
      FeedBitsIs(Feed(crc, Low(b)), Half(b), n - 1);
    }
  }

  lemma FeedLinear(x: bv32, y: bv32)
    ensures Feed(Xor(x, y), 0) == Xor(Feed(x, 0), Feed(y, 0))
  {
    var a, b := Half(x), Half(y);
    LowHalf(x, y);
    FeedCases(x);
    FeedCases(y);
    FeedCases(Xor(x, y));
    Polynomials(a, b);
    hide Feed, Low, Half, Xor;
  }

  lemma FeedCases(x: bv32)
    ensures Feed(x, 0) == if Low(x) == 1 then Xor(Half(x), POLYNOMIAL) else Half(x)
  {
  }

  lemma LowHalf(x: bv32, y: bv32)
    ensures Half(Xor(x, y)) == Xor(Half(x), Half(y)) && (Low(Xor(x, y)) == 1 <==> (Low(x) == 1) != (Low(y) == 1))
  {
  }

  lemma XorAssociative(a: bv32, b: bv32, c: bv32)
    ensures Xor(Xor(a, b), c) == Xor(a, Xor(b, c))
  {
  }

  lemma XorCommutes(a: bv32, b: bv32)
    ensures Xor(a, b) == Xor(b, a)
  {
  }

  lemma XorTwice(a: bv32, b: bv32)
    ensures Xor(Xor(a, b), b) == a
  {
  }

  lemma Polynomials(a: bv32, b: bv32)
    ensures Xor(Xor(a, POLYNOMIAL), Xor(b, POLYNOMIAL)) == Xor(a, b)
    ensures Xor(Xor(a, POLYNOMIAL), b) == Xor(Xor(a, b), POLYNOMIAL) && Xor(a, Xor(b, POLYNOMIAL)) == Xor(Xor(a, b), POLYNOMIAL)
  {
    XorAssociative(a, b, POLYNOMIAL);
    XorAssociative(a, POLYNOMIAL, b);
    XorCommutes(b, POLYNOMIAL);
    XorTwice(Xor(a, b), POLYNOMIAL);
    XorAssociative(Xor(a, POLYNOMIAL), b, POLYNOMIAL);
    hide Xor;
  }

  /** The register of a sum is the sum of the registers. */
  lemma {:induction false} ShiftLinear(x: bv32, y: bv32, n: nat)
    ensures Shift(Xor(x, y), n) == Xor(Shift(x, n), Shift(y, n))
    decreases n
  {
    hide Feed, Xor;
    if n > 0 {
      FeedLinear(x, y);
      ShiftLinear(Feed(x, 0), Feed(y, 0), n - 1);
    }
  }

  /** Zero bits that are shifted out do nothing. */
  lemma {:induction false} ShiftClear(y: bv32, n: nat)
    requires Clear(y, n)
    ensures Shift(y, n) == Halves(y, n)
    decreases n
  {
    if n > 0 {
      assert Feed(y, 0) == Half(y);
      hide Feed, Low, Half;
      ShiftClear(Half(y), n - 1);
    }
  }

  lemma {:induction false} ShiftSum(x: bv32, m: nat, n: nat)
    ensures Shift(x, m + n) == Shift(Shift(x, m), n)
    decreases m
  {
    hide Feed;
    if m > 0 {
      ShiftSum(Feed(x, 0), m - 1, n);
    }
  }

  lemma HalvesFour(x: bv32)
    ensures Halves(x, 4) == Upper(x)
  {
    FourHalves(x);
    hide Half;
    assert Halves(Half(Half(x)), 2) == Half(Half(Half(Half(x))));
  }

  lemma FourHalves(x: bv32)
    ensures Half(Half(Half(Half(x)))) == Upper(x)
  {
  }

  lemma ClearOf(x: bv32)
    requires x & 0xff == 0
    ensures Clear(x, 8)
  {
    assert Low(x) == 0 && Low(Half(x)) == 0 && Low(Half(Half(x))) == 0 && Low(Half(Half(Half(x)))) == 0;
    var y := Half(Half(Half(Half(x))));
    assert Low(y) == 0 && Low(Half(y)) == 0 && Low(Half(Half(y))) == 0 && Low(Half(Half(Half(y)))) == 0;
    hide Low, Half;
    assert Clear(y, 4);
  }

  lemma ShiftFour(x: bv32)
    ensures Shift(x, 4) == Feed(Feed(Feed(Feed(x, 0), 0), 0), 0)
  {
    hide Feed;
    assert Shift(Feed(Feed(x, 0), 0), 2) == Feed(Feed(Feed(Feed(x, 0), 0), 0), 0);
  }

  lemma FourFeeds(x: bv32)
    ensures Feed(Feed(Feed(Feed(x, 0), 0), 0), 0) == Xor(Table16(Nibble(x)), Upper(x))
  {
  }

  /** Shifting four bits out is one look-up in the table of sixteen. */
  lemma Table16Is(x: bv32)
    ensures Shift(x, 4) == Xor(Table16(Nibble(x)), Upper(x))
  {
    hide Feed, Xor, Table16, Nibble, Upper;
    ShiftFour(x);
    FourFeeds(x);
  }

  /** The first row is the small table used twice. */
  lemma FirstRow(l: bv32)
    requires l < 16
    ensures Row0(l) == Xor(Table16(Nibble(Table16(l))), Upper(Table16(l)))
  {
  }

  lemma Rows1To5(l: bv32)
    requires l < 16
    ensures Row1(l) == Xor(Row0(l), 0x1db71064)
    ensures Row2(l) == Xor(Row0(l), 0x3b6e20c8)
    ensures Row3(l) == Xor(Row0(l), 0x26d930ac)
    ensures Row4(l) == Xor(Row0(l), 0x76dc4190)
    ensures Row5(l) == Xor(Row0(l), 0x6b6b51f4)
  {
  }

  lemma Rows6To10(l: bv32)
    requires l < 16
    ensures Row6(l) == Xor(Row0(l), 0x4db26158)
    ensures Row7(l) == Xor(Row0(l), 0x5005713c)
    ensures Row8(l) == Xor(Row0(l), 0xedb88320)
    ensures Row9(l) == Xor(Row0(l), 0xf00f9344)
    ensures Row10(l) == Xor(Row0(l), 0xd6d6a3e8)
  {
  }

  lemma Rows11To15(l: bv32)
    requires l < 16
    ensures Row11(l) == Xor(Row0(l), 0xcb61b38c)
    ensures Row12(l) == Xor(Row0(l), 0x9b64c2b0)
    ensures Row13(l) == Xor(Row0(l), 0x86d3d2d4)
    ensures Row14(l) == Xor(Row0(l), 0xa00ae278)
    ensures Row15(l) == Xor(Row0(l), 0xbdbdf21c)
  {
  }

  /** The other rows are the first one, with an entry of the small table added. */
  lemma TableRows(h: bv32, l: bv32)
    requires h < 16 && l < 16
    ensures TableAt(h, l) == Xor(Row0(l), Table16(h))
  {
    XorZero(Row0(l));
    Rows1To5(l);
    Rows6To10(l);
    Rows11To15(l);
    hide Row0, Row1, Row2, Row3, Row4, Row5, Row6, Row7, Row8, Row9, Row10, Row11, Row12, Row13, Row14, Row15, Xor;
  }

  lemma XorZero(x: bv32)
    ensures Xor(x, 0) == x
  {
  }

  /** The bits of a byte, put into the register and shifted out, are one look-up. */
  lemma Table256Is(i: bv32)
    requires i < 0x100
    ensures Table256(i) == Shift(i, 8)
  {
    var h, l := Upper(i), Nibble(i);
    HighNibble(i);
    TableRows(h, l);
    FirstRow(l);
    XorZero(Table16(h));
    assert Table256(i) == TableAt(h, l);
    hide Row0, TableAt, Nibble, Upper, Xor, Table16, Feed, Shift;
    ShiftSum(i, 4, 4);
    Table16Is(i);
    ShiftLinear(Table16(l), h, 4);
    Table16Is(Table16(l));
    Table16Is(h);
  }

  lemma HighNibble(i: bv32)
    requires i < 0x100
    ensures Nibble(Upper(i)) == Upper(i) && Upper(Upper(i)) == 0 && Upper(i) < 16 && Nibble(i) < 16
  {
  }

  // ---------- the methods ----------

  /** One byte with the large table. */
  function LongStep(crc: bv32, c: bv8): bv32 {
    Xor(Table256(Byte(Xor(crc, c as bv32))), Eighth(crc))
  }

  function Eighth(x: bv32): bv32 {
    x >> 8
  }

  function Byte(x: bv32): bv32 {
    x & 0xff
  }

  function Rest(x: bv32): bv32 {
    x & 0xffffff00
  }

  lemma LongStepIs(crc: bv32, c: bv8)
    ensures LongStep(crc, c) == FeedByte(crc, c)
  {
    var x := Xor(crc, c as bv32);
    var lo, hi := Byte(x), Rest(x);
    ByteIs(crc, c);
    LowHigh(x);
    Table256Is(lo);
    ClearOf(hi);
    HalvesEight(hi);
    EighthXor(crc, c as bv32);
    NoMore(c);
    XorZero(Eighth(crc));
    hide FeedByte, Feed, Low, Half, Xor, Shift, Table256, Byte, Rest, Eighth;
    ShiftLinear(lo, hi, 8);
    ShiftClear(hi, 8);
  }

  lemma LowHigh(x: bv32)
    ensures Xor(Byte(x), Rest(x)) == x && Rest(x) & 0xff == 0 && Eighth(Rest(x)) == Eighth(x) && Byte(x) < 0x100
  {
  }

  lemma EighthXor(a: bv32, b: bv32)
    ensures Eighth(Xor(a, b)) == Xor(Eighth(a), Eighth(b))
  {
  }

  /** A byte is put into the register, and then shifted out. */
  lemma ByteIs(crc: bv32, c: bv8)
    ensures FeedByte(crc, c) == Shift(Xor(crc, c as bv32), 8)
  {
    var b := c as bv32;
    FeedBitsIs(crc, b, 8);
    HalvesEight(b);
    XorZero(FeedBits(crc, b, 8));
    NoMore(c);
    hide Feed, Low, Half, Xor;
  }

  lemma NoMore(c: bv8)
    ensures Eighth(c as bv32) == 0
  {
  }

  lemma {:induction false} HalvesSum(x: bv32, m: nat, n: nat)
    ensures Halves(x, m + n) == Halves(Halves(x, m), n)
    decreases m
  {
    hide Half;
    if m > 0 {
      HalvesSum(Half(x), m - 1, n);
    }
  }

  lemma HalvesEight(x: bv32)
    ensures Halves(x, 8) == Eighth(x)
  {
    HalvesSum(x, 4, 4);
    HalvesFour(x);
    HalvesFour(Upper(x));
    TwoUppers(x);
    hide Halves, Half, Upper, Eighth;
  }

  lemma TwoUppers(x: bv32)
    ensures Upper(Upper(x)) == Eighth(x)
  {
  }

  /** One byte with the small table. */
  function ShortStep(crc: bv32, c: bv8): bv32 {
    var r := Xor(Table16(Nibble(Xor(crc, (c & 0xf) as bv32))), Upper(crc));
    Xor(Table16(Nibble(Xor(r, (c >> 4) as bv32))), Upper(r))
  }

  lemma FirstNibble(crc: bv32, c: bv8)
    ensures Nibble(Xor(crc, c as bv32)) == Nibble(Xor(crc, (c & 0xf) as bv32))
  {
  }

  lemma UpperXor(a: bv32, b: bv32)
    ensures Upper(Xor(a, b)) == Xor(Upper(a), Upper(b))
  {
  }

  lemma UpperByte(c: bv8)
    ensures Upper(c as bv32) == (c >> 4) as bv32 && Upper((c >> 4) as bv32) == 0
  {
  }

  lemma ShortStepIs(crc: bv32, c: bv8)
    ensures ShortStep(crc, c) == FeedByte(crc, c)
  {
    var x := Xor(crc, c as bv32);
    var t := Table16(Nibble(x));
    var r, h := Xor(t, Upper(crc)), (c >> 4) as bv32;
    ByteIs(crc, c);
    FirstNibble(crc, c);
    Table16Is(x);
    Table16Is(Xor(r, h));
    UpperXor(crc, c as bv32);
    UpperByte(c);
    UpperXor(r, h);
    XorZero(Upper(r));
    XorAssociative(t, Upper(crc), h);
    hide FeedByte, Feed, Nibble, Upper, Xor, Shift, Table16;
    ShiftSum(x, 4, 4);
  }

  // ---------- the functions ----------

  /** `ngx_crc32_short` */
  method Short(p: seq<bv8>) returns (r: bv32)
    ensures r == Xor(Serial(ONES, p), ONES)
  {
    hide FeedByte, Feed, Table16, Xor, Nibble, Upper;
    var crc := ONES;
    var i := 0;
    while i < |p|
      invariant 0 <= i <= |p| && Serial(crc, p[i..]) == Serial(ONES, p)
    {
      var c := p[i];
      ShortStepIs(crc, c);
      crc := Xor(Table16(Nibble(Xor(crc, (c & 0xf) as bv32))), Upper(crc));
      crc := Xor(Table16(Nibble(Xor(crc, (c >> 4) as bv32))), Upper(crc));
      assert p[i..][1..] == p[i + 1..];
      i := i + 1;
    }
    return Xor(crc, ONES);
  }

  /** `ngx_crc32_update` */
  method Update(crc: bv32, p: seq<bv8>) returns (c: bv32)
    ensures c == Serial(crc, p)
  {
    hide FeedByte, Feed, Table256, Xor, Byte, Eighth;
    c := crc;
    var i := 0;
    while i < |p|
      invariant 0 <= i <= |p| && Serial(c, p[i..]) == Serial(crc, p)
    {
      LongStepIs(c, p[i]);
      c := Xor(Table256(Byte(Xor(c, p[i] as bv32))), Eighth(c));
      assert p[i..][1..] == p[i + 1..];
      i := i + 1;
    }
  }

  /** `ngx_crc32_long` */
  method Long(p: seq<bv8>) returns (r: bv32)
    ensures r == Xor(Serial(ONES, p), ONES)
  {
    r := Update(ONES, p);
    r := Xor(r, ONES);
  }

  // ---------- properties of the sum ----------

  /** Updates with the parts of a text are one update with the whole text. */
  lemma {:induction false} SerialSplits(crc: bv32, p: seq<bv8>, q: seq<bv8>)
    ensures Serial(crc, p + q) == Serial(Serial(crc, p), q)
    decreases |p|
  {
    hide FeedByte;
    if p == [] {
      assert p + q == q;
    } else {
      assert (p + q)[1..] == p[1..] + q;
      SerialSplits(FeedByte(crc, p[0]), p[1..], q);
    }
  }

  /** The register before a shift is known from the one after it. */
  lemma FeedOneToOne(x: bv32, y: bv32)
    requires Feed(x, 0) == Feed(y, 0)
    ensures x == y
  {
  }

  lemma {:induction false} ShiftOneToOne(x: bv32, y: bv32, n: nat)
    requires Shift(x, n) == Shift(y, n)
    ensures x == y
    decreases n
  {
    hide Feed;
    if n > 0 {
      ShiftOneToOne(Feed(x, 0), Feed(y, 0), n - 1);
      FeedOneToOne(x, y);
    }
  }

  lemma XorOneToOne(x: bv32, y: bv32, c: bv32)
    requires Xor(x, c) == Xor(y, c)
    ensures x == y
  {
  }

  lemma WidenOneToOne(c: bv8, d: bv8)
    requires c as bv32 == d as bv32
    ensures c == d
  {
  }

  lemma {:induction false} SerialOneToOne(x: bv32, y: bv32, p: seq<bv8>)
    requires Serial(x, p) == Serial(y, p)
    ensures x == y
    decreases |p|
  {
    hide FeedByte, Xor, Shift;
    if p != [] {
      SerialOneToOne(FeedByte(x, p[0]), FeedByte(y, p[0]), p[1..]);
      ByteIs(x, p[0]);
      ByteIs(y, p[0]);
      ShiftOneToOne(Xor(x, p[0] as bv32), Xor(y, p[0] as bv32), 8);
      XorOneToOne(x, y, p[0] as bv32);
    }
  }

  /** Texts that differ in one byte have different sums. */
  lemma OneByteIsSeen(p: seq<bv8>, c: bv8, d: bv8, q: seq<bv8>)
    requires c != d
    ensures Xor(Serial(ONES, p + [c] + q), ONES) != Xor(Serial(ONES, p + [d] + q), ONES)
  {
    hide FeedByte, Xor, Shift;
    SerialSplits(ONES, p + [c], q);
    SerialSplits(ONES, p + [d], q);
    SerialSplits(ONES, p, [c]);
    SerialSplits(ONES, p, [d]);
    var x := Serial(ONES, p);
    assert Serial(x, [c]) == FeedByte(x, c) && Serial(x, [d]) == FeedByte(x, d);
    if Serial(FeedByte(x, c), q) == Serial(FeedByte(x, d), q) {
      SerialOneToOne(FeedByte(x, c), FeedByte(x, d), q);
      ByteIs(x, c);
      ByteIs(x, d);
      ShiftOneToOne(Xor(x, c as bv32), Xor(x, d as bv32), 8);
      XorCommutes(x, c as bv32);
      XorCommutes(x, d as bv32);
      XorOneToOne(c as bv32, d as bv32, x);
      WidenOneToOne(c, d);
      assert false;
    }
    if Xor(Serial(FeedByte(x, c), q), ONES) == Xor(Serial(FeedByte(x, d), q), ONES) {
      XorOneToOne(Serial(FeedByte(x, c), q), Serial(FeedByte(x, d), q), ONES);
    }
  }
}
