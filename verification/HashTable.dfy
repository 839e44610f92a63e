/** The hash table of `ngx_hash.c`: `ngx_hash_init` packs the elements of each bucket one after the
    other into one block of memory, and `ngx_hash_find` walks over them. */
module HashTable {
  import opened Alignment
  import opened Octets

  const PTR: nat := 8          // sizeof(void *)
  const SHORT: nat := 0x1_0000 // 1 + the largest u_short
  const WORD: nat := 0x1_0000_0000_0000_0000

  /** `ngx_hash_key_t`; a name without data is skipped. */
  datatype Key = Key(name: seq<byte>, hash: nat, value: nat, live: bool)

  /** `NGX_HASH_ELT_SIZE`. */
  function EltSize(len: nat): (r: nat)
    ensures Words(r) && r >= PTR + 2 + len
  {
    PTR + Align(len + 2, PTR)
  }

  /** Lines 43-44: aligning the end of the name gives the start of the next element. */
  lemma StepIsEltSize(at: nat, len: nat)
    requires Words(at)
    ensures Align(at + PTR + 2 + len, PTR) == at + EltSize(len)
  {
  }

  // ---------- numbers in memory ----------

  function Enc(v: nat, n: nat): (s: seq<byte>)
    ensures |s| == n
  {
    if n == 0 then [] else [v % 256] + Enc(v / 256, n - 1)
  }

  function Dec(s: seq<byte>): nat {
    if s == [] then 0 else s[0] + 256 * Dec(s[1..])
  }

  ghost function Limit(n: nat): nat {
    if n == 0 then 1 else 256 * Limit(n - 1)
  }

  lemma {:induction false} DecEnc(v: nat, n: nat)
    requires v < Limit(n)
    ensures Dec(Enc(v, n)) == v
  {
    if n > 0 {
      DecEnc(v / 256, n - 1);
      assert Enc(v, n)[1..] == Enc(v / 256, n - 1);
    }
  }

  lemma Limits()
    ensures Limit(2) == SHORT && Limit(8) == WORD
  {
    assert Limit(4) == 0x1_0000_0000;
    assert Limit(6) == 0x1_0000_0000_0000;
  }

  // ---------- the layout ----------

  function ToLower(c: byte): byte {
    if 65 <= c <= 90 then c + 32 else c
  }

  function Lower(s: seq<byte>): (r: seq<byte>)
    ensures |r| == |s|
  {
    seq(|s|, i requires 0 <= i < |s| => ToLower(s[i]))
  }

  function BucketOf(k: Key, size: nat): (b: nat)
    requires size > 0
    ensures b < size
  {
    k.hash % size
  }

  /** `n` bytes are whole words. */
  predicate Words(n: nat) {
    n % PTR == 0
  }

  lemma WordsAdd(a: nat, b: nat)
    requires Words(a) && Words(b)
    ensures Words(a + b)
  {
  }

  /** Name `n` goes to bucket `b`. */
  predicate Goes(keys: seq<Key>, size: nat, b: nat, n: nat)
    requires n < |keys| && size > 0
  {
    keys[n].live && BucketOf(keys[n], size) == b
  }

  /** The bytes of the elements of bucket `b` among the first `n` names. */
  function Sum(keys: seq<Key>, size: nat, b: nat, n: nat): (r: nat)
    requires n <= |keys| && size > 0
    ensures Words(r)
  {
    if n == 0 then 0 else if Goes(keys, size, b, n - 1) then WordsAdd(Sum(keys, size, b, n - 1), EltSize(|keys[n - 1].name|)); Sum(keys, size, b, n - 1) + EltSize(|keys[n - 1].name|) else Sum(keys, size, b, n - 1)
  }

  lemma {:induction false} SumMono(keys: seq<Key>, size: nat, b: nat, m: nat, n: nat)
    requires m <= n <= |keys| && size > 0
    ensures Sum(keys, size, b, m) <= Sum(keys, size, b, n)
    ensures m < n && Goes(keys, size, b, m) ==> Sum(keys, size, b, m) + EltSize(|keys[m].name|) <= Sum(keys, size, b, n)
    decreases n
  {
    if m < n { SumMono(keys, size, b, m, n - 1); }
  }

  /** The bytes set aside for bucket `b`: its elements and a null, in whole cache lines. */
  function Region(keys: seq<Key>, size: nat, line: nat, b: nat): nat
    requires size > 0 && line > 0
  {
    var s := Sum(keys, size, b, |keys|);
    if s == 0 then 0 else Align(PTR + s, line)
  }

  lemma RegionFacts(keys: seq<Key>, size: nat, line: nat, b: nat)
    requires size > 0 && line > 0 && Words(line)
    ensures Words(Region(keys, size, line, b))
    ensures var s := Sum(keys, size, b, |keys|); s > 0 ==> PTR + s <= Region(keys, size, line, b) < PTR + s + line
  {
    hide Sum;
    var s := Sum(keys, size, b, |keys|);
    if s > 0 { ModChain(Align(PTR + s, line), line); }
    hide Align;
  }

  function Base(keys: seq<Key>, size: nat, line: nat, b: nat): nat
    requires size > 0 && line > 0
  {
    if b == 0 then 0 else Base(keys, size, line, b - 1) + Region(keys, size, line, b - 1)
  }

  lemma {:induction false} BaseMono(keys: seq<Key>, size: nat, line: nat, a: nat, b: nat)
    requires size > 0 && line > 0
    ensures a <= b ==> Base(keys, size, line, a) <= Base(keys, size, line, b)
    ensures a < b ==> Base(keys, size, line, a) + Region(keys, size, line, a) <= Base(keys, size, line, b)
    decreases b
  {
    hide Region;
    if b > 0 { BaseMono(keys, size, line, a, b - 1); }
  }

  lemma {:induction false} BaseAligned(keys: seq<Key>, size: nat, line: nat, b: nat)
    requires size > 0 && line > 0 && Words(line)
    ensures Words(Base(keys, size, line, b))
    decreases b
  {
    if b > 0 {
      BaseAligned(keys, size, line, b - 1);
      RegionFacts(keys, size, line, b - 1);
      hide Region, Words;
      WordsAdd(Base(keys, size, line, b - 1), Region(keys, size, line, b - 1));
    }
  }

  lemma ModChain(n: nat, line: nat)
    requires line > 0 && Words(line) && n % line == 0
    ensures Words(n)
  {
    var q, k := n / line, line / PTR;
    assert n == q * line && line == k * PTR;
    assert q * (k * PTR) == (q * k) * PTR;
    Multiple(q * k, PTR);
  }

  /** Where the element of name `n` starts. */
  function Place(keys: seq<Key>, size: nat, line: nat, n: nat): nat
    requires n < |keys| && size > 0 && line > 0
  {
    var b := BucketOf(keys[n], size);
    Base(keys, size, line, b) + Sum(keys, size, b, n)
  }

  /** An element lies in the region of its bucket, before the null that ends it. */
  lemma PlaceInside(keys: seq<Key>, size: nat, line: nat, n: nat)
    requires n < |keys| && size > 0 && line > 0 && Words(line) && keys[n].live
    ensures var b, at := BucketOf(keys[n], size), Place(keys, size, line, n);
      && Base(keys, size, line, b) <= at && Words(at)
      && at + EltSize(|keys[n].name|) + PTR <= Base(keys, size, line, b) + Region(keys, size, line, b)
      && at + EltSize(|keys[n].name|) + PTR <= Base(keys, size, line, size)
  {
    var b := BucketOf(keys[n], size);
    assert Goes(keys, size, b, n);
    hide Goes, Sum, Region, Base, EltSize, Words, BucketOf;
    SumMono(keys, size, b, n, |keys|);
    BaseMono(keys, size, line, b, size);
    BaseAligned(keys, size, line, b);
    WordsAdd(Base(keys, size, line, b), Sum(keys, size, b, n));
    RegionFacts(keys, size, line, b);
  }

  /** The elements of two names do not overlap. */
  lemma PlacesApart(keys: seq<Key>, size: nat, line: nat, m: nat, n: nat)
    requires m < n < |keys| && size > 0 && line > 0 && Words(line) && keys[m].live && keys[n].live
    ensures var p, q := Place(keys, size, line, m), Place(keys, size, line, n);
      p + EltSize(|keys[m].name|) <= q || q + EltSize(|keys[n].name|) <= p
  {
    var a, b := BucketOf(keys[m], size), BucketOf(keys[n], size);
    PlaceInside(keys, size, line, m);
    PlaceInside(keys, size, line, n);
    SumMono(keys, size, b, m, n);
    BaseMono(keys, size, line, if a < b then a else b, if a < b then b else a);
  }

  // ---------- the size search ----------

  /** Every name fits a bucket: lines 260-269. */
  ghost predicate NamesFit(keys: seq<Key>, bucketSize: nat) {
    forall n :: 0 <= n < |keys| ==> EltSize(|keys[n].name|) + PTR <= bucketSize
  }

  /** What the check counts for bucket `b` after `n` names, in a `u_short`. */
  function Held(keys: seq<Key>, size: nat, b: nat, n: nat): nat
    requires n <= |keys| && size > 0
  {
    if n == 0 then 0
    else if Goes(keys, size, b, n - 1) then (Held(keys, size, b, n - 1) + EltSize(|keys[n - 1].name|)) % SHORT
    else Held(keys, size, b, n - 1)
  }

  /** Line 303 for one name: the room is cut to a `u_short` as well. */
  predicate Over(keys: seq<Key>, size: nat, room: nat, n: nat)
    requires n < |keys| && size > 0
  {
    keys[n].live && Held(keys, size, BucketOf(keys[n], size), n + 1) > room % SHORT
  }

  ghost predicate Accepted(keys: seq<Key>, size: nat, room: nat)
    requires size > 0
  {
    forall n: nat :: n < |keys| ==> !Over(keys, size, room, n)
  }

  /** No bucket needs more than there is. */
  ghost predicate AllRoom(keys: seq<Key>, size: nat, room: nat)
    requires size > 0
  {
    forall b: nat :: Sum(keys, size, b, |keys|) <= room
  }

  ghost predicate Refused(keys: seq<Key>, lo: nat, hi: nat, room: nat)
    requires lo > 0
  {
    forall s :: lo <= s < hi ==> !Accepted(keys, s, room)
  }

  datatype Search = LongName | NoSize(size: nat) | Found(size: nat)

  /** Lines 278-283: where the search begins. */
  function Begin(n: nat, room: nat, maxSize: nat): (size: nat)
    requires room >= 2 * PTR
    ensures size > 0
  {
    if maxSize > 10000 && n > 0 && maxSize / n < 100 then maxSize - 1000
    else if n / (room / (2 * PTR)) == 0 then 1 else n / (room / (2 * PTR))
  }

  /** Lines 260-320: a name that fits no bucket, or the first size that the check accepts. If there is
      none, line 322 goes on with a size for which `test` is too short. */
  method FindSize(keys: seq<Key>, bucketSize: nat, maxSize: nat) returns (r: Search)
    requires 3 * PTR <= bucketSize
    ensures r.LongName? <==> !NamesFit(keys, bucketSize)
    ensures r.Found? ==>
      && Begin(|keys|, bucketSize - PTR, maxSize) <= r.size <= maxSize && Accepted(keys, r.size, bucketSize - PTR)
      && Refused(keys, Begin(|keys|, bucketSize - PTR, maxSize), r.size, bucketSize - PTR)
    ensures r.NoSize? ==> Refused(keys, Begin(|keys|, bucketSize - PTR, maxSize), maxSize + 1, bucketSize - PTR) && r.size > maxSize
  {
    hide EltSize, Accepted;
    var n := 0;
    while n < |keys|
      invariant n <= |keys| && forall k :: 0 <= k < n ==> EltSize(|keys[k].name|) + PTR <= bucketSize
    {
      if bucketSize < EltSize(|keys[n].name|) + PTR {
        return LongName;
      }
      n := n + 1;
    }
    var test := new nat[maxSize];
    var room := bucketSize - PTR;
    var size := Begin(|keys|, room, maxSize);
    while size <= maxSize
      invariant size >= Begin(|keys|, room, maxSize) && Refused(keys, Begin(|keys|, room, maxSize), size, room)
    {
      var ok := Check(keys, room, size, test);
      if ok {
        return Found(size);
      }
      size := size + 1;
    }
    return NoSize(size);
  }

  /** `test` has what was counted for the first `n` names. */
  ghost predicate Counts(keys: seq<Key>, size: nat, test: seq<nat>, n: nat)
    requires n <= |keys| && size > 0
  {
    |test| >= size && forall b: nat :: b < size ==> test[b] == Held(keys, size, b, n)
  }

  lemma CountsStep(keys: seq<Key>, size: nat, test: seq<nat>, n: nat)
    requires n < |keys| && size > 0 && Counts(keys, size, test, n)
    ensures !keys[n].live ==> Counts(keys, size, test, n + 1)
    ensures var b := BucketOf(keys[n], size);
      keys[n].live ==> b < |test| && Counts(keys, size, test[b := (test[b] + EltSize(|keys[n].name|)) % SHORT], n + 1)
  {
    hide EltSize;
  }

  /** Lines 287-308: the check of one size. */
  method Check(keys: seq<Key>, room: nat, size: nat, test: array<nat>) returns (ok: bool)
    requires 1 <= size <= test.Length
    modifies test
    ensures ok == Accepted(keys, size, room)
  {
    hide Held, Counts, EltSize;
    forall i | 0 <= i < size { test[i] := 0; }
    NothingCounted(keys, size, test[..]);
    var n := 0;
    while n < |keys|
      invariant n <= |keys| && Counts(keys, size, test[..], n) && forall k: nat :: k < n ==> !Over(keys, size, room, k)
    {
      CountsStep(keys, size, test[..], n);
      if keys[n].live {
        var key := BucketOf(keys[n], size);
        test[key] := (test[key] + EltSize(|keys[n].name|)) % SHORT;
        CountedAt(keys, size, test[..], n + 1, key);
        if test[key] > room % SHORT {
          assert Over(keys, size, room, n);
          return false;
        }
      }
      n := n + 1;
    }
    return true;
  }

  lemma NothingCounted(keys: seq<Key>, size: nat, test: seq<nat>)
    requires 0 < size <= |test| && forall i :: 0 <= i < size ==> test[i] == 0
    ensures Counts(keys, size, test, 0)
  {
  }

  lemma CountedAt(keys: seq<Key>, size: nat, test: seq<nat>, n: nat, b: nat)
    requires n <= |keys| && b < size && Counts(keys, size, test, n)
    ensures test[b] == Held(keys, size, b, n)
  {
  }

  /** In buckets of less than 32 KiB what is accepted was counted without wrapping around. */
  lemma {:induction false} HeldAccepted(keys: seq<Key>, size: nat, room: nat, b: nat, n: nat)
    requires n <= |keys| && size > 0 && 2 * room < SHORT && NamesFit(keys, room + PTR) && Accepted(keys, size, room)
    ensures Held(keys, size, b, n) == Sum(keys, size, b, n) <= room
  {
    hide EltSize;
    if n > 0 {
      HeldAccepted(keys, size, room, b, n - 1);
      assert !Over(keys, size, room, n - 1);
    }
  }

  lemma {:induction false} HeldRoom(keys: seq<Key>, size: nat, room: nat, b: nat, n: nat)
    requires n <= |keys| && size > 0 && room < SHORT && AllRoom(keys, size, room)
    ensures Held(keys, size, b, n) == Sum(keys, size, b, n) <= room
  {
    SumMono(keys, size, b, n, |keys|);
    assert Sum(keys, size, b, n) <= Sum(keys, size, b, |keys|) <= room;
    hide EltSize, AllRoom, Goes;
    if n > 0 {
      HeldRoom(keys, size, room, b, n - 1);
      NoCut(Sum(keys, size, b, n));
    }
  }

  lemma NoCut(n: nat)
    requires n < SHORT
    ensures n % SHORT == n
  {
  }

  /** In buckets of less than 32 KiB the check accepts exactly what fits. */
  lemma AcceptedFits(keys: seq<Key>, size: nat, room: nat)
    requires size > 0 && 2 * room < SHORT && NamesFit(keys, room + PTR)
    ensures Accepted(keys, size, room) <==> AllRoom(keys, size, room)
  {
    hide EltSize, Held, Sum;
    if Accepted(keys, size, room) {
      forall b: nat ensures Sum(keys, size, b, |keys|) <= room {
        HeldAccepted(keys, size, room, b, |keys|);
      }
    }
    if AllRoom(keys, size, room) {
      forall n: nat | n < |keys| ensures !Over(keys, size, room, n) {
        HeldRoom(keys, size, room, BucketOf(keys[n], size), n + 1);
      }
    }
  }

  // ---------- buckets too large for u_short ----------

  /** Whatever the names, the check accepts a size when and only when they fit. */
  ghost predicate CheckIsExact(room: nat) {
    forall keys: seq<Key>, size: nat :: size > 0 && NamesFit(keys, room + PTR) ==> (Accepted(keys, size, room) <==> AllRoom(keys, size, room))
  }

  /** `n` names of one length, all of one hash. */
  function Alike(n: nat, len: nat): (keys: seq<Key>)
    ensures |keys| == n && forall i :: 0 <= i < n ==> keys[i] == Key(seq(len, _ => 0), 0, 1, true)
  {
    seq(n, _ => Key(seq(len, _ => 0), 0, 1, true))
  }

  lemma {:induction false} AlikeSum(n: nat, len: nat, m: nat)
    requires m <= n
    ensures Sum(Alike(n, len), 1, 0, m) == m * EltSize(len)
  {
    hide EltSize;
    if m > 0 {
      AlikeSum(n, len, m - 1);
      assert m * EltSize(len) == (m - 1) * EltSize(len) + EltSize(len);
    }
  }

  lemma {:induction false} HeldWords(keys: seq<Key>, size: nat, b: nat, n: nat)
    requires n <= |keys| && size > 0
    ensures Words(Held(keys, size, b, n)) && Held(keys, size, b, n) < SHORT
  {
    hide EltSize;
    if n > 0 {
      HeldWords(keys, size, b, n - 1);
      if Goes(keys, size, b, n - 1) {
        WordsCut(Held(keys, size, b, n - 1) + EltSize(|keys[n - 1].name|));
        WordsAdd(Held(keys, size, b, n - 1), EltSize(|keys[n - 1].name|));
      }
    }
  }

  lemma WordsCut(n: nat)
    ensures Words(n) ==> Words(n % SHORT)
  {
    assert n == n / SHORT * SHORT + n % SHORT;
  }

  const HALF_NAME: nat := SHORT / 2 - PTR - 2
  const FULL_NAME: nat := SHORT - 2 * PTR - 2

  lemma TwoSizes()
    ensures EltSize(HALF_NAME) == SHORT / 2 && EltSize(FULL_NAME) == SHORT - PTR
  {
  }

  /** From 32 to 64 KiB: two names that fill twice the bucket are accepted, the sum is 0 again. */
  lemma TwoHalves(room: nat)
    requires SHORT / 2 <= room < SHORT
    ensures var keys := Alike(2, HALF_NAME); NamesFit(keys, room + PTR) && Accepted(keys, 1, room) && !AllRoom(keys, 1, room)
  {
    TwoSizes();
    hide EltSize;
    var keys := Alike(2, HALF_NAME);
    AlikeSum(2, HALF_NAME, 2);
    assert Held(keys, 1, 0, 0) == 0 && Held(keys, 1, 0, 1) == SHORT / 2 && Held(keys, 1, 0, 2) == 0;
    forall n: nat | n < 2 ensures !Over(keys, 1, room, n) {
      assert n == 0 || n == 1;
    }
  }

  /** From 64 KiB on: a name that fits is refused, since the room is cut. */
  lemma RoomCut(room: nat)
    requires room >= SHORT && room % SHORT < SHORT - PTR
    ensures var keys := Alike(1, FULL_NAME); NamesFit(keys, room + PTR) && !Accepted(keys, 1, room) && AllRoom(keys, 1, room)
  {
    TwoSizes();
    hide EltSize;
    var keys := Alike(1, FULL_NAME);
    AlikeSum(1, FULL_NAME, 1);
    assert Held(keys, 1, 0, 0) == 0 && Held(keys, 1, 0, 1) == SHORT - PTR;
    assert Over(keys, 1, room, 0);
    forall b: nat ensures Sum(keys, 1, b, 1) <= room {
      if b > 0 { NoneThere(keys, 1, b, 1); }
    }
  }

  /** Or, if the room is cut to as much as a sum can be, everything is accepted. */
  lemma AllAccepted(room: nat)
    requires room >= SHORT && room % SHORT >= SHORT - PTR
    ensures var keys := Alike(room / (SHORT / 2) + 1, HALF_NAME);
      NamesFit(keys, room + PTR) && Accepted(keys, 1, room) && !AllRoom(keys, 1, room)
  {
    TwoSizes();
    hide EltSize;
    var n := room / (SHORT / 2) + 1;
    var keys := Alike(n, HALF_NAME);
    AlikeSum(n, HALF_NAME, n);
    HalvesOver(room);
    hide Sum, Held, Alike;
    forall k: nat | k < n ensures !Over(keys, 1, room, k) {
      HeldBelow(keys, 1, BucketOf(keys[k], 1), k + 1);
    }
  }

  lemma HalvesOver(room: nat)
    ensures (room / (SHORT / 2) + 1) * (SHORT / 2) > room
  {
  }

  lemma HeldBelow(keys: seq<Key>, size: nat, b: nat, n: nat)
    requires n <= |keys| && size > 0
    ensures Held(keys, size, b, n) <= SHORT - PTR
  {
    HeldWords(keys, size, b, n);
    TopWord(Held(keys, size, b, n));
    hide Held, Words;
  }

  lemma TopWord(n: nat)
    requires Words(n) && n < SHORT
    ensures n <= SHORT - PTR
  {
    var q := n / PTR;
    assert n == q * 8;
    assert q <= 8191;
  }

  /** The check with its `u_short` is exact for all names when and only when the buckets have less
      than 32 KiB. */
  lemma CheckExactIff(room: nat)
    ensures CheckIsExact(room) <==> 2 * room < SHORT
  {
    hide EltSize, Held, Sum, Accepted, AllRoom, NamesFit;
    if 2 * room < SHORT {
      forall keys: seq<Key>, size: nat | size > 0 && NamesFit(keys, room + PTR)
        ensures Accepted(keys, size, room) <==> AllRoom(keys, size, room)
      {
        AcceptedFits(keys, size, room);
      }
    } else if room < SHORT {
      TwoHalves(room);
    } else if room % SHORT < SHORT - PTR {
      RoomCut(room);
    } else {
      AllAccepted(room);
    }
  }

  /** `test` has what the first `n` names need in each bucket, on top of `more`. */
  ghost predicate Sums(keys: seq<Key>, size: nat, test: seq<nat>, n: nat, more: nat)
    requires n <= |keys| && size > 0
  {
    |test| >= size && forall b: nat :: b < size ==> test[b] == more + Sum(keys, size, b, n)
  }

  /** One more name. */
  lemma SumsStep(keys: seq<Key>, size: nat, test: seq<nat>, n: nat, more: nat)
    requires n < |keys| && size > 0 && Sums(keys, size, test, n, more)
    ensures !keys[n].live ==> Sums(keys, size, test, n + 1, more)
    ensures var b := BucketOf(keys[n], size);
      keys[n].live ==> b < |test| && Sums(keys, size, test[b := test[b] + EltSize(|keys[n].name|)], n + 1, more)
  {
    hide EltSize;
  }

  lemma {:induction false} NoneThere(keys: seq<Key>, size: nat, b: nat, n: nat)
    requires n <= |keys| && 0 < size <= b
    ensures Sum(keys, size, b, n) == 0
  {
    if n > 0 {
      NoneThere(keys, size, b, n - 1);
    }
  }

  lemma HashZero(k: Key, size: nat)
    requires size > 0 && k.hash == 0
    ensures BucketOf(k, size) == 0
  {
  }

  lemma HeldMore(keys: seq<Key>, size: nat, n: nat, len: nat)
    requires size > 0 && n < |keys| && keys[n].live && keys[n].hash == 0 && |keys[n].name| == len
    ensures BucketOf(keys[n], size) == 0
    ensures Held(keys, size, 0, n + 1) == (Held(keys, size, 0, n) + EltSize(len)) % SHORT
  {
    HashZero(keys[n], size);
    hide EltSize, BucketOf;
  }

  lemma SixteenBytes()
    ensures EltSize(6) == 16
  {
  }

  /** Two names of one hash that fit a bucket of 24 bytes, but not together: no size is accepted. */
  lemma NoSizeAccepted(size: nat)
    requires size > 0
    ensures NamesFit(Alike(2, 6), 24) && !Accepted(Alike(2, 6), size, 16)
  {
    hide EltSize, BucketOf, Alike;
    SixteenBytes();
    var keys := Alike(2, 6);
    assert Held(keys, size, 0, 0) == 0;
    HeldMore(keys, size, 0, 6);
    HeldMore(keys, size, 1, 6);
    hide Held;
    assert Over(keys, size, 16, 1);
  }

  // ---------- elements in memory ----------

  /** The bytes of an element: value, length, lower-case name. */
  function Image(k: Key): (s: seq<byte>)
    ensures |s| == PTR + 2 + |k.name|
  {
    Enc(k.value, PTR) + Enc(|k.name|, 2) + Lower(k.name)
  }

  /** The element of `k` is at `at`. */
  ghost predicate HasElt(mem: seq<byte>, at: nat, k: Key) {
    && at + EltSize(|k.name|) <= |mem| && Dec(mem[at..at + PTR]) == k.value
    && Dec(mem[at + PTR..at + PTR + 2]) == |k.name| && mem[at + PTR + 2..at + PTR + 2 + |k.name|] == Lower(k.name)
  }

  /** A null value ends a bucket. */
  ghost predicate HasNull(mem: seq<byte>, at: nat) {
    at + PTR <= |mem| && Dec(mem[at..at + PTR]) == 0
  }

  function Poke(mem: seq<byte>, at: nat, s: seq<byte>): (r: seq<byte>)
    requires at + |s| <= |mem|
    ensures |r| == |mem|
  {
    mem[..at] + s + mem[at + |s|..]
  }

  lemma PokeSame(mem: seq<byte>, at: nat, s: seq<byte>)
    requires at + |s| <= |mem|
    ensures Poke(mem, at, s)[at..at + |s|] == s
  {
  }

  lemma PokeOther(mem: seq<byte>, at: nat, s: seq<byte>, lo: nat, hi: nat)
    requires at + |s| <= |mem| && lo <= hi <= |mem| && (hi <= at || at + |s| <= lo)
    ensures Poke(mem, at, s)[lo..hi] == mem[lo..hi]
  {
  }

  ghost predicate KeyOk(k: Key) {
    0 < k.value < WORD && |k.name| < SHORT
  }

  lemma PokedElt(mem: seq<byte>, at: nat, k: Key)
    requires KeyOk(k) && at + EltSize(|k.name|) <= |mem|
    ensures HasElt(Poke(mem, at, Image(k)), at, k)
  {
    var s, m := Image(k), Poke(mem, at, Image(k));
    PokeSame(mem, at, s);
    Limits();
    DecEnc(k.value, PTR);
    DecEnc(|k.name|, 2);
    assert m[at..at + PTR] == s[..PTR] == Enc(k.value, PTR) by { Part(m, at, s, 0, PTR); }
    assert m[at + PTR..at + PTR + 2] == s[PTR..PTR + 2] == Enc(|k.name|, 2) by { Part(m, at, s, PTR, PTR + 2); }
    assert m[at + PTR + 2..at + |s|] == s[PTR + 2..] == Lower(k.name) by { Part(m, at, s, PTR + 2, |s|); }
  }

  lemma Part(m: seq<byte>, at: nat, s: seq<byte>, lo: nat, hi: nat)
    requires at + |s| <= |m| && m[at..at + |s|] == s && lo <= hi <= |s|
    ensures m[at + lo..at + hi] == s[lo..hi]
  {
    forall i | 0 <= i < hi - lo ensures m[at + lo..at + hi][i] == s[lo..hi][i] {
      assert m[at..at + |s|][lo + i] == m[at + lo + i];
    }
  }

  lemma EltKept(mem: seq<byte>, at: nat, s: seq<byte>, p: nat, k: Key)
    requires at + |s| <= |mem| && HasElt(mem, p, k) && (p + EltSize(|k.name|) <= at || at + |s| <= p)
    ensures HasElt(Poke(mem, at, s), p, k)
  {
    PokeOther(mem, at, s, p, p + PTR);
    PokeOther(mem, at, s, p + PTR, p + PTR + 2);
    PokeOther(mem, at, s, p + PTR + 2, p + PTR + 2 + |k.name|);
    hide Poke, Dec, Lower;
  }

  ghost predicate EltAt(mem: seq<byte>, keys: seq<Key>, size: nat, line: nat, j: nat)
    requires size > 0 && line > 0
  {
    j < |keys| && keys[j].live ==> HasElt(mem, Place(keys, size, line, j), keys[j])
  }

  /** The elements of the first `n` names are in memory. */
  ghost predicate Filled(mem: seq<byte>, keys: seq<Key>, size: nat, line: nat, n: nat)
    requires size > 0 && line > 0
  {
    |mem| == Base(keys, size, line, size) && forall j: nat :: j < n ==> EltAt(mem, keys, size, line, j)
  }

  ghost predicate Geometry(keys: seq<Key>, size: nat, line: nat) {
    size > 0 && line > 0 && Words(line) && forall j :: 0 <= j < |keys| && keys[j].live ==> KeyOk(keys[j])
  }

  lemma FillStep(mem: seq<byte>, keys: seq<Key>, size: nat, line: nat, n: nat)
    requires Geometry(keys, size, line) && n < |keys| && keys[n].live && Filled(mem, keys, size, line, n)
    ensures Place(keys, size, line, n) + PTR + 2 + |keys[n].name| <= |mem|
    ensures Filled(Poke(mem, Place(keys, size, line, n), Image(keys[n])), keys, size, line, n + 1)
  {
    PlaceInside(keys, size, line, n);
    var at, s := Place(keys, size, line, n), Image(keys[n]);
    PokedElt(mem, at, keys[n]);
    hide Poke, Image, Place, Base, Region, HasElt, Dec, Lower;
    forall j: nat | j < n + 1 ensures EltAt(Poke(mem, at, s), keys, size, line, j) {
      if j < n && keys[j].live {
        assert EltAt(mem, keys, size, line, j);
        PlacesApart(keys, size, line, j, n);
        EltKept(mem, at, s, Place(keys, size, line, j), keys[j]);
      }
    }
  }

  /** Where the null of bucket `b` is. */
  function End(keys: seq<Key>, size: nat, line: nat, b: nat): nat
    requires size > 0 && line > 0
  {
    Base(keys, size, line, b) + Sum(keys, size, b, |keys|)
  }

  ghost predicate NullAt(mem: seq<byte>, keys: seq<Key>, size: nat, line: nat, b: nat)
    requires size > 0 && line > 0
  {
    Sum(keys, size, b, |keys|) > 0 ==> HasNull(mem, End(keys, size, line, b))
  }

  /** All elements are there, and the nulls of the first `n` buckets. */
  ghost predicate Ended(mem: seq<byte>, keys: seq<Key>, size: nat, line: nat, n: nat)
    requires size > 0 && line > 0
  {
    Filled(mem, keys, size, line, |keys|) && forall b: nat :: b < n ==> NullAt(mem, keys, size, line, b)
  }

  lemma EndInside(keys: seq<Key>, size: nat, line: nat, b: nat)
    requires Geometry(keys, size, line) && b < size && Sum(keys, size, b, |keys|) > 0
    ensures End(keys, size, line, b) + PTR <= Base(keys, size, line, b) + Region(keys, size, line, b) <= Base(keys, size, line, size)
  {
    RegionFacts(keys, size, line, b);
    BaseMono(keys, size, line, b, size);
  }

  lemma EndApart(keys: seq<Key>, size: nat, line: nat, b: nat, j: nat)
    requires Geometry(keys, size, line) && b < size && Sum(keys, size, b, |keys|) > 0 && j < |keys| && keys[j].live
    ensures var at, e := Place(keys, size, line, j), End(keys, size, line, b); at + EltSize(|keys[j].name|) <= e || e + PTR <= at
  {
    var a := BucketOf(keys[j], size);
    EndInside(keys, size, line, b);
    PlaceInside(keys, size, line, j);
    SumMono(keys, size, a, j, |keys|);
    BaseMono(keys, size, line, if a < b then a else b, if a < b then b else a);
  }

  lemma EndStep(mem: seq<byte>, keys: seq<Key>, size: nat, line: nat, b: nat)
    requires Geometry(keys, size, line) && b < size && Ended(mem, keys, size, line, b)
    ensures Sum(keys, size, b, |keys|) == 0 ==> Ended(mem, keys, size, line, b + 1)
    ensures Sum(keys, size, b, |keys|) > 0 ==>
      (End(keys, size, line, b) + PTR <= |mem| && Ended(Poke(mem, End(keys, size, line, b), Enc(0, PTR)), keys, size, line, b + 1))
  {
    hide HasElt, Dec, Poke, Lower, Enc, Place, Base, Region, EltSize, Sum;
    if Sum(keys, size, b, |keys|) > 0 {
      EndInside(keys, size, line, b);
      var e, s := End(keys, size, line, b), Enc(0, PTR);
      var m := Poke(mem, e, s);
      NullWritten(mem, e);
      forall j: nat | j < |keys| ensures EltAt(m, keys, size, line, j) {
        if keys[j].live {
          assert EltAt(mem, keys, size, line, j);
          EndApart(keys, size, line, b, j);
          EltKept(mem, e, s, Place(keys, size, line, j), keys[j]);
        }
      }
      forall c: nat | c < b + 1 ensures NullAt(m, keys, size, line, c) {
        if c < b && Sum(keys, size, c, |keys|) > 0 {
          assert NullAt(mem, keys, size, line, c);
          EndInside(keys, size, line, c);
          BaseMono(keys, size, line, c, b);
          PokeOther(mem, e, s, End(keys, size, line, c), End(keys, size, line, c) + PTR);
        }
      }
    }
  }

  lemma NullWritten(mem: seq<byte>, at: nat)
    requires at + PTR <= |mem|
    ensures HasNull(Poke(mem, at, Enc(0, PTR)), at)
  {
    Limits();
    DecEnc(0, PTR);
    PokeSame(mem, at, Enc(0, PTR));
  }

  // ---------- the table ----------

  /** The buckets point to where their elements start; a bucket without elements is null. */
  ghost predicate Pointed(buckets: seq<int>, keys: seq<Key>, size: nat, line: nat)
    requires size > 0 && line > 0
  {
    |buckets| == size && forall b: nat :: b < size ==> buckets[b] == BucketStart(keys, size, line, b)
  }

  const NIL: int := -1

  function BucketStart(keys: seq<Key>, size: nat, line: nat, b: nat): int
    requires size > 0 && line > 0
  {
    if Sum(keys, size, b, |keys|) == 0 then NIL else Base(keys, size, line, b)
  }

  /** What a walk from name `n` on finds in bucket `b`. */
  ghost function First(keys: seq<Key>, size: nat, b: nat, name: seq<byte>, n: nat): nat
    requires n <= |keys| && size > 0
    decreases |keys| - n
  {
    if n == |keys| then 0
    else if Goes(keys, size, b, n) && Lower(keys[n].name) == name then keys[n].value
    else First(keys, size, b, name, n + 1)
  }

  /** The next name of the bucket, or the end of the names. */
  ghost function Next(keys: seq<Key>, size: nat, b: nat, n: nat): (m: nat)
    requires n <= |keys| && size > 0
    ensures n <= m <= |keys| && (m < |keys| ==> Goes(keys, size, b, m))
    ensures Sum(keys, size, b, n) == Sum(keys, size, b, m)
    decreases |keys| - n
  {
    if n == |keys| || Goes(keys, size, b, n) then n else Next(keys, size, b, n + 1)
  }

  lemma {:induction false} FirstNext(keys: seq<Key>, size: nat, b: nat, name: seq<byte>, n: nat)
    requires n <= |keys| && size > 0
    ensures First(keys, size, b, name, n) == First(keys, size, b, name, Next(keys, size, b, n))
    decreases |keys| - n
  {
    if n < |keys| && !Goes(keys, size, b, n) { FirstNext(keys, size, b, name, n + 1); }
  }

  class Hash {
    const size: nat
    const line: nat
    const buckets: array<int>
    const elts: array<byte>
    ghost const keys: seq<Key>

    ghost predicate Valid()
      reads this, buckets, elts
    {
      Geometry(keys, size, line) && Pointed(buckets[..], keys, size, line) && Ended(elts[..], keys, size, line, size)
    }

    /** Lines 322-419, once a size was found. Bucket sizes stay below the range of `u_short`. */
    constructor (ks: seq<Key>, n: nat, cacheLine: nat, ghost room: nat)
      requires Geometry(ks, n, cacheLine) && PTR + room + cacheLine <= SHORT
      requires forall b: nat :: Sum(ks, n, b, |ks|) <= room
      ensures Valid() && keys == ks && size == n && fresh(buckets) && fresh(elts)
    {
      size, line, keys := n, cacheLine, ks;
      var test := new nat[n];
      var starts := new int[n];
      var len := Measure(ks, n, cacheLine, room, test);
      Point(ks, n, cacheLine, test, starts);
      var mem := new byte[len];
      Fill(ks, n, cacheLine, room, test, mem);
      Finish(ks, n, cacheLine, test, starts, mem);
      buckets, elts := starts, mem;
    }

    /** Lines 12-49: the value of the first name of the bucket that is the name looked for. */
    method Find(key: nat, name: seq<byte>) returns (value: nat)
      requires Valid()
      ensures value == First(keys, size, key % size, name, 0)
    {
      ghost var b := key % size;
      var elt := buckets[key % size];
      Entry(buckets[..], keys, size, line, b, name);
      hide HasElt, Dec, Base, Sum, Next, Lower, Align, Goes, Ended, Words, Geometry, EltSize;
      if elt == NIL {
        return 0;
      }
      ghost var n := 0;
      var at: nat := elt;
      while true
        invariant n <= |keys| && at == Base(keys, size, line, b) + Sum(keys, size, b, n)
        invariant First(keys, size, b, name, 0) == First(keys, size, b, name, n)
        decreases |keys| - n
      {
        ghost var m := Next(keys, size, b, n);
        FirstNext(keys, size, b, name, n);
        var found, next;
        found, value, next := Visit(b, n, at, name);
        if found {
          return;
        }
        at := next;
        n := m + 1;
      }
    }

    /** Lines 24-45: one element, from the end of the last one on; `found` ends the walk. */
    method Visit(ghost b: nat, ghost n: nat, at: nat, name: seq<byte>) returns (found: bool, value: nat, next: nat)
      requires Valid() && b < size && n <= |keys| && Sum(keys, size, b, |keys|) > 0 && at == Base(keys, size, line, b) + Sum(keys, size, b, n)
      ensures var m := Next(keys, size, b, n);
        if m == |keys| then found && value == 0
        else if Lower(keys[m].name) == name then found && value == keys[m].value
        else !found && next == Base(keys, size, line, b) + Sum(keys, size, b, m + 1)
    {
      hide HasElt, Dec, Base, Next, Lower, Align, Ended, Words, EltSize, Pointed, First;
      AtWalk(elts[..], keys, size, line, b, n);
      value := Dec(elts[at..at + PTR]);
      if value == 0 {
        return true, 0, at;
      }
      var len := Dec(elts[at + PTR..at + PTR + 2]);
      if len == |name| {
        var same := SameName(at + PTR + 2, name);
        if same {
          return true, value, at;
        }
      }
      StepIsEltSize(at, len);
      return false, value, Align(at + PTR + 2 + len, PTR);
    }

    /** Lines 33-37. */
    method SameName(at: nat, name: seq<byte>) returns (same: bool)
      requires at + |name| <= elts.Length
      ensures same <==> elts[at..at + |name|] == name
    {
      var i := 0;
      while i < |name|
        invariant i <= |name| && forall j :: 0 <= j < i ==> elts[at + j] == name[j]
      {
        if name[i] != elts[at + i] {
          assert elts[at..at + |name|][i] != name[i];
          return false;
        }
        i := i + 1;
      }
      return true;
    }
  }

  lemma {:induction false} NothingThere(keys: seq<Key>, size: nat, b: nat, name: seq<byte>, n: nat)
    requires n <= |keys| && size > 0 && Sum(keys, size, b, |keys|) == 0
    ensures First(keys, size, b, name, n) == 0
    decreases |keys| - n
  {
    if n < |keys| {
      SumMono(keys, size, b, n, |keys|);
      NothingThere(keys, size, b, name, n + 1);
    }
  }

  lemma Entry(buckets: seq<int>, keys: seq<Key>, size: nat, line: nat, b: nat, name: seq<byte>)
    requires size > 0 && line > 0 && Pointed(buckets, keys, size, line) && b < size
    ensures buckets[b] == NIL ==> First(keys, size, b, name, 0) == 0
    ensures buckets[b] != NIL ==> buckets[b] == Base(keys, size, line, b) + Sum(keys, size, b, 0) && Sum(keys, size, b, |keys|) > 0
  {
    assert buckets[b] == BucketStart(keys, size, line, b);
    if buckets[b] == NIL { NothingThere(keys, size, b, name, 0); }
  }

  /** What is in memory where a walk over bucket `b` is. */
  lemma AtWalk(mem: seq<byte>, keys: seq<Key>, size: nat, line: nat, b: nat, n: nat)
    requires Geometry(keys, size, line) && Ended(mem, keys, size, line, size) && b < size && n <= |keys| && Sum(keys, size, b, |keys|) > 0
    ensures var at, m := Base(keys, size, line, b) + Sum(keys, size, b, n), Next(keys, size, b, n);
      && Words(at) && at + PTR <= |mem|
      && (m == |keys| ==> Dec(mem[at..at + PTR]) == 0)
      && (m < |keys| ==>
           && Goes(keys, size, b, m) && at + EltSize(|keys[m].name|) == Base(keys, size, line, b) + Sum(keys, size, b, m + 1)
           && at + PTR + 2 + |keys[m].name| <= |mem| && Dec(mem[at..at + PTR]) == keys[m].value > 0
           && Dec(mem[at + PTR..at + PTR + 2]) == |keys[m].name|
           && mem[at + PTR + 2..at + PTR + 2 + |keys[m].name|] == Lower(keys[m].name))
  {
    var m := Next(keys, size, b, n);
    BaseAligned(keys, size, line, b);
    WordsAdd(Base(keys, size, line, b), Sum(keys, size, b, n));
    hide Dec, Lower, Next, Base, Words, Region;
    if m < |keys| {
      assert EltAt(mem, keys, size, line, m) && Place(keys, size, line, m) == Base(keys, size, line, b) + Sum(keys, size, b, m);
    } else {
      assert NullAt(mem, keys, size, line, b);
    }
  }

  /** Lines 324-347: the bytes of every bucket, and of all together. */
  method Measure(keys: seq<Key>, size: nat, line: nat, ghost room: nat, test: array<nat>) returns (len: nat)
    requires Geometry(keys, size, line) && test.Length == size && PTR + room + line <= SHORT
    requires forall b: nat :: Sum(keys, size, b, |keys|) <= room
    modifies test
    ensures len == Base(keys, size, line, size)
    ensures forall b: nat :: b < size ==> test[b] == Measured(keys, size, line, b)
  {
    forall i | 0 <= i < size { test[i] := PTR; }
    AddAll(keys, size, room, PTR, test);
    len := 0;
    var i := 0;
    while i < size
      invariant i <= size && len == Base(keys, size, line, i)
      invariant forall b: nat :: b < i ==> test[b] == Measured(keys, size, line, b)
      invariant forall b: nat :: i <= b < size ==> test[b] == PTR + Sum(keys, size, b, |keys|)
    {
      Rounds(keys, size, line, i, room);
      hide Sum, Align, Region, Measured;
      if test[i] != PTR {
        test[i] := Align(test[i], line) % SHORT;
        len := len + test[i];
      }
      i := i + 1;
    }
  }

  lemma Rounds(keys: seq<Key>, size: nat, line: nat, b: nat, room: nat)
    requires size > 0 && line > 0 && Sum(keys, size, b, |keys|) <= room && PTR + room + line <= SHORT
    ensures var s := Sum(keys, size, b, |keys|);
      if s == 0 then Measured(keys, size, line, b) == PTR && Region(keys, size, line, b) == 0
      else Align(PTR + s, line) % SHORT == Region(keys, size, line, b) == Measured(keys, size, line, b)
  {
    hide Sum;
  }

  ghost function Measured(keys: seq<Key>, size: nat, line: nat, b: nat): nat
    requires size > 0 && line > 0
  {
    if Sum(keys, size, b, |keys|) == 0 then PTR else Region(keys, size, line, b)
  }

  /** Lines 328-335 and the additions of lines 390-404. */
  method AddAll(keys: seq<Key>, size: nat, ghost room: nat, ghost more: nat, test: array<nat>)
    requires size > 0 && test.Length == size && more + room < SHORT
    requires forall b: nat :: Sum(keys, size, b, |keys|) <= room
    requires forall b: nat :: b < size ==> test[b] == more
    modifies test
    ensures forall b: nat :: b < size ==> test[b] == more + Sum(keys, size, b, |keys|)
  {
    var n := 0;
    while n < |keys|
      invariant n <= |keys| && Sums(keys, size, test[..], n, more)
    {
      SumsStep(keys, size, test[..], n, more);
      if keys[n].live {
        var key := BucketOf(keys[n], size);
        NoWrap(keys, size, test[..], n, more, room);
        hide Sums, Sum, EltSize, BucketOf;
        Bump(test, key, EltSize(|keys[n].name|));
      }
      n := n + 1;
    }
  }

  /** `test[key] = (u_short) (test[key] + elt)`. */
  method Bump(test: array<nat>, key: nat, elt: nat)
    requires key < test.Length && test[key] + elt < SHORT
    modifies test
    ensures test[..] == old(test[..])[key := old(test[key]) + elt]
  {
    test[key] := (test[key] + elt) % SHORT;
  }

  lemma NoWrap(keys: seq<Key>, size: nat, test: seq<nat>, n: nat, more: nat, room: nat)
    requires size > 0 && n < |keys| && keys[n].live && Sums(keys, size, test, n, more) && more + room < SHORT
    requires forall b: nat :: Sum(keys, size, b, |keys|) <= room
    ensures var key := BucketOf(keys[n], size); key < |test| && test[key] + EltSize(|keys[n].name|) < SHORT && test[key] == more + Sum(keys, size, key, n)
  {
    var key := BucketOf(keys[n], size);
    SumMono(keys, size, key, n, |keys|);
    assert Goes(keys, size, key, n) && Sum(keys, size, key, |keys|) <= room;
    hide EltSize, BucketOf;
  }

  /** Lines 376-384. */
  method Point(keys: seq<Key>, size: nat, line: nat, test: array<nat>, buckets: array<int>)
    requires Geometry(keys, size, line) && test.Length == size == buckets.Length
    requires forall b: nat :: b < size ==> test[b] == Measured(keys, size, line, b)
    modifies buckets
    ensures Pointed(buckets[..], keys, size, line)
  {
    forall i | 0 <= i < size { buckets[i] := NIL; }
    var elts, i := 0, 0;
    hide Sum, Align;
    while i < size
      invariant i <= size && elts == Base(keys, size, line, i)
      invariant forall b: nat :: b < i ==> buckets[b] == BucketStart(keys, size, line, b)
      invariant forall b: nat :: i <= b < size ==> buckets[b] == NIL
    {
      MeasuredIsPtr(keys, size, line, i);
      if test[i] != PTR {
        buckets[i] := elts;
        elts := elts + test[i];
      }
      i := i + 1;
    }
  }

  lemma MeasuredIsPtr(keys: seq<Key>, size: nat, line: nat, b: nat)
    requires size > 0 && line > 0 && Words(line)
    ensures Measured(keys, size, line, b) == PTR <==> Sum(keys, size, b, |keys|) == 0
  {
    RegionFacts(keys, size, line, b);
  }

  /** Lines 386-404. */
  method Fill(keys: seq<Key>, size: nat, line: nat, ghost room: nat, test: array<nat>, mem: array<byte>)
    requires Geometry(keys, size, line) && test.Length == size && mem.Length == Base(keys, size, line, size) && room < SHORT
    requires forall b: nat :: Sum(keys, size, b, |keys|) <= room
    modifies test, mem
    ensures Filled(mem[..], keys, size, line, |keys|)
    ensures forall b: nat :: b < size ==> test[b] == Sum(keys, size, b, |keys|)
  {
    forall i | 0 <= i < size { test[i] := 0; }
    var n := 0;
    while n < |keys|
      invariant n <= |keys| && Sums(keys, size, test[..], n, 0) && Filled(mem[..], keys, size, line, n)
    {
      SumsStep(keys, size, test[..], n, 0);
      if keys[n].live {
        var key := BucketOf(keys[n], size);
        NoWrap(keys, size, test[..], n, 0, room);
        FillStep(mem[..], keys, size, line, n);
        hide Sums, Sum, EltSize, Filled, Image, Poke, Base;
        StoreElt(mem, Base(keys, size, line, key) + test[key], keys[n]);
        Bump(test, key, EltSize(|keys[n].name|));
      } else {
        Skipped(mem[..], keys, size, line, n);
      }
      n := n + 1;
    }
  }

  lemma Skipped(mem: seq<byte>, keys: seq<Key>, size: nat, line: nat, n: nat)
    requires size > 0 && line > 0 && n < |keys| && !keys[n].live && Filled(mem, keys, size, line, n)
    ensures Filled(mem, keys, size, line, n + 1)
  {
  }

  method StoreBytes(mem: array<byte>, at: nat, s: seq<byte>)
    requires at + |s| <= mem.Length
    modifies mem
    ensures mem[..] == Poke(old(mem[..]), at, s)
  {
    forall i | 0 <= i < |s| { mem[at + i] := s[i]; }
  }

  /** Lines 398-401; the name is stored by `ngx_strlow`. */
  method StoreElt(mem: array<byte>, at: nat, k: Key)
    requires at + PTR + 2 + |k.name| <= mem.Length
    modifies mem
    ensures mem[..] == Poke(old(mem[..]), at, Image(k))
  {
    hide Poke, Lower, Enc;
    StoreBytes(mem, at, Enc(k.value, PTR));
    StoreBytes(mem, at + PTR, Enc(|k.name|, 2));
    PokeTwice(old(mem[..]), at, Enc(k.value, PTR), Enc(|k.name|, 2));
    StoreLower(mem, at + PTR + 2, k.name);
    PokeTwice(old(mem[..]), at, Enc(k.value, PTR) + Enc(|k.name|, 2), Lower(k.name));
  }

  /** `ngx_strlow` */
  method StoreLower(mem: array<byte>, at: nat, name: seq<byte>)
    requires at + |name| <= mem.Length
    modifies mem
    ensures mem[..] == Poke(old(mem[..]), at, Lower(name))
  {
    ghost var m, low := mem[..], Lower(name);
    assert m == Poke(m, at, low[..0]);
    var i := 0;
    while i < |name|
      invariant i <= |name| && mem[..] == Poke(m, at, low[..i])
    {
      PokeMore(m, at, low[..i], low[i]);
      assert low[..i + 1] == low[..i] + [low[i]] && low[i] == ToLower(name[i]);
      hide Poke, Lower;
      mem[at + i] := ToLower(name[i]);
      i := i + 1;
    }
    assert low[..i] == low;
  }

  lemma PokeTwice(mem: seq<byte>, at: nat, s: seq<byte>, r: seq<byte>)
    requires at + |s| + |r| <= |mem|
    ensures Poke(Poke(mem, at, s), at + |s|, r) == Poke(mem, at, s + r)
  {
  }

  lemma PokeMore(mem: seq<byte>, at: nat, s: seq<byte>, c: byte)
    requires at + |s| < |mem|
    ensures Poke(mem, at, s)[at + |s| := c] == Poke(mem, at, s + [c])
  {
  }

  /** Lines 406-414. */
  method Finish(keys: seq<Key>, size: nat, line: nat, test: array<nat>, buckets: array<int>, mem: array<byte>)
    requires Geometry(keys, size, line) && test.Length == size == buckets.Length && Pointed(buckets[..], keys, size, line)
    requires Filled(mem[..], keys, size, line, |keys|)
    requires forall b: nat :: b < size ==> test[b] == Sum(keys, size, b, |keys|)
    modifies mem
    ensures Ended(mem[..], keys, size, line, size)
  {
    var i := 0;
    while i < size
      invariant i <= size && Ended(mem[..], keys, size, line, i)
    {
      EndStep(mem[..], keys, size, line, i);
      assert buckets[i] == buckets[..][i] == BucketStart(keys, size, line, i);
      if buckets[i] != NIL {
        hide Ended, Base, Sum;
        StoreBytes(mem, buckets[i] + test[i], Enc(0, PTR));
      }
      i := i + 1;
    }
  }

  // ---------- what the table answers ----------

  /** The hashes are those of a function of the lower-case name, and no name comes twice. */
  ghost predicate Proper(keys: seq<Key>, h: seq<byte> -> nat) {
    && (forall n :: 0 <= n < |keys| && keys[n].live ==> keys[n].hash == h(Lower(keys[n].name)))
    && (forall m, n :: 0 <= m < n < |keys| && keys[m].live && keys[n].live ==> Lower(keys[m].name) != Lower(keys[n].name))
  }

  ghost predicate Named(keys: seq<Key>, n: nat, name: seq<byte>) {
    n < |keys| && keys[n].live && Lower(keys[n].name) == name
  }

  /** Under its own hash every name gets its value, and what is no name gets nothing. */
  lemma {:induction false} FindsExactly(keys: seq<Key>, size: nat, h: seq<byte> -> nat, name: seq<byte>, n: nat)
    requires size > 0 && Proper(keys, h) && n <= |keys|
    ensures forall j: nat :: j >= n && Named(keys, j, name) ==> First(keys, size, h(name) % size, name, n) == keys[j].value
    ensures (forall j: nat :: j >= n ==> !Named(keys, j, name)) ==> forall b: nat :: First(keys, size, b, name, n) == 0
    decreases |keys| - n
  {
    if n < |keys| {
      FindsExactly(keys, size, h, name, n + 1);
      if Named(keys, n, name) {
        assert Goes(keys, size, h(name) % size, n);
      }
    }
  }

  /** `ngx_hash_init` and then `ngx_hash_find`: with buckets of less than 32 KiB, if a size is found,
      every name has its value, under its own hash, and what is no name has none. */
  method InitAndFind(keys: seq<Key>, bucketSize: nat, maxSize: nat, line: nat, h: seq<byte> -> nat, name: seq<byte>)
    returns (r: Search, value: nat)
    requires 3 * PTR <= bucketSize && 2 * (bucketSize - PTR) < SHORT && bucketSize + line <= SHORT
    requires Geometry(keys, 1, line) && Proper(keys, h)
    ensures r.LongName? <==> !NamesFit(keys, bucketSize)
    ensures r.Found? ==> r.size > 0 && AllRoom(keys, r.size, bucketSize - PTR)
    ensures r.NoSize? ==> NoneFits(keys, Begin(|keys|, bucketSize - PTR, maxSize), maxSize + 1, bucketSize - PTR)
    ensures r.Found? ==> forall n: nat :: Named(keys, n, name) ==> value == keys[n].value
    ensures r.Found? && (forall n: nat :: !Named(keys, n, name)) ==> value == 0
  {
    hide Accepted, AllRoom, NamesFit, First;
    value := 0;
    r := FindSize(keys, bucketSize, maxSize);
    if r.Found? {
      AcceptedFits(keys, r.size, bucketSize - PTR);
      BucketsFit(keys, r.size, bucketSize - PTR);
      var hash := new Hash(keys, r.size, line, bucketSize - PTR);
      FindsExactly(keys, r.size, h, name, 0);
      value := hash.Find(h(name), name);
    } else if r.NoSize? {
      RefusedFits(keys, Begin(|keys|, bucketSize - PTR, maxSize), maxSize + 1, bucketSize - PTR);
    }
  }

  ghost predicate NoneFits(keys: seq<Key>, lo: nat, hi: nat, room: nat)
    requires lo > 0
  {
    forall size :: lo <= size < hi ==> !AllRoom(keys, size, room)
  }

  lemma RefusedFits(keys: seq<Key>, lo: nat, hi: nat, room: nat)
    requires lo > 0 && Refused(keys, lo, hi, room) && 2 * room < SHORT && NamesFit(keys, room + PTR)
    ensures NoneFits(keys, lo, hi, room)
  {
    forall size | lo <= size < hi ensures !AllRoom(keys, size, room) {
      AcceptedFits(keys, size, room);
    }
    hide Accepted, AllRoom, NamesFit;
  }

  lemma BucketsFit(keys: seq<Key>, size: nat, room: nat)
    requires size > 0 && AllRoom(keys, size, room)
    ensures forall b: nat :: Sum(keys, size, b, |keys|) <= room
  {
  }
}
