/** The hashes inside a wildcard index are hashes of `ngx_hash_init`: looking up a label in the packed
    buckets gives the row that `Wildcard.Lookup` gives. */
module WildcardHash {
  import opened HashTable
  import opened Octets
  import opened Options
  import opened Wildcard

  /** A label as bytes; labels are lower-case. */
  predicate Label(s: string) {
    forall i :: 0 <= i < |s| ==> s[i] as nat < 256 && !('A' <= s[i] <= 'Z')
  }

  function Bytes(s: string): (b: seq<byte>)
    requires Label(s)
    ensures |b| == |s|
  {
    seq(|s|, i requires 0 <= i < |s| => s[i] as nat)
  }

  lemma BytesEqual(s: string, t: string)
    requires Label(s) && Label(t)
    ensures Bytes(s) == Bytes(t) <==> s == t
    ensures Lower(Bytes(s)) == Bytes(s)
  {
    if Bytes(s) == Bytes(t) {
      forall i | 0 <= i < |s| ensures s[i] == t[i] {
        assert Bytes(s)[i] == Bytes(t)[i];
      }
    }
  }

  ghost predicate Labels(rows: seq<Row>) {
    forall i :: 0 <= i < |rows| ==> Label(rows[i].key)
  }

  /** The names that `ngx_hash_init` is given for the rows; `word` is how an entry is stored. */
  function KeysOf(rows: seq<Row>, h: seq<byte> -> nat, word: Entry -> nat): (keys: seq<Key>)
    requires Labels(rows)
    ensures |keys| == |rows|
  {
    seq(|rows|, i requires 0 <= i < |rows| => Key(Bytes(rows[i].key), h(Bytes(rows[i].key)), word(rows[i].entry), true))
  }

  /** Under the hash of a label the buckets have what the rows have: the word of its entry, or
      NULL. */
  lemma {:induction false} RowsAreFound(rows: seq<Row>, n: nat, h: seq<byte> -> nat, word: Entry -> nat, size: nat, name: string)
    requires size > 0 && Labels(rows) && Label(name) && n <= |rows|
    ensures First(KeysOf(rows, h, word), size, h(Bytes(name)) % size, Bytes(name), n) ==
      match Lookup(rows[n..], name)
      case None => 0
      case Some(e) => word(e)
    decreases |rows| - n
  {
    if n < |rows| {
      RowsAreFound(rows, n + 1, h, word, size, name);
      assert rows[n..][1..] == rows[n + 1..];
      BytesEqual(rows[n].key, name);
      hide Bytes, Lower;
    }
  }

  /** What the code finds for a label in one hash of the index. */
  method FindLabel(hash: Hash, ghost rows: seq<Row>, h: seq<byte> -> nat, ghost word: Entry -> nat, name: string) returns (value: nat)
    requires hash.Valid() && Labels(rows) && Label(name) && hash.keys == KeysOf(rows, h, word)
    ensures value == match Lookup(rows, name)
      case None => 0
      case Some(e) => word(e)
  {
    RowsAreFound(rows, 0, h, word, hash.size, name);
    assert rows[0..] == rows;
    value := hash.Find(h(Bytes(name)), Bytes(name));
  }
}
