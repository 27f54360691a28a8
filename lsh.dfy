/**
 * The banded MinHash LSH index the grouping engine builds for every group
 * (datasketch's MinHashLSH with its in-memory storage). A signature is cut into
 * b bands of r consecutive values; insert files a key under each band's slice
 * in that band's table, and query returns every key that shares at least one
 * band slice with the signature asked about. How b and r follow from the
 * threshold is the library's business and arrives here as two numbers.
 */
module MinHashLsh {

  /** The hash values of a MinHash, one per permutation. */
  type Signature = seq<int>

  /** Band i of a signature, hashvalues[i*r:(i+1)*r], clamped at the end like a slice. */
  function Band(sig: Signature, i: nat, r: nat): (s: seq<int>)
    ensures (i + 1) * r <= |sig| ==> |s| == r
  {
    var lo := if i * r <= |sig| then i * r else |sig|;
    var hi := if (i + 1) * r <= |sig| then (i + 1) * r else |sig|;
    sig[lo..hi]
  }

  /** One hash table per band, mapping a band slice to the keys filed under it. */
  datatype Index = Index(b: nat, r: nat, tables: seq<map<seq<int>, set<nat>>>, keys: set<nat>)

  ghost predicate Valid(idx: Index) {
    |idx.tables| == idx.b
  }

  function Empty(b: nat, r: nat): (idx: Index)
    ensures Valid(idx) && idx.b == b && idx.r == r && idx.keys == {}
  {
    Index(b, r, seq(b, _ => map[]), {})
  }

  function Bucket(idx: Index, band: nat, key: seq<int>): set<nat>
    requires band < |idx.tables|
  {
    if key in idx.tables[band] then idx.tables[band][key] else {}
  }

  /** insert(key, minhash); the library refuses a key it already holds. */
  function Insert(idx: Index, key: nat, sig: Signature): (idx': Index)
    requires Valid(idx) && key !in idx.keys
    ensures Valid(idx') && idx'.b == idx.b && idx'.r == idx.r
    ensures idx'.keys == idx.keys + {key}
  {
    var tables := seq(idx.b, i requires 0 <= i < idx.b =>
      idx.tables[i][Band(sig, i, idx.r) := Bucket(idx, i, Band(sig, i, idx.r)) + {key}]);
    Index(idx.b, idx.r, tables, idx.keys + {key})
  }

  /** The union of the buckets that the first `bands` band slices of sig hit. */
  function QueryBands(idx: Index, sig: Signature, bands: nat): set<nat>
    requires Valid(idx) && bands <= idx.b
  {
    if bands == 0 then {}
    else QueryBands(idx, sig, bands - 1) + Bucket(idx, bands - 1, Band(sig, bands - 1, idx.r))
  }

  /** query(minhash): every key filed under any band slice of sig. */
  function Query(idx: Index, sig: Signature): set<nat>
    requires Valid(idx)
  {
    QueryBands(idx, sig, idx.b)
  }

  /** Reference definition of a candidate pair: the signatures agree on some whole band. */
  predicate Collide(s1: Signature, s2: Signature, b: nat, r: nat) {
    exists i :: 0 <= i < b && Band(s1, i, r) == Band(s2, i, r)
  }

  function FiledUnder(sigs: seq<Signature>, n: nat, band: nat, r: nat, key: seq<int>): set<nat>
    requires n <= |sigs|
  {
    set j | 0 <= j < n && Band(sigs[j], band, r) == key
  }

  /** idx holds exactly rows 0..n-1, each filed under its own signature's band slices. */
  ghost predicate Holds(idx: Index, sigs: seq<Signature>, n: nat) {
    && Valid(idx)
    && n <= |sigs|
    && (forall j: nat :: j in idx.keys <==> j < n)
    && forall band, key :: 0 <= band < idx.b ==> Bucket(idx, band, key) == FiledUnder(sigs, n, band, idx.r, key)
  }

  lemma EmptyHolds(b: nat, r: nat, sigs: seq<Signature>)
    ensures Holds(Empty(b, r), sigs, 0)
  {
  }

  /** Inserting row n with its signature extends an index of rows 0..n-1 to rows 0..n. */
  lemma InsertHolds(idx: Index, sigs: seq<Signature>, n: nat)
    requires Holds(idx, sigs, n) && n < |sigs|
    ensures n !in idx.keys
    ensures Holds(Insert(idx, n, sigs[n]), sigs, n + 1)
  {
    var idx' := Insert(idx, n, sigs[n]);
    forall band, key | 0 <= band < idx.b
      ensures Bucket(idx', band, key) == FiledUnder(sigs, n + 1, band, idx.r, key)
    {
      if key == Band(sigs[n], band, idx.r) {
        assert FiledUnder(sigs, n + 1, band, idx.r, key) == FiledUnder(sigs, n, band, idx.r, key) + {n};
      } else {
        assert FiledUnder(sigs, n + 1, band, idx.r, key) == FiledUnder(sigs, n, band, idx.r, key);
      }
    }
  }

  lemma {:induction false} QueryBandsIff(idx: Index, sigs: seq<Signature>, n: nat, sig: Signature, bands: nat, j: nat)
    requires Holds(idx, sigs, n) && bands <= idx.b
    ensures j in QueryBands(idx, sig, bands) <==>
            j < n && exists i :: 0 <= i < bands && Band(sigs[j], i, idx.r) == Band(sig, i, idx.r)
  {
    if bands > 0 {
      QueryBandsIff(idx, sigs, n, sig, bands - 1, j);
      assert j in Bucket(idx, bands - 1, Band(sig, bands - 1, idx.r)) <==>
             j < n && Band(sigs[j], bands - 1, idx.r) == Band(sig, bands - 1, idx.r);
    }
  }

  /** query returns exactly the stored rows whose signature collides with sig in some band. */
  lemma QueryIff(idx: Index, sigs: seq<Signature>, n: nat, sig: Signature, j: nat)
    requires Holds(idx, sigs, n)
    ensures j in Query(idx, sig) <==> j < n && Collide(sigs[j], sig, idx.b, idx.r)
  {
    QueryBandsIff(idx, sigs, n, sig, idx.b, j);
  }

  /** With at least one band, a stored row is always among the answers to its own signature. */
  lemma QueryFindsSelf(idx: Index, sigs: seq<Signature>, n: nat, j: nat)
    requires Holds(idx, sigs, n) && idx.b >= 1 && j < n
    ensures j in Query(idx, sigs[j])
  {
    QueryIff(idx, sigs, n, sigs[j], j);
    assert Band(sigs[j], 0, idx.r) == Band(sigs[j], 0, idx.r);
  }

  /** Being a candidate of each other is symmetric between stored rows. */
  lemma QuerySymmetric(idx: Index, sigs: seq<Signature>, n: nat, i: nat, j: nat)
    requires Holds(idx, sigs, n) && i < n && j < n
    ensures i in Query(idx, sigs[j]) <==> j in Query(idx, sigs[i])
  {
    QueryIff(idx, sigs, n, sigs[j], i);
    QueryIff(idx, sigs, n, sigs[i], j);
  }

  /** Every answer is a stored row. */
  lemma QueryWithinKeys(idx: Index, sigs: seq<Signature>, n: nat, sig: Signature)
    requires Holds(idx, sigs, n)
    ensures forall j :: j in Query(idx, sig) ==> j < n
  {
    forall j | j in Query(idx, sig) ensures j < n {
      QueryIff(idx, sigs, n, sig, j);
    }
  }
}
