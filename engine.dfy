/**
 * The pass that Akin._index_field makes over one field of a data source, in
 * both versions of the program: tokenise and sign every row (caching the result
 * on the row under the group id), file every row in a MinHash LSH index, then
 * sweep the rows once to collect duplicate groups. The two versions differ only
 * in how the group id is spelt and in whether a cached signature may be
 * recomputed, so both are parameters here.
 */
module Engine {
  import opened Text
  import opened MinHashLsh

  /** A CSV row: column name to cell text. */
  type Row = map<string, string>

  /**
   * What a row caches for one group id: the MinHash (the row key <id>) and the
   * number of tokens fed to it (the row key <id>_len).
   */
  datatype Cached = Cached(signature: Signature, count: int)

  /**
   * MinHash(num_perm) after update() with every token. The library is
   * deterministic and a MinHash depends only on the set of tokens it has seen.
   */
  type MinHasher = (int, set<string>) -> Signature

  /**
   * The two external choices of the datasketch library: the MinHash of a token
   * set, and the number of bands b and rows per band r that MinHashLSH derives
   * from str(threshold) and num_perm.
   */
  datatype Sketch = Sketch(minhash: MinHasher, bands: (string, int) -> (nat, nat))

  /** How a template cuts a value into tokens. */
  datatype Tokenizer = Tokenizer(shingling: bool, shingleLength: int)

  function Elements<T>(s: seq<T>): set<T> {
    set x | x in s
  }

  // ---------------------------------------------------------------------------
  // Tokenisation

  /** [s[i:i + k] for i in range(len(s) - k + 1)] */
  function Windows(s: string, k: int): (ws: seq<string>)
    ensures |ws| == if |s| - k + 1 > 0 then |s| - k + 1 else 0
    ensures 0 <= k ==> forall i :: 0 <= i < |ws| ==> |ws[i]| == k && ws[i] == s[i..i + k]
  {
    var count := if |s| - k + 1 > 0 then |s| - k + 1 else 0;
    var ws := seq(count, i requires 0 <= i < count => PySlice(s, i, i + k));
    assert forall i :: 0 <= i < count ==> ws[i] == PySlice(s, i, i + k);
    ws
  }

  /** w occurs in s starting at position i. */
  predicate OccursAt(s: string, w: string, i: int) {
    0 <= i <= |s| - |w| && s[i..i + |w|] == w
  }

  /**
   * The tokens of one cell: the value is always lower-cased first; then either
   * its shingles, produced only when the value is longer than the shingle
   * length, or its whitespace-separated words.
   */
  function Tokens(value: string, t: Tokenizer): seq<string> {
    var v := Lower(value);
    if t.shingling then
      (if |v| > t.shingleLength then Windows(v, t.shingleLength) else [])
    else
      Words(v)
  }

  /** The signature and token count that hashing a cell produces. */
  function HashOf(value: string, t: Tokenizer, numPerm: int, minhash: MinHasher): Cached {
    var tokens := Tokens(value, t);
    Cached(minhash(numPerm, Elements(tokens)), |tokens|)
  }

  /**
   * In shingle mode a value of length n > k gives n - k + 1 windows of length k,
   * and a value of length n <= k gives none (not the whole value as one token).
   */
  lemma ShingleCount(value: string, k: int, numPerm: int, minhash: MinHasher)
    ensures |Tokens(value, Tokenizer(true, k))| == if |value| > k then |value| - k + 1 else 0
    ensures |value| == k ==> HashOf(value, Tokenizer(true, k), numPerm, minhash).count == 0
  {
  }

  /** A token in shingle mode is exactly a length-k substring of the lower-cased value. */
  lemma ShingleIsSubstring(value: string, k: nat, w: string)
    ensures w in Tokens(value, Tokenizer(true, k)) <==>
            |value| > k && |w| == k && exists i :: OccursAt(Lower(value), w, i)
  {
    var v := Lower(value);
    if |value| > k && |w| == k && exists i :: OccursAt(v, w, i) {
      var i :| OccursAt(v, w, i);
      assert Windows(v, k)[i] == w;
    }
    if w in Tokens(value, Tokenizer(true, k)) {
      var i :| 0 <= i < |Windows(v, k)| && Windows(v, k)[i] == w;
      assert OccursAt(v, w, i);
    }
  }

  /** In word mode a cell counts zero tokens exactly when it is empty or blank. */
  lemma WordCountZeroIffBlank(value: string, k: int, numPerm: int, minhash: MinHasher)
    ensures HashOf(value, Tokenizer(false, k), numPerm, minhash).count == 0 <==>
            forall i :: 0 <= i < |value| ==> IsSpace(value[i])
  {
    WordsEmptyIffBlank(Lower(value));
  }

  /** Word mode yields one token per word of the lower-cased value. */
  lemma WordTokensOfJoinedWords(ws: seq<string>, k: int)
    requires forall i :: 0 <= i < |ws| ==> IsWord(ws[i]) && Lower(ws[i]) == ws[i]
    ensures Tokens(JoinWith(" ", ws), Tokenizer(false, k)) == ws
  {
    LowerOfJoin(ws);
    SplitJoin(ws);
  }

  lemma {:induction false} LowerOfJoin(ws: seq<string>)
    requires forall i :: 0 <= i < |ws| ==> Lower(ws[i]) == ws[i]
    ensures Lower(JoinWith(" ", ws)) == JoinWith(" ", ws)
  {
    if |ws| > 1 {
      LowerOfJoin(ws[1..]);
      var s := JoinWith(" ", ws);
      assert s == ws[0] + " " + JoinWith(" ", ws[1..]);
      forall i | 0 <= i < |s| ensures Lower(s)[i] == s[i] {
        if i < |ws[0]| {
          assert s[i] == ws[0][i] && Lower(ws[0])[i] == ws[0][i];
        } else if i > |ws[0]| {
          var rest := JoinWith(" ", ws[1..]);
          assert s[i] == rest[i - |ws[0]| - 1] && Lower(rest)[i - |ws[0]| - 1] == rest[i - |ws[0]| - 1];
        }
      }
    }
  }

  /**
   * Hashing never looks at case: values that agree after lower-casing hash
   * alike, whatever the template's case_sensitive flag says.
   */
  lemma HashIgnoresCase(a: string, b: string, t: Tokenizer, numPerm: int, minhash: MinHasher)
    requires Lower(a) == Lower(b)
    ensures HashOf(a, t, numPerm, minhash) == HashOf(b, t, numPerm, minhash)
    ensures HashOf(Lower(a), t, numPerm, minhash) == HashOf(a, t, numPerm, minhash)
  {
    LowerIdempotent(a);
  }

  /**
   * The body of the per-row branch of _index_field: lower-case the cell, feed
   * every token to a fresh MinHash and count them.
   */
  method HashValue(value: string, t: Tokenizer, numPerm: int, minhash: MinHasher) returns (c: Cached)
    ensures c == HashOf(value, t, numPerm, minhash)
  {
    var fieldValue := Lower(value);
    var tokens: seq<string>;
    if t.shingling {
      tokens := if |fieldValue| > t.shingleLength then Windows(fieldValue, t.shingleLength) else [];
    } else {
      tokens := Words(fieldValue);
    }
    var fed: set<string> := {};
    var setLen := 0;
    for i := 0 to |tokens|
      invariant fed == Elements(tokens[..i])
      invariant setLen == i
    {
      assert tokens[..i + 1] == tokens[..i] + [tokens[i]];
      fed := fed + {tokens[i]};
      setLen := setLen + 1;
    }
    assert tokens[..|tokens|] == tokens;
    c := Cached(minhash(numPerm, fed), setLen);
  }

  // ---------------------------------------------------------------------------
  // The rows of a data source and their cached hidden fields

  /**
   * The list of row dicts of a data source. The columns of a row never change;
   * the hidden fields that grouping adds to each row dict are kept beside it in
   * `hidden`, keyed by group id.
   */
  class DataEntries {
    const rows: seq<Row>
    var hidden: seq<map<string, Cached>>

    ghost predicate Valid()
      reads this
    {
      |hidden| == |rows|
    }

    constructor (rows: seq<Row>)
      ensures Valid() && this.rows == rows
      ensures forall i :: 0 <= i < |rows| ==> hidden[i] == map[]
    {
      this.rows := rows;
      hidden := seq(|rows|, _ => map[]);
    }
  }

  /** Every row that the hashing loop will hash has the field to index (else KeyError). */
  ghost predicate CanHash(rows: seq<Row>, hidden: seq<map<string, Cached>>, id: string, field: string, forceRehash: bool)
    requires |hidden| == |rows|
  {
    forall i :: 0 <= i < |rows| && (forceRehash || id !in hidden[i]) ==> field in rows[i]
  }

  /** The hidden fields of one row once the hashing loop has passed it. */
  function Refreshed(h: map<string, Cached>, row: Row, id: string, field: string, t: Tokenizer,
                     numPerm: int, forceRehash: bool, minhash: MinHasher): map<string, Cached>
    requires (forceRehash || id !in h) ==> field in row
  {
    if forceRehash || id !in h then h[id := HashOf(row[field], t, numPerm, minhash)] else h
  }

  ghost predicate AllCached(hidden: seq<map<string, Cached>>, id: string, n: nat) {
    n <= |hidden| && forall i :: 0 <= i < n ==> id in hidden[i]
  }

  function Signatures(hidden: seq<map<string, Cached>>, id: string, n: nat): (sigs: seq<Signature>)
    requires AllCached(hidden, id, n)
    ensures |sigs| == n
  {
    seq(n, i requires 0 <= i < n => hidden[i][id].signature)
  }

  function Counts(hidden: seq<map<string, Cached>>, id: string, n: nat): (counts: seq<int>)
    requires AllCached(hidden, id, n)
    ensures |counts| == n
  {
    seq(n, i requires 0 <= i < n => hidden[i][id].count)
  }

  lemma HoldsAgree(idx: Index, s1: seq<Signature>, s2: seq<Signature>, n: nat)
    requires Holds(idx, s1, n) && n <= |s2|
    requires forall j :: 0 <= j < n ==> s1[j] == s2[j]
    ensures Holds(idx, s2, n)
  {
    forall band, key | 0 <= band < idx.b
      ensures Bucket(idx, band, key) == FiledUnder(s2, n, band, idx.r, key)
    {
      assert FiledUnder(s1, n, band, idx.r, key) == FiledUnder(s2, n, band, idx.r, key);
    }
  }

  /**
   * The first loop of _index_field: hash every row that has no cached value
   * under id (every row when forceRehash), then insert row i into the index
   * under its cached signature.
   */
  method CacheRows(entries: DataEntries, id: string, field: string, t: Tokenizer, numPerm: int,
                   forceRehash: bool, b: nat, r: nat, minhash: MinHasher) returns (lsh: Index)
    requires entries.Valid()
    requires CanHash(entries.rows, entries.hidden, id, field, forceRehash)
    modifies entries
    ensures entries.Valid()
    ensures forall i :: 0 <= i < |entries.rows| ==>
      entries.hidden[i] == Refreshed(old(entries.hidden[i]), entries.rows[i], id, field, t, numPerm, forceRehash, minhash)
    ensures AllCached(entries.hidden, id, |entries.rows|)
    ensures lsh.b == b && lsh.r == r
    ensures Holds(lsh, Signatures(entries.hidden, id, |entries.rows|), |entries.rows|)
  {
    var n := |entries.rows|;
    lsh := Empty(b, r);
    EmptyHolds(b, r, []);
    for i := 0 to n
      invariant entries.Valid()
      invariant forall j :: 0 <= j < i ==>
        entries.hidden[j] == Refreshed(old(entries.hidden[j]), entries.rows[j], id, field, t, numPerm, forceRehash, minhash)
      invariant forall j :: i <= j < n ==> entries.hidden[j] == old(entries.hidden[j])
      invariant AllCached(entries.hidden, id, i)
      invariant lsh.b == b && lsh.r == r
      invariant Holds(lsh, Signatures(entries.hidden, id, i), i)
    {
      ghost var before := Signatures(entries.hidden, id, i);
      var entry := entries.hidden[i];
      if forceRehash || id !in entry {
        var c := HashValue(entries.rows[i][field], t, numPerm, minhash);
        entries.hidden := entries.hidden[i := entry[id := c]];
      }
      ghost var after := Signatures(entries.hidden, id, i + 1);
      HoldsAgree(lsh, before, after, i);
      InsertHolds(lsh, after, i);
      lsh := Insert(lsh, i, entries.hidden[i][id].signature);
    }
  }

  // ---------------------------------------------------------------------------
  // The clustering sweep

  /** The candidates of every row: the index's answer to the row's own signature. */
  function Candidates(lsh: Index, sigs: seq<Signature>): (cands: seq<set<nat>>)
    requires Valid(lsh)
    ensures |cands| == |sigs|
  {
    seq(|sigs|, i requires 0 <= i < |sigs| => Query(lsh, sigs[i]))
  }

  /** The rows marked seen (unseen_indices[j] == 0) when the sweep reaches row i. */
  function SeenBefore(cands: seq<set<nat>>, counts: seq<int>, i: nat): set<nat>
    requires i <= |cands| == |counts|
  {
    if i == 0 then {}
    else
      var seen := SeenBefore(cands, counts, i - 1);
      if i - 1 !in seen && counts[i - 1] != 0 then seen + cands[i - 1] else seen
  }

  /** Row i queries the index: it was not seen by an earlier query and has tokens. */
  predicate Queries(cands: seq<set<nat>>, counts: seq<int>, i: nat)
    requires i < |cands| == |counts|
  {
    i !in SeenBefore(cands, counts, i) && counts[i] != 0
  }

  /** The rows, in sweep order, whose query produced a group (more than one match) before row i. */
  function Seeds(cands: seq<set<nat>>, counts: seq<int>, i: nat): seq<nat>
    requires i <= |cands| == |counts|
  {
    if i == 0 then []
    else Seeds(cands, counts, i - 1) + (if Queries(cands, counts, i - 1) && |cands[i - 1]| > 1 then [i - 1] else [])
  }

  /**
   * groups are the candidate sets of the seeds, in seed order; each group lists
   * its set once, in whatever order the index's answer was iterated.
   */
  ghost predicate GroupsMatch(groups: seq<seq<nat>>, cands: seq<set<nat>>, seeds: seq<nat>) {
    && |groups| == |seeds|
    && forall g :: 0 <= g < |groups| ==>
         seeds[g] < |cands| && Elements(groups[g]) == cands[seeds[g]] && |groups[g]| == |cands[seeds[g]]|
  }

  /**
   * The second loop of _index_field: walk the rows in order; a row already seen
   * or with no tokens is skipped; otherwise every row its query returns is
   * appended to a potential group and marked seen, and the group is kept when it
   * has more than one member.
   */
  method Sweep(lsh: Index, sigs: seq<Signature>, counts: seq<int>) returns (groups: seq<seq<nat>>)
    requires Valid(lsh) && |counts| == |sigs|
    requires forall i, j :: 0 <= i < |sigs| && j in Query(lsh, sigs[i]) ==> j < |sigs|
    ensures GroupsMatch(groups, Candidates(lsh, sigs), Seeds(Candidates(lsh, sigs), counts, |sigs|))
  {
    var n := |sigs|;
    ghost var cands := Candidates(lsh, sigs);
    var allGroups: seq<seq<nat>> := [];
    var unseen := new bool[n](_ => true);
    for i := 0 to n
      invariant forall j :: 0 <= j < n ==> (unseen[j] <==> j !in SeenBefore(cands, counts, i))
      invariant GroupsMatch(allGroups, cands, Seeds(cands, counts, i))
    {
      SweepStep(cands, counts, i);
      if !unseen[i] || counts[i] == 0 {
        continue;
      }
      var potentialGroup, matches := CollectMatches(Query(lsh, sigs[i]), unseen);
      if matches > 1 {
        GroupsMatchAppend(allGroups, cands, Seeds(cands, counts, i), potentialGroup, i);
        allGroups := allGroups + [potentialGroup];
      }
    }
    groups := allGroups;
  }

  /**
   * The inner loop of the sweep: every row the query returned is appended to
   * the potential group, counted, and marked seen.
   */
  method CollectMatches(found: set<nat>, unseen: array<bool>) returns (group: seq<nat>, matches: nat)
    requires forall j :: j in found ==> j < unseen.Length
    modifies unseen
    ensures Elements(group) == found && |group| == |found| && matches == |group|
    ensures forall j :: 0 <= j < unseen.Length ==> (unseen[j] <==> old(unseen[j]) && j !in found)
  {
    group := [];
    matches := 0;
    var pending := found;
    while pending != {}
      invariant pending <= found
      invariant Elements(group) == found - pending
      invariant matches == |group| && matches + |pending| == |found|
      invariant forall j :: 0 <= j < unseen.Length ==> (unseen[j] <==> old(unseen[j]) && j !in Elements(group))
      decreases |pending|
    {
      var j :| j in pending;
      ElementsAppend(group, j);
      assert (found - pending) + {j} == found - (pending - {j});
      pending := pending - {j};
      matches := matches + 1;
      group := group + [j];
      unseen[j] := false;
    }
  }

  lemma ElementsAppend<T>(s: seq<T>, x: T)
    ensures Elements(s + [x]) == Elements(s) + {x}
  {
  }

  /** What visiting row i does to the seen set and to the seeds. */
  lemma SweepStep(cands: seq<set<nat>>, counts: seq<int>, i: nat)
    requires i < |cands| == |counts|
    ensures Queries(cands, counts, i) ==>
      SeenBefore(cands, counts, i + 1) == SeenBefore(cands, counts, i) + cands[i] &&
      Seeds(cands, counts, i + 1) == Seeds(cands, counts, i) + (if |cands[i]| > 1 then [i] else [])
    ensures !Queries(cands, counts, i) ==>
      SeenBefore(cands, counts, i + 1) == SeenBefore(cands, counts, i) &&
      Seeds(cands, counts, i + 1) == Seeds(cands, counts, i)
  {
  }

  lemma GroupsMatchAppend(groups: seq<seq<nat>>, cands: seq<set<nat>>, seeds: seq<nat>, group: seq<nat>, s: nat)
    requires GroupsMatch(groups, cands, seeds)
    requires s < |cands| && Elements(group) == cands[s] && |group| == |cands[s]|
    ensures GroupsMatch(groups + [group], cands, seeds + [s])
  {
  }

  /** Seeds are strictly increasing rows below i, and each one queried and matched more than one row. */
  lemma {:induction false} SeedsShape(cands: seq<set<nat>>, counts: seq<int>, i: nat)
    requires i <= |cands| == |counts|
    ensures forall k :: 0 <= k < |Seeds(cands, counts, i)| ==>
      var s := Seeds(cands, counts, i)[k];
      s < i && Queries(cands, counts, s) && |cands[s]| > 1
    ensures forall k1, k2 :: 0 <= k1 < k2 < |Seeds(cands, counts, i)| ==>
      Seeds(cands, counts, i)[k1] < Seeds(cands, counts, i)[k2]
  {
    if i > 0 {
      SeedsShape(cands, counts, i - 1);
    }
  }

  /** A row seeds a group exactly when it queries and its query returns more than one row. */
  lemma {:induction false} SeedIff(cands: seq<set<nat>>, counts: seq<int>, i: nat, s: nat)
    requires i <= |cands| == |counts|
    ensures s in Seeds(cands, counts, i) <==> s < i && Queries(cands, counts, s) && |cands[s]| > 1
  {
    if i > 0 {
      SeedIff(cands, counts, i - 1, s);
    }
  }

  /** A row is seen when row i is reached exactly when some earlier querying row's answer held it. */
  lemma {:induction false} SeenBeforeIff(cands: seq<set<nat>>, counts: seq<int>, i: nat, j: nat)
    requires i <= |cands| == |counts|
    ensures j in SeenBefore(cands, counts, i) <==>
            exists t :: 0 <= t < i && Queries(cands, counts, t) && j in cands[t]
  {
    if i > 0 {
      SeenBeforeIff(cands, counts, i - 1, j);
      if j in SeenBefore(cands, counts, i) && j !in SeenBefore(cands, counts, i - 1) {
        assert Queries(cands, counts, i - 1) && j in cands[i - 1];
      }
    }
  }

  /**
   * A row returned by an earlier row's query, or with no tokens, never seeds a
   * group; every seed is returned by no earlier query.
   */
  lemma SeedNotClaimedEarlier(cands: seq<set<nat>>, counts: seq<int>, s: nat, t: nat)
    requires s < |cands| == |counts| && t < s
    requires s in Seeds(cands, counts, |cands|)
    ensures counts[s] != 0
    ensures Queries(cands, counts, t) ==> s !in cands[t]
  {
    SeedIff(cands, counts, |cands|, s);
    SeenBeforeIff(cands, counts, s, s);
  }

  /**
   * When every row is among its own candidates (the index always returns a
   * stored row for its own signature), every row with tokens ends up in some
   * query's answer: the sweep leaves no indexable row unexamined.
   */
  lemma EveryIndexableRowIsClaimed(cands: seq<set<nat>>, counts: seq<int>, i: nat)
    requires i < |cands| == |counts|
    requires forall j :: 0 <= j < |cands| ==> j in cands[j]
    requires counts[i] != 0
    ensures i in SeenBefore(cands, counts, i + 1)
  {
  }

  /**
   * Groups can share a row: when row 1 collides with rows 0 and 2 but those two
   * do not collide, row 0 seeds {0, 1}, row 1 is skipped as seen, and row 2 still
   * seeds {1, 2}, because a seen row is still returned by later queries.
   */
  lemma GroupsMayOverlap()
    ensures var cands := [{0, 1}, {0, 1, 2}, {1, 2}];
            var seeds := Seeds(cands, [1, 1, 1], 3);
            seeds == [0, 2] && 1 in cands[seeds[0]] * cands[seeds[1]]
  {
    var cands: seq<set<nat>> := [{0, 1}, {0, 1, 2}, {1, 2}];
    var counts := [1, 1, 1];
    assert SeenBefore(cands, counts, 1) == {0, 1};
    assert SeenBefore(cands, counts, 2) == {0, 1};
    assert |cands[0]| == 2 && |cands[2]| == 2;
    assert Seeds(cands, counts, 1) == [0];
    assert Seeds(cands, counts, 2) == [0];
  }

  // ---------------------------------------------------------------------------
  // The whole pass

  /** What _index_field leaves behind: the index holds every row, and groups are its sweep. */
  ghost predicate Swept(hidden: seq<map<string, Cached>>, id: string, lsh: Index, groups: seq<seq<nat>>) {
    && AllCached(hidden, id, |hidden|)
    && Holds(lsh, Signatures(hidden, id, |hidden|), |hidden|)
    && var cands := Candidates(lsh, Signatures(hidden, id, |hidden|));
       GroupsMatch(groups, cands, Seeds(cands, Counts(hidden, id, |hidden|), |hidden|))
  }

  /** Every emitted group has at least two members, all of them rows of the source. */
  ghost predicate ProperGroups(groups: seq<seq<nat>>, n: nat) {
    forall g :: 0 <= g < |groups| ==> |groups[g]| > 1 && forall m :: 0 <= m < |groups[g]| ==> groups[g][m] < n
  }

  lemma SweptGroupsAreProper(hidden: seq<map<string, Cached>>, id: string, lsh: Index, groups: seq<seq<nat>>)
    requires Swept(hidden, id, lsh, groups)
    ensures ProperGroups(groups, |hidden|)
  {
    var n := |hidden|;
    var sigs := Signatures(hidden, id, n);
    var cands := Candidates(lsh, sigs);
    SeedsShape(cands, Counts(hidden, id, n), n);
    forall g, m | 0 <= g < |groups| && 0 <= m < |groups[g]| ensures groups[g][m] < n {
      var s := Seeds(cands, Counts(hidden, id, n), n)[g];
      QueryWithinKeys(lsh, sigs, n, sigs[s]);
      assert groups[g][m] in Elements(groups[g]);
    }
  }

  /**
   * _index_field without its group-id spelling: cache and index every row, then
   * sweep. A row already holding a value under id keeps it unless forceRehash.
   */
  method IndexRows(entries: DataEntries, id: string, field: string, t: Tokenizer, numPerm: int,
                   forceRehash: bool, b: nat, r: nat, minhash: MinHasher) returns (lsh: Index, groups: seq<seq<nat>>)
    requires entries.Valid()
    requires CanHash(entries.rows, entries.hidden, id, field, forceRehash)
    modifies entries
    ensures entries.Valid()
    ensures forall i :: 0 <= i < |entries.rows| ==>
      entries.hidden[i] == Refreshed(old(entries.hidden[i]), entries.rows[i], id, field, t, numPerm, forceRehash, minhash)
    ensures lsh.b == b && lsh.r == r
    ensures Swept(entries.hidden, id, lsh, groups)
    ensures ProperGroups(groups, |entries.rows|)
  {
    lsh := CacheRows(entries, id, field, t, numPerm, forceRehash, b, r, minhash);
    var n := |entries.rows|;
    var sigs := Signatures(entries.hidden, id, n);
    forall i | 0 <= i < n ensures forall j :: j in Query(lsh, sigs[i]) ==> j < n {
      QueryWithinKeys(lsh, sigs, n, sigs[i]);
    }
    groups := Sweep(lsh, sigs, Counts(entries.hidden, id, n));
    SweptGroupsAreProper(entries.hidden, id, lsh, groups);
  }

  // ---------------------------------------------------------------------------
  // export_group's record filter

  predicate IsHiddenKey(k: string) {
    |k| > 0 && k[0] == '_'
  }

  /** The record written for one row: its columns whose names do not start with '_'. */
  function ExportRecord(row: Row): (rec: Row)
    ensures forall k :: k in rec <==> k in row && !IsHiddenKey(k)
    ensures forall k :: k in rec ==> rec[k] == row[k]
  {
    map k | k in row && !IsHiddenKey(k) :: row[k]
  }

  ghost predicate RowsExist(values: seq<seq<nat>>, n: nat) {
    forall g :: 0 <= g < |values| ==> forall m :: 0 <= m < |values[g]| ==> values[g][m] < n
  }

  /** The positions of the groups with more than one member, in increasing order. */
  function Kept(values: seq<seq<nat>>): (ks: seq<nat>)
    ensures forall j :: 0 <= j < |ks| ==> ks[j] < |values| && |values[ks[j]]| > 1
    ensures forall g :: 0 <= g < |values| && |values[g]| > 1 ==> g in ks
    ensures forall j, j' :: 0 <= j < j' < |ks| ==> ks[j] < ks[j']
  {
    if values == [] then []
    else
      var n := |values| - 1;
      var rest := Kept(values[..n]);
      assert forall g :: 0 <= g < n ==> values[..n][g] == values[g];
      rest + (if |values[n]| > 1 then [n] else [])
  }

  /** The records written for one group, member by member. */
  function Records(rows: seq<Row>, group: seq<nat>): (recs: seq<Row>)
    requires forall m :: 0 <= m < |group| ==> group[m] < |rows|
    ensures |recs| == |group|
    ensures forall m :: 0 <= m < |group| ==> recs[m] == ExportRecord(rows[group[m]])
  {
    seq(|group|, m requires 0 <= m < |group| => ExportRecord(rows[group[m]]))
  }

  /**
   * export_group's filter: exactly the groups with more than one member, in
   * order, each member reduced to its visible columns.
   */
  function ExportGroup(rows: seq<Row>, values: seq<seq<nat>>): (out: seq<seq<Row>>)
    requires RowsExist(values, |rows|)
    ensures |out| == |Kept(values)|
    ensures forall j :: 0 <= j < |out| ==> out[j] == Records(rows, values[Kept(values)[j]])
  {
    if values == [] then []
    else
      var n := |values| - 1;
      var rest := ExportGroup(rows, values[..n]);
      assert forall g :: 0 <= g < n ==> values[..n][g] == values[g];
      rest + (if |values[n]| > 1 then [Records(rows, values[n])] else [])
  }

  /** Every exported group has more than one record, and no record has a hidden key. */
  lemma ExportedGroupsVisible(rows: seq<Row>, values: seq<seq<nat>>)
    requires RowsExist(values, |rows|)
    ensures forall g :: 0 <= g < |ExportGroup(rows, values)| ==> |ExportGroup(rows, values)[g]| > 1
    ensures forall g, m, k ::
      0 <= g < |ExportGroup(rows, values)| && 0 <= m < |ExportGroup(rows, values)[g]| && k in ExportGroup(rows, values)[g][m]
      ==> !IsHiddenKey(k)
  {
  }

  /** When every group has more than one member, every position is kept. */
  lemma {:induction false} KeptAll(values: seq<seq<nat>>)
    requires forall g :: 0 <= g < |values| ==> |values[g]| > 1
    ensures |Kept(values)| == |values|
    ensures forall j :: 0 <= j < |values| ==> Kept(values)[j] == j
  {
    if values != [] {
      var n := |values| - 1;
      assert forall g :: 0 <= g < n ==> values[..n][g] == values[g];
      KeptAll(values[..n]);
    }
  }

  /** Every group a sweep emits survives the export filter, member for member. */
  lemma ExportKeepsProperGroups(rows: seq<Row>, values: seq<seq<nat>>)
    requires ProperGroups(values, |rows|)
    ensures RowsExist(values, |rows|)
    ensures |ExportGroup(rows, values)| == |values|
    ensures forall g :: 0 <= g < |values| ==>
      (|ExportGroup(rows, values)[g]| == |values[g]| &&
       forall m :: 0 <= m < |values[g]| ==> ExportGroup(rows, values)[g][m] == ExportRecord(rows[values[g][m]]))
  {
    KeptAll(values);
  }
}
