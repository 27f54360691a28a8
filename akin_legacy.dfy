/**
 * The earlier revision of the engine, akin.py: data sources configured by a
 * list of indexer settings, each naming fields and thresholds; indexing a data
 * source builds one group per (setting, field, threshold) and appends them all
 * to the Akin object's list of groups. The hashing and sweep are the shared
 * ones in Engine; only the group id, the force_rehash switch and the fan-out
 * are this file's own.
 */
module AkinLegacy {
  import opened Text
  import opened MinHashLsh
  import opened Engine

  datatype Option<T> = None | Some(value: T) {
    /** dict.get(key, default). */
    function GetOr(default: T): T {
      if Some? then value else default
    }
  }

  /** One entry of indexer_settings; every key may be missing. */
  datatype IndexerSetting = IndexerSetting(
    indexType: Option<string>,
    thresholds: Option<seq<string>>,
    useShingles: Option<bool>,
    shingleLength: Option<int>,
    numPermutations: Option<int>,
    fieldsToIndex: Option<seq<string>>)

  /** An indexer setting with every missing key replaced by its default. */
  datatype Settings = Settings(
    indexType: string,
    thresholds: seq<string>,
    useShingles: bool,
    shingleLength: int,
    numPermutations: int,
    fields: seq<string>)

  function Resolve(s: IndexerSetting): Settings {
    Settings(
      s.indexType.GetOr("minhashlsh"),
      s.thresholds.GetOr(["100"]),
      s.useShingles.GetOr(false),
      s.shingleLength.GetOr(3),
      s.numPermutations.GetOr(128),
      s.fieldsToIndex.GetOr([]))
  }

  /** An empty setting means MinHashLSH at threshold 100, no shingles, length 3, 128 permutations and no fields. */
  lemma ResolveDefaults()
    ensures Resolve(IndexerSetting(None, None, None, None, None, None)) ==
            Settings("minhashlsh", ["100"], false, 3, 128, [])
  {
  }

  // ---------------------------------------------------------------------------
  // Group ids

  /** str(use_shingles) of a bool, followed by str(shingle_len) only when shingling is on. */
  function ShingleMarker(useShingles: bool, shingleLength: int): string {
    if useShingles then "True" + IntToString(shingleLength) else "False"
  }

  /** The inline id of _index_field: '_' + '_'.join([field, index_type, str(threshold), str(num_perm), marker]). */
  function GroupId(field: string, indexType: string, threshold: string, numPerm: int,
                   useShingles: bool, shingleLength: int): (id: string)
    ensures |id| > 0 && IsHiddenKey(id)
  {
    "_" + JoinWith("_", [field, indexType, threshold, IntToString(numPerm), ShingleMarker(useShingles, shingleLength)])
  }

  lemma GroupIdSpelledOut(field: string, indexType: string, threshold: string, numPerm: int,
                          useShingles: bool, shingleLength: int)
    ensures GroupId(field, indexType, threshold, numPerm, useShingles, shingleLength) ==
      "_" + (field + "_" + (indexType + "_" + (threshold + "_" +
        (IntToString(numPerm) + "_" + ShingleMarker(useShingles, shingleLength)))))
  {
    JoinFive("_", field, indexType, threshold, IntToString(numPerm), ShingleMarker(useShingles, shingleLength));
  }

  lemma MarkerIff(u1: bool, k1: int, u2: bool, k2: int)
    ensures ShingleMarker(u1, k1) == ShingleMarker(u2, k2) <==> u1 == u2 && (u1 ==> k1 == k2)
  {
    if ShingleMarker(u1, k1) == ShingleMarker(u2, k2) {
      assert ShingleMarker(u1, k1)[0] == ShingleMarker(u2, k2)[0];
      if u1 && u2 {
        PrefixCancel("True", IntToString(k1), IntToString(k2));
        IntToStringInjective(k1, k2);
      }
    }
  }

  /**
   * For one field, index type and threshold, two settings give the same id
   * exactly when they agree on the number of permutations and on shingling,
   * and, with shingling on, on the shingle length.
   */
  lemma SameGroupIdIff(field: string, indexType: string, threshold: string,
                       n1: int, u1: bool, k1: int, n2: int, u2: bool, k2: int)
    ensures GroupId(field, indexType, threshold, n1, u1, k1) == GroupId(field, indexType, threshold, n2, u2, k2) <==>
            n1 == n2 && u1 == u2 && (u1 ==> k1 == k2)
  {
    GroupIdSpelledOut(field, indexType, threshold, n1, u1, k1);
    GroupIdSpelledOut(field, indexType, threshold, n2, u2, k2);
    MarkerIff(u1, k1, u2, k2);
    var s1 := IntToString(n1) + "_" + ShingleMarker(u1, k1);
    var s2 := IntToString(n2) + "_" + ShingleMarker(u2, k2);
    var q1, q2 := threshold + "_" + s1, threshold + "_" + s2;
    var r1, r2 := indexType + "_" + q1, indexType + "_" + q2;
    PrefixCancel("_", field + "_" + r1, field + "_" + r2);
    PrefixCancel(field + "_", r1, r2);
    PrefixCancel(indexType + "_", q1, q2);
    PrefixCancel(threshold + "_", s1, s2);
    if s1 == s2 {
      SplitAtUnderscore(IntToString(n1), ShingleMarker(u1, k1), IntToString(n2), ShingleMarker(u2, k2));
      IntToStringInjective(n1, n2);
    }
  }

  // ---------------------------------------------------------------------------
  // The fan-out plan

  /** One call of _index_field that _index_data_source makes. */
  datatype Job = Job(field: string, indexType: string, threshold: string, numPermutations: int,
                     useShingles: bool, shingleLength: int)

  function JobId(job: Job): string {
    GroupId(job.field, job.indexType, job.threshold, job.numPermutations, job.useShingles, job.shingleLength)
  }

  function JobIds(jobs: seq<Job>): set<string> {
    set job | job in jobs :: JobId(job)
  }

  function JobFor(s: Settings, field: string, threshold: string): Job {
    Job(field, s.indexType, threshold, s.numPermutations, s.useShingles, s.shingleLength)
  }

  /** The calls for one field: one per threshold, in list order. */
  function ThresholdJobs(s: Settings, field: string, thresholds: seq<string>): (jobs: seq<Job>)
    ensures |jobs| == |thresholds|
    ensures forall c :: 0 <= c < |jobs| ==> jobs[c] == JobFor(s, field, thresholds[c])
  {
    seq(|thresholds|, c requires 0 <= c < |thresholds| => JobFor(s, field, thresholds[c]))
  }

  /** The calls for the given fields of one setting, field by field. */
  function FieldJobs(s: Settings, fields: seq<string>): seq<Job> {
    if fields == [] then []
    else FieldJobs(s, fields[..|fields| - 1]) + ThresholdJobs(s, fields[|fields| - 1], s.thresholds)
  }

  function SettingJobs(s: Settings): seq<Job> {
    FieldJobs(s, s.fields)
  }

  /** Every call _index_data_source makes, setting by setting, in order. */
  function Plan(settings: seq<IndexerSetting>): seq<Job> {
    if settings == [] then []
    else Plan(settings[..|settings| - 1]) + SettingJobs(Resolve(settings[|settings| - 1]))
  }

  lemma ThresholdJobsSnoc(s: Settings, field: string, thresholds: seq<string>, c: nat)
    requires c < |thresholds|
    ensures ThresholdJobs(s, field, thresholds[..c + 1]) ==
            ThresholdJobs(s, field, thresholds[..c]) + [JobFor(s, field, thresholds[c])]
  {
  }

  lemma FieldJobsSnoc(s: Settings, fields: seq<string>, b: nat)
    requires b < |fields|
    ensures FieldJobs(s, fields[..b + 1]) == FieldJobs(s, fields[..b]) + ThresholdJobs(s, fields[b], s.thresholds)
  {
    assert fields[..b + 1][..b] == fields[..b];
  }

  lemma PlanSnoc(settings: seq<IndexerSetting>, a: nat)
    requires a < |settings|
    ensures Plan(settings[..a + 1]) == Plan(settings[..a]) + SettingJobs(Resolve(settings[a]))
  {
    assert settings[..a + 1][..a] == settings[..a];
  }

  lemma {:induction false} FieldJobsLength(s: Settings, fields: seq<string>)
    ensures |FieldJobs(s, fields)| == |fields| * |s.thresholds|
  {
    if fields != [] {
      var front := fields[..|fields| - 1];
      FieldJobsLength(s, front);
      assert |fields| * |s.thresholds| == |front| * |s.thresholds| + |s.thresholds|;
    }
  }

  /** Nested-loop order: call number b * |thresholds| + c is field b at threshold c. */
  lemma {:induction false} FieldJobAt(s: Settings, fields: seq<string>, b: nat, c: nat)
    requires b < |fields| && c < |s.thresholds|
    ensures b * |s.thresholds| + c < |FieldJobs(s, fields)|
    ensures FieldJobs(s, fields)[b * |s.thresholds| + c] == JobFor(s, fields[b], s.thresholds[c])
  {
    var t := |s.thresholds|;
    var front := fields[..|fields| - 1];
    FieldJobsLength(s, fields);
    FieldJobsLength(s, front);
    if b < |front| {
      FieldJobAt(s, front, b, c);
      assert fields[b] == front[b];
    } else {
      assert b * t == |front| * t;
    }
  }

  lemma {:induction false} FieldJobsContain(s: Settings, fields: seq<string>, b: nat, c: nat)
    requires b < |fields| && c < |s.thresholds|
    ensures JobFor(s, fields[b], s.thresholds[c]) in FieldJobs(s, fields)
  {
    var front := fields[..|fields| - 1];
    var last := ThresholdJobs(s, fields[|fields| - 1], s.thresholds);
    if b < |front| {
      FieldJobsContain(s, front, b, c);
      assert fields[b] == front[b];
    } else {
      assert last[c] == JobFor(s, fields[b], s.thresholds[c]);
    }
  }

  lemma {:induction false} PlanContains(settings: seq<IndexerSetting>, a: nat, job: Job)
    requires a < |settings| && job in SettingJobs(Resolve(settings[a]))
    ensures job in Plan(settings)
  {
    var front := settings[..|settings| - 1];
    if a < |front| {
      assert settings[a] == front[a];
      PlanContains(front, a, job);
    }
  }

  // ---------------------------------------------------------------------------
  // Data sources and groups

  /** A data source read from CSV: its rows and its indexer settings. */
  class DataSource {
    const entries: DataEntries
    const indexerSettings: seq<IndexerSetting>

    constructor (rows: seq<Row>, indexerSettings: seq<IndexerSetting>)
      ensures entries.Valid() && fresh(entries) && entries.rows == rows
      ensures forall i :: 0 <= i < |rows| ==> entries.hidden[i] == map[]
      ensures this.indexerSettings == indexerSettings
    {
      entries := new DataEntries(rows);
      this.indexerSettings := indexerSettings;
    }
  }

  datatype GroupData = GroupData(dataSource: DataSource, lsh: Index, field: string, values: seq<seq<nat>>)

  /**
   * _index_field: build the id, cache a signature and count on every row that
   * has none under it (every row with forceRehash), index every row and sweep.
   */
  method IndexField(entries: DataEntries, job: Job, forceRehash: bool, sketch: Sketch)
    returns (id: string, lsh: Index, groups: seq<seq<nat>>)
    requires entries.Valid()
    requires CanHash(entries.rows, entries.hidden, JobId(job), job.field, forceRehash)
    modifies entries
    ensures id == JobId(job)
    ensures entries.Valid()
    ensures forall i :: 0 <= i < |entries.rows| ==>
      entries.hidden[i] == Refreshed(old(entries.hidden[i]), entries.rows[i], id, job.field,
                                     Tokenizer(job.useShingles, job.shingleLength), job.numPermutations,
                                     forceRehash, sketch.minhash)
    ensures (lsh.b, lsh.r) == sketch.bands(job.threshold, job.numPermutations)
    ensures Swept(entries.hidden, id, lsh, groups)
    ensures ProperGroups(groups, |entries.rows|)
  {
    id := JobId(job);
    var (b, r) := sketch.bands(job.threshold, job.numPermutations);
    lsh, groups := IndexRows(entries, id, job.field, Tokenizer(job.useShingles, job.shingleLength),
                             job.numPermutations, forceRehash, b, r, sketch.minhash);
  }

  /** With force_rehash every row is hashed afresh; without it a row holding the id keeps its value. */
  lemma ForceRehashIff(h: map<string, Cached>, row: Row, job: Job, forceRehash: bool, minhash: MinHasher)
    requires (forceRehash || JobId(job) !in h) ==> job.field in row
    ensures var t := Tokenizer(job.useShingles, job.shingleLength);
            var h' := Refreshed(h, row, JobId(job), job.field, t, job.numPermutations, forceRehash, minhash);
            && JobId(job) in h'
            && (forall k :: k in h && k != JobId(job) ==> k in h' && h'[k] == h[k])
            && (forall k :: k in h' ==> k in h || k == JobId(job))
            && (forceRehash ==> h'[JobId(job)] == HashOf(row[job.field], t, job.numPermutations, minhash))
            && (!forceRehash && JobId(job) in h ==> h' == h)
  {
  }

  /** g is the group that _index_field built for job over ds, as the rows now stand. */
  ghost predicate GroupFor(g: GroupData, job: Job, ds: DataSource, hidden: seq<map<string, Cached>>, sketch: Sketch) {
    && g.dataSource == ds
    && g.field == JobId(job)
    && (g.lsh.b, g.lsh.r) == sketch.bands(job.threshold, job.numPermutations)
    && Swept(hidden, g.field, g.lsh, g.values)
    && ProperGroups(g.values, |hidden|)
  }

  /** h1 keeps every value cached in h0, holds every id of ids on every row, and holds nothing else new. */
  ghost predicate Extends(h0: seq<map<string, Cached>>, h1: seq<map<string, Cached>>, ids: set<string>) {
    && |h1| == |h0|
    && forall i :: 0 <= i < |h0| ==>
      && (forall k :: k in h0[i] ==> k in h1[i] && h1[i][k] == h0[i][k])
      && (forall k :: k in h1[i] ==> k in h0[i] || k in ids)
      && (forall id :: id in ids ==> id in h1[i])
  }

  /** The signature and count _index_field caches for a row that lacks the job's id. */
  function JobHash(row: Row, job: Job, minhash: MinHasher): Cached
    requires job.field in row
  {
    HashOf(row[job.field], Tokenizer(job.useShingles, job.shingleLength), job.numPermutations, minhash)
  }

  /**
   * Every id that row i lacked in h0 holds, in h1, the hash of the row's field
   * as the first job carrying that id computed it; later jobs with the same id
   * find it cached and keep it.
   */
  ghost predicate HashedFresh(rows: seq<Row>, h0: seq<map<string, Cached>>, h1: seq<map<string, Cached>>,
                              jobs: seq<Job>, minhash: MinHasher) {
    forall i, k :: 0 <= i < |rows| && i < |h0| && i < |h1| && 0 <= k < |jobs| &&
                   JobId(jobs[k]) !in h0[i] && JobId(jobs[k]) !in JobIds(jobs[..k]) ==>
      && jobs[k].field in rows[i]
      && JobId(jobs[k]) in h1[i]
      && h1[i][JobId(jobs[k])] == JobHash(rows[i], jobs[k], minhash)
  }

  /** g1 is g0 followed by one group per job, each built for its job over the rows as h1 holds them. */
  ghost predicate Appended(g0: seq<GroupData>, g1: seq<GroupData>, h1: seq<map<string, Cached>>,
                           jobs: seq<Job>, ds: DataSource, sketch: Sketch) {
    && |g1| == |g0| + |jobs|
    && g1[..|g0|] == g0
    && forall k :: 0 <= k < |jobs| ==> GroupFor(g1[|g0| + k], jobs[k], ds, h1, sketch)
  }

  /** Running jobs took the groups list from g0 to g1 and the hidden fields from h0 to h1. */
  ghost predicate Ran(g0: seq<GroupData>, g1: seq<GroupData>, h0: seq<map<string, Cached>>, h1: seq<map<string, Cached>>,
                      jobs: seq<Job>, ds: DataSource, sketch: Sketch) {
    && |h0| == |ds.entries.rows|
    && Extends(h0, h1, JobIds(jobs))
    && HashedFresh(ds.entries.rows, h0, h1, jobs, sketch.minhash)
    && Appended(g0, g1, h1, jobs, ds, sketch)
  }

  lemma RanNothing(g: seq<GroupData>, h: seq<map<string, Cached>>, ds: DataSource, sketch: Sketch)
    requires |h| == |ds.entries.rows|
    ensures Ran(g, g, h, h, [], ds, sketch)
  {
  }

  /** A group stays swept when later passes only add ids to the rows. */
  lemma GroupForStable(g: GroupData, job: Job, ds: DataSource, h1: seq<map<string, Cached>>,
                       h2: seq<map<string, Cached>>, ids: set<string>, sketch: Sketch)
    requires GroupFor(g, job, ds, h1, sketch) && Extends(h1, h2, ids)
    ensures GroupFor(g, job, ds, h2, sketch)
  {
    var n := |h1|;
    assert AllCached(h2, g.field, n);
    assert Signatures(h1, g.field, n) == Signatures(h2, g.field, n);
    assert Counts(h1, g.field, n) == Counts(h2, g.field, n);
  }

  lemma JobIdsAppend(j1: seq<Job>, j2: seq<Job>)
    ensures JobIds(j1 + j2) == JobIds(j1) + JobIds(j2)
  {
    forall job ensures job in j1 + j2 <==> job in j1 || job in j2 {
      assert job in j1 + j2 <==> job in multiset(j1 + j2);
    }
  }

  lemma ExtendsThen(h0: seq<map<string, Cached>>, h1: seq<map<string, Cached>>, h2: seq<map<string, Cached>>,
                    ids1: set<string>, ids2: set<string>)
    requires Extends(h0, h1, ids1) && Extends(h1, h2, ids2)
    ensures Extends(h0, h2, ids1 + ids2)
  {
  }

  lemma HashedFreshThen(rows: seq<Row>, h0: seq<map<string, Cached>>, h1: seq<map<string, Cached>>,
                        h2: seq<map<string, Cached>>, j1: seq<Job>, j2: seq<Job>, minhash: MinHasher)
    requires |h0| == |rows|
    requires Extends(h0, h1, JobIds(j1)) && Extends(h1, h2, JobIds(j2))
    requires HashedFresh(rows, h0, h1, j1, minhash) && HashedFresh(rows, h1, h2, j2, minhash)
    ensures HashedFresh(rows, h0, h2, j1 + j2, minhash)
  {
    var jobs := j1 + j2;
    forall i, k | 0 <= i < |rows| && i < |h0| && i < |h2| && 0 <= k < |jobs| &&
                  JobId(jobs[k]) !in h0[i] && JobId(jobs[k]) !in JobIds(jobs[..k])
      ensures && jobs[k].field in rows[i]
              && JobId(jobs[k]) in h2[i]
              && h2[i][JobId(jobs[k])] == JobHash(rows[i], jobs[k], minhash)
    {
      if k < |j1| {
        assert jobs[k] == j1[k] && jobs[..k] == j1[..k];
      } else {
        HashedFreshLater(rows, h0, h1, h2, j1, j2, minhash, i, k - |j1|);
      }
    }
  }

  /** A job of the second run whose id neither h0 nor an earlier job had hashes afresh in h2. */
  lemma HashedFreshLater(rows: seq<Row>, h0: seq<map<string, Cached>>, h1: seq<map<string, Cached>>,
                         h2: seq<map<string, Cached>>, j1: seq<Job>, j2: seq<Job>, minhash: MinHasher, i: nat, k: nat)
    requires |h0| == |rows| && |h2| == |rows| && i < |rows| && k < |j2|
    requires Extends(h0, h1, JobIds(j1)) && HashedFresh(rows, h1, h2, j2, minhash)
    requires JobId(j2[k]) !in h0[i] && JobId(j2[k]) !in JobIds((j1 + j2)[..|j1| + k])
    ensures && (j1 + j2)[|j1| + k] == j2[k]
            && j2[k].field in rows[i]
            && JobId(j2[k]) in h2[i]
            && h2[i][JobId(j2[k])] == JobHash(rows[i], j2[k], minhash)
  {
    var id := JobId(j2[k]);
    assert (j1 + j2)[..|j1| + k] == j1 + j2[..k];
    JobIdsAppend(j1, j2[..k]);
    assert id !in JobIds(j1) && id !in JobIds(j2[..k]);
    assert id !in h1[i];
  }

  lemma AppendedThen(g0: seq<GroupData>, g1: seq<GroupData>, g2: seq<GroupData>,
                     h1: seq<map<string, Cached>>, h2: seq<map<string, Cached>>,
                     j1: seq<Job>, j2: seq<Job>, ds: DataSource, sketch: Sketch)
    requires Appended(g0, g1, h1, j1, ds, sketch) && Appended(g1, g2, h2, j2, ds, sketch)
    requires Extends(h1, h2, JobIds(j2))
    ensures Appended(g0, g2, h2, j1 + j2, ds, sketch)
  {
    assert g2[..|g0|] == g1[..|g1|][..|g0|];
    forall k | 0 <= k < |j1| + |j2|
      ensures GroupFor(g2[|g0| + k], (j1 + j2)[k], ds, h2, sketch)
    {
      if k < |j1| {
        assert g2[|g0| + k] == g1[|g0| + k];
        GroupForStable(g1[|g0| + k], j1[k], ds, h1, h2, JobIds(j2), sketch);
      } else {
        assert g2[|g0| + k] == g2[|g1| + (k - |j1|)];
      }
    }
  }

  lemma RanThen(g0: seq<GroupData>, g1: seq<GroupData>, g2: seq<GroupData>,
                h0: seq<map<string, Cached>>, h1: seq<map<string, Cached>>, h2: seq<map<string, Cached>>,
                j1: seq<Job>, j2: seq<Job>, ds: DataSource, sketch: Sketch)
    requires Ran(g0, g1, h0, h1, j1, ds, sketch) && Ran(g1, g2, h1, h2, j2, ds, sketch)
    ensures Ran(g0, g2, h0, h2, j1 + j2, ds, sketch)
  {
    JobIdsAppend(j1, j2);
    ExtendsThen(h0, h1, h2, JobIds(j1), JobIds(j2));
    HashedFreshThen(ds.entries.rows, h0, h1, h2, j1, j2, sketch.minhash);
    AppendedThen(g0, g1, g2, h1, h2, j1, j2, ds, sketch);
  }

  lemma CanHashStable(rows: seq<Row>, h0: seq<map<string, Cached>>, h1: seq<map<string, Cached>>,
                      ids: set<string>, id: string, field: string)
    requires |h0| == |rows| && Extends(h0, h1, ids)
    requires CanHash(rows, h0, id, field, false)
    ensures CanHash(rows, h1, id, field, false)
  {
  }

  class Akin {
    var groups: seq<GroupData>

    constructor ()
      ensures groups == []
    {
      groups := [];
    }

    /** One pass of the innermost loop: index the field without force_rehash and append its group. */
    method RunJob(ds: DataSource, job: Job, sketch: Sketch)
      requires ds.entries.Valid()
      requires CanHash(ds.entries.rows, ds.entries.hidden, JobId(job), job.field, false)
      modifies this, ds.entries
      ensures ds.entries.Valid()
      ensures Ran(old(groups), groups, old(ds.entries.hidden), ds.entries.hidden, [job], ds, sketch)
    {
      var fieldHash, lsh, values := IndexField(ds.entries, job, false, sketch);
      var groupData := GroupData(ds, lsh, fieldHash, values);
      groups := groups + [groupData];
      assert JobIds([job]) == {fieldHash};
      assert [job][..0] == [];
      assert groups[|old(groups)| + 0] == groupData;
    }

    /** The loop over one field's thresholds. */
    method IndexThresholds(ds: DataSource, s: Settings, field: string, sketch: Sketch)
      requires ds.entries.Valid()
      requires forall c :: 0 <= c < |s.thresholds| ==>
        CanHash(ds.entries.rows, ds.entries.hidden, JobId(JobFor(s, field, s.thresholds[c])), field, false)
      modifies this, ds.entries
      ensures ds.entries.Valid()
      ensures Ran(old(groups), groups, old(ds.entries.hidden), ds.entries.hidden, ThresholdJobs(s, field, s.thresholds), ds, sketch)
    {
      ghost var g0, h0 := groups, ds.entries.hidden;
      RanNothing(g0, h0, ds, sketch);
      for c := 0 to |s.thresholds|
        invariant ds.entries.Valid()
        invariant Ran(g0, groups, h0, ds.entries.hidden, ThresholdJobs(s, field, s.thresholds[..c]), ds, sketch)
      {
        var job := JobFor(s, field, s.thresholds[c]);
        ghost var g1, h1 := groups, ds.entries.hidden;
        CanHashStable(ds.entries.rows, h0, h1, JobIds(ThresholdJobs(s, field, s.thresholds[..c])), JobId(job), field);
        RunJob(ds, job, sketch);
        RanThen(g0, g1, groups, h0, h1, ds.entries.hidden, ThresholdJobs(s, field, s.thresholds[..c]), [job], ds, sketch);
        ThresholdJobsSnoc(s, field, s.thresholds, c);
      }
      assert s.thresholds[..|s.thresholds|] == s.thresholds;
    }

    /** The loops of one indexer setting: fields outermost, thresholds inside. */
    method IndexSetting(ds: DataSource, s: Settings, sketch: Sketch)
      requires ds.entries.Valid()
      requires forall job :: job in SettingJobs(s) ==>
        CanHash(ds.entries.rows, ds.entries.hidden, JobId(job), job.field, false)
      modifies this, ds.entries
      ensures ds.entries.Valid()
      ensures Ran(old(groups), groups, old(ds.entries.hidden), ds.entries.hidden, SettingJobs(s), ds, sketch)
    {
      ghost var g0, h0 := groups, ds.entries.hidden;
      RanNothing(g0, h0, ds, sketch);
      for b := 0 to |s.fields|
        invariant ds.entries.Valid()
        invariant Ran(g0, groups, h0, ds.entries.hidden, FieldJobs(s, s.fields[..b]), ds, sketch)
      {
        var field := s.fields[b];
        ghost var g1, h1 := groups, ds.entries.hidden;
        forall c | 0 <= c < |s.thresholds|
          ensures CanHash(ds.entries.rows, h1, JobId(JobFor(s, field, s.thresholds[c])), field, false)
        {
          FieldJobsContain(s, s.fields, b, c);
          CanHashStable(ds.entries.rows, h0, h1, JobIds(FieldJobs(s, s.fields[..b])), JobId(JobFor(s, field, s.thresholds[c])), field);
        }
        IndexThresholds(ds, s, field, sketch);
        RanThen(g0, g1, groups, h0, h1, ds.entries.hidden, FieldJobs(s, s.fields[..b]), ThresholdJobs(s, field, s.thresholds), ds, sketch);
        FieldJobsSnoc(s, s.fields, b);
      }
      assert s.fields[..|s.fields|] == s.fields;
    }

    /**
     * _index_data_source: for every indexer setting, every field and every
     * threshold, in that nesting, index the field without force_rehash and
     * append one group. The groups already listed stay as they are.
     */
    method IndexDataSource(ds: DataSource, sketch: Sketch)
      requires ds.entries.Valid()
      requires forall job :: job in Plan(ds.indexerSettings) ==>
        CanHash(ds.entries.rows, ds.entries.hidden, JobId(job), job.field, false)
      modifies this, ds.entries
      ensures ds.entries.Valid()
      ensures Ran(old(groups), groups, old(ds.entries.hidden), ds.entries.hidden, Plan(ds.indexerSettings), ds, sketch)
    {
      var settings := ds.indexerSettings;
      ghost var g0, h0 := groups, ds.entries.hidden;
      RanNothing(g0, h0, ds, sketch);
      for a := 0 to |settings|
        invariant ds.entries.Valid()
        invariant Ran(g0, groups, h0, ds.entries.hidden, Plan(settings[..a]), ds, sketch)
      {
        var s := Resolve(settings[a]);
        ghost var g1, h1 := groups, ds.entries.hidden;
        forall job | job in SettingJobs(s)
          ensures CanHash(ds.entries.rows, h1, JobId(job), job.field, false)
        {
          PlanContains(settings, a, job);
          CanHashStable(ds.entries.rows, h0, h1, JobIds(Plan(settings[..a])), JobId(job), job.field);
        }
        IndexSetting(ds, s, sketch);
        RanThen(g0, g1, groups, h0, h1, ds.entries.hidden, Plan(settings[..a]), SettingJobs(s), ds, sketch);
        PlanSnoc(settings, a);
      }
      assert settings[..|settings|] == settings;
    }
  }
}
