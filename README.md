# akin — a Dafny model of the duplicate-grouping engine

akin finds groups of near-duplicate rows in a tabular data source. It works one field at a time:

1. Each row's value is lower-cased and cut into tokens: whitespace-separated words, or character shingles of a fixed length.
2. The token set is turned into a MinHash signature.
3. Each row is filed in a banded MinHash LSH index.
4. One greedy sweep over the rows collects groups. The sweep skips rows already returned by an earlier query and rows with no tokens. Every other row queries the index and claims everything returned. A query that returns more than one row becomes a group.

A row caches its signature and token count under a hidden key, the group id. The group id is built from the field and the hashing settings, so a later pass with the same settings reuses the cache.

The project models two revisions of the engine:

- `akin/__init__.py`
  - The `Akin` registry: data sources, group templates, `group_data` with its cache of built groups, and the seeding of three default templates.
  - `_generate_groupid` and `_index_field`.
  - `export_group`'s record filter.
- `akin.py`, the earlier revision
  - Its inline group id, which starts with a single underscore and writes the shingle flag as `True`/`False`.
  - `_index_field` with `force_rehash`.
  - `_index_data_source`, which builds one group for every (indexer setting, field, threshold), in nested-loop order.

Modules:

- `Text` (text.dfy): the Python string built-ins the engine relies on. These are `str.lower()`, `str.split()`, slicing, `str(int)` and `'_'.join`, with their round trips.
- `MinHashLsh` (lsh.dfy): a concrete banded index. Each band has a table from band slices to row sets. `Query` is characterised exactly: it returns the stored rows that agree with the signature on some whole band.
- `Engine` (engine.dfy): the pass both revisions share.
  - Tokenisation and hashing (`HashValue`).
  - The cache-and-insert loop (`CacheRows`), which works in place on the data source's rows.
  - The sweep (`Sweep`, with its seen list as an array).
  - The export filter.
  - The sweep is proved against a recursive specification (`SeenBefore`, `Queries`, `Seeds`).
- `Akin` (akin.dfy): `akin/__init__.py`'s group ids, data sources and registry class.
- `AkinLegacy` (akin_legacy.dfy): `akin.py`'s group id and the settings fan-out. The fan-out is proved against a plan of jobs (`Plan`).

### How the environment is represented

- **MinHash** is a function parameter `(num_perm, token set) -> signature`.
- **Band and row counts.** MinHashLSH derives the number of bands b and rows per band r from `(str(threshold), num_perm)`. The model takes that choice as a function parameter (`Sketch.bands`).
- **Thresholds** are opaque strings: the code only ever uses `str(threshold)`.
- **Hidden row fields.** The `<id>` and `<id>_len` fields that `_index_field` writes into each row dict are kept in a side table beside the rows (`DataEntries.hidden`), as one entry per id holding the signature and the count.
- **Query order.** The order in which a query's result set is walked is left open: the sweep picks elements with `:|`. Groups are therefore specified by their member set and length.
- **Groups hold row indices**, not the row dicts themselves.

### Design notes

In each of these places the code differs from what its own comments and naming suggest. The model follows the code:

- **Case is always folded.** Values are lower-cased whatever `case_sensitive` says, and `case_sensitive` is not part of the group id (`Engine.HashIgnoresCase`, `Akin.SameGroupIdIff`).
- **Short values give no shingles.** In shingle mode, a value no longer than the shingle length yields no tokens at all, not one whole-value token. Its count is 0, so it never seeds a group (`Engine.ShingleCount`).
- **Groups may overlap.** A row already claimed can be returned by a later seed's query and join that group too (`Engine.GroupsMayOverlap`).
- **Group ids cannot be decoded.** When a field name contains `_`, two different (field, template) pairs can spell the same id (`Akin.GroupIdAmbiguous`). A stored `use_shingles` other than 0 or 1 collides too: its digits run into the shingle length's (`Akin.MarkerCollides`).
- **Nothing else sits between query and group.** Every row the index returns joins the group: there is no distance-based admission filter and no separate query engine.
- **A misleading message.** `add_grouptemplate` rejects a duplicate with the message `Data source with the name "…" already exists`. The model keeps that text.
- **The legacy default threshold is 100.** `akin.py` defaults to the threshold list `[100]`.

## Model

| member | source | states |
|---|---|---|
| Text.Lower | akin/__init__.py:189 | lower-casing keeps the length, leaves no upper-case letter, and keeps whitespace positions and every non-letter |
| Text.LowerIdempotent | akin/__init__.py:189 | lower-casing twice is lower-casing once |
| Text.PySlice | akin/__init__.py:193 | a Python slice within bounds is the subsequence lo..hi; it is never longer than the string |
| Text.Words | akin/__init__.py:197 | `split()` yields only non-empty runs of non-space characters |
| Text.WordsEmptyIffBlank | akin/__init__.py:197 | `split()` yields no words exactly when the value is empty or all whitespace |
| Text.SplitJoin | akin/__init__.py:197 | splitting words joined by single spaces gives the words back |
| Text.JoinWith | akin/__init__.py:169 | a one-part join is the part itself |
| Text.JoinCons | akin/__init__.py:169 | joining a head and a non-empty rest gives the head, the separator and the join of the rest |
| Text.JoinFive | akin/__init__.py:169 | a five-part join is the parts with the separator after each but the last |
| Text.IntToString | akin/__init__.py:168-169 | `str(int)` is non-empty, ends in a digit and contains no `_` |
| Text.NatToString | akin/__init__.py:169 | decimal digits only, no leading zero |
| Text.NatToStringRoundTrip | akin/__init__.py:169 | the digits of n read back as n |
| Text.IntToStringRoundTrip | akin/__init__.py:169 | `str(i)` reads back as i |
| Text.IntToStringInjective | akin/__init__.py:169 | two ints have the same `str` exactly when they are equal |
| Text.SplitAtUnderscore | akin/__init__.py:169 | an underscore-free head joined by `_` to a tail is recovered uniquely from the joined string |
| MinHashLsh.Empty | akin/__init__.py:185 | a new index has b empty band tables and holds no key |
| MinHashLsh.Insert | akin/__init__.py:202 | insert adds exactly the new key and keeps b and r |
| MinHashLsh.EmptyHolds | akin/__init__.py:185 | a new index holds no row and files nothing |
| MinHashLsh.InsertHolds | akin/__init__.py:202 | inserting row n under its signature turns an index of rows 0..n-1 into one of rows 0..n, each filed under its own band slices |
| MinHashLsh.QueryBandsIff | akin/__init__.py:211 | the union of the first k buckets holds exactly the stored rows agreeing on one of the first k bands |
| MinHashLsh.QueryIff | akin/__init__.py:211 | query returns exactly the stored rows whose signature agrees with the asked one on some whole band |
| MinHashLsh.QueryFindsSelf | akin/__init__.py:211 | with at least one band, a stored row is returned by a query with its own signature |
| MinHashLsh.QuerySymmetric | akin/__init__.py:211 | row i answers row j's query exactly when j answers i's |
| MinHashLsh.QueryWithinKeys | akin/__init__.py:211 | every row a query returns was inserted |
| Engine.Windows | akin/__init__.py:193 | there are n-k+1 windows (none if that is not positive), and window i is the length-k substring at i |
| Engine.ShingleCount | akin/__init__.py:191-195 | shingle mode yields n-k+1 tokens when n > k and none otherwise; a value of exactly k characters counts 0 whatever the number of permutations and the MinHash |
| Engine.ShingleIsSubstring | akin/__init__.py:191-195 | w is a shingle token exactly when the value is longer than k and w is a length-k substring of the lower-cased value |
| Engine.WordCountZeroIffBlank | akin/__init__.py:196-201 | in word mode, for any shingle length, number of permutations and MinHash, the stored count is 0 exactly when the value is empty or blank |
| Engine.WordTokensOfJoinedWords | akin/__init__.py:196-199 | word mode, whatever the shingle length, yields one token per word, in order |
| Engine.LowerOfJoin | akin/__init__.py:189 | lower-case words joined by spaces are already lower case |
| Engine.HashIgnoresCase | akin/__init__.py:189 | values equal up to case get the same signature and count |
| Engine.HashValue | akin/__init__.py:188-199 | the loop feeds every token and counts them: the result is the MinHash of the token set with the number of tokens emitted |
| Engine.DataEntries.constructor | akin/__init__.py:24-27 | a data source's rows start with no hidden fields |
| Engine.CacheRows | akin/__init__.py:186-202 | each row gains the id's signature and count unless it already held the id and rehashing is off; rows holding the id keep their value; every row is then cached and rows 0..n-1 are all in the index under their cached signatures (akin.py lines 99-115 are the same loop) |
| Engine.Sweep | akin/__init__.py:204-216 | the groups are, in order, the candidate sets of exactly the seeds: rows not returned earlier, with a non-zero count, whose query returns more than one row (akin.py lines 117-134 are the same sweep) |
| Engine.CollectMatches | akin/__init__.py:211-214 | walks the whole query result: the group holds each returned row once, the match count is its size, and exactly those rows become seen |
| Engine.ElementsAppend | akin/__init__.py:213 | appending a row to the group adds exactly that row to its members |
| Engine.SweepStep | akin/__init__.py:207-216 | one sweep step: a row that queries adds its candidates to the seen set and seeds a group exactly when it has more than one candidate |
| Engine.GroupsMatchAppend | akin/__init__.py:215-216 | appending the group of a new seed keeps groups and seeds in step |
| Engine.SeedsShape | akin/__init__.py:204-216 | seeds come out in strictly increasing row order, each unseen with a non-zero count and more than one candidate |
| Engine.SeedIff | akin/__init__.py:207-216 | row s seeds a group exactly when it was not returned earlier, has a non-zero count and has more than one candidate |
| Engine.SeenBeforeIff | akin/__init__.py:205-214 | a row is seen before step i exactly when an earlier querying row returned it |
| Engine.SeedNotClaimedEarlier | akin/__init__.py:207 | a seed has a non-zero count and no earlier query returned it |
| Engine.EveryIndexableRowIsClaimed | akin/__init__.py:206-214 | when every row finds itself, every row with a non-zero count is seen by the end of its own step |
| Engine.GroupsMayOverlap | akin/__init__.py:211-214 | two emitted groups can share a row |
| Engine.SweptGroupsAreProper | akin/__init__.py:215-216 | every group has more than one member, all of them rows of the source |
| Engine.IndexRows | akin/__init__.py:173-218 | after the pass every row is cached as the rehash rule says, the index has the given b and r and holds every row, and the groups are the sweep of that index |
| Engine.ExportRecord | akin/__init__.py:224 | the values written for a row are those of exactly its columns not starting with `_`, each kept under its column name |
| Engine.Kept | akin/__init__.py:223 | the kept positions are exactly the groups with more than one member, in increasing order |
| Engine.Records | akin/__init__.py:224 | one record per member of the group, in order, each the member row's visible columns |
| Engine.ExportGroup | akin/__init__.py:220-224 | for any groups, the output is exactly the groups with more than one row, in their order, each mapped member by member to its record (akin.py lines 136-140 are the same filter) |
| Engine.ExportedGroupsVisible | akin/__init__.py:223-224 | every exported group has more than one record and no record has a hidden key |
| Engine.KeptAll | akin/__init__.py:223 | when every group has more than one member, every group is kept, in place |
| Engine.ExportKeepsProperGroups | akin/__init__.py:223-224 | for groups from the sweep, every group is exported, row for row |
| Akin.GroupId | akin/__init__.py:160-171 | the id starts with `__`, so it is a hidden key, and it ends in a digit |
| Akin.GroupIdSpelledOut | akin/__init__.py:168-170 | the id is `__` then field, index type, threshold, `str(num_permutations)` and the shingle marker, joined by `_` |
| Akin.MarkerIff | akin/__init__.py:168 | with use_shingles 0 or 1, two markers agree exactly when the flags agree and, with shingling on, so do the lengths |
| Akin.SameGroupIdIff | akin/__init__.py:160-171 | for one field, index type and threshold, ids agree exactly when num_permutations and use_shingles agree and, with shingling on, shingle_length does; case_sensitive never counts |
| Akin.GroupIdAmbiguous | akin/__init__.py:169 | moving a field name's `_`-suffix into the index type gives a different template with the same id |
| Akin.MarkerCollides | akin/__init__.py:168-169 | a stored use_shingles other than 0 or 1 shares its digits with the length: (1, 12) and (11, 2) both write marker `112`, so two different templates get the same id on every field |
| Akin.DataSource.constructor | akin/__init__.py:24-27 | a new data source has its rows, no hidden fields and no groups |
| Akin.IndexField | akin/__init__.py:173-218 | `_index_field` returns the template's id; rows without that id are hashed and the rest keep theirs; the index uses the template's b and r and the groups are its sweep |
| Akin.DefaultTemplates | akin/__init__.py:147-155 | three default templates |
| Akin.IdsDifferInThreshold | akin/__init__.py:169 | thresholds that differ before or at their trailing `_` give different ids |
| Akin.DefaultNamesDistinct | akin/__init__.py:147-155 | the three defaults have distinct names |
| Akin.DefaultTemplatesDistinct | akin/__init__.py:147-155 | on any field the three defaults give three distinct group ids |
| Akin.Akin.constructor | akin/__init__.py:42-45 | a new registry has no data sources and no templates |
| Akin.Akin.GroupData | akin/__init__.py:55-73 | with the id present, the stored group is returned and nothing changes; otherwise the field is indexed with an index whose b and r are those of the template's threshold and num_permutations, the rows are cached as the no-rehash rule says, the groups are that index's sweep, the GroupData is stored under its id alongside the unchanged others, and only its groups are returned |
| Akin.Akin.AddGroupTemplate | akin/__init__.py:75-84 | a name registered in memory is refused with its message; otherwise a template whose name is already a key of the template table raises IntegrityError and nothing is written; otherwise the template is appended to the table; the in-memory templates never change, and the table's names stay unique |
| Akin.Akin.AddGroupTemplateRegistered | akin/__init__.py:75-84 | corrected add: the same three outcomes, and a successful add also registers the template in memory, so a repeated name is refused |
| Akin.Akin.AddDatasource | akin/__init__.py:86-94 | an existing name is refused and nothing changes; otherwise exactly that name is added, bound to a fresh data source with the rows as given, no cached hidden fields on any row, and no groups |
| Akin.Akin.DeleteDatasource | akin/__init__.py:96-107 | a missing name is refused and nothing changes; otherwise exactly that name is removed |
| Akin.Akin.SeedDefaultTemplates | akin/__init__.py:146-158 | with templates loaded nothing is written; with none, the defaults are written in order up to the first whose name the table already holds, which raises and ends the seeding; with no default name in the table all three are written |
| Akin.FreeDefaults | akin/__init__.py:156-158 | the number of defaults written before the first whose name is already in the table |
| Akin.SeededDefaultsStayUnregistered | akin/__init__.py:146-158 | on a fresh database, after seeding "Default" cannot be looked up, and adding it again passes the in-memory check and raises IntegrityError at the table |
| Akin.SeededDefaultsRegistered | akin/__init__.py:75-84 | with the corrected add, the seeded "Default" is found and a second add is refused |
| AkinLegacy.ResolveDefaults | akin.py:76-82 | defaults: `minhashlsh`, thresholds `[100]`, no shingles, length 3, 128 permutations, no fields |
| AkinLegacy.GroupId | akin.py:94-96 | the legacy id starts with `_`, so it is a hidden key |
| AkinLegacy.GroupIdSpelledOut | akin.py:94-96 | the id is `_` then field, index type, threshold, `str(num_perm)` and the `True`/`False` marker, joined by `_` |
| AkinLegacy.MarkerIff | akin.py:94 | two markers agree exactly when the flags agree and, with shingling on, so do the lengths |
| AkinLegacy.SameGroupIdIff | akin.py:94-96 | for one field, index type and threshold, ids agree exactly when num_perm and use_shingles agree and, with shingling on, shingle_len does |
| AkinLegacy.ThresholdJobs | akin.py:84-87 | one call per threshold, in list order |
| AkinLegacy.ThresholdJobsSnoc | akin.py:84-87 | one more threshold adds exactly its call at the end |
| AkinLegacy.FieldJobsSnoc | akin.py:83-87 | one more field adds exactly its calls, one per threshold, at the end |
| AkinLegacy.PlanSnoc | akin.py:76-87 | one more setting adds exactly its calls at the end |
| AkinLegacy.FieldJobsLength | akin.py:83-84 | a setting makes fields × thresholds calls |
| AkinLegacy.FieldJobAt | akin.py:83-87 | call number b·\|thresholds\| + c is field b at threshold c |
| AkinLegacy.FieldJobsContain | akin.py:83-87 | every (field, threshold) pair is called |
| AkinLegacy.PlanContains | akin.py:76-89 | every setting's calls are among the pass's calls |
| AkinLegacy.DataSource.constructor | akin.py:20-23 | a data source holds its rows, with no hidden fields, and its indexer settings |
| AkinLegacy.IndexField | akin.py:91-134 | returns the inline id; rows are rehashed when forced and otherwise only when they lack the id; the index uses the threshold's b and r and the groups are its sweep |
| AkinLegacy.ForceRehashIff | akin.py:100-115 | a pass always leaves the id on the row and touches no other key; with force_rehash the value is recomputed; without it, a row holding the id is unchanged |
| AkinLegacy.RanNothing | akin.py:75-76 | running no calls changes nothing |
| AkinLegacy.GroupForStable | akin.py:100 | later passes without rehash leave earlier groups' cached signatures, and so their sweeps, intact |
| AkinLegacy.HashedFreshThen | akin.py:99-114 | across two runs, every id new to a row holds the hash of the row's field as the first call with that id computed it |
| AkinLegacy.AppendedThen | akin.py:83-89 | groups appended by two runs are the groups of all their calls, in order, still swept as later runs add ids |
| AkinLegacy.RanThen | akin.py:83-89 | two runs of calls in sequence are the run of all of them, with groups appended in order |
| AkinLegacy.CanHashStable | akin.py:100-102 | a row able to be hashed for an id stays so as more ids are cached |
| AkinLegacy.Akin.constructor | akin.py:52-55 | no groups yet |
| AkinLegacy.Akin.RunJob | akin.py:85-89 | one call indexes the field without rehash and appends exactly its group; a row that lacked the id now holds the MinHash and token count of its lower-cased field |
| AkinLegacy.Akin.IndexThresholds | akin.py:84-89 | one group per threshold, appended in order; each id new to a row holds the hash of its field |
| AkinLegacy.Akin.IndexSetting | akin.py:76-89 | one group per (field, threshold), fields outermost; each id new to a row holds the hash of its field |
| AkinLegacy.Akin.IndexDataSource | akin.py:75-89 | exactly one group per planned call is appended after the existing ones, in nested-loop order, each the sweep of its id over the data source; every planned id ends up on every row, and an id a row lacked holds the hash of the row's field under the first call with that id; cached values are never overwritten and no other key is added |

## Left out

- SQLite and pickle persistence is not modelled. This covers the database writes in `group_data`, `add_datasource`, `delete_datasource` and `add_grouptemplate`, and the loading part of `initialize`. The template table is kept (`templateTable`, with its primary key on the name), because the in-memory registry never sees what `add_grouptemplate` writes. A new `Akin` object stands for an empty database: loading existing tables is not modelled.
- The Flask web layer, YAML/JSON settings and CSV loading are input/output, and `DataSource.load` and `akin.py`'s `initialize` with them.
- MinHash hashing and MinHashLSH's choice of b and r are supplied as parameters. MinHashLSH's own checks are not modelled: its range check on the threshold (the legacy default 100 is outside it) and its check that a signature has `num_perm` values.
- `str(threshold)` float formatting is not modelled; thresholds are strings.
- Writing the export file, the text format of each exported line, and the progress `print` in `akin.py` are output. `ExportGroup` returns the records that would be written.
- Engine.ExportRecord: keeps the visible columns as a map from column name to value. The source writes only the values, in the row dict's insertion order, which the model does not track.
- `group_data` returning the first matching group depends on dict order. The registry invariant (`DataSource.Valid`: every group is stored under its own id) makes that match unique.
- A row lacking the indexed field raises KeyError when it must be hashed. That condition is a precondition (`CanHash`), not an error path.
- `Text.Lower` and `Text.IsSpace` cover ASCII letters and the ASCII/Latin-1 whitespace only, not the full Unicode tables of `str.lower()`/`str.isspace()`.
- Row groups are lists of row indices. They are not the row dicts, which Python shares between groups by reference.
- AkinLegacy.Akin.IndexDataSource: requires every planned call to be able to hash the rows as they stand before the pass. This is stronger than the source only when two calls of one pass share an id, because the earlier call then caches it for the later one.
- AkinLegacy.IndexerSetting: a missing `indexer_settings` (None, which raises TypeError) and settings values of other JSON types (`use_shingles` given as a number) are not modelled.
- Akin.DefaultTemplates: its contract states only that there are three. Their names, thresholds and ids are stated in `DefaultNamesDistinct` and `DefaultTemplatesDistinct`, and their field values are the source's literals.

## Findings

| source | as written | input that shows it | evidently intended | confidence | as-written member | corrected member |
|---|---|---|---|---|---|---|
| akin/__init__.py:75-84 | `add_grouptemplate` writes the template to the table but never adds it to the in-memory templates, so its own duplicate check and every lookup miss it until the next start | first start with no templates: `initialize` seeds "Default", yet `grouptemplates.get("Default")` is None, and `add_grouptemplate("Default", …)` passes the check and then the INSERT raises IntegrityError on the table's primary key | a successful add also registers the template in memory | medium, not executed | Akin.SeededDefaultsStayUnregistered | Akin.Akin.AddGroupTemplateRegistered |
