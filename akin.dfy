/**
 * The in-memory side of akin/__init__.py: group templates and the group ids
 * built from them, data sources with their cached groups, and the registry of
 * data sources and templates that the Akin object keeps. The SQLite writes
 * that accompany each registry operation are not part of this model, except
 * for the template table, whose rows and primary key are kept.
 */
module Akin {
  import opened Text
  import opened MinHashLsh
  import opened Engine

  /**
   * A named hashing configuration, as read back from the template table:
   * the flags are SQLite integers and the threshold is kept as str(threshold).
   */
  datatype GroupTemplate = GroupTemplate(
    name: string,
    description: string,
    indexType: string,
    threshold: string,
    caseSensitive: int,
    useShingles: int,
    shingleLength: int,
    numPermutations: int)

  /**
   * The GroupData namedtuple: the owning data source's name, its group id, its
   * index and its groups of row indices. Its constructor is GroupDataOf, since
   * inside the Akin class the name GroupData is the group_data method.
   */
  datatype GroupData = GroupDataOf(dataSource: string, field: string, lsh: Index, values: seq<seq<nat>>)

  /** group_data hands back the stored GroupData when one exists, and only the new groups otherwise. */
  datatype GroupResult = Existing(group: GroupData) | Created(values: seq<seq<nat>>)

  // ---------------------------------------------------------------------------
  // Group ids

  /** str(use_shingles), followed by str(shingle_length) only when shingling is on. */
  function ShingleMarker(useShingles: int, shingleLength: int): string {
    IntToString(useShingles) + (if useShingles != 0 then IntToString(shingleLength) else "")
  }

  /**
   * _generate_groupid: '__' + '_'.join([field, index_type, str(threshold),
   * str(num_permutations), marker]). The double underscore marks a system field,
   * and the id ends in a digit, so it can never be another id followed by "_len".
   */
  function GroupId(field: string, t: GroupTemplate): (id: string)
    ensures |id| > 2 && id[..2] == "__" && IsHiddenKey(id)
    ensures IsDigit(id[|id| - 1])
  {
    var marker := ShingleMarker(t.useShingles, t.shingleLength);
    JoinFive("_", field, t.indexType, t.threshold, IntToString(t.numPermutations), marker);
    "__" + JoinWith("_", [field, t.indexType, t.threshold, IntToString(t.numPermutations), marker])
  }

  /** The five parts of the id, each followed by '_' except the last. */
  lemma GroupIdSpelledOut(field: string, t: GroupTemplate)
    ensures GroupId(field, t) ==
      "__" + (field + "_" + (t.indexType + "_" + (t.threshold + "_" +
        (IntToString(t.numPermutations) + "_" + ShingleMarker(t.useShingles, t.shingleLength)))))
  {
    JoinFive("_", field, t.indexType, t.threshold, IntToString(t.numPermutations), ShingleMarker(t.useShingles, t.shingleLength));
  }

  lemma MarkerIff(u1: int, k1: int, u2: int, k2: int)
    requires 0 <= u1 <= 1 && 0 <= u2 <= 1
    ensures ShingleMarker(u1, k1) == ShingleMarker(u2, k2) <==> u1 == u2 && (u1 == 1 ==> k1 == k2)
  {
    if ShingleMarker(u1, k1) == ShingleMarker(u2, k2) {
      assert ShingleMarker(u1, k1)[0] == ShingleMarker(u2, k2)[0];
      if u1 == 1 && u2 == 1 {
        assert ShingleMarker(u1, k1)[1..] == IntToString(k1);
        assert ShingleMarker(u2, k2)[1..] == IntToString(k2);
        IntToStringInjective(k1, k2);
      }
    }
  }

  /**
   * For one field, index type and threshold, and use_shingles stored as 0 or 1,
   * two templates give the same group id exactly when they agree on the number
   * of permutations and on shingling, and, with shingling on, on the shingle
   * length. case_sensitive, the name and the description never enter the id,
   * nor does the shingle length when shingling is off.
   */
  lemma SameGroupIdIff(field: string, t1: GroupTemplate, t2: GroupTemplate)
    requires t1.indexType == t2.indexType && t1.threshold == t2.threshold
    requires 0 <= t1.useShingles <= 1 && 0 <= t2.useShingles <= 1
    ensures GroupId(field, t1) == GroupId(field, t2) <==>
            && t1.numPermutations == t2.numPermutations
            && t1.useShingles == t2.useShingles
            && (t1.useShingles == 1 ==> t1.shingleLength == t2.shingleLength)
  {
    GroupIdSpelledOut(field, t1);
    GroupIdSpelledOut(field, t2);
    MarkerIff(t1.useShingles, t1.shingleLength, t2.useShingles, t2.shingleLength);
    var n1, n2 := IntToString(t1.numPermutations), IntToString(t2.numPermutations);
    var m1, m2 := ShingleMarker(t1.useShingles, t1.shingleLength), ShingleMarker(t2.useShingles, t2.shingleLength);
    var s1, s2 := n1 + "_" + m1, n2 + "_" + m2;
    var q1, q2 := t1.threshold + "_" + s1, t1.threshold + "_" + s2;
    var r1, r2 := t1.indexType + "_" + q1, t1.indexType + "_" + q2;
    PrefixCancel("__", field + "_" + r1, field + "_" + r2);
    PrefixCancel(field + "_", r1, r2);
    PrefixCancel(t1.indexType + "_", q1, q2);
    PrefixCancel(t1.threshold + "_", s1, s2);
    if s1 == s2 {
      SplitAtUnderscore(n1, m1, n2, m2);
      IntToStringInjective(t1.numPermutations, t2.numPermutations);
    }
  }

  /**
   * The id cannot always be decoded: when a field name contains '_', moving its
   * tail into the index type spells the same id for a different template.
   */
  lemma GroupIdAmbiguous(a: string, b: string, t: GroupTemplate)
    ensures t.(indexType := b + "_" + t.indexType) != t
    ensures GroupId(a + "_" + b, t) == GroupId(a, t.(indexType := b + "_" + t.indexType))
  {
    var t2 := t.(indexType := b + "_" + t.indexType);
    assert |t2.indexType| > |t.indexType|;
    GroupIdSpelledOut(a + "_" + b, t);
    GroupIdSpelledOut(a, t2);
    var q := t.threshold + "_" + (IntToString(t.numPermutations) + "_" + ShingleMarker(t.useShingles, t.shingleLength));
    var c := t.indexType;
    var A, B, C := a + "_", b + "_", c + "_";
    AppendAssoc(A, b, "_");
    AppendAssoc(A, B, C + q);
    AppendAssoc(B, C, q);
    AppendAssoc(B, c, "_");
    assert A + b + "_" + (C + q) == A + (B + c + "_" + q);
  }

  /**
   * use_shingles is stored as an integer column, and a value other than 0 or 1
   * shares its digits with the shingle length: 1 with length 12 and 11 with
   * length 2 both write the marker "112", so two different templates spell the
   * same id.
   */
  lemma MarkerCollides(t: GroupTemplate)
    ensures ShingleMarker(1, 12) == ShingleMarker(11, 2) == "112"
    ensures t.(useShingles := 1, shingleLength := 12) != t.(useShingles := 11, shingleLength := 2)
    ensures forall field :: GroupId(field, t.(useShingles := 1, shingleLength := 12)) ==
                            GroupId(field, t.(useShingles := 11, shingleLength := 2))
  {
    assert NatToString(12) == NatToString(1) + [DigitChar(2)];
    assert NatToString(11) == NatToString(1) + [DigitChar(1)];
  }

  // ---------------------------------------------------------------------------
  // Data sources

  /** A named list of rows and the groups built over it, keyed by group id. */
  class DataSource {
    const name: string
    const entries: DataEntries
    var groups: map<string, GroupData>

    ghost predicate Valid()
      reads this, entries
    {
      && entries.Valid()
      && forall id :: id in groups ==> groups[id].field == id && groups[id].dataSource == name
    }

    constructor (name: string, rows: seq<Row>)
      ensures Valid() && fresh(entries)
      ensures this.name == name && entries.rows == rows && groups == map[]
      ensures forall i :: 0 <= i < |rows| ==> entries.hidden[i] == map[]
    {
      this.name := name;
      entries := new DataEntries(rows);
      groups := map[];
    }
  }

  /** The tokenisation a template asks for; case_sensitive plays no part. */
  function TokenizerOf(t: GroupTemplate): Tokenizer {
    Tokenizer(t.useShingles != 0, t.shingleLength)
  }

  /**
   * _index_field: build the id, cache a signature and count on every row that
   * has none under it, index every row and sweep.
   */
  method IndexField(entries: DataEntries, field: string, t: GroupTemplate, sketch: Sketch)
    returns (id: string, lsh: Index, groups: seq<seq<nat>>)
    requires entries.Valid()
    requires CanHash(entries.rows, entries.hidden, GroupId(field, t), field, false)
    modifies entries
    ensures id == GroupId(field, t)
    ensures entries.Valid()
    ensures forall i :: 0 <= i < |entries.rows| ==>
      entries.hidden[i] == Refreshed(old(entries.hidden[i]), entries.rows[i], id, field, TokenizerOf(t),
                                     t.numPermutations, false, sketch.minhash)
    ensures (lsh.b, lsh.r) == sketch.bands(t.threshold, t.numPermutations)
    ensures Swept(entries.hidden, id, lsh, groups)
    ensures ProperGroups(groups, |entries.rows|)
  {
    var forceRehash := false;
    id := GroupId(field, t);
    var (b, r) := sketch.bands(t.threshold, t.numPermutations);
    lsh, groups := IndexRows(entries, id, field, TokenizerOf(t), t.numPermutations, forceRehash, b, r, sketch.minhash);
  }

  /** The rows written for the three templates seeded into an empty registry. */
  function DefaultTemplates(): (ts: seq<GroupTemplate>)
    ensures |ts| == 3
  {
    [ GroupTemplate("Default", "Use MinHashLSH to find groups with a Jaccard similarity of 1.",
                    "minhashlsh", "1.0", 0, 0, 4, 128),
      GroupTemplate("Default 0.9", "Use MinHashLSH to find groups with a Jaccard similarity of 0.9.",
                    "minhashlsh", "0.9", 0, 0, 4, 128),
      GroupTemplate("Default 0.95 Shingled 3", "Use MinHashLSH with shingling to find groups with a Jaccard similarity of 0.95.",
                    "minhashlsh", "0.95", 0, 1, 3, 128) ]
  }

  /** Two templates of one index type whose thresholds already differ at position k, counting the '_' after them, give different ids. */
  lemma IdsDifferInThreshold(field: string, t1: GroupTemplate, t2: GroupTemplate, k: nat)
    requires t1.indexType == t2.indexType
    requires k <= |t1.threshold| && k <= |t2.threshold|
    requires (t1.threshold + "_")[k] != (t2.threshold + "_")[k]
    ensures GroupId(field, t1) != GroupId(field, t2)
  {
    GroupIdSpelledOut(field, t1);
    GroupIdSpelledOut(field, t2);
    var x1 := t1.threshold + "_" + (IntToString(t1.numPermutations) + "_" + ShingleMarker(t1.useShingles, t1.shingleLength));
    var x2 := t2.threshold + "_" + (IntToString(t2.numPermutations) + "_" + ShingleMarker(t2.useShingles, t2.shingleLength));
    assert x1[k] == (t1.threshold + "_")[k] && x2[k] == (t2.threshold + "_")[k];
    var p := t1.indexType + "_";
    PrefixCancel(p, x1, x2);
    PrefixCancel(field + "_", p + x1, p + x2);
    PrefixCancel("__", field + "_" + (p + x1), field + "_" + (p + x2));
  }

  lemma DefaultNamesDistinct()
    ensures forall i, j :: 0 <= i < j < 3 ==> DefaultTemplates()[i].name != DefaultTemplates()[j].name
  {
    var d := DefaultTemplates();
    assert |d[0].name| == 7 && |d[1].name| == 11 && |d[2].name| == 23;
  }

  /**
   * The default templates have distinct names, and on any one field they give
   * three distinct group ids, so seeding them never makes one shadow another.
   */
  lemma DefaultTemplatesDistinct(field: string)
    ensures forall i, j :: 0 <= i < j < 3 ==>
      GroupId(field, DefaultTemplates()[i]) != GroupId(field, DefaultTemplates()[j])
  {
    var d := DefaultTemplates();
    assert d[0].threshold == "1.0" && d[1].threshold == "0.9" && d[2].threshold == "0.95";
    assert d[0].indexType == d[1].indexType == d[2].indexType;
    forall i, j | 0 <= i < j < 3
      ensures GroupId(field, d[i]) != GroupId(field, d[j])
    {
      if i == 0 {
        IdsDifferInThreshold(field, d[i], d[j], 0);
      } else {
        assert (d[1].threshold + "_")[3] == '_' && (d[2].threshold + "_")[3] == '5';
        IdsDifferInThreshold(field, d[i], d[j], 3);
      }
    }
  }

  // ---------------------------------------------------------------------------
  // The registry

  /** The template names in the rows of the template table. */
  function TableNames(rows: seq<GroupTemplate>): set<string> {
    set t | t in rows :: t.name
  }

  /** PRIMARY KEY(template_name): no two rows of the template table share a name. */
  ghost predicate KeysUnique(rows: seq<GroupTemplate>) {
    forall i, j :: 0 <= i < j < |rows| ==> rows[i].name != rows[j].name
  }

  /**
   * What add_grouptemplate gives back: its (ok, message) pair, or the
   * IntegrityError that the INSERT raises when the template's name is already a
   * key of the template table.
   */
  datatype AddOutcome = Returned(ok: bool, message: string) | IntegrityError

  class Akin {
    var datasources: map<string, DataSource>
    var grouptemplates: map<string, GroupTemplate>
    /** The rows of the template table, in insertion order; a new object starts from an empty database. */
    var templateTable: seq<GroupTemplate>

    ghost predicate Valid()
      reads this
    {
      && (forall name :: name in datasources ==> datasources[name].name == name)
      && KeysUnique(templateTable)
    }

    constructor ()
      ensures Valid()
      ensures datasources == map[] && grouptemplates == map[] && templateTable == []
    {
      datasources := map[];
      grouptemplates := map[];
      templateTable := [];
    }

    /**
     * group_data: when a group with this field's id exists it is returned as it
     * is, with nothing re-indexed; otherwise the field is indexed and the new
     * group is stored under its id, and only its groups are returned.
     */
    method GroupData(ds: DataSource, field: string, t: GroupTemplate, sketch: Sketch) returns (res: GroupResult)
      requires ds.Valid()
      requires CanHash(ds.entries.rows, ds.entries.hidden, GroupId(field, t), field, false)
      modifies ds, ds.entries
      ensures ds.Valid()
      ensures GroupId(field, t) in old(ds.groups) ==>
        && res == Existing(old(ds.groups)[GroupId(field, t)])
        && ds.groups == old(ds.groups)
        && ds.entries.hidden == old(ds.entries.hidden)
      ensures GroupId(field, t) !in old(ds.groups) ==>
        && res.Created?
        && ds.groups.Keys == old(ds.groups).Keys + {GroupId(field, t)}
        && (forall id :: id in old(ds.groups) ==> ds.groups[id] == old(ds.groups)[id])
        && var g := ds.groups[GroupId(field, t)];
           && g.dataSource == ds.name && g.field == GroupId(field, t) && g.values == res.values
           && (g.lsh.b, g.lsh.r) == sketch.bands(t.threshold, t.numPermutations)
           && Swept(ds.entries.hidden, g.field, g.lsh, g.values)
           && ProperGroups(g.values, |ds.entries.rows|)
           && forall i :: 0 <= i < |ds.entries.rows| ==>
                ds.entries.hidden[i] == Refreshed(old(ds.entries.hidden[i]), ds.entries.rows[i], g.field, field,
                                                  TokenizerOf(t), t.numPermutations, false, sketch.minhash)
    {
      var fieldHash := GroupId(field, t);
      var existing := set g | g in ds.groups.Values && g.field == fieldHash;
      if fieldHash in ds.groups {
        assert ds.groups[fieldHash] in ds.groups.Values;
        assert ds.groups[fieldHash] in existing;
      }
      if existing != {} {
        var g :| g in existing;
        assert exists k :: k in ds.groups && ds.groups[k] == g;
        res := Existing(g);
        return;
      }
      var lsh, groups;
      fieldHash, lsh, groups := IndexField(ds.entries, field, t, sketch);
      var groupData := GroupDataOf(ds.name, fieldHash, lsh, groups);
      ds.groups := ds.groups[groupData.field := groupData];
      res := Created(groups);
    }

    /**
     * add_grouptemplate: a name already registered in memory is refused; a
     * template whose name is already a key of the template table makes the
     * INSERT raise; otherwise the template is written out, and only written out.
     */
    method AddGroupTemplate(name: string, template: GroupTemplate) returns (r: AddOutcome)
      requires Valid()
      modifies this
      ensures Valid()
      ensures datasources == old(datasources) && grouptemplates == old(grouptemplates)
      ensures name in old(grouptemplates) ==>
        && r == Returned(false, "Data source with the name \"" + name + "\" already exists")
        && templateTable == old(templateTable)
      ensures name !in old(grouptemplates) && template.name in TableNames(old(templateTable)) ==>
        r == IntegrityError && templateTable == old(templateTable)
      ensures name !in old(grouptemplates) && template.name !in TableNames(old(templateTable)) ==>
        && r == Returned(true, "Successfully added group template")
        && templateTable == old(templateTable) + [template]
    {
      if name in grouptemplates {
        return Returned(false, "Data source with the name \"" + name + "\" already exists");
      }
      if template.name in TableNames(templateTable) {
        return IntegrityError;
      }
      templateTable := templateTable + [template];
      return Returned(true, "Successfully added group template");
    }

    /**
     * add_grouptemplate as evidently intended: a template that is written out is
     * also registered, so the duplicate check and later lookups see it.
     */
    method AddGroupTemplateRegistered(name: string, template: GroupTemplate) returns (r: AddOutcome)
      requires Valid()
      modifies this
      ensures Valid()
      ensures datasources == old(datasources)
      ensures name in old(grouptemplates) ==>
        && r == Returned(false, "Data source with the name \"" + name + "\" already exists")
        && grouptemplates == old(grouptemplates) && templateTable == old(templateTable)
      ensures name !in old(grouptemplates) && template.name in TableNames(old(templateTable)) ==>
        r == IntegrityError && grouptemplates == old(grouptemplates) && templateTable == old(templateTable)
      ensures name !in old(grouptemplates) && template.name !in TableNames(old(templateTable)) ==>
        && r == Returned(true, "Successfully added group template")
        && grouptemplates == old(grouptemplates)[name := template]
        && templateTable == old(templateTable) + [template]
    {
      if name in grouptemplates {
        return Returned(false, "Data source with the name \"" + name + "\" already exists");
      }
      if template.name in TableNames(templateTable) {
        return IntegrityError;
      }
      grouptemplates := grouptemplates[name := template];
      templateTable := templateTable + [template];
      return Returned(true, "Successfully added group template");
    }

    /** add_datasource: a name already present is refused; otherwise exactly that name is added. */
    method AddDatasource(name: string, data: seq<Row>) returns (ok: bool, message: string)
      requires Valid()
      modifies this
      ensures Valid()
      ensures grouptemplates == old(grouptemplates) && templateTable == old(templateTable)
      ensures ok <==> name !in old(datasources)
      ensures !ok ==> datasources == old(datasources)
      ensures !ok ==> message == "Data source with the name \"" + name + "\" already exists"
      ensures ok ==>
        && datasources.Keys == old(datasources).Keys + {name}
        && (forall n :: n in old(datasources) ==> datasources[n] == old(datasources)[n])
        && fresh(datasources[name]) && fresh(datasources[name].entries) && datasources[name].Valid()
        && datasources[name].entries.rows == data && datasources[name].groups == map[]
        && (forall i :: 0 <= i < |data| ==> datasources[name].entries.hidden[i] == map[])
        && message == "Successfully parsed and uploaded file"
    {
      if name in datasources {
        return false, "Data source with the name \"" + name + "\" already exists";
      }
      var ds := new DataSource(name, data);
      datasources := datasources[name := ds];
      return true, "Successfully parsed and uploaded file";
    }

    /** delete_datasource: a missing name is refused; otherwise exactly that name is removed. */
    method DeleteDatasource(name: string) returns (ok: bool, message: string)
      requires Valid()
      modifies this
      ensures Valid()
      ensures grouptemplates == old(grouptemplates) && templateTable == old(templateTable)
      ensures ok <==> name in old(datasources)
      ensures ok ==> datasources == old(datasources) - {name} && message == "Successfully deleted datasource"
      ensures !ok ==> datasources == old(datasources)
      ensures !ok ==> message == "No data source with the name \"" + name + "\" exists"
    {
      if name !in datasources {
        return false, "No data source with the name \"" + name + "\" exists";
      }
      datasources := datasources - {name};
      return true, "Successfully deleted datasource";
    }

    /**
     * The end of initialize: when no template was loaded, the three defaults are
     * added through add_grouptemplate, which writes them out but leaves the
     * in-memory templates empty until the next start. An IntegrityError from one
     * of the adds ends initialize there, and raised says so.
     */
    method SeedDefaultTemplates() returns (raised: bool)
      requires Valid()
      modifies this
      ensures Valid()
      ensures datasources == old(datasources) && grouptemplates == old(grouptemplates)
      ensures old(grouptemplates) != map[] ==> !raised && templateTable == old(templateTable)
      ensures old(grouptemplates) == map[] ==> (raised <==> DefaultTaken(old(templateTable)))
      ensures old(grouptemplates) == map[] && !DefaultTaken(old(templateTable)) ==>
        templateTable == old(templateTable) + DefaultTemplates()
      ensures old(grouptemplates) == map[] ==>
        templateTable == old(templateTable) + DefaultTemplates()[..FreeDefaults(old(templateTable))]
    {
      raised := false;
      if grouptemplates == map[] {
        var defaults := DefaultTemplates();
        ghost var t0 := templateTable;
        DefaultNamesDistinct();
        var r := AddGroupTemplate(defaults[0].name, defaults[0]);
        if r.IntegrityError? {
          return true;
        }
        assert defaults[1].name in TableNames(templateTable) <==> defaults[1].name in TableNames(t0);
        r := AddGroupTemplate(defaults[1].name, defaults[1]);
        if r.IntegrityError? {
          assert defaults[..1] == [defaults[0]];
          return true;
        }
        assert defaults[2].name in TableNames(templateTable) <==> defaults[2].name in TableNames(t0);
        r := AddGroupTemplate(defaults[2].name, defaults[2]);
        raised := r.IntegrityError?;
        assert defaults[..2] == [defaults[0], defaults[1]];
        assert defaults[..3] == defaults;
      }
    }
  }

  /** Some default template's name is already a key of the template table. */
  predicate DefaultTaken(rows: seq<GroupTemplate>) {
    exists i :: 0 <= i < 3 && DefaultTemplates()[i].name in TableNames(rows)
  }

  /** How many defaults are written before the first whose name the table already holds. */
  function FreeDefaults(rows: seq<GroupTemplate>): (p: nat)
    ensures p <= 3
    ensures forall q :: 0 <= q < p ==> DefaultTemplates()[q].name !in TableNames(rows)
    ensures p < 3 ==> DefaultTemplates()[p].name in TableNames(rows)
  {
    if DefaultTemplates()[0].name in TableNames(rows) then 0
    else if DefaultTemplates()[1].name in TableNames(rows) then 1
    else if DefaultTemplates()[2].name in TableNames(rows) then 2
    else 3
  }

  /**
   * As written, on a fresh database: the defaults are seeded into the template
   * table only, so "Default" cannot be looked up, and adding it again passes
   * the in-memory duplicate check and then raises IntegrityError at the table.
   */
  method SeededDefaultsStayUnregistered() returns (found: bool, again: AddOutcome)
    ensures !found && again == IntegrityError
  {
    var akin := new Akin();
    var raised := akin.SeedDefaultTemplates();
    found := "Default" in akin.grouptemplates;
    again := akin.AddGroupTemplate("Default", DefaultTemplates()[0]);
  }

  /** Corrected: seeding through the registering add makes "Default" visible and a second add is refused. */
  method SeededDefaultsRegistered() returns (found: bool, again: AddOutcome)
    ensures found && again == Returned(false, "Data source with the name \"Default\" already exists")
  {
    var akin := new Akin();
    var defaults := DefaultTemplates();
    var r := akin.AddGroupTemplateRegistered(defaults[0].name, defaults[0]);
    assert "Default" in akin.grouptemplates;
    r := akin.AddGroupTemplateRegistered(defaults[1].name, defaults[1]);
    assert "Default" in akin.grouptemplates;
    r := akin.AddGroupTemplateRegistered(defaults[2].name, defaults[2]);
    found := "Default" in akin.grouptemplates;
    again := akin.AddGroupTemplateRegistered("Default", defaults[0]);
    assert "Data source with the name \"" + "Default" + "\" already exists" ==
           "Data source with the name \"Default\" already exists";
  }
}
