/** `detect_and_register_schema`: the schema description of a cleaned frame, its
    identifier (a digest of the sorted column names written as a JSON list), and
    the registry table that keeps the first record seen for each identifier. */
module Schema {
  import opened Tables
  import Json
  import StringSort

  const SchemaPrefix: string := "schema_"

  /** What is stored under `schemaInfo`: the column names in frame order and
      each name's dtype. */
  datatype SchemaInfo = SchemaInfo(columns: seq<string>, dtypes: map<string, string>)

  /** One item of the schema table. */
  datatype SchemaRecord = SchemaRecord(schemaId: string, userId: string, schemaInfo: SchemaInfo, filename: string)

  /** The dtype dictionary built column by column; when two columns share a
      name, the later one's dtype is the one kept. */
  function Dtypes(cols: seq<Column>): (m: map<string, string>)
    ensures forall n :: n in m <==> n in Names(cols)
    ensures forall k :: 0 <= k < |cols| && (forall l :: k < l < |cols| ==> cols[l].name != cols[k].name) ==>
      m[cols[k].name] == cols[k].dtype
    decreases |cols|, 1
  {
    if cols == [] then map[]
    else
      DtypesStep(cols);
      map[cols[0].name := cols[0].dtype] + Dtypes(cols[1..])
  }

  /** The inductive step of `Dtypes`' contract, from its tail to the whole list. */
  lemma DtypesStep(cols: seq<Column>)
    requires cols != []
    ensures var m := map[cols[0].name := cols[0].dtype] + Dtypes(cols[1..]);
      && (forall n :: n in m <==> n in Names(cols))
      && forall k :: 0 <= k < |cols| && (forall l :: k < l < |cols| ==> cols[l].name != cols[k].name) ==>
           m[cols[k].name] == cols[k].dtype
    decreases |cols|, 0
  {
    var rest := Dtypes(cols[1..]);
    var m := map[cols[0].name := cols[0].dtype] + rest;
    assert Names(cols) == [cols[0].name] + Names(cols[1..]);
    forall k | 0 <= k < |cols| && (forall l :: k < l < |cols| ==> cols[l].name != cols[k].name)
      ensures m[cols[k].name] == cols[k].dtype
    {
      if k == 0 {
        forall k' | 0 <= k' < |cols| - 1 ensures Names(cols[1..])[k'] != cols[0].name {
          assert cols[1..][k'] == cols[k' + 1];
        }
      } else {
        assert cols[k] == cols[1..][k - 1];
        forall l | k - 1 < l < |cols| - 1 ensures cols[1..][l].name != cols[1..][k - 1].name {
          assert cols[1..][l] == cols[l + 1];
        }
      }
    }
  }

  function InfoOf(cols: seq<Column>): SchemaInfo {
    SchemaInfo(Names(cols), Dtypes(cols))
  }

  /** The text the digest is taken of: `json.dumps(sorted(columns))`. */
  function FingerprintText(names: seq<string>): string {
    Json.Dumps(StringSort.Sort(names))
  }

  /** The schema identifier: the prefix followed by the hex digest (MD5 in the
      handler, a parameter here) of the fingerprint text. */
  function SchemaIdOf(names: seq<string>, digest: string -> string): (id: string)
    ensures |id| >= |SchemaPrefix| && id[..|SchemaPrefix|] == SchemaPrefix
    ensures id[|SchemaPrefix|..] == digest(FingerprintText(names))
  {
    SchemaPrefix + digest(FingerprintText(names))
  }

  /** Reordering the columns does not change the identifier. */
  lemma SchemaIdIgnoresOrder(a: seq<string>, b: seq<string>, digest: string -> string)
    requires multiset(a) == multiset(b)
    ensures SchemaIdOf(a, digest) == SchemaIdOf(b, digest)
  {
    StringSort.SortIgnoresOrder(a, b);
  }

  /** Two column lists give the same digest input exactly when they hold the
      same names the same number of times. */
  lemma FingerprintTextExact(a: seq<string>, b: seq<string>)
    ensures FingerprintText(a) == FingerprintText(b) <==> multiset(a) == multiset(b)
  {
    if FingerprintText(a) == FingerprintText(b) {
      Json.DumpsInjective(StringSort.Sort(a), StringSort.Sort(b));
    }
    if multiset(a) == multiset(b) {
      StringSort.SortIgnoresOrder(a, b);
    }
  }

  /** With a collision-free digest, two frames share a schema identifier exactly
      when their column names agree as multisets; dtypes and column order play
      no part. */
  lemma SchemaIdExact(a: seq<string>, b: seq<string>, digest: string -> string)
    requires forall x, y :: digest(x) == digest(y) ==> x == y
    ensures SchemaIdOf(a, digest) == SchemaIdOf(b, digest) <==> multiset(a) == multiset(b)
  {
    FingerprintTextExact(a, b);
    if SchemaIdOf(a, digest) == SchemaIdOf(b, digest) {
      assert SchemaIdOf(a, digest)[|SchemaPrefix|..] == SchemaIdOf(b, digest)[|SchemaPrefix|..];
    }
  }

  /** Every item is stored under its own identifier. */
  predicate KeyedById(items: map<string, SchemaRecord>) {
    forall id :: id in items ==> items[id].schemaId == id
  }

  /** The registry after one registration attempt: the record is added when
      its identifier is new and the store calls succeed; a failing `get_item`
      or `put_item` is swallowed and leaves the registry as it was. */
  function Registered(items: map<string, SchemaRecord>, record: SchemaRecord, storeFails: bool)
    : (r: map<string, SchemaRecord>)
    ensures forall id :: id in items ==> id in r && r[id] == items[id]
    ensures r.Keys <= items.Keys + {record.schemaId}
    ensures record.schemaId in r <==> record.schemaId in items || !storeFails
    ensures record.schemaId in r && record.schemaId !in items ==> r[record.schemaId] == record
    ensures KeyedById(items) ==> KeyedById(r)
  {
    if storeFails || record.schemaId in items then items
    else items[record.schemaId := record]
  }

  /** A second registration under an identifier already present changes
      nothing: the first uploader and file stay recorded. */
  lemma RegisterTwice(items: map<string, SchemaRecord>, first: SchemaRecord, second: SchemaRecord, storeFails: bool)
    requires second.schemaId == first.schemaId
    ensures var once := Registered(items, first, false);
      Registered(once, second, storeFails) == once
  {
  }

  /** The schema table (`SchemaTable`), keyed by `schemaId`. */
  class SchemaTable {
    var items: map<string, SchemaRecord>

    constructor()
      ensures items == map[]
    {
      items := map[];
    }

    /** `detect_and_register_schema(df, user_id, filename)`: builds the schema
        description, registers it unless the identifier is known, and returns
        the identifier whatever the store did. */
    method DetectAndRegister(t: Table, userId: string, filename: string, digest: string -> string, storeFails: bool)
      returns (schemaId: string)
      modifies this
      ensures schemaId == SchemaIdOf(Names(t.columns), digest)
      ensures items == Registered(old(items),
        SchemaRecord(schemaId, userId, InfoOf(t.columns), filename), storeFails)
    {
      var info := InfoOf(t.columns);
      schemaId := SchemaIdOf(Names(t.columns), digest);
      if !storeFails && schemaId !in items {
        items := items[schemaId := SchemaRecord(schemaId, userId, info, filename)];
      }
    }
  }
}
