/**
 The registry row: one checksummed envelope per tenant and scope. The reader compares with Python's equality, so it
 accepts exactly the rows the writer stores and the same rows with another number equal to their revision inside.
 */
module SchemaStore {
  import opened Wrappers
  import opened SchemaHistory

  /** `JVersion` is the text of a version. */
  datatype Json =
    | JNull
    | JBool(truth: bool)
    | JInt(n: int)
    | JReal(x: real)
    | JText(text: string)
    | JVersion(version: Version)
    | JList(items: seq<Json>)
    | JObject(fields: map<string, Json>)

  // --- Python's equality ---

  /** Truth values are numbers. */
  function NumberOf(j: Json): Option<real> {
    match j
    case JBool(truth) => Some(if truth then 1.0 else 0.0)
    case JInt(n) => Some(n as real)
    case JReal(x) => Some(x)
    case _ => None
  }

  predicate Equal(a: Json, b: Json) {
    match (a, b)
    case (JList(s), JList(t)) => |s| == |t| && forall i :: 0 <= i < |s| ==> Equal(s[i], t[i])
    case (JObject(s), JObject(t)) => s.Keys == t.Keys && forall k :: k in s ==> k in t && Equal(s[k], t[k])
    case _ => if NumberOf(a).Some? && NumberOf(b).Some? then NumberOf(a) == NumberOf(b) else a == b
  }

  predicate NumberFree(j: Json) {
    match j
    case JList(s) => forall i :: 0 <= i < |s| ==> NumberFree(s[i])
    case JObject(s) => forall k :: k in s ==> NumberFree(s[k])
    case _ => NumberOf(j).None?
  }

  lemma {:induction false} NumberFreeEqual(a: Json, b: Json)
    requires NumberFree(a)
    ensures Equal(a, b) <==> a == b
  {
    if a.JList? && b.JList? && |a.items| == |b.items| {
      forall i | 0 <= i < |a.items| ensures Equal(a.items[i], b.items[i]) <==> a.items[i] == b.items[i] {
        NumberFreeEqual(a.items[i], b.items[i]);
      }
    } else if a.JObject? && b.JObject? && a.fields.Keys == b.fields.Keys {
      forall k | k in a.fields ensures Equal(a.fields[k], b.fields[k]) <==> a.fields[k] == b.fields[k] {
        NumberFreeEqual(a.fields[k], b.fields[k]);
      }
    }
  }

  datatype StoredRow = StoredRow(revision: int, fingerprint: string, payload: Json)

  // --- Encoding ---

  /** The display id: dots also occur inside namespaces and names. */
  function DisplayId(ref: Ref): string { ref.catalog + ":" + ref.namespace + "." + ref.name }

  function RefJson(ref: Ref): Json {
    JObject(map["catalog" := JText(ref.catalog), "namespace" := JText(ref.namespace), "name" := JText(ref.name), "version" := JVersion(ref.version)])
  }

  function StatusText(status: Status): string { match status case Published => "published" case Deprecated => "deprecated" }

  function EntryJson(p: Publication): Json {
    JObject(map[
      "id" := JText(DisplayId(p.document.ref)),
      "schema" := JText(p.document.definition),
      "status" := JText(StatusText(p.status)),
      "publishedAt" := JText(p.publishedAt),
      "deprecatedAt" := if p.deprecatedAt.Some? then JText(p.deprecatedAt.value) else JNull
    ])
  }

  function Entries(s: seq<Publication>): (items: seq<Json>)
    ensures |items| == |s| && forall i :: 0 <= i < |s| ==> items[i] == EntryJson(s[i])
  {
    seq(|s|, (i: nat) requires i < |s| => EntryJson(s[i]))
  }

  function References(s: seq<Publication>): (items: seq<Json>)
    ensures |items| == |s| && forall i :: 0 <= i < |s| ==> items[i] == RefJson(s[i].document.ref)
  {
    seq(|s|, (i: nat) requires i < |s| => RefJson(s[i].document.ref))
  }

  /** The digest is over a canonical text of the JSON value. */
  type Digest = Json -> string

  function SnapshotFingerprint(digest: Digest, s: Snapshot): string {
    digest(JObject(map["revision" := JInt(s.revision), "schemas" := JList(Entries(s.schemas)), "resources" := JList([])]))
  }

  /** `_payload`. */
  function Payload(digest: Digest, s: Snapshot): Json {
    JObject(map[
      "revision" := JInt(s.revision),
      "fingerprint" := JText(SnapshotFingerprint(digest, s)),
      "schemas" := JList(Entries(s.schemas)),
      "resources" := JList([]),
      "references" := JList(References(s.schemas))
    ])
  }

  /** What `_write` stores. */
  function Stored(digest: Digest, s: Snapshot): StoredRow {
    var payload := Payload(digest, s);
    StoredRow(s.revision, digest(payload), payload)
  }

  /** What `_read` accepts for a snapshot: the stored row, but for the number inside the payload and the digest over it. */
  ghost predicate Accepted(rules: Rules, digest: Digest, r: StoredRow, s: Snapshot) {
    && GoodSnapshot(rules, s) && r.revision == s.revision && Equal(Payload(digest, s), r.payload) && r.fingerprint == digest(r.payload)
  }

  // --- Decoding ---

  function TextAt(j: Json, key: string): Option<string> {
    if j.JObject? && key in j.fields && j.fields[key].JText? then Some(j.fields[key].text) else None
  }

  function ParseRef(j: Json): Option<Ref> {
    if TextAt(j, "catalog").Some? && TextAt(j, "namespace").Some? && TextAt(j, "name").Some? && "version" in j.fields && j.fields["version"].JVersion?
    then Some(Ref(j.fields["catalog"].text, j.fields["namespace"].text, j.fields["name"].text, j.fields["version"].version))
    else None
  }

  function ParseStatus(text: string): Option<Status> {
    if text == "published" then Some(Published) else if text == "deprecated" then Some(Deprecated) else None
  }

  /** One entry with its explicit reference; None wherever the reader rejects. */
  function ParseEntry(rules: Rules, entry: Json, address: Json): Option<Publication> {
    if ParseRef(address).None? || TextAt(entry, "schema").None? || TextAt(entry, "status").None?
       || TextAt(entry, "publishedAt").None? || "deprecatedAt" !in entry.fields || ParseStatus(entry.fields["status"].text).None?
    then None
    else
      var ref, deprecated := ParseRef(address).value, entry.fields["deprecatedAt"];
      var document, status, published := Document(ref, entry.fields["schema"].text), ParseStatus(entry.fields["status"].text).value, entry.fields["publishedAt"].text;
      if ref.catalog !in rules.catalogs || !rules.valid(document) then None
      else if !deprecated.JNull? && !deprecated.JText? then None
      else if !rules.zoned(published) || (deprecated.JText? && !rules.zoned(deprecated.text)) then None
      else if published == "" || ((status == Deprecated) != deprecated.JText?) then None
      else
        var publication := Publication(document, status, published, if deprecated.JText? then Some(deprecated.text) else None);
        if !Equal(EntryJson(publication), entry) || !Equal(RefJson(ref), address) then None else Some(publication)
  }

  predicate DistinctRefs(s: seq<Publication>) { forall i, j :: 0 <= i < j < |s| ==> s[i].document.ref != s[j].document.ref }

  const FIELDS: set<string> := {"revision", "fingerprint", "schemas", "resources", "references"}

  ghost predicate Parses(rules: Rules, entries: seq<Json>, addresses: seq<Json>, s: seq<Publication>) {
    |entries| == |addresses| == |s| && forall i :: 0 <= i < |s| ==> ParseEntry(rules, entries[i], addresses[i]) == Some(s[i])
  }

  ghost predicate SomeRejected(rules: Rules, entries: seq<Json>, addresses: seq<Json>)
    requires |entries| == |addresses|
  {
    exists i :: 0 <= i < |entries| && ParseEntry(rules, entries[i], addresses[i]).None?
  }

  // --- Facts about the encoding ---

  lemma RefRoundTrip(ref: Ref)
    ensures ParseRef(RefJson(ref)) == Some(ref)
  {
  }

  /** Explicit references keep every namespace and name apart. */
  lemma ReferencesAreDistinct(a: Ref, b: Ref)
    ensures RefJson(a) == RefJson(b) <==> a == b
  {
    RefRoundTrip(a);
    RefRoundTrip(b);
  }

  /** The display id alone does not. */
  lemma DisplayIdsCollide()
    ensures var a, b := Ref("structured", "a.b", "c", 1), Ref("structured", "a", "b.c", 1);
      a != b && DisplayId(a) == DisplayId(b) && RefJson(a) != RefJson(b)
  {
    var a, b := Ref("structured", "a.b", "c", 1), Ref("structured", "a", "b.c", 1);
    assert "a.b" + "." + "c" == "a" + "." + "b.c";
    assert DisplayId(a) == "structured" + ":" + ("a.b" + "." + "c") && DisplayId(b) == "structured" + ":" + ("a" + "." + "b.c");
    ReferencesAreDistinct(a, b);
  }

  lemma StatusRoundTrip(status: Status)
    ensures ParseStatus(StatusText(status)) == Some(status)
  {
  }

  lemma OwnEntryEqual(p: Publication, entry: Json, address: Json)
    ensures Equal(EntryJson(p), entry) <==> entry == EntryJson(p)
    ensures Equal(RefJson(p.document.ref), address) <==> address == RefJson(p.document.ref)
  {
    NumberFreeEqual(EntryJson(p), entry);
    NumberFreeEqual(RefJson(p.document.ref), address);
  }

  lemma OwnFields(p: Publication)
    ensures var entry := EntryJson(p);
      && ParseRef(RefJson(p.document.ref)) == Some(p.document.ref)
      && TextAt(entry, "schema") == Some(p.document.definition) && TextAt(entry, "publishedAt") == Some(p.publishedAt)
      && TextAt(entry, "status") == Some(StatusText(p.status)) && ParseStatus(StatusText(p.status)) == Some(p.status)
      && "deprecatedAt" in entry.fields && entry.fields["deprecatedAt"] == (if p.deprecatedAt.Some? then JText(p.deprecatedAt.value) else JNull)
  {
    var entry := EntryJson(p);
    RefRoundTrip(p.document.ref);
    StatusRoundTrip(p.status);
    assert entry.fields["schema"] == JText(p.document.definition) && entry.fields["status"] == JText(StatusText(p.status));
    assert entry.fields["publishedAt"] == JText(p.publishedAt);
  }

  lemma OwnEntryIsRead(rules: Rules, p: Publication)
    requires GoodEntry(rules, p)
    ensures ParseEntry(rules, EntryJson(p), RefJson(p.document.ref)) == Some(p)
  {
    OwnFields(p);
    OwnEntryEqual(p, EntryJson(p), RefJson(p.document.ref));
  }

  lemma ReadEntryIsGood(rules: Rules, p: Publication, entry: Json, address: Json)
    requires ParseEntry(rules, entry, address) == Some(p)
    ensures GoodEntry(rules, p)
  {
  }

  lemma ReadEntryIsOwn(rules: Rules, p: Publication, entry: Json, address: Json)
    requires ParseEntry(rules, entry, address) == Some(p)
    ensures entry == EntryJson(p) && address == RefJson(p.document.ref)
  {
    OwnEntryEqual(p, entry, address);
  }

  /** Exactly the well-formed entries are read, each from exactly its own encoding. */
  lemma EntryIsReadExactly(rules: Rules, p: Publication, entry: Json, address: Json)
    ensures ParseEntry(rules, entry, address) == Some(p)
            <==> GoodEntry(rules, p) && entry == EntryJson(p) && address == RefJson(p.document.ref)
  {
    if GoodEntry(rules, p) { OwnEntryIsRead(rules, p); }
    if ParseEntry(rules, entry, address) == Some(p) {
      ReadEntryIsOwn(rules, p, entry, address);
      ReadEntryIsGood(rules, p, entry, address);
    }
  }

  lemma {:induction false} SortedHasSame(s: seq<Publication>, q: Publication)
    ensures q in Sorted(s) <==> q in s
  {
    if s != [] {
      var n := |s| - 1;
      assert s == s[..n] + [s[n]];
      SortedHasSame(s[..n], q);
      InsertHas(s[n], Sorted(s[..n]), q);
    }
  }

  lemma {:induction false} SortedOrders(s: seq<Publication>)
    requires DistinctRefs(s)
    ensures Ordered(Sorted(s))
  {
    if s != [] {
      var n := |s| - 1;
      SortedOrders(s[..n]);
      forall q | q in Sorted(s[..n]) ensures q.document.ref != s[n].document.ref {
        SortedHasSame(s[..n], q);
        var i :| 0 <= i < n && s[..n][i] == q;
        assert s[i] == q;
      }
      InsertOrdered(s[n], Sorted(s[..n]));
    }
  }

  // --- The repository ---

  datatype SchemaReference = SchemaReference(catalog: string, namespace: string, name: string, version: Option<Version>)

  datatype Failure = Refused(error: Error) | Storage

  class PostgreSQLSchemaRepository {
    const rules: Rules
    const digest: Digest
    /** The row of this tenant and scope. */
    var row: Option<StoredRow>

    constructor (rules: Rules, digest: Digest, row: Option<StoredRow>)
      ensures this.rules == rules && this.digest == digest && this.row == row
    { this.rules, this.digest, this.row := rules, digest, row; }

    /** The row is read as this snapshot; no row means the empty registry. */
    ghost predicate Holds(s: Snapshot)
      reads this
    {
      if row.None? then s == EMPTY else Accepted(rules, digest, row.value, s)
    }

    /** `_read`: the snapshot if and only if the row is accepted for one. */
    method Read() returns (s: Option<Snapshot>)
      ensures s.Some? ==> Holds(s.value)
      ensures s.None? ==> forall t :: !Holds(t)
    {
      if row.None? { return Some(EMPTY); }
      s := ReadRow(row.value);
    }

    /** `_read(write=True)`: the empty registry is inserted first when there is no row. */
    method ReadForUpdate() returns (s: Option<Snapshot>)
      modifies this
      ensures row == if old(row).None? then Some(Stored(digest, EMPTY)) else old(row)
      ensures s.Some? ==> Holds(s.value) && old(Holds(s.value))
      ensures s.None? ==> forall t :: !old(Holds(t))
    {
      assert GoodSnapshot(rules, EMPTY);
      if row.None? {
        row := Some(Stored(digest, EMPTY));
        StoredIsAccepted(rules, digest, EMPTY);
        assert Holds(EMPTY);
        s := Read();
        assert Holds(EMPTY);
        if s.Some? { OneSnapshot(rules, digest, row, s.value, EMPTY); }
      } else {
        s := Read();
        if s.None? {
          forall t ensures !old(Holds(t)) { assert !Holds(t); }
        }
      }
    }

    method ReadRow(r: StoredRow) returns (s: Option<Snapshot>)
      ensures s.Some? ==> Accepted(rules, digest, r, s.value)
      ensures s.None? ==> forall t :: !Accepted(rules, digest, r, t)
    {
      if r.revision < 0 || !r.payload.JObject? { return None; }
      if r.payload.fields.Keys != FIELDS { return None; }
      var schemas, references := r.payload.fields["schemas"], r.payload.fields["references"];
      forall t | Accepted(rules, digest, r, t) ensures schemas == JList(Entries(t.schemas)) && references == JList(References(t.schemas)) {
        AcceptedParts(rules, digest, t, r);
      }
      if !schemas.JList? || !references.JList? || |schemas.items| != |references.items| { return None; }
      var parsed := ReadEntries(schemas.items, references.items);
      if parsed.None? {
        forall t ensures !Accepted(rules, digest, r, t) {
          if Accepted(rules, digest, r, t) { OwnEntriesParse(rules, t, schemas.items, references.items); }
        }
        return None;
      }
      var publications := parsed.value;
      var snapshot := Snapshot(r.revision, Sorted(publications));
      forall t | Accepted(rules, digest, r, t) ensures publications == t.schemas && snapshot == t {
        OwnPublications(rules, t, schemas.items, references.items, publications);
      }
      if !DistinctRefs(publications) || !Equal(Payload(digest, snapshot), r.payload) || digest(r.payload) != r.fingerprint {
        forall t ensures !Accepted(rules, digest, r, t) {
          if Accepted(rules, digest, r, t) { OrderedIsDistinct(t.schemas); }
        }
        return None;
      }
      AcceptedIsGood(rules, schemas.items, references.items, publications, r.revision);
      return Some(snapshot);
    }

    /** The publications, entry by entry with its reference; None at the first that is rejected. */
    method ReadEntries(entries: seq<Json>, addresses: seq<Json>) returns (s: Option<seq<Publication>>)
      requires |entries| == |addresses|
      ensures s.Some? ==> Parses(rules, entries, addresses, s.value)
      ensures s.None? ==> SomeRejected(rules, entries, addresses)
    {
      var publications: seq<Publication> := [];
      for i := 0 to |entries|
        invariant Parses(rules, entries[..i], addresses[..i], publications)
      {
        var publication := ParseEntry(rules, entries[i], addresses[i]);
        if publication.None? { return None; }
        publications := publications + [publication.value];
      }
      assert entries[..|entries|] == entries && addresses[..|addresses|] == addresses;
      return Some(publications);
    }

    /** `_write`. */
    method Write(s: Snapshot)
      requires GoodSnapshot(rules, s)
      modifies this
      ensures row == Some(Stored(digest, s)) && Holds(s)
    {
      StoredIsAccepted(rules, digest, s);
      var payload := Payload(digest, s);
      row := Some(StoredRow(s.revision, digest(payload), payload));
    }

    /** `publish_schema`, one transaction under the row's lock: the change of the history, or an error and no change. */
    method PublishSchema(document: Document, expected: Option<int>, allowBreaking: bool, now: string) returns (r: Result<Answer, Failure>)
      requires GoodTime(rules, Publish(document, expected, allowBreaking, now))
      modifies this
      ensures r.Err? ==> row == old(row)
      ensures forall s :: old(Holds(s)) ==>
        var (after, answer) := Apply(rules, s, Publish(document, expected, allowBreaking, now));
        Holds(after) && r == Reported(answer) && (r.Ok? && r.value.Changed? ==> row == Some(Stored(digest, after)))
      ensures r == Err(Storage) ==> forall s :: !old(Holds(s))
    {
      if document.ref.catalog !in rules.catalogs { return Err(Refused(BadCatalog)); }
      if !rules.valid(document) { return Err(Refused(InvalidSchema)); }
      var saved := row;
      var before := ReadForUpdate();
      if before.None? {
        row := saved;
        return Err(Storage);
      }
      forall s | old(Holds(s)) ensures s == before.value { OneSnapshot(rules, digest, saved, s, before.value); }
      var after, answer := AfterPublishing(before.value, document, expected, allowBreaking, now);
      ApplyKeepsGood(rules, before.value, Publish(document, expected, allowBreaking, now));
      if answer.Err? {
        row := saved;
      } else if answer.value.Changed? {
        Write(after);
      }
      return Reported(answer);
    }

    /** The snapshot after a publication, and its answer. */
    method AfterPublishing(before: Snapshot, document: Document, expected: Option<int>, allowBreaking: bool, now: string)
      returns (after: Snapshot, answer: Result<Answer, Error>)
      requires Ordered(before.schemas) && document.ref.catalog in rules.catalogs && rules.valid(document)
      ensures (after, answer) == Apply(rules, before, Publish(document, expected, allowBreaking, now))
    {
      var error := RevisionError(expected, before.revision);
      if error.Some? { return before, Err(error.value); }
      var last, found := Versions(before.schemas, document.ref);
      if found.Some? {
        return before, if found.value.document == document then Ok(Unchanged(found.value)) else Err(VersionConflict);
      }
      if last.Some? {
        if document.ref.version <= last.value.document.ref.version { return before, Err(VersionConflict); }
        if rules.breaking(last.value.document, document) && !allowBreaking { return before, Err(Incompatible); }
      }
      var publication := Publication(document, Published, now, None);
      return Snapshot(before.revision + 1, Sorted(before.schemas + [publication])), Ok(Changed(publication));
    }

    /** The last entry of the same schema, and the entry of exactly this reference. */
    method Versions(s: seq<Publication>, ref: Ref) returns (last: Option<Publication>, found: Option<Publication>)
      requires Ordered(s)
      ensures var i := LastVersion(s, ref); last == if i == |s| then None else Some(s[i])
      ensures var i := Position(s, ref); found == if i == |s| then None else Some(s[i])
    {
      var versions: seq<Publication> := [];
      ghost var at: nat := |s|;
      for i := 0 to |s|
        invariant at <= |s|
        invariant at == |s| ==> versions == [] && forall j :: 0 <= j < i ==> !SameSchema(s[j].document.ref, ref)
        invariant at < |s| ==> at < i && SameSchema(s[at].document.ref, ref) && versions != [] && versions[|versions| - 1] == s[at]
                               && forall j :: at < j < i ==> !SameSchema(s[j].document.ref, ref)
        invariant forall v :: v in versions ==> v in s
        invariant forall j :: 0 <= j < i && SameSchema(s[j].document.ref, ref) ==> s[j] in versions
      {
        if SameSchema(s[i].document.ref, ref) {
          versions := versions + [s[i]];
          at := i;
        }
      }
      last := if versions == [] then None else Some(versions[|versions| - 1]);
      LastVersionIs(s, ref, at);
      found := None;
      for k := 0 to |versions|
        invariant found.None? ==> forall j :: 0 <= j < k ==> versions[j].document.ref != ref
        invariant found.Some? ==> found.value in s && found.value.document.ref == ref
      {
        if versions[k].document.ref == ref && found.None? {
          found := Some(versions[k]);
        }
      }
      ghost var p := Position(s, ref);
      if p < |s| {
        assert s[p] in versions;
        UniqueRef(s, s[p], found.value);
      }
    }

    /** `deprecate_schema`. */
    method DeprecateSchema(ref: Ref, expected: Option<int>, now: string) returns (r: Result<Answer, Failure>)
      requires GoodTime(rules, Deprecate(ref, expected, now))
      modifies this
      ensures r.Err? ==> row == old(row)
      ensures forall s :: old(Holds(s)) ==>
        var (after, answer) := Apply(rules, s, Deprecate(ref, expected, now));
        Holds(after) && r == Reported(answer) && (r.Ok? && r.value.Changed? ==> row == Some(Stored(digest, after)))
      ensures r == Err(Storage) ==> forall s :: !old(Holds(s))
    {
      if ref.catalog !in rules.catalogs { return Err(Refused(BadCatalog)); }
      var saved := row;
      var before := ReadForUpdate();
      if before.None? {
        row := saved;
        return Err(Storage);
      }
      forall s | old(Holds(s)) ensures s == before.value { OneSnapshot(rules, digest, saved, s, before.value); }
      var after, answer := AfterDeprecating(before.value, ref, expected, now);
      ApplyKeepsGood(rules, before.value, Deprecate(ref, expected, now));
      if answer.Err? {
        row := saved;
      } else if answer.value.Changed? {
        Write(after);
      }
      return Reported(answer);
    }

    /** The snapshot after a deprecation, and its answer. */
    method AfterDeprecating(before: Snapshot, ref: Ref, expected: Option<int>, now: string) returns (after: Snapshot, answer: Result<Answer, Error>)
      requires ref.catalog in rules.catalogs
      ensures (after, answer) == Apply(rules, before, Deprecate(ref, expected, now))
    {
      var error := RevisionError(expected, before.revision);
      if error.Some? { return before, Err(error.value); }
      var i := Find(before.schemas, ref);
      if i == |before.schemas| { return before, Err(NotFound); }
      var item := before.schemas[i];
      if item.status == Deprecated { return before, Ok(Unchanged(item)); }
      var result := item.(status := Deprecated, deprecatedAt := Some(now));
      return Snapshot(before.revision + 1, Sorted(before.schemas[i := result])), Ok(Changed(result));
    }

    static method Find(s: seq<Publication>, ref: Ref) returns (i: nat)
      ensures i == Position(s, ref)
    {
      i := 0;
      while i < |s|
        invariant i <= Position(s, ref)
      {
        if s[i].document.ref == ref { return; }
        i := i + 1;
      }
    }

    /** `list_schema_versions`: exactly the schema's entries, deprecated ones on request, in version order. */
    method ListSchemaVersions(reference: SchemaReference, includeDeprecated: bool) returns (r: Result<seq<Publication>, Failure>)
      ensures r.Ok? ==> reference.catalog in rules.catalogs && exists s :: Holds(s) && Lists(r.value, s.schemas, reference, includeDeprecated)
      ensures r.Err? ==> if reference.catalog !in rules.catalogs then r.error == Refused(BadCatalog) else r.error == Storage && forall t :: !Holds(t)
    {
      if reference.catalog !in rules.catalogs { return Err(Refused(BadCatalog)); }
      var read := Read();
      if read.None? { return Err(Storage); }
      var items := Select(read.value.schemas, reference, includeDeprecated);
      assert Holds(read.value);
      r := Ok(items);
    }

    static method Select(all: seq<Publication>, reference: SchemaReference, includeDeprecated: bool) returns (items: seq<Publication>)
      requires Ordered(all)
      ensures Lists(items, all, reference, includeDeprecated)
    {
      items := [];
      for i := 0 to |all|
        invariant Lists(items, all[..i], reference, includeDeprecated)
      {
        assert all[..i + 1] == all[..i] + [all[i]];
        if Listed(all[i], reference, includeDeprecated) {
          forall k | 0 <= k < |items| ensures items[k].document.ref.version < all[i].document.ref.version {
            assert items[k] in items;
            var j :| 0 <= j < i && all[..i][j] == items[k];
            assert Less(all[j].document.ref, all[i].document.ref);
          }
          items := items + [all[i]];
        }
      }
      assert all[..|all|] == all;
    }

    /** `get_schema`: the exact version, or without one the greatest listed version. */
    method GetSchema(reference: SchemaReference, includeDeprecated: bool) returns (r: Result<Publication, Failure>)
      ensures r.Ok? ==> exists s :: Holds(s) && Greatest(r.value, s.schemas, reference, includeDeprecated)
      ensures r.Err? ==>
        if reference.catalog !in rules.catalogs then r.error == Refused(BadCatalog)
        else if r.error == Storage then forall t :: !Holds(t)
        else r.error == Refused(NotFound) && exists s :: Holds(s) && NoneSelected(s.schemas, reference, includeDeprecated)
    {
      var listed := ListSchemaVersions(reference, includeDeprecated);
      if listed.Err? { return Err(listed.error); }
      var candidates := listed.value;
      ghost var s :| Holds(s) && Lists(candidates, s.schemas, reference, includeDeprecated);
      var found := FromLast(candidates, reference, includeDeprecated, s.schemas);
      r := if found.Some? then Ok(found.value) else Err(Refused(NotFound));
    }

    /** The candidates from the last to the first, until one has the version asked for. */
    static method FromLast(candidates: seq<Publication>, reference: SchemaReference, includeDeprecated: bool, ghost s: seq<Publication>)
      returns (found: Option<Publication>)
      requires Lists(candidates, s, reference, includeDeprecated)
      ensures found.Some? ==> Greatest(found.value, s, reference, includeDeprecated)
      ensures found.None? ==> NoneSelected(s, reference, includeDeprecated)
    {
      var i := |candidates|;
      while i > 0
        invariant 0 <= i <= |candidates|
        invariant forall j :: i <= j < |candidates| ==> !Selected(candidates[j], reference, includeDeprecated)
      {
        i := i - 1;
        if reference.version.None? || candidates[i].document.ref.version == reference.version.value {
          LastSelected(candidates, s, reference, includeDeprecated, i);
          return Some(candidates[i]);
        }
      }
      return None;
    }
  }

  ghost predicate NoneSelected(s: seq<Publication>, reference: SchemaReference, includeDeprecated: bool) {
    forall p :: p in s ==> !Selected(p, reference, includeDeprecated)
  }

  function Reported(answer: Result<Answer, Error>): Result<Answer, Failure> {
    match answer case Ok(a) => Ok(a) case Err(e) => Err(Refused(e))
  }

  lemma LastVersionIs(s: seq<Publication>, ref: Ref, i: nat)
    requires i <= |s|
    requires i < |s| ==> SameSchema(s[i].document.ref, ref) && forall j :: i < j < |s| ==> !SameSchema(s[j].document.ref, ref)
    requires i == |s| ==> forall j :: 0 <= j < |s| ==> !SameSchema(s[j].document.ref, ref)
    ensures i == LastVersion(s, ref)
  {
  }

  predicate Listed(p: Publication, reference: SchemaReference, includeDeprecated: bool) {
    Matches(p, reference) && (includeDeprecated || p.status == Published)
  }

  /** The entry is a version of the schema asked for, and not deprecated unless those are asked for too. */
  predicate AskedFor(p: Publication, reference: SchemaReference, includeDeprecated: bool) {
    var ref := p.document.ref;
    && reference.catalog == ref.catalog && reference.namespace == ref.namespace && reference.name == ref.name
    && (p.status == Deprecated ==> includeDeprecated)
  }

  ghost predicate Lists(items: seq<Publication>, s: seq<Publication>, reference: SchemaReference, includeDeprecated: bool) {
    && (forall p :: p in items <==> p in s && AskedFor(p, reference, includeDeprecated))
    && (forall i, j :: 0 <= i < j < |items| ==> items[i].document.ref.version < items[j].document.ref.version)
  }

  ghost predicate Greatest(p: Publication, s: seq<Publication>, reference: SchemaReference, includeDeprecated: bool) {
    && p in s && Selected(p, reference, includeDeprecated)
    && forall q :: q in s && Selected(q, reference, includeDeprecated) ==> q.document.ref.version <= p.document.ref.version
  }

  lemma LastSelected(items: seq<Publication>, s: seq<Publication>, reference: SchemaReference, includeDeprecated: bool, i: nat)
    requires Lists(items, s, reference, includeDeprecated) && i < |items| && (reference.version.None? || items[i].document.ref.version == reference.version.value)
    requires forall j :: i < j < |items| ==> !Selected(items[j], reference, includeDeprecated)
    ensures Greatest(items[i], s, reference, includeDeprecated)
  {
    assert items[i] in items;
    forall q | q in s && Selected(q, reference, includeDeprecated) ensures q.document.ref.version <= items[i].document.ref.version {
      assert q in items;
      var j :| 0 <= j < |items| && items[j] == q;
    }
  }

  predicate Matches(p: Publication, reference: SchemaReference) {
    var ref := p.document.ref;
    ref.catalog == reference.catalog && ref.namespace == reference.namespace && ref.name == reference.name
  }

  predicate Selected(p: Publication, reference: SchemaReference, includeDeprecated: bool) {
    && AskedFor(p, reference, includeDeprecated)
    && (reference.version.None? || p.document.ref.version == reference.version.value)
  }

  // --- What the reader accepts, against what the writer stores ---

  lemma OrderedIsDistinct(s: seq<Publication>)
    requires Ordered(s)
    ensures DistinctRefs(s)
  {
    forall i, j | 0 <= i < j < |s| ensures s[i].document.ref != s[j].document.ref {
      LessIsStrict(s[i].document.ref, s[j].document.ref);
    }
  }

  lemma EntriesNumberFree(s: seq<Publication>)
    ensures NumberFree(JList(Entries(s))) && NumberFree(JList(References(s)))
  {
    forall i | 0 <= i < |s| ensures NumberFree(Entries(s)[i]) && NumberFree(References(s)[i]) {
      assert Entries(s)[i] == EntryJson(s[i]) && References(s)[i] == RefJson(s[i].document.ref);
    }
  }

  /** All but the revision is compared exactly. */
  lemma AcceptedParts(rules: Rules, digest: Digest, s: Snapshot, r: StoredRow)
    requires Accepted(rules, digest, r, s)
    ensures r.payload.JObject? && r.payload.fields.Keys == FIELDS
    ensures r.payload.fields["schemas"] == JList(Entries(s.schemas)) && r.payload.fields["references"] == JList(References(s.schemas))
    ensures r.payload.fields["resources"] == JList([]) && r.payload.fields["fingerprint"] == JText(SnapshotFingerprint(digest, s))
    ensures Equal(JInt(s.revision), r.payload.fields["revision"])
  {
    var p, q := Payload(digest, s).fields, r.payload.fields;
    assert p.Keys == q.Keys == FIELDS;
    EntriesNumberFree(s.schemas);
    forall k | k in FIELDS ensures Equal(p[k], q[k]) { assert k in p; }
    NumberFreeEqual(p["schemas"], q["schemas"]);
    NumberFreeEqual(p["references"], q["references"]);
    NumberFreeEqual(p["resources"], q["resources"]);
    NumberFreeEqual(p["fingerprint"], q["fingerprint"]);
  }

  lemma EqualToItself(j: Json)
    ensures Equal(j, j)
  {
  }

  /** What is written is accepted for the snapshot it was written for. */
  lemma StoredIsAccepted(rules: Rules, digest: Digest, s: Snapshot)
    requires GoodSnapshot(rules, s)
    ensures Accepted(rules, digest, Stored(digest, s), s)
  {
    EqualToItself(Payload(digest, s));
  }

  /** An accepted row is the stored one exactly when the revision inside its payload is an integer. */
  lemma AcceptedIsStoredIff(rules: Rules, digest: Digest, r: StoredRow, s: Snapshot)
    requires Accepted(rules, digest, r, s)
    ensures r.payload.JObject? && "revision" in r.payload.fields
    ensures r == Stored(digest, s) <==> r.payload.fields["revision"].JInt?
  {
    AcceptedParts(rules, digest, s, r);
    if r.payload.fields["revision"].JInt? { assert r.payload.fields == Payload(digest, s).fields; }
  }

  /** The row of a registry of revision 1 with `true` inside is accepted, and no snapshot is stored as it. */
  lemma TrueIsAcceptedForOne(rules: Rules, digest: Digest)
    ensures
      var s := Snapshot(1, []);
      var payload := JObject(Payload(digest, s).fields["revision" := JBool(true)]);
      var r := StoredRow(1, digest(payload), payload);
      Accepted(rules, digest, r, s) && forall t :: r != Stored(digest, t)
  {
    var s := Snapshot(1, []);
    var payload := JObject(Payload(digest, s).fields["revision" := JBool(true)]);
    forall k | k in Payload(digest, s).fields ensures k in payload.fields && Equal(Payload(digest, s).fields[k], payload.fields[k]) {
      EqualToItself(Payload(digest, s).fields[k]);
    }
    assert Equal(Payload(digest, s), payload);
    forall t ensures StoredRow(1, digest(payload), payload) != Stored(digest, t) {
      assert Payload(digest, t).fields["revision"].JInt? && payload.fields["revision"].JBool?;
    }
  }

  lemma OwnEntriesParse(rules: Rules, t: Snapshot, entries: seq<Json>, addresses: seq<Json>)
    requires GoodSnapshot(rules, t) && entries == Entries(t.schemas) && addresses == References(t.schemas)
    ensures !SomeRejected(rules, entries, addresses)
  {
    forall i | 0 <= i < |entries| ensures ParseEntry(rules, entries[i], addresses[i]).Some? {
      assert t.schemas[i] in t.schemas;
      EntryIsReadExactly(rules, t.schemas[i], entries[i], addresses[i]);
    }
  }

  lemma OwnPublications(rules: Rules, t: Snapshot, entries: seq<Json>, addresses: seq<Json>, s: seq<Publication>)
    requires GoodSnapshot(rules, t) && entries == Entries(t.schemas) && addresses == References(t.schemas)
    requires Parses(rules, entries, addresses, s)
    ensures s == t.schemas && Sorted(s) == t.schemas
  {
    forall i | 0 <= i < |s| ensures s[i] == t.schemas[i] {
      assert t.schemas[i] in t.schemas;
      EntryIsReadExactly(rules, t.schemas[i], entries[i], addresses[i]);
    }
    SortedIsStable(t.schemas);
  }

  lemma AcceptedIsGood(rules: Rules, entries: seq<Json>, addresses: seq<Json>, s: seq<Publication>, revision: nat)
    requires Parses(rules, entries, addresses, s) && DistinctRefs(s)
    ensures GoodSnapshot(rules, Snapshot(revision, Sorted(s)))
  {
    SortedOrders(s);
    forall p | p in Sorted(s) ensures GoodEntry(rules, p) {
      SortedHasSame(s, p);
      var i :| 0 <= i < |s| && s[i] == p;
      EntryIsReadExactly(rules, p, entries[i], addresses[i]);
    }
  }

  /** A row is accepted for one snapshot only. */
  lemma AcceptedForOne(rules: Rules, digest: Digest, r: StoredRow, s: Snapshot, t: Snapshot)
    requires Accepted(rules, digest, r, s) && Accepted(rules, digest, r, t)
    ensures s == t
  {
    AcceptedParts(rules, digest, s, r);
    AcceptedParts(rules, digest, t, r);
    var entries, addresses := Entries(s.schemas), References(s.schemas);
    forall i | 0 <= i < |s.schemas| ensures ParseEntry(rules, entries[i], addresses[i]) == Some(s.schemas[i]) {
      assert s.schemas[i] in s.schemas;
      EntryIsReadExactly(rules, s.schemas[i], entries[i], addresses[i]);
    }
    OwnPublications(rules, t, entries, addresses, s.schemas);
  }

  /** Different snapshots are stored as different rows, so a row stands for one snapshot. */
  lemma StoredIsInjective(rules: Rules, digest: Digest, s: Snapshot, t: Snapshot)
    requires GoodSnapshot(rules, s) && GoodSnapshot(rules, t) && Stored(digest, s) == Stored(digest, t)
    ensures s == t
  {
    StoredIsAccepted(rules, digest, s);
    StoredIsAccepted(rules, digest, t);
    AcceptedForOne(rules, digest, Stored(digest, s), s, t);
  }

  lemma OneSnapshot(rules: Rules, digest: Digest, row: Option<StoredRow>, s: Snapshot, t: Snapshot)
    requires row.None? ==> s == EMPTY && t == EMPTY
    requires row.Some? ==> Accepted(rules, digest, row.value, s) && Accepted(rules, digest, row.value, t)
    ensures s == t
  {
    if row.Some? { AcceptedForOne(rules, digest, row.value, s, t); }
  }
}
