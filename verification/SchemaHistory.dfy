/** The versioned history of published schemas: what each publication and deprecation may change, over any run. */
module SchemaHistory {
  import opened Wrappers

  /** A semantic version by its rank in the version order. */
  type Version = int

  datatype Ref = Ref(catalog: string, namespace: string, name: string, version: Version)

  datatype Document = Document(ref: Ref, definition: string)

  datatype Status = Published | Deprecated

  datatype Publication = Publication(document: Document, status: Status, publishedAt: string, deprecatedAt: Option<string>)

  datatype Snapshot = Snapshot(revision: nat, schemas: seq<Publication>)

  const EMPTY: Snapshot := Snapshot(0, [])

  /** What the registry leaves to others: installed catalogs, validation, compatibility, time zones. */
  datatype Rules = Rules(catalogs: set<string>, valid: Document -> bool, breaking: (Document, Document) -> bool, zoned: string -> bool)

  // --- The order of a snapshot ---

  predicate TextLess(a: string, b: string) {
    b != [] && (a == [] || a[0] < b[0] || (a[0] == b[0] && TextLess(a[1..], b[1..])))
  }

  lemma {:induction false} TextIsStrict(a: string)
    ensures !TextLess(a, a)
  {
    if a != [] { TextIsStrict(a[1..]); }
  }

  lemma {:induction false} TextIsTransitive(a: string, b: string, c: string)
    requires TextLess(a, b) && TextLess(b, c)
    ensures TextLess(a, c)
  {
    if a != [] && a[0] == b[0] == c[0] { TextIsTransitive(a[1..], b[1..], c[1..]); }
  }

  lemma {:induction false} TextIsTotal(a: string, b: string)
    ensures a == b || TextLess(a, b) || TextLess(b, a)
  {
    if a != [] && b != [] && a[0] == b[0] {
      TextIsTotal(a[1..], b[1..]);
      assert a == [a[0]] + a[1..] && b == [b[0]] + b[1..];
    }
  }

  /** The sort key: catalog, namespace, name, then version. */
  predicate Less(a: Ref, b: Ref) {
    if a.catalog != b.catalog then TextLess(a.catalog, b.catalog)
    else if a.namespace != b.namespace then TextLess(a.namespace, b.namespace)
    else if a.name != b.name then TextLess(a.name, b.name)
    else a.version < b.version
  }

  lemma LessIsStrict(a: Ref, b: Ref)
    requires Less(a, b)
    ensures a != b && !Less(b, a)
  {
    TextIsStrict(a.catalog);
    TextIsStrict(a.namespace);
    TextIsStrict(a.name);
    if TextLess(a.catalog, b.catalog) && TextLess(b.catalog, a.catalog) { TextIsTransitive(a.catalog, b.catalog, a.catalog); }
    if TextLess(a.namespace, b.namespace) && TextLess(b.namespace, a.namespace) { TextIsTransitive(a.namespace, b.namespace, a.namespace); }
    if TextLess(a.name, b.name) && TextLess(b.name, a.name) { TextIsTransitive(a.name, b.name, a.name); }
  }

  lemma TextChain(a: string, b: string, c: string)
    requires TextLess(a, b) && TextLess(b, c)
    ensures TextLess(a, c) && a != c
  {
    TextIsTransitive(a, b, c);
    TextIsStrict(a);
  }

  lemma LessIsTransitive(a: Ref, b: Ref, c: Ref)
    requires Less(a, b) && Less(b, c)
    ensures Less(a, c)
  {
    if a.catalog != b.catalog && b.catalog != c.catalog { TextChain(a.catalog, b.catalog, c.catalog); }
    if a.namespace != b.namespace && b.namespace != c.namespace && a.catalog == b.catalog == c.catalog {
      TextChain(a.namespace, b.namespace, c.namespace);
    }
    if a.name != b.name && b.name != c.name && a.catalog == b.catalog == c.catalog && a.namespace == b.namespace == c.namespace {
      TextChain(a.name, b.name, c.name);
    }
  }

  lemma LessIsTotal(a: Ref, b: Ref)
    ensures a == b || Less(a, b) || Less(b, a)
  {
    TextIsTotal(a.catalog, b.catalog);
    TextIsTotal(a.namespace, b.namespace);
    TextIsTotal(a.name, b.name);
  }

  /** Sorted by reference, all references different. */
  predicate Ordered(s: seq<Publication>) { forall i, j :: 0 <= i < j < |s| ==> Less(s[i].document.ref, s[j].document.ref) }

  function Insert(p: Publication, s: seq<Publication>): (r: seq<Publication>)
    ensures |r| == |s| + 1
  {
    if s == [] || Less(p.document.ref, s[0].document.ref) then [p] + s else [s[0]] + Insert(p, s[1..])
  }

  /** `sorted` with the key of `_snapshot`. */
  function Sorted(s: seq<Publication>): (r: seq<Publication>)
    ensures |r| == |s|
  {
    if s == [] then [] else Insert(s[|s| - 1], Sorted(s[..|s| - 1]))
  }

  lemma {:induction false} InsertHas(p: Publication, s: seq<Publication>, q: Publication)
    ensures q in Insert(p, s) <==> q == p || q in s
  {
    if !(s == [] || Less(p.document.ref, s[0].document.ref)) {
      InsertHas(p, s[1..], q);
      assert s == [s[0]] + s[1..];
    }
  }

  lemma AfterHead(s: seq<Publication>, q: Publication)
    requires Ordered(s) && s != [] && q in s[1..]
    ensures Less(s[0].document.ref, q.document.ref) && q in s
  {
    var i :| 0 <= i < |s| - 1 && s[1..][i] == q;
    assert s[i + 1] == q;
  }

  lemma {:induction false} InsertOrdered(p: Publication, s: seq<Publication>)
    requires Ordered(s) && forall q :: q in s ==> q.document.ref != p.document.ref
    ensures Ordered(Insert(p, s))
  {
    if s != [] {
      var first, ref := s[0].document.ref, p.document.ref;
      assert s[0] in s;
      if Less(ref, first) {
        forall q | q in s ensures Less(ref, q.document.ref) {
          if q in s[1..] { AfterHead(s, q); LessIsTransitive(ref, first, q.document.ref); } else { assert q == s[0] by { HeadOrTail(s, q); } }
        }
        Prepended(p, s);
      } else {
        LessIsTotal(ref, first);
        forall q | q in s[1..] ensures q.document.ref != ref && Less(first, q.document.ref) { AfterHead(s, q); }
        InsertOrdered(p, s[1..]);
        forall q | q in Insert(p, s[1..]) ensures Less(first, q.document.ref) { InsertHas(p, s[1..], q); }
        Prepended(s[0], Insert(p, s[1..]));
      }
    }
  }

  lemma HeadOrTail(s: seq<Publication>, q: Publication)
    requires s != [] && q in s
    ensures q == s[0] || q in s[1..]
  {
    assert s == [s[0]] + s[1..];
  }

  lemma Prepended(p: Publication, s: seq<Publication>)
    requires Ordered(s) && forall q :: q in s ==> Less(p.document.ref, q.document.ref)
    ensures Ordered([p] + s)
  {
    var r := [p] + s;
    forall i, j | 0 <= i < j < |r| ensures Less(r[i].document.ref, r[j].document.ref) {
      assert r[j] == s[j - 1] && s[j - 1] in s;
      if i > 0 { assert r[i] == s[i - 1]; }
    }
  }

  lemma {:induction false} InsertLast(p: Publication, s: seq<Publication>)
    requires Ordered(s + [p])
    ensures Insert(p, s) == s + [p]
  {
    if s != [] {
      var all := s + [p];
      assert all[0] == s[0] && all[|s|] == p && Less(all[0].document.ref, all[|s|].document.ref);
      LessIsStrict(s[0].document.ref, p.document.ref);
      assert s[1..] + [p] == all[1..];
      InsertLast(p, s[1..]);
      assert s == [s[0]] + s[1..];
    }
  }

  /** Sorting an ordered history changes nothing. */
  lemma {:induction false} SortedIsStable(s: seq<Publication>)
    requires Ordered(s)
    ensures Sorted(s) == s
  {
    if s != [] {
      var n := |s| - 1;
      assert s == s[..n] + [s[n]];
      SortedIsStable(s[..n]);
      InsertLast(s[n], s[..n]);
    }
  }

  // --- Publishing and deprecating ---

  predicate SameSchema(a: Ref, b: Ref) { a.catalog == b.catalog && a.namespace == b.namespace && a.name == b.name }

  datatype Error =
    | BadCatalog
    | InvalidSchema
    | BadRevision
    | RevisionConflict
    | VersionConflict
    | Incompatible
    | NotFound

  datatype Answer = Unchanged(publication: Publication) | Changed(publication: Publication)

  datatype Op =
    | Publish(document: Document, expected: Option<int>, allowBreaking: bool, now: string)
    | Deprecate(ref: Ref, expected: Option<int>, now: string)

  /** `_revision`. */
  function RevisionError(expected: Option<int>, observed: nat): Option<Error> {
    if expected.None? then None
    else if expected.value < 0 then Some(BadRevision)
    else if expected.value != observed then Some(RevisionConflict)
    else None
  }

  /** The last entry of the same schema, by index; |s| when there is none. */
  function LastVersion(s: seq<Publication>, ref: Ref): (i: nat)
    ensures i <= |s|
    ensures i < |s| ==> SameSchema(s[i].document.ref, ref) && forall j :: i < j < |s| ==> !SameSchema(s[j].document.ref, ref)
    ensures i == |s| ==> forall j :: 0 <= j < |s| ==> !SameSchema(s[j].document.ref, ref)
  {
    LastBelow(s, ref, |s|)
  }

  function LastBelow(s: seq<Publication>, ref: Ref, n: nat): (i: nat)
    requires n <= |s|
    requires forall j :: n <= j < |s| ==> !SameSchema(s[j].document.ref, ref)
    ensures i <= |s|
    ensures i < |s| ==> SameSchema(s[i].document.ref, ref) && forall j :: i < j < |s| ==> !SameSchema(s[j].document.ref, ref)
    ensures i == |s| ==> forall j :: 0 <= j < |s| ==> !SameSchema(s[j].document.ref, ref)
  {
    if n == 0 then |s| else if SameSchema(s[n - 1].document.ref, ref) then n - 1 else LastBelow(s, ref, n - 1)
  }

  /** The position of a reference; |s| when absent. */
  function Position(s: seq<Publication>, ref: Ref): (i: nat)
    ensures i <= |s|
    ensures i < |s| ==> s[i].document.ref == ref
    ensures forall j :: 0 <= j < i ==> s[j].document.ref != ref
  {
    if s == [] || s[0].document.ref == ref then 0 else 1 + Position(s[1..], ref)
  }

  /** Whether a document may follow the history: a new version greater than the last, compatible unless breaking is allowed. */
  function Refusal(rules: Rules, s: seq<Publication>, document: Document, allowBreaking: bool): Option<Error> {
    var i := LastVersion(s, document.ref);
    if i == |s| then None
    else if document.ref.version <= s[i].document.ref.version then Some(VersionConflict)
    else if rules.breaking(s[i].document, document) && !allowBreaking then Some(Incompatible)
    else None
  }

  /** What `publish_schema` and `deprecate_schema` make of a snapshot. An error changes nothing. */
  function Apply(rules: Rules, before: Snapshot, op: Op): (r: (Snapshot, Result<Answer, Error>)) {
    match op
    case Publish(document, expected, allowBreaking, now) =>
      if document.ref.catalog !in rules.catalogs then (before, Err(BadCatalog))
      else if !rules.valid(document) then (before, Err(InvalidSchema))
      else if RevisionError(expected, before.revision).Some? then (before, Err(RevisionError(expected, before.revision).value))
      else
        var i := Position(before.schemas, document.ref);
        if i < |before.schemas| then
          if before.schemas[i].document == document then (before, Ok(Unchanged(before.schemas[i]))) else (before, Err(VersionConflict))
        else if Refusal(rules, before.schemas, document, allowBreaking).Some? then
          (before, Err(Refusal(rules, before.schemas, document, allowBreaking).value))
        else
          var publication := Publication(document, Published, now, None);
          (Snapshot(before.revision + 1, Sorted(before.schemas + [publication])), Ok(Changed(publication)))
    case Deprecate(ref, expected, now) =>
      if ref.catalog !in rules.catalogs then (before, Err(BadCatalog))
      else if RevisionError(expected, before.revision).Some? then (before, Err(RevisionError(expected, before.revision).value))
      else
        var i := Position(before.schemas, ref);
        if i == |before.schemas| then (before, Err(NotFound))
        else if before.schemas[i].status == Deprecated then (before, Ok(Unchanged(before.schemas[i])))
        else
          var result := before.schemas[i].(status := Deprecated, deprecatedAt := Some(now));
          (Snapshot(before.revision + 1, Sorted(before.schemas[i := result])), Ok(Changed(result)))
  }

  // --- The invariant of a history ---

  /** An entry the registry accepts. */
  predicate GoodEntry(rules: Rules, p: Publication) {
    && p.document.ref.catalog in rules.catalogs
    && rules.valid(p.document)
    && p.publishedAt != "" && rules.zoned(p.publishedAt)
    && (p.status == Deprecated <==> p.deprecatedAt.Some?)
    && (p.deprecatedAt.Some? ==> rules.zoned(p.deprecatedAt.value))
  }

  predicate GoodSnapshot(rules: Rules, s: Snapshot) {
    Ordered(s.schemas) && forall p :: p in s.schemas ==> GoodEntry(rules, p)
  }

  predicate GoodTime(rules: Rules, op: Op) { op.now != "" && rules.zoned(op.now) }

  lemma PublishShape(rules: Rules, before: Snapshot, op: Op)
    requires GoodSnapshot(rules, before) && op.Publish? && Apply(rules, before, op).1.Ok? && Apply(rules, before, op).1.value.Changed?
    ensures var p := Publication(op.document, Published, op.now, None); var after := Apply(rules, before, op).0;
      && after == Snapshot(before.revision + 1, Insert(p, before.schemas))
      && Ordered(after.schemas)
      && (forall q :: q in after.schemas <==> q == p || q in before.schemas)
      && (forall q :: q in before.schemas ==> q.document.ref != op.document.ref)
  {
    var p := Publication(op.document, Published, op.now, None);
    var s := before.schemas;
    forall q | q in s ensures q.document.ref != op.document.ref {
      var i :| 0 <= i < |s| && s[i] == q;
    }
    SortedWithOneMore(s, p);
  }

  lemma SortedWithOneMore(s: seq<Publication>, p: Publication)
    requires Ordered(s) && forall q :: q in s ==> q.document.ref != p.document.ref
    ensures Sorted(s + [p]) == Insert(p, s) && Ordered(Insert(p, s))
    ensures forall q :: q in Insert(p, s) <==> q == p || q in s
  {
    assert (s + [p])[..|s|] == s;
    SortedIsStable(s);
    InsertOrdered(p, s);
    forall q ensures q in Insert(p, s) <==> q == p || q in s { InsertHas(p, s, q); }
  }

  lemma DeprecateShape(rules: Rules, before: Snapshot, op: Op)
    requires GoodSnapshot(rules, before) && op.Deprecate? && Apply(rules, before, op).1.Ok? && Apply(rules, before, op).1.value.Changed?
    ensures var i := Position(before.schemas, op.ref); var after := Apply(rules, before, op).0;
      && i < |before.schemas| && before.schemas[i].status == Published
      && after == Snapshot(before.revision + 1, before.schemas[i := before.schemas[i].(status := Deprecated, deprecatedAt := Some(op.now))])
      && Ordered(after.schemas)
  {
    var i := Position(before.schemas, op.ref);
    var next := before.schemas[i := before.schemas[i].(status := Deprecated, deprecatedAt := Some(op.now))];
    forall j, k | 0 <= j < k < |next| ensures Less(next[j].document.ref, next[k].document.ref) {
      assert next[j].document == before.schemas[j].document && next[k].document == before.schemas[k].document;
    }
    SortedIsStable(next);
  }

  /** Only a change counts as a revision, and every snapshot stays ordered and well formed. */
  lemma ApplyKeepsGood(rules: Rules, before: Snapshot, op: Op)
    requires GoodSnapshot(rules, before) && GoodTime(rules, op)
    ensures var (after, r) := Apply(rules, before, op);
      && GoodSnapshot(rules, after)
      && (if r.Ok? && r.value.Changed? then after.revision == before.revision + 1 else after == before)
  {
    var (after, r) := Apply(rules, before, op);
    if r.Ok? && r.value.Changed? {
      if op.Publish? {
        PublishShape(rules, before, op);
      } else {
        DeprecateShape(rules, before, op);
        forall p | p in after.schemas ensures GoodEntry(rules, p) {
          var j :| 0 <= j < |after.schemas| && after.schemas[j] == p;
          assert before.schemas[j] in before.schemas;
        }
      }
    }
  }

  // --- What the answers mean ---

  /** The catalog is installed, a document is valid, and the expected revision, if any, is the registry's. */
  predicate Admitted(rules: Rules, before: Snapshot, op: Op) {
    && (match op
        case Publish(document, _, _, _) => document.ref.catalog in rules.catalogs && rules.valid(document)
        case Deprecate(ref, _, _) => ref.catalog in rules.catalogs)
    && (op.expected == None || op.expected == Some(before.revision))
  }

  /** What is not admitted fails, whatever the history holds. */
  lemma RefusedUnlessAdmitted(rules: Rules, before: Snapshot, op: Op)
    ensures !Admitted(rules, before, op) ==>
      Apply(rules, before, op) == (before, Err(
        if (if op.Publish? then op.document.ref else op.ref).catalog !in rules.catalogs then BadCatalog
        else if op.Publish? && !rules.valid(op.document) then InvalidSchema
        else if op.expected.Some? && op.expected.value < 0 then BadRevision
        else RevisionConflict))
    ensures Admitted(rules, before, op) && Apply(rules, before, op).1.Err? ==>
      Apply(rules, before, op).1.error in {VersionConflict, Incompatible, NotFound}
  {
  }

  lemma PositionOf(s: seq<Publication>, p: Publication)
    requires Ordered(s) && p in s
    ensures var i := Position(s, p.document.ref); i < |s| && s[i] == p
  {
    var j :| 0 <= j < |s| && s[j] == p;
    var i := Position(s, p.document.ref);
    if i < j { LessIsStrict(s[i].document.ref, s[j].document.ref); }
  }

  /** Publishing a document that is in the history again changes nothing and answers its entry. */
  lemma RepublishingAnswersTheEntry(rules: Rules, before: Snapshot, op: Op, p: Publication)
    requires GoodSnapshot(rules, before) && op.Publish? && Admitted(rules, before, op)
    requires p in before.schemas && p.document == op.document
    ensures Apply(rules, before, op) == (before, Ok(Unchanged(p)))
  {
    PositionOf(before.schemas, p);
  }

  /** Another document under a used reference, and a version that is not above all others, conflict. */
  lemma UsedVersionsConflict(rules: Rules, before: Snapshot, op: Op, p: Publication)
    requires GoodSnapshot(rules, before) && op.Publish? && Admitted(rules, before, op)
    requires p in before.schemas && p.document.ref.(version := op.document.ref.version) == op.document.ref && op.document.ref.version <= p.document.ref.version
    requires forall q :: q in before.schemas ==> q.document != op.document
    ensures Apply(rules, before, op) == (before, Err(VersionConflict))
  {
    LastIsGreatest(before.schemas, op.document.ref, p);
    var i := Position(before.schemas, op.document.ref);
    if i < |before.schemas| { assert before.schemas[i] in before.schemas; }
  }

  lemma NoPosition(s: seq<Publication>, ref: Ref)
    requires forall p :: p in s ==> p.document.ref != ref
    ensures Position(s, ref) == |s|
  {
  }

  /** A version above all others of its schema is published, unless it breaks the greatest of them without leave. */
  lemma NewVersionIsPublished(rules: Rules, before: Snapshot, op: Op)
    requires GoodSnapshot(rules, before) && op.Publish? && Admitted(rules, before, op)
    requires forall p :: p in before.schemas && p.document.ref.(version := op.document.ref.version) == op.document.ref ==> p.document.ref.version < op.document.ref.version
    ensures var (after, r) := Apply(rules, before, op); var entry := Publication(op.document, Published, op.now, None);
      if !op.allowBreaking && exists p :: BreaksGreatest(rules, before.schemas, op.document, p)
      then r == Err(Incompatible) && after == before
      else r == Ok(Changed(entry)) && after.revision == before.revision + 1 && forall q :: q in after.schemas <==> q == entry || q in before.schemas
  {
    var s, d := before.schemas, op.document;
    NoPosition(s, d.ref);
    var k := LastVersion(s, d.ref);
    if k < |s| { assert s[k] in s; }
    if exists p :: BreaksGreatest(rules, s, d, p) {
      var p :| BreaksGreatest(rules, s, d, p);
      LastIsGreatest(s, d.ref, p);
      assert s[k].document.ref == p.document.ref;
      UniqueRef(s, s[k], p);
    } else if k < |s| {
      forall q | q in s && q.document.ref.(version := d.ref.version) == d.ref ensures q.document.ref.version <= s[k].document.ref.version { LastIsGreatest(s, d.ref, q); }
      assert !BreaksGreatest(rules, s, d, s[k]);
    }
    if Apply(rules, before, op).1.Ok? { PublishShape(rules, before, op); }
  }

  /** `p` is the greatest version of the document's schema, and the document breaks it. */
  predicate BreaksGreatest(rules: Rules, s: seq<Publication>, d: Document, p: Publication) {
    && p in s && p.document.ref.(version := d.ref.version) == d.ref && rules.breaking(p.document, d)
    && forall q :: q in s && q.document.ref.(version := d.ref.version) == d.ref ==> q.document.ref.version <= p.document.ref.version
  }

  /** A deprecation answers the entry, deprecated from then on; it fails only if there is no such entry. */
  lemma DeprecationAnswersTheEntry(rules: Rules, before: Snapshot, op: Op)
    requires GoodSnapshot(rules, before) && op.Deprecate? && Admitted(rules, before, op)
    ensures var (after, r) := Apply(rules, before, op);
      && (r.Err? ==> r.error == NotFound && after == before && forall p :: p in before.schemas ==> p.document.ref != op.ref)
      && forall p :: p in before.schemas && p.document.ref == op.ref ==>
           if p.status == Deprecated then r == Ok(Unchanged(p)) && after == before
           else
             var entry := Publication(p.document, Deprecated, p.publishedAt, Some(op.now));
             r == Ok(Changed(entry)) && entry in after.schemas && forall q :: q in before.schemas && q != p ==> q in after.schemas
  {
    var s, i := before.schemas, Position(before.schemas, op.ref);
    forall p | p in s && p.document.ref == op.ref ensures i < |s| && s[i] == p { PositionOf(s, p); }
    if Effective(rules, before, op) {
      DeprecateShape(rules, before, op);
      var after := Apply(rules, before, op).0;
      assert after.schemas[i] in after.schemas;
      forall q | q in s && q != s[i] ensures q in after.schemas {
        var j :| 0 <= j < |s| && s[j] == q;
        assert after.schemas[j] == q;
      }
    }
  }

  /** An answer without error is about the caller's own document or reference, and its entry is in the history then. */
  lemma AnswersAreOwn(rules: Rules, before: Snapshot, op: Op)
    requires GoodSnapshot(rules, before) && Apply(rules, before, op).1.Ok?
    ensures var entry := Apply(rules, before, op).1.value.publication;
      && entry in Apply(rules, before, op).0.schemas
      && (op.Publish? ==> entry.document == op.document)
      && (op.Deprecate? ==> entry.document.ref == op.ref && entry.status == Deprecated)
  {
    if op.Publish? {
      if Effective(rules, before, op) { PublishShape(rules, before, op); }
    } else {
      RefusedUnlessAdmitted(rules, before, op);
      DeprecationAnswersTheEntry(rules, before, op);
      var i := Position(before.schemas, op.ref);
      assert before.schemas[i] in before.schemas;
    }
  }

  // --- Runs ---

  ghost predicate Run(rules: Rules, before: Snapshot, ops: seq<Op>, after: Snapshot)
    decreases |ops|
  {
    if ops == [] then after == before
    else GoodTime(rules, ops[0]) && Run(rules, Apply(rules, before, ops[0]).0, ops[1..], after)
  }

  predicate Effective(rules: Rules, before: Snapshot, op: Op) {
    Apply(rules, before, op).1.Ok? && Apply(rules, before, op).1.value.Changed?
  }

  function EffectiveSteps(rules: Rules, before: Snapshot, ops: seq<Op>): nat
    decreases |ops|
  {
    if ops == [] then 0
    else (if Effective(rules, before, ops[0]) then 1 else 0) + EffectiveSteps(rules, Apply(rules, before, ops[0]).0, ops[1..])
  }

  /** The entry of `s` that continues `p`: same document and publication time; once deprecated, the same entry. */
  ghost predicate Continues(s: Snapshot, p: Publication) {
    exists q :: q in s.schemas && SameEntry(p, q)
  }

  predicate SameEntry(p: Publication, q: Publication) {
    q.document == p.document && q.publishedAt == p.publishedAt && (p.status == Deprecated ==> q == p)
  }

  lemma ApplyContinues(rules: Rules, before: Snapshot, op: Op, p: Publication)
    requires GoodSnapshot(rules, before) && GoodTime(rules, op) && p in before.schemas
    ensures Continues(Apply(rules, before, op).0, p)
  {
    var after := Apply(rules, before, op).0;
    if Effective(rules, before, op) {
      if op.Publish? {
        PublishShape(rules, before, op);
        assert p in after.schemas && SameEntry(p, p);
      } else {
        DeprecateShape(rules, before, op);
        var j :| 0 <= j < |before.schemas| && before.schemas[j] == p;
        assert after.schemas[j] in after.schemas && SameEntry(p, after.schemas[j]);
      }
    } else {
      ApplyKeepsGood(rules, before, op);
      assert p in after.schemas && SameEntry(p, p);
    }
  }

  /** In every run, a published document and its time never change, deprecation is permanent, and nothing is removed. */
  lemma {:induction false} HistoryIsAppendOnly(rules: Rules, before: Snapshot, ops: seq<Op>, after: Snapshot, p: Publication)
    requires GoodSnapshot(rules, before) && Run(rules, before, ops, after) && p in before.schemas
    ensures Continues(after, p)
    decreases |ops|
  {
    if ops == [] {
      assert SameEntry(p, p);
    } else {
      var next := Apply(rules, before, ops[0]).0;
      ApplyContinues(rules, before, ops[0], p);
      ApplyKeepsGood(rules, before, ops[0]);
      var q :| q in next.schemas && SameEntry(p, q);
      HistoryIsAppendOnly(rules, next, ops[1..], after, q);
      var r :| r in after.schemas && SameEntry(q, r);
      assert SameEntry(p, r);
    }
  }

  /** A document once answered without error stays published: repeated later, with an acceptable revision, it is unchanged. */
  lemma PublishedStaysPublished(rules: Rules, before: Snapshot, op: Op, ops: seq<Op>, later: Snapshot, again: Op)
    requires GoodSnapshot(rules, before) && GoodTime(rules, op) && Run(rules, Apply(rules, before, op).0, ops, later)
    requires op.Publish? && Apply(rules, before, op).1.Ok?
    requires again.Publish? && Admitted(rules, later, again)
    ensures again.document == op.document ==>
      Apply(rules, later, again).0 == later && exists p :: p in later.schemas && p.document == op.document && Apply(rules, later, again).1 == Ok(Unchanged(p))
    ensures again.document != op.document && again.document.ref == op.document.ref ==> Apply(rules, later, again) == (later, Err(VersionConflict))
  {
    AnswersAreOwn(rules, before, op);
    ApplyKeepsGood(rules, before, op);
    var next, entry := Apply(rules, before, op).0, Apply(rules, before, op).1.value.publication;
    HistoryIsAppendOnly(rules, next, ops, later, entry);
    RevisionCountsChanges(rules, next, ops, later);
    var p :| p in later.schemas && SameEntry(entry, p);
    if again.document == op.document {
      RepublishingAnswersTheEntry(rules, later, again, p);
    } else if again.document.ref == op.document.ref {
      forall q | q in later.schemas ensures q.document != again.document { if q.document == again.document { UniqueRef(later.schemas, p, q); } }
      UsedVersionsConflict(rules, later, again, p);
    }
  }

  /** A deprecation answered without error holds from then on. */
  lemma DeprecatedStaysDeprecated(rules: Rules, before: Snapshot, op: Op, ops: seq<Op>, later: Snapshot)
    requires GoodSnapshot(rules, before) && GoodTime(rules, op) && Run(rules, Apply(rules, before, op).0, ops, later)
    requires op.Deprecate? && Apply(rules, before, op).1.Ok?
    ensures var entry := Apply(rules, before, op).1.value.publication;
      entry in later.schemas && entry.document.ref == op.ref && entry.status == Deprecated
  {
    AnswersAreOwn(rules, before, op);
    ApplyKeepsGood(rules, before, op);
    HistoryIsAppendOnly(rules, Apply(rules, before, op).0, ops, later, Apply(rules, before, op).1.value.publication);
  }

  /** The revision counts the effective steps; every snapshot of a run is well formed. */
  lemma {:induction false} RevisionCountsChanges(rules: Rules, before: Snapshot, ops: seq<Op>, after: Snapshot)
    requires GoodSnapshot(rules, before) && Run(rules, before, ops, after)
    ensures after.revision == before.revision + EffectiveSteps(rules, before, ops)
    ensures GoodSnapshot(rules, after)
    decreases |ops|
  {
    if ops != [] {
      ApplyKeepsGood(rules, before, ops[0]);
      RevisionCountsChanges(rules, Apply(rules, before, ops[0]).0, ops[1..], after);
    }
  }

  /** Of two changes expecting the same revision, in one run, at most one takes effect. */
  lemma OneChangePerExpectedRevision(rules: Rules, before: Snapshot, first: Op, ops: seq<Op>, later: Snapshot, second: Op)
    requires GoodSnapshot(rules, before) && GoodTime(rules, first) && Run(rules, Apply(rules, before, first).0, ops, later)
    requires first.expected.Some? && second.expected == first.expected && Effective(rules, before, first)
    ensures !Effective(rules, later, second)
  {
    ApplyKeepsGood(rules, before, first);
    RevisionCountsChanges(rules, Apply(rules, before, first).0, ops, later);
  }

  // --- Versions of one schema ---

  /** `q` is the next version after `p` of the same schema. */
  predicate NextVersion(s: seq<Publication>, p: Publication, q: Publication) {
    && p in s && q in s && SameSchema(p.document.ref, q.document.ref) && p.document.ref.version < q.document.ref.version
    && forall r :: r in s && SameSchema(r.document.ref, p.document.ref) ==> r.document.ref.version <= p.document.ref.version || q.document.ref.version <= r.document.ref.version
  }

  /** The snapshot these operations lead to. */
  function After(rules: Rules, start: Snapshot, ops: seq<Op>): Snapshot {
    if ops == [] then start else Apply(rules, After(rules, start, ops[..|ops| - 1]), ops[|ops| - 1]).0
  }

  /** Some step of the run did publish this document, with breaking changes allowed. */
  ghost predicate Allowed(rules: Rules, start: Snapshot, ops: seq<Op>, d: Document) {
    exists i :: 0 <= i < |ops| && AllowedAt(rules, start, ops, i, d)
  }

  predicate AllowedAt(rules: Rules, start: Snapshot, ops: seq<Op>, i: nat, d: Document)
    requires i < |ops|
  {
    && ops[i].Publish? && ops[i].document == d && ops[i].allowBreaking
    && Effective(rules, After(rules, start, ops[..i]), ops[i])
  }

  /** Consecutive versions are compatible, unless the later one was published with breaking changes allowed. */
  ghost predicate Compatible(rules: Rules, start: Snapshot, s: Snapshot, ops: seq<Op>) {
    forall p, q :: NextVersion(s.schemas, p, q) ==> !rules.breaking(p.document, q.document) || Allowed(rules, start, ops, q.document)
  }

  /** The last entry of a schema in an ordered history has its greatest version. */
  lemma LastIsGreatest(s: seq<Publication>, ref: Ref, r: Publication)
    requires Ordered(s) && r in s && SameSchema(r.document.ref, ref)
    ensures LastVersion(s, ref) < |s| && r.document.ref.version <= s[LastVersion(s, ref)].document.ref.version
  {
    var i := LastVersion(s, ref);
    var j :| 0 <= j < |s| && s[j] == r;
    if j < i { assert Less(s[j].document.ref, s[i].document.ref); }
  }

  /** A new version is greater than every version of its schema published before. */
  lemma VersionsIncrease(rules: Rules, before: Snapshot, op: Op, r: Publication)
    requires GoodSnapshot(rules, before) && op.Publish? && Effective(rules, before, op)
    requires r in before.schemas && SameSchema(r.document.ref, op.document.ref)
    ensures r.document.ref.version < op.document.ref.version
  {
    LastIsGreatest(before.schemas, op.document.ref, r);
  }

  lemma PublishKeepsCompatible(rules: Rules, start: Snapshot, before: Snapshot, ops: seq<Op>, op: Op)
    requires GoodSnapshot(rules, before) && before == After(rules, start, ops) && Compatible(rules, start, before, ops)
    requires op.Publish? && Effective(rules, before, op)
    ensures Compatible(rules, start, Apply(rules, before, op).0, ops + [op])
  {
    forall p, q | NextVersion(Apply(rules, before, op).0.schemas, p, q)
      ensures !rules.breaking(p.document, q.document) || Allowed(rules, start, ops + [op], q.document)
    {
      if q in before.schemas {
        OldPair(rules, before, op, p, q);
        AllowedStays(rules, start, ops, op, q.document);
      } else {
        NewVersionFollowsLast(rules, before, op, p, q);
        if op.allowBreaking { AllowedNow(rules, start, before, ops, op); }
      }
    }
  }

  lemma AllowedNow(rules: Rules, start: Snapshot, before: Snapshot, ops: seq<Op>, op: Op)
    requires before == After(rules, start, ops) && op.Publish? && op.allowBreaking && Effective(rules, before, op)
    ensures Allowed(rules, start, ops + [op], op.document)
  {
    assert (ops + [op])[..|ops|] == ops;
    assert AllowedAt(rules, start, ops + [op], |ops|, op.document);
  }

  /** A published version stands after all others, so pairs that end with an older one were pairs before. */
  lemma OldPair(rules: Rules, before: Snapshot, op: Op, p: Publication, q: Publication)
    requires GoodSnapshot(rules, before) && op.Publish? && Effective(rules, before, op)
    requires NextVersion(Apply(rules, before, op).0.schemas, p, q) && q in before.schemas
    ensures NextVersion(before.schemas, p, q)
  {
    PublishShape(rules, before, op);
    if SameSchema(q.document.ref, op.document.ref) { VersionsIncrease(rules, before, op, q); }
  }

  lemma AllowedStays(rules: Rules, start: Snapshot, ops: seq<Op>, op: Op, d: Document)
    ensures Allowed(rules, start, ops, d) ==> Allowed(rules, start, ops + [op], d)
  {
    if Allowed(rules, start, ops, d) {
      var i :| 0 <= i < |ops| && AllowedAt(rules, start, ops, i, d);
      assert (ops + [op])[..i] == ops[..i];
      assert AllowedAt(rules, start, ops + [op], i, d);
    }
  }

  lemma NewVersionFollowsLast(rules: Rules, before: Snapshot, op: Op, p: Publication, q: Publication)
    requires GoodSnapshot(rules, before) && op.Publish? && Effective(rules, before, op)
    requires NextVersion(Apply(rules, before, op).0.schemas, p, q) && q !in before.schemas
    ensures q.document == op.document && (!rules.breaking(p.document, q.document) || op.allowBreaking)
  {
    var after, s := Apply(rules, before, op).0, before.schemas;
    PublishShape(rules, before, op);
    assert q.document == op.document && p in s;
    LastIsGreatest(s, op.document.ref, p);
    var last := s[LastVersion(s, op.document.ref)];
    assert last in s && last in after.schemas;
    VersionsIncrease(rules, before, op, last);
    assert last.document.ref == p.document.ref;
    UniqueRef(s, last, p);
  }

  lemma UniqueRef(s: seq<Publication>, p: Publication, q: Publication)
    requires Ordered(s) && p in s && q in s && p.document.ref == q.document.ref
    ensures p == q
  {
    var i :| 0 <= i < |s| && s[i] == p;
    var j :| 0 <= j < |s| && s[j] == q;
    if i < j { LessIsStrict(s[i].document.ref, s[j].document.ref); }
    if j < i { LessIsStrict(s[j].document.ref, s[i].document.ref); }
  }

  lemma DeprecateKeepsCompatible(rules: Rules, start: Snapshot, before: Snapshot, ops: seq<Op>, op: Op)
    requires GoodSnapshot(rules, before) && Compatible(rules, start, before, ops) && op.Deprecate? && Effective(rules, before, op)
    ensures Compatible(rules, start, Apply(rules, before, op).0, ops + [op])
  {
    DeprecateShape(rules, before, op);
    var after := Apply(rules, before, op).0;
    forall p, q | NextVersion(after.schemas, p, q)
      ensures !rules.breaking(p.document, q.document) || Allowed(rules, start, ops + [op], q.document)
    {
      var earlier, later := SameDocuments(before.schemas, after.schemas, p, q);
      AllowedStays(rules, start, ops, op, q.document);
    }
  }

  /** The pair of versions stands for the same documents in a history that differs only in statuses. */
  lemma SameDocuments(s: seq<Publication>, t: seq<Publication>, p: Publication, q: Publication) returns (p': Publication, q': Publication)
    requires |s| == |t| && (forall i :: 0 <= i < |s| ==> s[i].document == t[i].document) && NextVersion(t, p, q)
    ensures NextVersion(s, p', q') && p'.document == p.document && q'.document == q.document
  {
    var i :| 0 <= i < |t| && t[i] == p;
    var j :| 0 <= j < |t| && t[j] == q;
    p', q' := s[i], s[j];
    forall r | r in s && SameSchema(r.document.ref, p.document.ref)
      ensures r.document.ref.version <= p.document.ref.version || q.document.ref.version <= r.document.ref.version
    {
      var k :| 0 <= k < |s| && s[k] == r;
      assert t[k] in t;
    }
  }

  lemma StepKeepsCompatible(rules: Rules, start: Snapshot, before: Snapshot, ops: seq<Op>, op: Op)
    requires GoodSnapshot(rules, before) && GoodTime(rules, op) && before == After(rules, start, ops) && Compatible(rules, start, before, ops)
    ensures Compatible(rules, start, Apply(rules, before, op).0, ops + [op])
  {
    if !Effective(rules, before, op) {
      ApplyKeepsGood(rules, before, op);
      forall p, q | NextVersion(before.schemas, p, q) ensures !rules.breaking(p.document, q.document) || Allowed(rules, start, ops + [op], q.document) {
        AllowedStays(rules, start, ops, op, q.document);
      }
    } else if op.Publish? {
      PublishKeepsCompatible(rules, start, before, ops, op);
    } else {
      DeprecateKeepsCompatible(rules, start, before, ops, op);
    }
  }

  lemma AfterOne(rules: Rules, start: Snapshot, past: seq<Op>, op: Op)
    ensures After(rules, start, past + [op]) == Apply(rules, After(rules, start, past), op).0
  {
    assert (past + [op])[..|past|] == past;
  }

  ghost predicate Reached(rules: Rules, start: Snapshot, past: seq<Op>, s: Snapshot) {
    GoodSnapshot(rules, s) && s == After(rules, start, past) && Compatible(rules, start, s, past)
  }

  lemma ReachedNext(rules: Rules, start: Snapshot, past: seq<Op>, before: Snapshot, op: Op)
    requires Reached(rules, start, past, before) && GoodTime(rules, op)
    ensures Reached(rules, start, past + [op], Apply(rules, before, op).0)
  {
    ApplyKeepsGood(rules, before, op);
    StepKeepsCompatible(rules, start, before, past, op);
    AfterOne(rules, start, past, op);
  }

  lemma {:induction false} ReachedThroughout(rules: Rules, start: Snapshot, past: seq<Op>, before: Snapshot, ops: seq<Op>, after: Snapshot)
    requires Reached(rules, start, past, before) && Run(rules, before, ops, after)
    ensures Reached(rules, start, past + ops, after)
    decreases |ops|
  {
    if ops == [] {
      assert past + ops == past;
    } else {
      ReachedNext(rules, start, past, before, ops[0]);
      ReachedThroughout(rules, start, past + [ops[0]], Apply(rules, before, ops[0]).0, ops[1..], after);
      assert past + [ops[0]] + ops[1..] == past + ops;
    }
  }

  /** From an empty registry: consecutive versions are compatible unless a step of the run published the later one as breaking. */
  lemma HistoryIsCompatible(rules: Rules, ops: seq<Op>, after: Snapshot)
    requires Run(rules, EMPTY, ops, after)
    ensures Compatible(rules, EMPTY, after, ops)
  {
    assert Reached(rules, EMPTY, [], EMPTY);
    ReachedThroughout(rules, EMPTY, [], EMPTY, ops, after);
    assert [] + ops == ops;
  }
}
