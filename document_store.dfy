/**
 * The document-store backend of the recorder: one document per record in a collection,
 * content stored with the document, queries that select by key and sort by `fetchDate`.
 *
 * The collection is a sequence of stored documents in insertion order. The pure functions
 * below say what each query selects; the class `MongoRepository` performs the operations
 * step by step and is proved against them.
 */
module DocumentStore {
  import opened Wrappers
  import opened Sorting

  /** A record id: the string form of the store-assigned primary key. */
  type Id = string

  /**
   * A snapshot or a version. `content` is `None` when it has not been loaded (the summaries
   * `findAll` returns) and `isFirstRecord` is `None` when the caller left it unset.
   * Versions carry the id of the snapshot they were derived from in `snapshotId`.
   */
  datatype Record = Record(
    id: Id,
    serviceId: string,
    documentType: string,
    fetchDate: int,
    mimeType: string,
    content: Option<string>,
    isFirstRecord: Option<bool>,
    snapshotId: Option<Id>,
    extraContent: Option<string>)

  /** Errors the store can throw. */
  datatype StoreError = DocumentNotFound(id: Id)

  /** The sort key of every query: `fetchDate`. */
  function FetchDate(r: Record): int {
    r.fetchDate
  }

  /** What the collection holds: loaded content, a resolved first-record flag and unique non-empty ids. */
  ghost predicate StoredDocuments(docs: seq<Record>) {
    && (forall i :: 0 <= i < |docs| ==> docs[i].id != "" && docs[i].content.Some? && docs[i].isFirstRecord.Some?)
    && (forall i, j :: 0 <= i < j < |docs| ==> docs[i].id != docs[j].id)
  }

  /** Some stored document has the key (serviceId, documentType): `findOne({ serviceId, documentType })`. */
  predicate HasKey(docs: seq<Record>, serviceId: string, documentType: string) {
    exists d :: d in docs && d.serviceId == serviceId && d.documentType == documentType
  }

  /** The ids in use in the collection. */
  function Ids(docs: seq<Record>): set<Id> {
    set d | d in docs :: d.id
  }

  /**
   * `find({ serviceId, documentType }).sort({ fetchDate: -1 }).limit(1)`: the document of
   * that key with the greatest `fetchDate` (among equal dates, the one inserted last).
   */
  function Latest(docs: seq<Record>, serviceId: string, documentType: string): (r: Option<Record>)
    ensures r.None? <==> !HasKey(docs, serviceId, documentType)
    ensures r.Some? ==> r.value in docs && r.value.serviceId == serviceId && r.value.documentType == documentType
    ensures r.Some? ==> forall d :: d in docs && d.serviceId == serviceId && d.documentType == documentType ==>
                          d.fetchDate <= r.value.fetchDate
    decreases |docs|
  {
    if docs == [] then None
    else
      var last := docs[|docs| - 1];
      var earlier := Latest(docs[..|docs| - 1], serviceId, documentType);
      assert docs == docs[..|docs| - 1] + [last];
      if last.serviceId == serviceId && last.documentType == documentType &&
         (earlier.None? || earlier.value.fetchDate <= last.fetchDate)
      then Some(last)
      else earlier
  }

  /** The content of the latest document for the key, `undefined` (None) when the key has none. */
  function LatestContent(docs: seq<Record>, serviceId: string, documentType: string): Option<string> {
    match Latest(docs, serviceId, documentType)
    case None => None
    case Some(d) => d.content
  }

  /** `findOne({ _id })`: the first stored document with that id. */
  function FindDoc(docs: seq<Record>, id: Id): (r: Option<Record>)
    ensures r.None? <==> id !in Ids(docs)
    ensures r.Some? ==> r.value in docs && r.value.id == id
    decreases |docs|
  {
    if docs == [] then None
    else if docs[0].id == id then Some(docs[0])
    else
      assert docs == [docs[0]] + docs[1..];
      FindDoc(docs[1..], id)
  }

  /** With unique ids, looking a stored document up by its id finds that very document. */
  lemma {:induction false} FindDocStored(docs: seq<Record>, i: nat)
    requires StoredDocuments(docs) && i < |docs|
    ensures FindDoc(docs, docs[i].id) == Some(docs[i])
    decreases |docs|
  {
    if i > 0 {
      assert docs[0].id != docs[i].id;
      var tail := docs[1..];
      assert StoredDocuments(tail) by {
        forall a, b | 0 <= a < b < |tail| ensures tail[a].id != tail[b].id {
          assert tail[a] == docs[a + 1] && tail[b] == docs[b + 1];
        }
      }
      FindDocStored(tail, i - 1);
    }
  }

  lemma FindDocMember(docs: seq<Record>, d: Record)
    requires StoredDocuments(docs) && d in docs
    ensures FindDoc(docs, d.id) == Some(d)
  {
    var i :| 0 <= i < |docs| && docs[i] == d;
    FindDocStored(docs, i);
  }

  /**
   * `loadRecordContent(record)`: `record` with the content of the stored document that has
   * its id; a record whose id is not stored makes the destructuring of `null` throw.
   */
  function LoadContent(docs: seq<Record>, record: Record): (r: Result<Record, StoreError>)
    ensures r.Failure? <==> record.id !in Ids(docs)
    ensures r.Success? ==> r.value == record.(content := FindDoc(docs, record.id).value.content)
  {
    match FindDoc(docs, record.id)
    case None => Failure(DocumentNotFound(record.id))
    case Some(d) => Success(record.(content := d.content))
  }

  /**
   * `#toDomain(document, { deferContentLoading })`: no document gives an empty result; a
   * document read with deferred loading is returned as read, otherwise its content is
   * reloaded from the store by id. Callers pass only documents they have just read.
   */
  function ToDomain(docs: seq<Record>, document: Option<Record>, deferContentLoading: bool): (r: Option<Record>)
    requires document.Some? && !deferContentLoading ==> document.value.id in Ids(docs)
    ensures r.None? <==> document.None?
    ensures r.Some? ==> r.value.(content := document.value.content) == document.value
  {
    match document
    case None => None
    case Some(d) =>
      if deferContentLoading then Some(d) else Some(LoadContent(docs, d).value)
  }

  /** Hydrating a stored document reproduces it exactly: deferred loading is not a semantic change. */
  lemma ToDomainStored(docs: seq<Record>, d: Record)
    requires StoredDocuments(docs) && d in docs
    ensures ToDomain(docs, Some(d), false) == Some(d)
  {
    FindDocMember(docs, d);
  }

  /** The summary `findAll` returns for a document: everything but the content (`project({ content: 0 })`). */
  function Summary(d: Record): Record {
    d.(content := None)
  }

  /** Summaries of the documents matching `filter`, in collection order: `find(filter).project({ content: 0 })`. */
  function Summaries(docs: seq<Record>, filter: Record -> bool): (r: seq<Record>)
    ensures |r| <= |docs|
    ensures |r| == |Filter(docs, filter)|
    ensures forall i :: 0 <= i < |r| ==> r[i] == Summary(Filter(docs, filter)[i])
    ensures forall i :: 0 <= i < |r| ==> r[i].content.None?
    ensures forall i :: 0 <= i < |r| ==> exists d :: d in docs && filter(d) && r[i] == Summary(d)
    ensures forall d :: d in docs && filter(d) ==> Summary(d) in r
  {
    var matching := Filter(docs, filter);
    var r := seq(|matching|, i requires 0 <= i < |matching| => Summary(matching[i]));
    assert forall i :: 0 <= i < |r| ==> r[i] == Summary(matching[i]) && matching[i] in docs && filter(matching[i]);
    assert forall d :: d in docs && filter(d) ==> Summary(d) in r by {
      forall d | d in docs && filter(d) ensures Summary(d) in r {
        var k :| 0 <= k < |docs| && docs[k] == d;
        assert d in matching;
        var j :| 0 <= j < |matching| && matching[j] == d;
        assert r[j] == Summary(d);
      }
    }
    r
  }

  /** A string longer than every stored id, hence different from all of them. */
  function MaxIdLength(docs: seq<Record>): (n: nat)
    ensures forall i :: 0 <= i < |docs| ==> |docs[i].id| <= n
    decreases |docs|
  {
    if docs == [] then 0
    else
      var m := MaxIdLength(docs[1..]);
      assert forall i :: 1 <= i < |docs| ==> docs[i] == docs[1..][i - 1];
      if |docs[0].id| > m then |docs[0].id| else m
  }

  /** The id `insertOne` assigns: non-empty and distinct from every id in the collection. */
  function FreshId(docs: seq<Record>): (id: Id)
    ensures id != ""
    ensures id !in Ids(docs)
  {
    seq(MaxIdLength(docs) + 1, _ => 'f')
  }

  /** The outcome of `save`: the new collection, the argument record as `save` leaves it, and whether it was written. */
  datatype SaveOutcome = SaveOutcome(docs: seq<Record>, record: Record, inserted: bool)

  /**
   * `save(record)`: resolve an unset `isFirstRecord` by looking for a stored document of the
   * same key, then write the record under a fresh id unless its content equals the key's
   * latest content.
   */
  function SaveStep(docs: seq<Record>, record: Record): (o: SaveOutcome)
    requires record.content.Some?
    ensures record.isFirstRecord.None? ==>
              o.record.isFirstRecord == Some(!HasKey(docs, record.serviceId, record.documentType))
    ensures record.isFirstRecord.Some? ==> o.record.isFirstRecord == record.isFirstRecord
    ensures !o.inserted <==> LatestContent(docs, record.serviceId, record.documentType) == record.content
    ensures !o.inserted ==> o.docs == docs && o.record.id == record.id
    ensures o.inserted ==> o.docs == docs + [o.record] && o.record.id != "" && o.record.id !in Ids(docs)
    ensures o.record == record.(id := o.record.id, isFirstRecord := o.record.isFirstRecord)
  {
    var flagged :=
      if record.isFirstRecord.None?
      then record.(isFirstRecord := Some(!HasKey(docs, record.serviceId, record.documentType)))
      else record;
    if LatestContent(docs, record.serviceId, record.documentType) == flagged.content
    then SaveOutcome(docs, flagged, false)
    else
      var saved := flagged.(id := FreshId(docs));
      SaveOutcome(docs + [saved], saved, true)
  }

  /** `save` keeps the collection's own invariant. */
  lemma {:induction false} SaveStepKeepsStored(docs: seq<Record>, record: Record)
    requires StoredDocuments(docs) && record.content.Some?
    ensures StoredDocuments(SaveStep(docs, record).docs)
  {
    var o := SaveStep(docs, record);
    if o.inserted {
      forall i | 0 <= i < |docs| ensures docs[i].id != o.record.id {
        assert docs[i] in docs;
      }
    }
  }

  /**
   * Deduplication: right after `save` wrote a record that is the newest of its key, saving a
   * record with the same key and the same content writes nothing and leaves the count as it is.
   */
  lemma SaveSameContentTwiceSkips(docs: seq<Record>, first: Record, second: Record)
    requires first.content.Some? && SaveStep(docs, first).inserted
    requires forall d :: d in docs && d.serviceId == first.serviceId && d.documentType == first.documentType ==>
               d.fetchDate <= first.fetchDate
    requires second.serviceId == first.serviceId && second.documentType == first.documentType
    requires second.content == first.content
    ensures !SaveStep(SaveStep(docs, first).docs, second).inserted
    ensures |SaveStep(SaveStep(docs, first).docs, second).docs| == |docs| + 1
  {
    var after := SaveStep(docs, first).docs;
    var saved := SaveStep(docs, first).record;
    assert after[..|after| - 1] == docs;
    assert Latest(after, first.serviceId, first.documentType) == Some(saved);
  }

  /** Loading a stored document, in whatever order a cursor yields it, gives the document back. */
  lemma CursorLoadsStored(docs: seq<Record>, cursor: seq<Record>)
    requires StoredDocuments(docs) && multiset(cursor) == multiset(docs)
    ensures forall i :: 0 <= i < |cursor| ==>
              cursor[i].id in Ids(docs) && ToDomain(docs, Some(cursor[i]), false) == Some(cursor[i])
  {
    forall i | 0 <= i < |cursor|
      ensures cursor[i].id in Ids(docs) && ToDomain(docs, Some(cursor[i]), false) == Some(cursor[i])
    {
      assert cursor[i] in multiset(docs);
      ToDomainStored(docs, cursor[i]);
    }
  }

  /** The document-store repository: one collection of documents. */
  class MongoRepository {
    var collection: seq<Record>

    ghost predicate Valid()
      reads this
    {
      StoredDocuments(collection)
    }

    /** A repository connected (`initialize`) to a collection holding `documents`. */
    constructor (documents: seq<Record>)
      requires StoredDocuments(documents)
      ensures Valid() && collection == documents
    {
      collection := documents;
    }

    /** `save(record)`: returns the record as `save` leaves it and what `save` returns (None: the empty object). */
    method Save(record: Record) returns (mutated: Record, result: Option<Record>)
      requires Valid() && record.content.Some?
      modifies this
      ensures Valid()
      ensures collection == SaveStep(old(collection), record).docs
      ensures mutated == SaveStep(old(collection), record).record
      ensures result == if SaveStep(old(collection), record).inserted then Some(mutated) else None
    {
      SaveStepKeepsStored(collection, record);
      mutated := record;
      if record.isFirstRecord.None? {
        mutated := mutated.(isFirstRecord := Some(!HasKey(collection, record.serviceId, record.documentType)));
      }
      var latest := FindLatest(record.serviceId, record.documentType);
      var previousContent := if latest.Some? then latest.value.content else None;
      if previousContent == mutated.content {
        result := None;
        return;
      }
      mutated := mutated.(id := FreshId(collection));
      collection := collection + [mutated];
      result := Some(mutated);
    }

    /** `findLatest(serviceId, documentType)`: the key's newest document with its content loaded, or the empty object. */
    method FindLatest(serviceId: string, documentType: string) returns (r: Option<Record>)
      requires Valid()
      ensures r == Latest(collection, serviceId, documentType)
    {
      var found := Latest(collection, serviceId, documentType);
      if found.Some? {
        ToDomainStored(collection, found.value);
      }
      r := ToDomain(collection, found, false);
    }

    /** `findById(id)`: the stored document with that id, content loaded, or the empty object. */
    method FindById(id: Id) returns (r: Option<Record>)
      requires Valid()
      ensures r.None? <==> id !in Ids(collection)
      ensures r.Some? ==> r.value in collection && r.value.id == id
    {
      var found := FindDoc(collection, id);
      if found.Some? {
        ToDomainStored(collection, found.value);
      }
      r := ToDomain(collection, found, false);
    }

    /** `findAll(filter)`: summaries of the matching documents, ascending by `fetchDate`. */
    method FindAll(filter: Record -> bool) returns (r: seq<Record>)
      requires Valid()
      ensures r == SortBy(Summaries(collection, filter), FetchDate)
      ensures SortedBy(r, FetchDate)
      ensures multiset(r) == multiset(Summaries(collection, filter))
      ensures forall x :: x in r ==> x.content.None?
    {
      var cursor := SortBy(Summaries(collection, filter), FetchDate);
      forall x | x in cursor ensures x.content.None? {
        assert x in multiset(cursor);
        assert x in Summaries(collection, filter);
      }
      r := cursor;
    }

    /** `count()`. */
    method Count() returns (n: nat)
      ensures n == |collection|
    {
      n := |collection|;
    }

    /** `iterate()`: every stored document once, ascending by `fetchDate`, content loaded. */
    method Iterate() returns (yielded: seq<Record>)
      requires Valid()
      ensures yielded == SortBy(collection, FetchDate)
      ensures |yielded| == |collection| && multiset(yielded) == multiset(collection)
      ensures SortedBy(yielded, FetchDate)
    {
      var cursor := SortBy(collection, FetchDate);
      CursorLoadsStored(collection, cursor);
      yielded := [];
      var i := 0;
      while i < |cursor|
        invariant 0 <= i <= |cursor|
        invariant yielded == cursor[..i]
      {
        var document := cursor[i];
        var record := ToDomain(collection, Some(document), false);
        yielded := yielded + [record.value];
        i := i + 1;
      }
      assert cursor[..i] == cursor;
    }

    /** `removeAll()`. */
    method RemoveAll()
      modifies this
      ensures Valid() && collection == []
    {
      collection := [];
    }

    /** `loadRecordContent(record)`: the record with its stored content, or an error when its id is not stored. */
    method LoadRecordContent(record: Record) returns (r: Result<Record, StoreError>)
      ensures r.Failure? <==> record.id !in Ids(collection)
      ensures r.Success? ==> r.value == record.(content := FindDoc(collection, record.id).value.content)
    {
      var found := FindDoc(collection, record.id);
      if found.None? {
        return Failure(DocumentNotFound(record.id));
      }
      r := Success(record.(content := found.value.content));
    }
  }
}
