/**
 * The migration engine: splits the source records by the services to migrate, merges the
 * migrating ones into the destination's history by `fetchDate`, replays snapshots while
 * filling the old-id to new-id mapping, then replays versions with their `snapshotId`
 * rewritten through that mapping.
 *
 * The replays are stated as folds over the record list (`ReplaySnapshots`,
 * `ReplayVersions`); the class `MigrationRun` runs them as loops against document-store
 * repositories and is proved to follow them.
 */
module Migration {
  import opened Wrappers
  import opened Sorting
  import opened DocumentStore

  /** `idsMapping`: old record id to the id `save` returned, `None` where it returned nothing (`undefined`). */
  type IdsMapping = map<Id, Option<Id>>

  /** The `migrated` / `skipped` counters shared by all replays of a run. */
  datatype Counters = Counters(migrated: nat, skipped: nat)

  /** Counts one processed record: `migrated` when `save` wrote it, `skipped` otherwise. */
  function Tally(c: Counters, inserted: bool): (next: Counters)
    ensures next.migrated + next.skipped == c.migrated + c.skipped + 1
    ensures next.migrated == c.migrated + (if inserted then 1 else 0)
  {
    if inserted then c.(migrated := c.migrated + 1) else c.(skipped := c.skipped + 1)
  }

  /** Every record carries its content, as `save` needs. */
  ghost predicate HasContent(records: seq<Record>) {
    forall r :: r in records ==> r.content.Some?
  }

  function InServices(services: seq<string>): Record -> bool {
    (r: Record) => r.serviceId in services
  }

  function NotInServices(services: seq<string>): Record -> bool {
    (r: Record) => r.serviceId !in services
  }

  /** `snapshotsToMigrate` / `versionsToMigrate`: the source records of the migrating services. */
  function MigratingRecords(records: seq<Record>, services: seq<string>): (r: seq<Record>)
    ensures forall x :: x in r <==> x in records && x.serviceId in services
  {
    var m := Filter(records, InServices(services));
    assert forall x :: x in m ==> x in records && x.serviceId in services by {
      forall x | x in m ensures x in records && x.serviceId in services {
        var i :| 0 <= i < |m| && m[i] == x;
      }
    }
    assert forall x :: x in records && x.serviceId in services ==> x in m by {
      forall x | x in records && x.serviceId in services ensures x in m {
        var i :| 0 <= i < |records| && records[i] == x;
      }
    }
    m
  }

  /** `fromSnapshotsRecordsToRewrite` / `fromVersionsRecordsToRewrite`: the source records of the other services. */
  function RemainingRecords(records: seq<Record>, services: seq<string>): (r: seq<Record>)
    ensures forall x :: x in r <==> x in records && x.serviceId !in services
  {
    var m := Filter(records, NotInServices(services));
    assert forall x :: x in m ==> x in records && x.serviceId !in services by {
      forall x | x in m ensures x in records && x.serviceId !in services {
        var i :| 0 <= i < |m| && m[i] == x;
      }
    }
    assert forall x :: x in records && x.serviceId !in services ==> x in m by {
      forall x | x in records && x.serviceId !in services ensures x in m {
        var i :| 0 <= i < |records| && records[i] == x;
      }
    }
    m
  }

  /**
   * The two filters partition the source: they are disjoint, together hold every record
   * exactly as often as the source does, select by membership of `serviceId` in the
   * services, and keep the source order.
   */
  lemma PartitionRecords(records: seq<Record>, services: seq<string>)
    ensures multiset(MigratingRecords(records, services)) + multiset(RemainingRecords(records, services)) == multiset(records)
    ensures multiset(MigratingRecords(records, services)) !! multiset(RemainingRecords(records, services))
    ensures Subsequence(MigratingRecords(records, services), records)
    ensures Subsequence(RemainingRecords(records, services), records)
  {
    FilterComplement(records, InServices(services), NotInServices(services));
    FilterSubsequence(records, InServices(services));
    FilterSubsequence(records, NotInServices(services));
  }

  /**
   * `[...destinationRecords, ...migrating].sort(by fetchDate)`: one replay list holding the
   * destination's records and the migrating ones, in time order.
   */
  function ReplayList(destination: seq<Record>, migrating: seq<Record>): (r: seq<Record>)
    ensures SortedBy(r, FetchDate)
    ensures multiset(r) == multiset(destination) + multiset(migrating)
    ensures |r| == |destination| + |migrating|
    ensures forall x :: x in r <==> x in destination || x in migrating
  {
    var r := SortBy(destination + migrating, FetchDate);
    assert forall x :: x in r <==> x in multiset(r);
    r
  }

  /** The state a snapshot replay threads through: the destination collection, the mapping, the counters. */
  datatype SnapshotReplay = SnapshotReplay(docs: seq<Record>, mapping: IdsMapping, counters: Counters)

  /**
   * One iteration of `rewriteSnapshots`, keyed by the id the record had BEFORE `save`: the
   * old id maps to the id `save` returned, or to `undefined` when it skipped a duplicate.
   */
  function SnapshotStep(st: SnapshotReplay, record: Record): (next: SnapshotReplay)
    requires record.content.Some?
    ensures record.id in next.mapping
    ensures next.mapping == st.mapping[record.id := next.mapping[record.id]]
    ensures SaveStep(st.docs, record).inserted ==>
              next.mapping[record.id] == Some(SaveStep(st.docs, record).record.id) &&
              next.mapping[record.id].value in Ids(next.docs)
    ensures !SaveStep(st.docs, record).inserted ==> next.mapping[record.id].None?
    ensures next.docs == SaveStep(st.docs, record).docs
    ensures next.counters == Tally(st.counters, SaveStep(st.docs, record).inserted)
  {
    var o := SaveStep(st.docs, record);
    assert o.inserted ==> o.record in o.docs;
    SnapshotReplay(o.docs, st.mapping[record.id := if o.inserted then Some(o.record.id) else None], Tally(st.counters, o.inserted))
  }

  /**
   * One iteration of `rewriteSnapshots` as written: `idsMapping[record.id]` is assigned after
   * `save` has overwritten `record.id` with the new id, so the key is the NEW id. A skipped
   * duplicate returns before that overwrite, so its old id maps to `undefined`.
   */
  function SnapshotStepAsWritten(st: SnapshotReplay, record: Record): (next: SnapshotReplay)
    requires record.content.Some?
    ensures SaveStep(st.docs, record).inserted ==>
              next.mapping == st.mapping[SaveStep(st.docs, record).record.id := Some(SaveStep(st.docs, record).record.id)]
    ensures !SaveStep(st.docs, record).inserted ==> next.mapping == st.mapping[record.id := None]
    ensures next.docs == SaveStep(st.docs, record).docs
    ensures next.counters == Tally(st.counters, SaveStep(st.docs, record).inserted)
  {
    var o := SaveStep(st.docs, record);
    SnapshotReplay(o.docs, st.mapping[o.record.id := if o.inserted then Some(o.record.id) else None], Tally(st.counters, o.inserted))
  }

  /** `rewriteSnapshots(repository, records, idsMapping)`: the records replayed in list order. */
  function ReplaySnapshots(st: SnapshotReplay, records: seq<Record>): SnapshotReplay
    requires HasContent(records)
    decreases |records|
  {
    if records == [] then st
    else
      var n := |records| - 1;
      assert records[n] in records;
      SnapshotStep(ReplaySnapshots(st, records[..n]), records[n])
  }

  /** Every mapped target is an id in `ids`: no mapping entry points to a snapshot that does not exist. */
  ghost predicate TargetsIn(mapping: IdsMapping, ids: set<Id>) {
    forall k :: k in mapping && mapping[k].Some? ==> mapping[k].value in ids
  }

  /**
   * What a completed snapshot replay guarantees: each processed record counted once, and the
   * collection grown by exactly the migrated ones, only at its end.
   */
  lemma {:induction false} ReplaySnapshotsCounts(st: SnapshotReplay, records: seq<Record>)
    requires HasContent(records)
    ensures var end := ReplaySnapshots(st, records);
      && end.counters.migrated + end.counters.skipped == st.counters.migrated + st.counters.skipped + |records|
      && |end.docs| == |st.docs| + (end.counters.migrated - st.counters.migrated)
      && |st.docs| <= |end.docs| && end.docs[..|st.docs|] == st.docs
    decreases |records|
  {
    if records != [] {
      var n := |records| - 1;
      HasContentPrefix(records, n);
      ReplaySnapshotsCounts(st, records[..n]);
      var mid := ReplaySnapshots(st, records[..n]);
      var end := SnapshotStep(mid, records[n]);
      assert end == ReplaySnapshots(st, records);
      assert end.docs[..|mid.docs|] == mid.docs;
      assert end.docs[..|st.docs|] == mid.docs[..|st.docs|];
    }
  }

  lemma HasContentPrefix(records: seq<Record>, n: nat)
    requires HasContent(records) && n <= |records|
    ensures HasContent(records[..n])
    ensures n < |records| ==> records[n].content.Some?
  {
    assert forall r :: r in records[..n] ==> r in records;
    if n < |records| {
      assert records[n] in records;
    }
  }

  /** After a snapshot replay every record's old id is a key of the mapping. */
  lemma {:induction false} ReplaySnapshotsMapsEveryId(st: SnapshotReplay, records: seq<Record>)
    requires HasContent(records)
    ensures ReplaySnapshots(st, records).mapping.Keys == st.mapping.Keys + (set r | r in records :: r.id)
    decreases |records|
  {
    if records != [] {
      var n := |records| - 1;
      HasContentPrefix(records, n);
      ReplaySnapshotsMapsEveryId(st, records[..n]);
      var mid := ReplaySnapshots(st, records[..n]);
      assert ReplaySnapshots(st, records) == SnapshotStep(mid, records[n]);
      assert SnapshotStep(mid, records[n]).mapping.Keys == mid.mapping.Keys + {records[n].id};
      IdsOfSnoc(records);
    }
  }

  lemma IdsOfSnoc(records: seq<Record>)
    requires records != []
    ensures (set r | r in records :: r.id) ==
            (set r | r in records[..|records| - 1] :: r.id) + {records[|records| - 1].id}
  {
    var n := |records| - 1;
    assert records == records[..n] + [records[n]];
    assert forall r :: r in records <==> r in records[..n] || r == records[n];
  }

  /** One replayed snapshot keeps every mapped target a stored document. */
  lemma SnapshotStepTargets(st: SnapshotReplay, record: Record, others: set<Id>)
    requires record.content.Some?
    requires TargetsIn(st.mapping, others + Ids(st.docs))
    ensures TargetsIn(SnapshotStep(st, record).mapping, others + Ids(SnapshotStep(st, record).docs))
  {
    var next := SnapshotStep(st, record);
    assert Ids(st.docs) <= Ids(next.docs);
  }

  /**
   * A snapshot replay creates no dangling entry: when every mapped target was a stored
   * document (or one of `others`) before, the same holds after.
   */
  lemma {:induction false} ReplaySnapshotsTargets(st: SnapshotReplay, records: seq<Record>, others: set<Id>)
    requires HasContent(records)
    requires TargetsIn(st.mapping, others + Ids(st.docs))
    ensures TargetsIn(ReplaySnapshots(st, records).mapping, others + Ids(ReplaySnapshots(st, records).docs))
    decreases |records|
  {
    if records != [] {
      var n := |records| - 1;
      HasContentPrefix(records, n);
      ReplaySnapshotsTargets(st, records[..n], others);
      SnapshotStepTargets(ReplaySnapshots(st, records[..n]), records[n], others);
    }
  }

  /** `newSnapshotId = idsMapping[record.snapshotId]`, present only when truthy (a non-empty id). */
  function NewSnapshotId(mapping: IdsMapping, snapshotId: Option<Id>): (r: Option<Id>)
    ensures r.Some? <==> snapshotId.Some? && snapshotId.value in mapping &&
                         mapping[snapshotId.value].Some? && mapping[snapshotId.value].value != ""
    ensures r.Some? ==> r == mapping[snapshotId.value]
  {
    if snapshotId.Some? && snapshotId.value in mapping && mapping[snapshotId.value].Some? && mapping[snapshotId.value].value != ""
    then mapping[snapshotId.value]
    else None
  }

  /** The outcome of a version replay: completed, or aborted by the throw for `missing`. */
  datatype VersionReplay =
    | Completed(docs: seq<Record>, counters: Counters)
    | Aborted(docs: seq<Record>, counters: Counters, missing: Record)

  /**
   * One iteration of `rewriteVersions`: throw when the version's snapshot has no truthy
   * mapping, otherwise save it with `snapshotId` replaced by the mapped id.
   */
  function VersionStep(docs: seq<Record>, counters: Counters, mapping: IdsMapping, record: Record): (r: VersionReplay)
    requires record.content.Some?
    ensures r.Aborted? <==> Unmapped(mapping, record)
    ensures r.Aborted? ==> r.docs == docs && r.counters == counters && r.missing == record
    ensures r.Completed? ==>
              var o := SaveStep(docs, record.(snapshotId := NewSnapshotId(mapping, record.snapshotId)));
              r.docs == o.docs && r.counters == Tally(counters, o.inserted)
  {
    match NewSnapshotId(mapping, record.snapshotId)
    case None => Aborted(docs, counters, record)
    case Some(newId) =>
      var o := SaveStep(docs, record.(snapshotId := Some(newId)));
      Completed(o.docs, Tally(counters, o.inserted))
  }

  /** `rewriteVersions(repository, records, idsMapping)`: the records replayed in order until one throws. */
  function ReplayVersions(docs: seq<Record>, counters: Counters, mapping: IdsMapping, records: seq<Record>): VersionReplay
    requires HasContent(records)
    decreases |records|
  {
    if records == [] then Completed(docs, counters)
    else
      var n := |records| - 1;
      assert records[n] in records;
      match ReplayVersions(docs, counters, mapping, records[..n])
      case Aborted(d, c, m) => Aborted(d, c, m)
      case Completed(d, c) => VersionStep(d, c, mapping, records[n])
  }

  /** The version's snapshot reference cannot be rewritten: `rewriteVersions` throws on it. */
  predicate Unmapped(mapping: IdsMapping, record: Record) {
    NewSnapshotId(mapping, record.snapshotId).None?
  }

  /** Some version of the list cannot have its snapshot id rewritten. */
  predicate AnyUnmapped(mapping: IdsMapping, records: seq<Record>) {
    exists i :: 0 <= i < |records| && Unmapped(mapping, records[i])
  }

  /**
   * A version replay aborts exactly when some version's snapshot id has no truthy mapping, and
   * the version it reports is one of the list's unmapped versions.
   */
  lemma {:induction false} ReplayVersionsAbortsIff(docs: seq<Record>, counters: Counters, mapping: IdsMapping, records: seq<Record>)
    requires HasContent(records)
    ensures ReplayVersions(docs, counters, mapping, records).Aborted? <==>
            exists i :: 0 <= i < |records| && Unmapped(mapping, records[i])
    ensures var end := ReplayVersions(docs, counters, mapping, records);
            end.Aborted? ==> end.missing in records && Unmapped(mapping, end.missing)
    decreases |records|
  {
    if records != [] {
      var n := |records| - 1;
      ReplayVersionsLast(docs, counters, mapping, records);
      ReplayVersionsAbortsIff(docs, counters, mapping, records[..n]);
      UnmappedSnoc(mapping, records, records[..n]);
      var mid := ReplayVersions(docs, counters, mapping, records[..n]);
      if mid.Aborted? {
        assert mid.missing in records[..n];
      } else {
        assert records[n] in records;
      }
    }
  }

  /** The last version aborts the replay exactly when the replay before it completed and the version is unmapped. */
  lemma ReplayVersionsLast(docs: seq<Record>, counters: Counters, mapping: IdsMapping, records: seq<Record>)
    requires HasContent(records) && records != []
    ensures HasContent(records[..|records| - 1])
    ensures ReplayVersions(docs, counters, mapping, records).Aborted? <==>
            ReplayVersions(docs, counters, mapping, records[..|records| - 1]).Aborted? ||
            Unmapped(mapping, records[|records| - 1])
  {
    HasContentPrefix(records, |records| - 1);
  }

  lemma UnmappedSnoc(mapping: IdsMapping, records: seq<Record>, prefix: seq<Record>)
    requires records != [] && prefix == records[..|records| - 1]
    ensures (exists i :: 0 <= i < |records| && Unmapped(mapping, records[i])) <==>
            (exists i :: 0 <= i < |prefix| && Unmapped(mapping, prefix[i])) ||
            Unmapped(mapping, records[|records| - 1])
  {
    var n := |records| - 1;
    if exists i :: 0 <= i < n && Unmapped(mapping, prefix[i]) {
      var i :| 0 <= i < n && Unmapped(mapping, prefix[i]);
      assert records[i] == prefix[i];
    }
    if exists i :: 0 <= i < |records| && Unmapped(mapping, records[i]) {
      var i :| 0 <= i < |records| && Unmapped(mapping, records[i]);
      if i < n {
        assert prefix[i] == records[i];
      }
    }
  }

  /**
   * The throw happens before the first unmapped version is saved: the versions before it have
   * been replayed (and their writes kept), that version and the later ones are not written.
   */
  lemma ReplayVersionsStopsAtFirstUnmapped(
    docs: seq<Record>, counters: Counters, mapping: IdsMapping, records: seq<Record>, i: nat)
    requires HasContent(records) && i < |records|
    requires Unmapped(mapping, records[i])
    requires forall j :: 0 <= j < i ==> !Unmapped(mapping, records[j])
    ensures HasContent(records[..i])
    ensures ReplayVersions(docs, counters, mapping, records[..i]).Completed?
    ensures ReplayVersions(docs, counters, mapping, records) ==
            Aborted(ReplayVersions(docs, counters, mapping, records[..i]).docs,
                    ReplayVersions(docs, counters, mapping, records[..i]).counters,
                    records[i])
  {
    HasContentPrefix(records, i);
    HasContentPrefix(records, i + 1);
    forall j | 0 <= j < i ensures !Unmapped(mapping, records[..i][j]) {
      assert records[..i][j] == records[j];
    }
    ReplayVersionsAbortsIff(docs, counters, mapping, records[..i]);
    var prefix := records[..i + 1];
    assert prefix[..i] == records[..i] && prefix[i] == records[i];
    var mid := ReplayVersions(docs, counters, mapping, records[..i]);
    assert ReplayVersions(docs, counters, mapping, prefix) == VersionStep(mid.docs, mid.counters, mapping, records[i]);
    AbortedStays(docs, counters, mapping, records, i + 1);
  }

  /**
   * What a version replay writes: the existing history is kept, and every version it adds
   * carries a snapshot id that is a mapped target. A completed replay counts each version
   * once and grows the collection by the migrated ones.
   */
  lemma {:induction false} ReplayVersionsSound(docs: seq<Record>, counters: Counters, mapping: IdsMapping, records: seq<Record>)
    requires HasContent(records)
    ensures var end := ReplayVersions(docs, counters, mapping, records);
      && |docs| <= |end.docs| && end.docs[..|docs|] == docs
      && (forall j :: |docs| <= j < |end.docs| ==> RewrittenFromSome(end.docs[j], mapping, records))
      && (forall j :: |docs| <= j < |end.docs| ==>
            end.docs[j].snapshotId.Some? &&
            exists k :: k in mapping && mapping[k] == end.docs[j].snapshotId)
      && (end.Completed? ==>
            end.counters.migrated + end.counters.skipped == counters.migrated + counters.skipped + |records|)
      && |end.docs| == |docs| + (end.counters.migrated - counters.migrated)
    decreases |records|
  {
    if records != [] {
      var n := |records| - 1;
      assert records[n] in records;
      ReplayVersionsSound(docs, counters, mapping, records[..n]);
      var mid := ReplayVersions(docs, counters, mapping, records[..n]);
      if mid.Completed? {
        var newId := NewSnapshotId(mapping, records[n].snapshotId);
        if newId.Some? {
          var end := ReplayVersions(docs, counters, mapping, records);
          var o := SaveStep(mid.docs, records[n].(snapshotId := newId));
          assert end.docs == o.docs;
          assert end.docs[..|mid.docs|] == mid.docs;
          assert end.docs[..|docs|] == mid.docs[..|docs|];
          forall j | |docs| <= j < |end.docs|
            ensures end.docs[j].snapshotId.Some? && exists k :: k in mapping && mapping[k] == end.docs[j].snapshotId
            ensures RewrittenFromSome(end.docs[j], mapping, records)
          {
            if j < |mid.docs| {
              assert end.docs[j] == mid.docs[j];
              RewrittenFromPrefix(end.docs[j], mapping, records, n);
            } else {
              assert end.docs[j] == o.record;
              assert mapping[records[n].snapshotId.value] == end.docs[j].snapshotId;
              assert RewrittenFrom(end.docs[j], mapping, records[n]);
            }
          }
        }
      }
    }
  }

  /**
   * `doc` is version `v` as `rewriteVersions` saves it: `snapshotId` replaced by the mapped id,
   * and nothing else changed but what `save` sets (`id`, `isFirstRecord`).
   */
  predicate RewrittenFrom(doc: Record, mapping: IdsMapping, v: Record) {
    && NewSnapshotId(mapping, v.snapshotId).Some?
    && doc == v.(snapshotId := NewSnapshotId(mapping, v.snapshotId), id := doc.id, isFirstRecord := doc.isFirstRecord)
  }

  predicate RewrittenFromSome(doc: Record, mapping: IdsMapping, records: seq<Record>) {
    exists i :: 0 <= i < |records| && RewrittenFrom(doc, mapping, records[i])
  }

  lemma RewrittenFromPrefix(doc: Record, mapping: IdsMapping, records: seq<Record>, n: nat)
    requires n <= |records| && RewrittenFromSome(doc, mapping, records[..n])
    ensures RewrittenFromSome(doc, mapping, records)
  {
    var i :| 0 <= i < n && RewrittenFrom(doc, mapping, records[..n][i]);
    assert records[..n][i] == records[i];
  }

  /** Scenario: two snapshots of one key with the same content, replayed into an empty destination, write once. */
  lemma DuplicateSnapshotsWriteOnce(a: Record, b: Record)
    requires a.content == Some("x") && b.content == Some("x")
    requires a.serviceId == b.serviceId && a.documentType == b.documentType
    requires a.fetchDate <= b.fetchDate
    ensures var end := ReplaySnapshots(SnapshotReplay([], map[], Counters(0, 0)), [a, b]);
      |end.docs| == 1 && end.counters == Counters(1, 1) && end.docs[0].fetchDate == a.fetchDate
  {
    var st := SnapshotReplay([], map[], Counters(0, 0));
    assert [a, b][..1] == [a];
    assert [a][..0] == [];
    var afterA := SnapshotStep(st, a);
    assert ReplaySnapshots(st, [a]) == afterA;
    assert Latest(afterA.docs, a.serviceId, a.documentType) == Some(afterA.docs[0]);
  }

  /**
   * Scenario: version V refers to snapshot "old-123" and the mapping holds "old-123" -> "new-9";
   * the version written to an empty destination refers to "new-9".
   */
  lemma VersionSnapshotIdRewritten(v: Record)
    requires v.content.Some? && v.snapshotId == Some("old-123")
    ensures var end := ReplayVersions([], Counters(0, 0), map["old-123" := Some("new-9")], [v]);
      end.Completed? && |end.docs| == 1 && end.docs[0].snapshotId == Some("new-9")
  {
    assert [v][..0] == [];
  }

  /**
   * The source's mapping key, exhibited: snapshot "old-123" replayed into an empty destination
   * as written leaves "old-123" unmapped, so a version that refers to it makes
   * `rewriteVersions` throw; keyed by the id read before `save`, the same version is written.
   */
  lemma MappingKeyAsWrittenLosesOldId(s: Record, v: Record)
    requires s.id == "old-123" && s.content.Some?
    requires v.content.Some? && v.snapshotId == Some("old-123")
    ensures var asWritten := SnapshotStepAsWritten(SnapshotReplay([], map[], Counters(0, 0)), s);
      "old-123" !in asWritten.mapping &&
      ReplayVersions([], asWritten.counters, asWritten.mapping, [v]).Aborted?
    ensures var corrected := SnapshotStep(SnapshotReplay([], map[], Counters(0, 0)), s);
      ReplayVersions([], corrected.counters, corrected.mapping, [v]).Completed?
  {
    assert [v][..0] == [];
    assert Latest([], s.serviceId, s.documentType).None?;
    var newId := FreshId([]);
    assert newId == "f";
  }

  /**
   * The snapshot phase of `main`, run one replay after the other: the first destination's
   * replay from an empty mapping, then the second's with the mapping and counters it left.
   */
  function SnapshotPhase(
    fromDocs: seq<Record>, toDocs: seq<Record>, counters: Counters,
    fromRecords: seq<Record>, toRecords: seq<Record>): (SnapshotReplay, SnapshotReplay)
    requires HasContent(fromRecords) && HasContent(toRecords)
  {
    var s1 := ReplaySnapshots(SnapshotReplay(fromDocs, map[], counters), fromRecords);
    (s1, ReplaySnapshots(SnapshotReplay(toDocs, s1.mapping, s1.counters), toRecords))
  }

  /** What the version phase of `main` leaves: both destinations, the counters, the version it threw on. */
  datatype VersionPhaseEnd = VersionPhaseEnd(fromDocs: seq<Record>, toDocs: seq<Record>, counters: Counters, missing: Option<Record>)

  /**
   * The version phase of `main`, run one replay after the other: the first destination's
   * replay, then, unless it threw, the second's with the counters it left.
   */
  function VersionPhase(
    fromDocs: seq<Record>, toDocs: seq<Record>, counters: Counters, mapping: IdsMapping,
    fromRecords: seq<Record>, toRecords: seq<Record>): VersionPhaseEnd
    requires HasContent(fromRecords) && HasContent(toRecords)
  {
    var v1 := ReplayVersions(fromDocs, counters, mapping, fromRecords);
    if v1.Aborted? then VersionPhaseEnd(v1.docs, toDocs, v1.counters, Some(v1.missing))
    else
      var v2 := ReplayVersions(toDocs, v1.counters, mapping, toRecords);
      VersionPhaseEnd(v1.docs, v2.docs, v2.counters, if v2.Aborted? then Some(v2.missing) else None)
  }

  /**
   * The version phase throws exactly when some version of either list has no truthy mapping,
   * and the version it reports is such a version.
   */
  lemma VersionPhaseMissingIff(
    fromDocs: seq<Record>, toDocs: seq<Record>, counters: Counters, mapping: IdsMapping,
    fromRecords: seq<Record>, toRecords: seq<Record>)
    requires HasContent(fromRecords) && HasContent(toRecords)
    ensures var p := VersionPhase(fromDocs, toDocs, counters, mapping, fromRecords, toRecords);
      && (p.missing.Some? <==> AnyUnmapped(mapping, fromRecords) || AnyUnmapped(mapping, toRecords))
      && (p.missing.Some? ==> (p.missing.value in fromRecords || p.missing.value in toRecords) &&
                              Unmapped(mapping, p.missing.value))
  {
    ReplayVersionsAbortsIff(fromDocs, counters, mapping, fromRecords);
    var v1 := ReplayVersions(fromDocs, counters, mapping, fromRecords);
    ReplayVersionsAbortsIff(toDocs, v1.counters, mapping, toRecords);
  }

  /** What a whole run leaves: both snapshot replays, then the version phase. */
  datatype MigrationEnd = MigrationEnd(fromSnapshots: SnapshotReplay, toSnapshots: SnapshotReplay, versions: VersionPhaseEnd)

  /**
   * The whole of `main` from the records it reads: the other services' records stay with the
   * first destination, the migrating ones are merged into the second's by `fetchDate`; then
   * the snapshot phase, and the version phase with the mapping and counters it left.
   */
  function MigrationOutcome(
    services: seq<string>,
    fromSnapshotsRecords: seq<Record>, toSnapshotsRecords: seq<Record>,
    fromVersionsRecords: seq<Record>, toVersionsRecords: seq<Record>,
    fromSnapshotsDocs: seq<Record>, toSnapshotsDocs: seq<Record>,
    fromVersionsDocs: seq<Record>, toVersionsDocs: seq<Record>, counters: Counters): MigrationEnd
    requires HasContent(fromSnapshotsRecords) && HasContent(toSnapshotsRecords)
    requires HasContent(fromVersionsRecords) && HasContent(toVersionsRecords)
  {
    SelectedHaveContent(fromSnapshotsRecords, toSnapshotsRecords, services);
    SelectedHaveContent(fromVersionsRecords, toVersionsRecords, services);
    var s := SnapshotPhase(fromSnapshotsDocs, toSnapshotsDocs, counters,
                           RemainingRecords(fromSnapshotsRecords, services),
                           ReplayList(toSnapshotsRecords, MigratingRecords(fromSnapshotsRecords, services)));
    MigrationEnd(s.0, s.1,
                 VersionPhase(fromVersionsDocs, toVersionsDocs, s.1.counters, s.1.mapping,
                              RemainingRecords(fromVersionsRecords, services),
                              ReplayList(toVersionsRecords, MigratingRecords(fromVersionsRecords, services))))
  }

  /** A migration run: the shared mapping, the counters, and the mapping file once written. */
  class MigrationRun {
    var idsMapping: IdsMapping
    var counters: Counters
    var persistedMapping: Option<IdsMapping>

    constructor ()
      ensures idsMapping == map[] && counters == Counters(0, 0) && persistedMapping == None
    {
      idsMapping := map[];
      counters := Counters(0, 0);
      persistedMapping := None;
    }

    /** `rewriteSnapshots(repository, records, idsMapping)`: saves the records one by one, in list order. */
    method RewriteSnapshots(repository: MongoRepository, records: seq<Record>)
      requires repository.Valid() && HasContent(records)
      modifies this`idsMapping, this`counters, repository
      ensures repository.Valid()
      ensures var end := ReplaySnapshots(SnapshotReplay(old(repository.collection), old(idsMapping), old(counters)), records);
        repository.collection == end.docs && idsMapping == end.mapping && counters == end.counters
    {
      ghost var start := SnapshotReplay(repository.collection, idsMapping, counters);
      for i := 0 to |records|
        invariant repository.Valid()
        invariant HasContent(records[..i])
        invariant ReplaySnapshots(start, records[..i]) == SnapshotReplay(repository.collection, idsMapping, counters)
      {
        var record := records[i];
        assert record in records;
        assert records[..i + 1][..i] == records[..i] && records[..i + 1][i] == record;
        var oldId := record.id;
        var mutated, saved := repository.Save(record);
        idsMapping := idsMapping[oldId := if saved.Some? then Some(saved.value.id) else None];
        if saved.Some? {
          counters := counters.(migrated := counters.migrated + 1);
        } else {
          counters := counters.(skipped := counters.skipped + 1);
        }
      }
      assert records[..|records|] == records;
    }

    /**
     * `rewriteVersions(repository, records, idsMapping)`: rewrites each version's snapshot id
     * and saves it; `missing` is the version it threw on, if any.
     */
    method RewriteVersions(repository: MongoRepository, records: seq<Record>) returns (missing: Option<Record>)
      requires repository.Valid() && HasContent(records)
      modifies this`counters, repository
      ensures repository.Valid()
      ensures var end := ReplayVersions(old(repository.collection), old(counters), idsMapping, records);
        && repository.collection == end.docs && counters == end.counters
        && missing == if end.Aborted? then Some(end.missing) else None
    {
      ghost var docs0, counters0 := repository.collection, counters;
      for i := 0 to |records|
        invariant repository.Valid()
        invariant HasContent(records[..i])
        invariant ReplayVersions(docs0, counters0, idsMapping, records[..i]) == Completed(repository.collection, counters)
      {
        var record := records[i];
        assert record in records;
        ghost var prefix := records[..i + 1];
        assert prefix[..i] == records[..i] && prefix[i] == record;
        assert HasContent(prefix);
        ghost var before := ReplayVersions(docs0, counters0, idsMapping, prefix);
        assert before == VersionStep(repository.collection, counters, idsMapping, record);
        var newSnapshotId := NewSnapshotId(idsMapping, record.snapshotId);
        if newSnapshotId.None? {
          AbortedStays(docs0, counters0, idsMapping, records, i + 1);
          return Some(record);
        }
        var mutated, saved := repository.Save(record.(snapshotId := newSnapshotId));
        if saved.Some? {
          counters := counters.(migrated := counters.migrated + 1);
        } else {
          counters := counters.(skipped := counters.skipped + 1);
        }
      }
      assert records[..|records|] == records;
      missing := None;
    }

    /** Records the mapping as written to `ids-mapping.json`. */
    method PersistMapping()
      modifies this`persistedMapping
      ensures persistedMapping == Some(idsMapping)
    {
      persistedMapping := Some(idsMapping);
    }

    /**
     * The snapshot phase of `main`: the other services' snapshots into the first destination,
     * then the merged list into the second; afterwards every mapped id is a stored snapshot.
     */
    method MigrateSnapshots(
      fromRecords: seq<Record>, toRecords: seq<Record>,
      fromSnapshots: MongoRepository, toSnapshots: MongoRepository)
      requires idsMapping == map[]
      requires fromSnapshots.Valid() && toSnapshots.Valid() && fromSnapshots != toSnapshots
      requires HasContent(fromRecords) && HasContent(toRecords)
      modifies this`idsMapping, this`counters, fromSnapshots, toSnapshots
      ensures fromSnapshots.Valid() && toSnapshots.Valid()
      ensures var s := SnapshotPhase(old(fromSnapshots.collection), old(toSnapshots.collection), old(counters),
                                     fromRecords, toRecords);
              fromSnapshots.collection == s.0.docs && toSnapshots.collection == s.1.docs &&
              idsMapping == s.1.mapping && counters == s.1.counters
      ensures TargetsIn(idsMapping, Ids(fromSnapshots.collection) + Ids(toSnapshots.collection))
    {
      ghost var toSnapshots0 := toSnapshots.collection;
      ReplaySnapshotsTargets(SnapshotReplay(fromSnapshots.collection, map[], counters), fromRecords, Ids(toSnapshots0));
      RewriteSnapshots(fromSnapshots, fromRecords);
      ghost var fromSnapshots1 := fromSnapshots.collection;
      ReplaySnapshotsTargets(SnapshotReplay(toSnapshots.collection, idsMapping, counters), toRecords, Ids(fromSnapshots1));
      RewriteSnapshots(toSnapshots, toRecords);
    }

    /**
     * The version phase of `main`: both replays with the mapping the snapshot phase left; every
     * version written refers to an id in `snapshotIds` when every mapped target is in it.
     */
    method MigrateVersions(
      fromRecords: seq<Record>, toRecords: seq<Record>,
      fromVersions: MongoRepository, toVersions: MongoRepository, ghost snapshotIds: set<Id>)
      returns (missing: Option<Record>)
      requires fromVersions.Valid() && toVersions.Valid() && fromVersions != toVersions
      requires HasContent(fromRecords) && HasContent(toRecords)
      requires TargetsIn(idsMapping, snapshotIds)
      modifies this`counters, fromVersions, toVersions
      ensures forall j :: |old(fromVersions.collection)| <= j < |fromVersions.collection| ==>
                fromVersions.collection[j].snapshotId.Some? && fromVersions.collection[j].snapshotId.value in snapshotIds
      ensures forall j :: |old(toVersions.collection)| <= j < |toVersions.collection| ==>
                toVersions.collection[j].snapshotId.Some? && toVersions.collection[j].snapshotId.value in snapshotIds
      ensures var p := VersionPhase(old(fromVersions.collection), old(toVersions.collection), old(counters),
                                    idsMapping, fromRecords, toRecords);
              fromVersions.collection == p.fromDocs && toVersions.collection == p.toDocs &&
              counters == p.counters && missing == p.missing
      ensures missing.Some? <==> AnyUnmapped(idsMapping, fromRecords) || AnyUnmapped(idsMapping, toRecords)
    {
      VersionPhaseMissingIff(fromVersions.collection, toVersions.collection, counters, idsMapping, fromRecords, toRecords);
      ghost var fromVersions0, toVersions0, counters0 := fromVersions.collection, toVersions.collection, counters;
      ReplayVersionsSound(fromVersions0, counters0, idsMapping, fromRecords);
      missing := RewriteVersions(fromVersions, fromRecords);
      if missing.Some? {
        return;
      }
      ReplayVersionsSound(toVersions0, counters, idsMapping, toRecords);
      missing := RewriteVersions(toVersions, toRecords);
    }

    /**
     * The snapshot half of `main`: the source snapshots split by service, the migrating ones
     * merged into the second destination's list, both replays, then the mapping file.
     */
    method MigrateSnapshotRecords(
      services: seq<string>, fromSnapshotsRecords: seq<Record>, toSnapshotsRecords: seq<Record>,
      fromSnapshots: MongoRepository, toSnapshots: MongoRepository)
      requires idsMapping == map[]
      requires fromSnapshots.Valid() && toSnapshots.Valid() && fromSnapshots != toSnapshots
      requires HasContent(fromSnapshotsRecords) && HasContent(toSnapshotsRecords)
      modifies this, fromSnapshots, toSnapshots
      ensures fromSnapshots.Valid() && toSnapshots.Valid()
      ensures HasContent(RemainingRecords(fromSnapshotsRecords, services))
      ensures HasContent(ReplayList(toSnapshotsRecords, MigratingRecords(fromSnapshotsRecords, services)))
      ensures var s := SnapshotPhase(old(fromSnapshots.collection), old(toSnapshots.collection), old(counters),
                                     RemainingRecords(fromSnapshotsRecords, services),
                                     ReplayList(toSnapshotsRecords, MigratingRecords(fromSnapshotsRecords, services)));
              fromSnapshots.collection == s.0.docs && toSnapshots.collection == s.1.docs &&
              idsMapping == s.1.mapping && counters == s.1.counters && persistedMapping == Some(s.1.mapping)
      ensures TargetsIn(idsMapping, Ids(fromSnapshots.collection) + Ids(toSnapshots.collection))
    {
      SelectedHaveContent(fromSnapshotsRecords, toSnapshotsRecords, services);
      var snapshotsToMigrate := MigratingRecords(fromSnapshotsRecords, services);
      var fromSnapshotsRecordsToRewrite := RemainingRecords(fromSnapshotsRecords, services);
      var toSnapshotsRecordsMigrated := ReplayList(toSnapshotsRecords, snapshotsToMigrate);
      MigrateSnapshots(fromSnapshotsRecordsToRewrite, toSnapshotsRecordsMigrated, fromSnapshots, toSnapshots);
      PersistMapping();
    }

    /**
     * The phases of `main` in order: both snapshot replays, then the mapping file, then both
     * version replays with that mapping. Every version the run writes refers to a snapshot
     * stored in one of the two snapshot destinations.
     */
    method Migrate(
      services: seq<string>,
      fromSnapshotsRecords: seq<Record>, toSnapshotsRecords: seq<Record>,
      fromVersionsRecords: seq<Record>, toVersionsRecords: seq<Record>,
      fromSnapshots: MongoRepository, toSnapshots: MongoRepository,
      fromVersions: MongoRepository, toVersions: MongoRepository) returns (missing: Option<Record>)
      requires idsMapping == map[]
      requires fromSnapshots.Valid() && toSnapshots.Valid() && fromVersions.Valid() && toVersions.Valid()
      requires fromSnapshots != toSnapshots && fromVersions != toVersions
      requires fromSnapshots != fromVersions && fromSnapshots != toVersions
      requires toSnapshots != fromVersions && toSnapshots != toVersions
      requires HasContent(fromSnapshotsRecords) && HasContent(toSnapshotsRecords)
      requires HasContent(fromVersionsRecords) && HasContent(toVersionsRecords)
      modifies this, fromSnapshots, toSnapshots, fromVersions, toVersions
      ensures var e := MigrationOutcome(services, fromSnapshotsRecords, toSnapshotsRecords, fromVersionsRecords, toVersionsRecords,
                                        old(fromSnapshots.collection), old(toSnapshots.collection),
                                        old(fromVersions.collection), old(toVersions.collection), old(counters));
              && fromSnapshots.collection == e.fromSnapshots.docs && toSnapshots.collection == e.toSnapshots.docs
              && idsMapping == e.toSnapshots.mapping && persistedMapping == Some(e.toSnapshots.mapping)
              && fromVersions.collection == e.versions.fromDocs && toVersions.collection == e.versions.toDocs
              && counters == e.versions.counters && missing == e.versions.missing
      ensures missing.Some? <==>
                AnyUnmapped(idsMapping, RemainingRecords(fromVersionsRecords, services)) ||
                AnyUnmapped(idsMapping, ReplayList(toVersionsRecords, MigratingRecords(fromVersionsRecords, services)))
      ensures forall j :: |old(fromVersions.collection)| <= j < |fromVersions.collection| ==>
                fromVersions.collection[j].snapshotId.Some? &&
                fromVersions.collection[j].snapshotId.value in Ids(fromSnapshots.collection) + Ids(toSnapshots.collection)
      ensures forall j :: |old(toVersions.collection)| <= j < |toVersions.collection| ==>
                toVersions.collection[j].snapshotId.Some? &&
                toVersions.collection[j].snapshotId.value in Ids(fromSnapshots.collection) + Ids(toSnapshots.collection)
    {
      MigrateSnapshotRecords(services, fromSnapshotsRecords, toSnapshotsRecords, fromSnapshots, toSnapshots);
      SelectedHaveContent(fromVersionsRecords, toVersionsRecords, services);
      var versionsToMigrate := MigratingRecords(fromVersionsRecords, services);
      var fromVersionsRecordsToRewrite := RemainingRecords(fromVersionsRecords, services);
      var toVersionsRecordsMigrated := ReplayList(toVersionsRecords, versionsToMigrate);
      missing := MigrateVersions(fromVersionsRecordsToRewrite, toVersionsRecordsMigrated, fromVersions, toVersions,
                                 Ids(fromSnapshots.collection) + Ids(toSnapshots.collection));
    }
  }

  /** The records `main` hands to the replays all carry content when the sources do. */
  lemma SelectedHaveContent(fromRecords: seq<Record>, toRecords: seq<Record>, services: seq<string>)
    requires HasContent(fromRecords) && HasContent(toRecords)
    ensures HasContent(RemainingRecords(fromRecords, services))
    ensures HasContent(ReplayList(toRecords, MigratingRecords(fromRecords, services)))
  {
  }

  /** Once a prefix of a version replay has aborted, the whole replay is that abort. */
  lemma {:induction false} AbortedStays(docs: seq<Record>, counters: Counters, mapping: IdsMapping, records: seq<Record>, i: nat)
    requires HasContent(records) && i <= |records|
    requires HasContent(records[..i])
    requires ReplayVersions(docs, counters, mapping, records[..i]).Aborted?
    ensures ReplayVersions(docs, counters, mapping, records) == ReplayVersions(docs, counters, mapping, records[..i])
    decreases |records|
  {
    if i < |records| {
      var n := |records| - 1;
      assert records[..n][..i] == records[..i];
      assert HasContent(records[..n]) by {
        forall r | r in records[..n] ensures r.content.Some? {
          var k :| 0 <= k < n && records[..n][k] == r;
          assert records[k] == r;
        }
      }
      AbortedStays(docs, counters, mapping, records[..n], i);
    } else {
      assert records[..i] == records;
    }
  }
}
