/**
 * The history rewrite script: replays the commits of an old snapshots repository as
 * snapshot records. Commits are sorted by date, those whose message starts with
 * "Start tracking" or "Update" are kept, and each one's first changed file path gives the
 * document key (directory = service id, base name without extension = document type),
 * which the renaming rules may change. Each replay counts as rewritten or as skipped
 * because nothing changed.
 *
 * Git, the HTTP download of a commit's file and the renaming rules are parameters.
 */
module HistoryRewrite {
  import opened Wrappers
  import opened Sorting
  import opened DocumentStore
  import opened PosixPath

  /** A commit of the source repository, as `git log --stat` reports it. */
  datatype Commit = Commit(hash: string, date: int, message: string, body: string, files: seq<string>)

  /** A document key: the service and the type of document. */
  datatype DocumentKey = DocumentKey(serviceId: string, documentType: string)

  datatype RewriteCounters = RewriteCounters(rewritten: nat, skippedNoChanges: nat)

  /** The sort key of the commit list: the commit date as a timestamp. */
  function CommitDate(c: Commit): int {
    c.date
  }

  /** `commits.sort((a, b) => new Date(a.date) - new Date(b.date))` (a stable sort). */
  function SortCommits(commits: seq<Commit>): (r: seq<Commit>)
    ensures SortedBy(r, CommitDate)
    ensures multiset(r) == multiset(commits)
  {
    SortBy(commits, CommitDate)
  }

  /** Commits of equal date keep the order `git log` gave them. */
  lemma SortCommitsStable(commits: seq<Commit>, date: int)
    ensures WithKey(SortCommits(commits), CommitDate, date) == WithKey(commits, CommitDate, date)
  {
    SortByStable(commits, CommitDate, date);
  }

  predicate StartsWith(s: string, prefix: string) {
    |prefix| <= |s| && s[..|prefix|] == prefix
  }

  /** `message.match(/^(Start tracking|Update)/)`. */
  predicate IsRecordingCommit(c: Commit) {
    StartsWith(c.message, "Start tracking") || StartsWith(c.message, "Update")
  }

  /** `commits.filter(...)` with the message test above. */
  function FilterCommits(commits: seq<Commit>): seq<Commit> {
    Filter(commits, IsRecordingCommit)
  }

  /**
   * The filter keeps exactly the recording commits, in their relative order, so a
   * date-sorted list stays date-sorted.
   */
  lemma FilterCommitsKeeps(commits: seq<Commit>)
    ensures forall c :: c in FilterCommits(commits) <==> c in commits && IsRecordingCommit(c)
    ensures Subsequence(FilterCommits(commits), commits)
    ensures SortedBy(commits, CommitDate) ==> SortedBy(FilterCommits(commits), CommitDate)
  {
    FilterSubsequence(commits, IsRecordingCommit);
    if SortedBy(commits, CommitDate) {
      FilterSorted(commits, IsRecordingCommit, CommitDate);
    }
  }

  /** The key of a changed file: `path.dirname` and `path.basename(p, path.extname(p))`. */
  function KeyOf(relativeFilePath: string): DocumentKey {
    DocumentKey(DirName(relativeFilePath), Stem(relativeFilePath))
  }

  /** A snapshot file "service/type.ext" gives back the key (service, type). */
  lemma KeyOfSnapshotFile(serviceId: string, documentType: string, ext: string)
    requires serviceId != "" && serviceId[0] != '/' && serviceId[|serviceId| - 1] != '/'
    requires documentType != "" && Lacks(documentType, '/', 0)
    requires ext != "" && Lacks(ext, '/', 0) && Lacks(ext, '.', 0)
    ensures KeyOf(serviceId + "/" + documentType + "." + ext) == DocumentKey(serviceId, documentType)
  {
    DirAndStemOfJoinedPath(serviceId, documentType, ext);
  }

  /** Only the last extension is removed, and the service directory may contain dots. */
  lemma KeyOfDottedNames()
    ensures KeyOf("example.com/Privacy.v2.html") == DocumentKey("example.com", "Privacy.v2")
  {
    var dir, name, ext := "example.com", "Privacy.v2", "html";
    assert dir + "/" + name + "." + ext == "example.com/Privacy.v2.html";
    KeyOfSnapshotFile(dir, name, ext);
  }

  /**
   * The snapshot `recordSnapshot` is asked to store for a commit: the renamed key, the
   * commit date, the downloaded content as HTML and the commit body as changelog text.
   * `None` when the commit changed no file (destructuring its first file throws).
   */
  function CommitRecord(c: Commit, applyRules: DocumentKey -> DocumentKey, fetchBody: string -> string): (r: Option<Record>)
    ensures r.None? <==> c.files == []
    ensures r.Some? ==>
      && DocumentKey(r.value.serviceId, r.value.documentType) == applyRules(KeyOf(c.files[0]))
      && r.value.fetchDate == c.date && r.value.content == Some(fetchBody(c.hash))
      && r.value.mimeType == ".html" && r.value.isFirstRecord.None?
  {
    if c.files == [] then None
    else
      var key := applyRules(KeyOf(c.files[0]));
      Some(Record("", key.serviceId, key.documentType, c.date, ".html",
                  Some(fetchBody(c.hash)), None, None, Some(c.body)))
  }

  /** What the loop body derives from each commit: `CommitRecord` with the run's parameters. */
  function Derive(applyRules: DocumentKey -> DocumentKey, fetchBody: string -> string): Commit -> Option<Record> {
    (c: Commit) => CommitRecord(c, applyRules, fetchBody)
  }

  /** Every snapshot `derive` produces carries content and the date of its commit. */
  ghost predicate WellDerived(derive: Commit -> Option<Record>) {
    forall c :: derive(c).Some? ==> derive(c).value.content.Some? && derive(c).value.fetchDate == c.date
  }

  lemma DeriveWellDerived(applyRules: DocumentKey -> DocumentKey, fetchBody: string -> string)
    ensures WellDerived(Derive(applyRules, fetchBody))
  {
    forall c: Commit | Derive(applyRules, fetchBody)(c).Some?
      ensures Derive(applyRules, fetchBody)(c).value.content.Some?
      ensures Derive(applyRules, fetchBody)(c).value.fetchDate == c.date
    {
      assert Derive(applyRules, fetchBody)(c) == CommitRecord(c, applyRules, fetchBody);
    }
  }

  /** The state of the replay: still running, or stopped on a commit the loop body threw on. */
  datatype RewriteReplay =
    | Rewriting(docs: seq<Record>, counters: RewriteCounters)
    | Failed(docs: seq<Record>, counters: RewriteCounters, commit: Commit)

  /** One commit: record its snapshot and count it as rewritten or skipped. */
  function CommitStep(docs: seq<Record>, counters: RewriteCounters, derive: Commit -> Option<Record>, c: Commit): RewriteReplay
    requires WellDerived(derive)
  {
    match derive(c)
    case None => Failed(docs, counters, c)
    case Some(record) =>
      var o := SaveStep(docs, record);
      Rewriting(o.docs, Counted(counters, o.inserted))
  }

  /** The counters after one commit: rewritten when a snapshot was recorded, skipped otherwise. */
  function Counted(counters: RewriteCounters, recorded: bool): RewriteCounters {
    if recorded then counters.(rewritten := counters.rewritten + 1)
    else counters.(skippedNoChanges := counters.skippedNoChanges + 1)
  }

  /** The commits replayed in order, stopping at the first one the loop body throws on. */
  function ReplayCommits(docs: seq<Record>, counters: RewriteCounters, derive: Commit -> Option<Record>, commits: seq<Commit>): RewriteReplay
    requires WellDerived(derive)
    decreases |commits|
  {
    if commits == [] then Rewriting(docs, counters)
    else
      var n := |commits| - 1;
      match ReplayCommits(docs, counters, derive, commits[..n])
      case Failed(d, c, f) => Failed(d, c, f)
      case Rewriting(d, c) => CommitStep(d, c, derive, commits[n])
  }

  /** The replay fails exactly when the loop body throws on some commit. */
  lemma {:induction false} ReplayCommitsFailsIff(
    docs: seq<Record>, counters: RewriteCounters, derive: Commit -> Option<Record>, commits: seq<Commit>)
    requires WellDerived(derive)
    ensures ReplayCommits(docs, counters, derive, commits).Failed? <==>
            exists i :: 0 <= i < |commits| && derive(commits[i]).None?
    decreases |commits|
  {
    if commits != [] {
      var n := |commits| - 1;
      ReplayCommitsFailsIff(docs, counters, derive, commits[..n]);
      CommitStepFacts(ReplayCommits(docs, counters, derive, commits[..n]), derive, commits[n]);
      NotDerivedSnoc(derive, commits, commits[..n]);
    }
  }

  /**
   * What the last commit adds to the replay of the ones before it: nothing once that
   * replay failed; otherwise a failure exactly when nothing is derived from it, and at most
   * one snapshot, the one derived from it, dated as the commit.
   */
  lemma CommitStepFacts(mid: RewriteReplay, derive: Commit -> Option<Record>, c: Commit)
    requires WellDerived(derive)
    ensures var end := if mid.Failed? then mid else CommitStep(mid.docs, mid.counters, derive, c);
      && (end.Failed? <==> mid.Failed? || derive(c).None?)
      && (end.docs == mid.docs ||
          (|end.docs| == |mid.docs| + 1 && end.docs[..|mid.docs|] == mid.docs &&
           SavedFrom(end.docs[|mid.docs|], derive, c) && end.docs[|mid.docs|].fetchDate == c.date))
  {
    if mid.Rewriting? && derive(c).Some? {
      var o := SaveStep(mid.docs, derive(c).value);
      if o.inserted {
        assert (mid.docs + [o.record])[..|mid.docs|] == mid.docs;
      }
    }
  }

  lemma NotDerivedSnoc(derive: Commit -> Option<Record>, commits: seq<Commit>, prefix: seq<Commit>)
    requires commits != [] && prefix == commits[..|commits| - 1]
    ensures (exists i :: 0 <= i < |commits| && derive(commits[i]).None?) <==>
            (exists i :: 0 <= i < |prefix| && derive(prefix[i]).None?) || derive(commits[|commits| - 1]).None?
  {
    var n := |commits| - 1;
    if exists i :: 0 <= i < n && derive(prefix[i]).None? {
      var i :| 0 <= i < n && derive(prefix[i]).None?;
      assert commits[i] == prefix[i];
    }
    if exists i :: 0 <= i < |commits| && derive(commits[i]).None? {
      var i :| 0 <= i < |commits| && derive(commits[i]).None?;
      if i < n {
        assert prefix[i] == commits[i];
      }
    }
  }

  /** The rewrite stops exactly when one of the commits changed no file. */
  lemma RewriteFailsIff(
    docs: seq<Record>, counters: RewriteCounters,
    applyRules: DocumentKey -> DocumentKey, fetchBody: string -> string, commits: seq<Commit>)
    ensures WellDerived(Derive(applyRules, fetchBody))
    ensures ReplayCommits(docs, counters, Derive(applyRules, fetchBody), commits).Failed? <==>
            exists i :: 0 <= i < |commits| && commits[i].files == []
  {
    var derive := Derive(applyRules, fetchBody);
    DeriveWellDerived(applyRules, fetchBody);
    ReplayCommitsFailsIff(docs, counters, derive, commits);
    forall i | 0 <= i < |commits| ensures derive(commits[i]).None? <==> commits[i].files == [] {
      assert derive(commits[i]) == CommitRecord(commits[i], applyRules, fetchBody);
    }
  }

  /** `record` is what `save` stored for commit `c`: the derived snapshot with its new id and first-record flag. */
  predicate SavedFrom(record: Record, derive: Commit -> Option<Record>, c: Commit) {
    derive(c).Some? && record == derive(c).value.(id := record.id, isFirstRecord := record.isFirstRecord)
  }

  /** Some commit of the list is the one `record` was stored for. */
  predicate SavedFromSome(record: Record, derive: Commit -> Option<Record>, commits: seq<Commit>) {
    exists i :: 0 <= i < |commits| && SavedFrom(record, derive, commits[i])
  }

  lemma SavedFromPrefix(record: Record, derive: Commit -> Option<Record>, commits: seq<Commit>, n: nat)
    requires n <= |commits| && SavedFromSome(record, derive, commits[..n])
    ensures SavedFromSome(record, derive, commits)
  {
    var i :| 0 <= i < n && SavedFrom(record, derive, commits[..n][i]);
    assert commits[..n][i] == commits[i];
  }

  /**
   * What a replay writes: the existing history is kept, and every snapshot it adds is the
   * one derived from one of the commits. Each commit of a run that did not fail is counted
   * once, and the history grows by the rewritten ones.
   */
  lemma {:induction false} ReplayCommitsSound(
    docs: seq<Record>, counters: RewriteCounters, derive: Commit -> Option<Record>, commits: seq<Commit>)
    requires WellDerived(derive)
    ensures var end := ReplayCommits(docs, counters, derive, commits);
      && |docs| <= |end.docs| && end.docs[..|docs|] == docs
      && |end.docs| == |docs| + (end.counters.rewritten - counters.rewritten)
      && (end.Rewriting? ==>
            end.counters.rewritten + end.counters.skippedNoChanges ==
            counters.rewritten + counters.skippedNoChanges + |commits|)
      && (forall j :: |docs| <= j < |end.docs| ==> SavedFromSome(end.docs[j], derive, commits))
    decreases |commits|
  {
    if commits != [] {
      var n := |commits| - 1;
      ReplayCommitsSound(docs, counters, derive, commits[..n]);
      var mid := ReplayCommits(docs, counters, derive, commits[..n]);
      var end := ReplayCommits(docs, counters, derive, commits);
      forall j | |docs| <= j < |mid.docs| ensures SavedFromSome(mid.docs[j], derive, commits) {
        SavedFromPrefix(mid.docs[j], derive, commits, n);
      }
      if mid.Rewriting? && derive(commits[n]).Some? {
        var o := SaveStep(mid.docs, derive(commits[n]).value);
        assert end.docs == o.docs;
        if o.inserted {
          assert end.docs[..|mid.docs|] == mid.docs;
          assert end.docs[..|docs|] == mid.docs[..|docs|];
          forall j | |docs| <= j < |end.docs| ensures SavedFromSome(end.docs[j], derive, commits) {
            if j < |mid.docs| {
              assert end.docs[j] == mid.docs[j];
            } else {
              assert end.docs[j] == o.record;
              assert SavedFrom(o.record, derive, commits[n]);
            }
          }
        }
      }
    }
  }

  /**
   * Each snapshot the rewrite adds has the renamed key of its commit's first changed file,
   * the commit's date, the downloaded content, and ".html" as MIME type.
   */
  lemma RewriteWritesCommitKeys(record: Record, applyRules: DocumentKey -> DocumentKey, fetchBody: string -> string, c: Commit)
    requires SavedFrom(record, Derive(applyRules, fetchBody), c)
    ensures c.files != []
    ensures DocumentKey(record.serviceId, record.documentType) == applyRules(KeyOf(c.files[0]))
    ensures record.fetchDate == c.date && record.content == Some(fetchBody(c.hash)) && record.mimeType == ".html"
  {
    assert Derive(applyRules, fetchBody)(c) == CommitRecord(c, applyRules, fetchBody);
  }

  /**
   * Replaying date-sorted commits writes the new snapshots in `fetchDate` order, each dated
   * no earlier than the commits before it.
   */
  lemma {:induction false} ReplayCommitsInDateOrder(
    docs: seq<Record>, counters: RewriteCounters, derive: Commit -> Option<Record>, commits: seq<Commit>)
    requires WellDerived(derive) && SortedBy(commits, CommitDate)
    ensures var end := ReplayCommits(docs, counters, derive, commits);
      |docs| <= |end.docs| && SortedBy(end.docs[|docs|..], FetchDate)
    decreases |commits|
  {
    ReplayCommitsSound(docs, counters, derive, commits);
    if commits != [] {
      var n := |commits| - 1;
      var prefix := commits[..n];
      assert SortedBy(prefix, CommitDate);
      ReplayCommitsInDateOrder(docs, counters, derive, prefix);
      ReplayCommitsSound(docs, counters, derive, prefix);
      var mid := ReplayCommits(docs, counters, derive, prefix);
      CommitStepFacts(mid, derive, commits[n]);
      var end := ReplayCommits(docs, counters, derive, commits);
      if end.docs != mid.docs {
        var added, before := end.docs[|docs|..], mid.docs[|docs|..];
        assert added == before + [end.docs[|mid.docs|]];
        forall a | 0 <= a < |before| ensures FetchDate(before[a]) <= commits[n].date {
          DatedByEarlierCommit(mid.docs[|docs| + a], derive, commits, prefix);
        }
        SortedSnoc(before, end.docs[|mid.docs|]);
      }
    }
  }

  /** A snapshot derived from one of the earlier commits of a date-sorted list is dated no later than the last commit. */
  lemma DatedByEarlierCommit(record: Record, derive: Commit -> Option<Record>, commits: seq<Commit>, prefix: seq<Commit>)
    requires WellDerived(derive) && SortedBy(commits, CommitDate)
    requires commits != [] && prefix == commits[..|commits| - 1]
    requires SavedFromSome(record, derive, prefix)
    ensures record.fetchDate <= commits[|commits| - 1].date
  {
    var i :| 0 <= i < |prefix| && SavedFrom(record, derive, prefix[i]);
    assert prefix[i] == commits[i];
  }

  lemma SortedSnoc(s: seq<Record>, x: Record)
    requires SortedBy(s, FetchDate)
    requires forall a :: 0 <= a < |s| ==> FetchDate(s[a]) <= FetchDate(x)
    ensures SortedBy(s + [x], FetchDate)
  {
  }

  /** The script's run: its module-level counters, updated as the commits are replayed. */
  class HistoryRewriter {
    var counters: RewriteCounters

    constructor ()
      ensures counters == RewriteCounters(0, 0)
    {
      counters := RewriteCounters(0, 0);
    }

    /**
     * The loop body for one commit: the document key of its first changed file, renamed;
     * the file's content at that commit; the snapshot recorded and counted. `ok` is false
     * when the commit changed no file, where the body throws before touching anything.
     */
    method RecordCommit(
      repository: MongoRepository, commit: Commit,
      applyRules: DocumentKey -> DocumentKey, fetchBody: string -> string) returns (ok: bool)
      requires repository.Valid()
      modifies this, repository
      ensures repository.Valid() && WellDerived(Derive(applyRules, fetchBody))
      ensures var step := CommitStep(old(repository.collection), old(counters), Derive(applyRules, fetchBody), commit);
        && (ok <==> step.Rewriting?)
        && (ok ==> repository.collection == step.docs && counters == step.counters)
        && (!ok ==> repository.collection == old(repository.collection) && counters == old(counters))
    {
      DeriveWellDerived(applyRules, fetchBody);
      assert Derive(applyRules, fetchBody)(commit) == CommitRecord(commit, applyRules, fetchBody);
      if commit.files == [] {
        return false;
      }
      var key := applyRules(KeyOf(commit.files[0]));
      var body := fetchBody(commit.hash);
      var snapshot := Record("", key.serviceId, key.documentType, commit.date, ".html",
                             Some(body), None, None, Some(commit.body));
      var mutated, recorded := repository.Save(snapshot);
      if recorded.Some? {
        counters := counters.(rewritten := counters.rewritten + 1);
      } else {
        counters := counters.(skippedNoChanges := counters.skippedNoChanges + 1);
      }
      ok := true;
    }

    /**
     * Sorts and filters the commits, then records one snapshot per commit in order.
     * `failed` is the commit that changed no file, if the run stopped on one. The snapshots
     * added are in date order.
     */
    method Rewrite(
      repository: MongoRepository, commits: seq<Commit>,
      applyRules: DocumentKey -> DocumentKey, fetchBody: string -> string) returns (failed: Option<Commit>)
      requires repository.Valid()
      modifies this, repository
      ensures repository.Valid() && WellDerived(Derive(applyRules, fetchBody))
      ensures var end := ReplayCommits(old(repository.collection), old(counters), Derive(applyRules, fetchBody),
                                       FilterCommits(SortCommits(commits)));
        && repository.collection == end.docs && counters == end.counters
        && failed == if end.Failed? then Some(end.commit) else None
      ensures |old(repository.collection)| <= |repository.collection|
      ensures SortedBy(repository.collection[|old(repository.collection)|..], FetchDate)
    {
      var sorted := SortCommits(commits);
      var filteredCommits := FilterCommits(sorted);
      DeriveWellDerived(applyRules, fetchBody);
      FilterCommitsKeeps(sorted);
      ReplayCommitsInDateOrder(repository.collection, counters, Derive(applyRules, fetchBody), filteredCommits);
      failed := RecordCommits(repository, filteredCommits, applyRules, fetchBody);
    }

    /** The loop over the commits: each one recorded in turn, stopping at the first that throws. */
    method RecordCommits(
      repository: MongoRepository, commits: seq<Commit>,
      applyRules: DocumentKey -> DocumentKey, fetchBody: string -> string) returns (failed: Option<Commit>)
      requires repository.Valid()
      modifies this, repository
      ensures repository.Valid() && WellDerived(Derive(applyRules, fetchBody))
      ensures var end := ReplayCommits(old(repository.collection), old(counters), Derive(applyRules, fetchBody), commits);
        && repository.collection == end.docs && counters == end.counters
        && failed == if end.Failed? then Some(end.commit) else None
    {
      ghost var derive := Derive(applyRules, fetchBody);
      ghost var docs0, counters0 := repository.collection, counters;
      DeriveWellDerived(applyRules, fetchBody);
      for i := 0 to |commits|
        invariant repository.Valid()
        invariant ReplayCommits(docs0, counters0, derive, commits[..i]) == Rewriting(repository.collection, counters)
      {
        var commit := commits[i];
        ReplayCommitsNext(docs0, counters0, derive, commits, i);
        var ok := RecordCommit(repository, commit, applyRules, fetchBody);
        if !ok {
          FailedStays(docs0, counters0, derive, commits, i + 1);
          return Some(commit);
        }
      }
      assert commits[..|commits|] == commits;
      failed := None;
    }
  }

  /** Replaying one more commit of the list extends the replay of the commits before it by one step. */
  lemma ReplayCommitsNext(
    docs: seq<Record>, counters: RewriteCounters, derive: Commit -> Option<Record>, commits: seq<Commit>, i: nat)
    requires WellDerived(derive) && i < |commits|
    ensures var mid := ReplayCommits(docs, counters, derive, commits[..i]);
      ReplayCommits(docs, counters, derive, commits[..i + 1]) ==
      if mid.Failed? then mid else CommitStep(mid.docs, mid.counters, derive, commits[i])
  {
    var prefix := commits[..i + 1];
    assert prefix[..i] == commits[..i] && prefix[i] == commits[i];
  }

  /** Once a prefix of the replay has failed, the whole replay is that failure. */
  lemma {:induction false} FailedStays(
    docs: seq<Record>, counters: RewriteCounters, derive: Commit -> Option<Record>, commits: seq<Commit>, i: nat)
    requires WellDerived(derive) && i <= |commits|
    requires ReplayCommits(docs, counters, derive, commits[..i]).Failed?
    ensures ReplayCommits(docs, counters, derive, commits) == ReplayCommits(docs, counters, derive, commits[..i])
    decreases |commits|
  {
    if i < |commits| {
      var n := |commits| - 1;
      assert commits[..n][..i] == commits[..i];
      FailedStays(docs, counters, derive, commits[..n], i);
    } else {
      assert commits[..i] == commits;
    }
  }
}
