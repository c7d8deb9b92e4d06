/** What callers of the document service are told and which rows there are, from the events of the run
    alone. */
module DocumentHistories {
  import opened Prelude
  import opened DocumentStore

  /** What the caller of event i is told. */
  function OutcomeAt(hash: Bytes -> Checksum, run: seq<Event>, i: nat): Outcome
    requires i < |run|
  {
    Step(hash, After(hash, run[..i]), run[i]).1
  }

  /** Event i is an upload whose row is committed: it succeeds, or fails after the commit. */
  ghost predicate Commits(hash: Bytes -> Checksum, run: seq<Event>, i: int) {
    && 0 <= i < |run| && run[i].Upload?
    && (OutcomeAt(hash, run, i) == Uploaded
        || (OutcomeAt(hash, run, i) == UploadFailed && run[i].request.fault.RefreshFails?))
  }

  /** The document of upload i is soft-deleted by some event before number n. */
  ghost predicate IsDeletedBefore(run: seq<Event>, i: nat, n: nat)
    requires i < |run| && run[i].Upload?
  {
    exists k :: i < k < n && IsDeletion(run, k, run[i].request.documentId)
  }

  predicate IsDeletion(run: seq<Event>, k: int, id: Part) {
    0 <= k < |run| && run[k] == SoftDelete(id)
  }

  /** The row is that of upload i, deleted or not. */
  ghost predicate IsRowOf(hash: Bytes -> Checksum, run: seq<Event>, i: int, n: nat, d: Document) {
    && i < n && Commits(hash, run, i)
    && var r := run[i].request;
       && d.id == r.documentId && d.kbId == r.kbId && d.organizationId == r.organizationId
       && d.storageKey == GenerateStorageKey(r.organizationId, r.kbId, r.documentId, 1, r.filename)
       && d.checksum == hash(r.content) && d.fileSize == |r.content|
       && (d.deleted <==> IsDeletedBefore(run, i, n))
  }

  ghost predicate IsSomeUploads(hash: Bytes -> Checksum, run: seq<Event>, n: nat, d: Document) {
    exists i :: IsRowOf(hash, run, i, n, d)
  }

  ghost predicate HasItsRow(hash: Bytes -> Checksum, run: seq<Event>, n: nat, documents: seq<Document>, i: int) {
    exists d :: d in documents && IsRowOf(hash, run, i, n, d)
  }

  /** Each row is that of a committed upload. */
  ghost predicate RowsAreUploads(hash: Bytes -> Checksum, run: seq<Event>, n: nat, documents: seq<Document>) {
    forall d | d in documents :: IsSomeUploads(hash, run, n, d)
  }

  /** Each committed upload has its row. */
  ghost predicate UploadsHaveRows(hash: Bytes -> Checksum, run: seq<Event>, n: nat, documents: seq<Document>) {
    forall i | i < n && Commits(hash, run, i) :: HasItsRow(hash, run, n, documents, i)
  }

  /** The row as it is one event later. */
  function Later(e: Event, d: Document): Document {
    if e == SoftDelete(d.id) then d.(deleted := true) else d
  }

  lemma RowsLater(hash: Bytes -> Checksum, s: Store, e: Event)
    ensures
      var documents := Step(hash, s, e).0.documents;
      && (forall d | d in s.documents :: Later(e, d) in documents)
      && |s.documents| <= |documents| <= |s.documents| + 1
      && (forall i | 0 <= i < |s.documents| :: documents[i] == Later(e, s.documents[i]))
  {
    var documents := Step(hash, s, e).0.documents;
    forall d | d in s.documents
      ensures Later(e, d) in documents
    {
      var i :| 0 <= i < |s.documents| && s.documents[i] == d;
      assert documents[i] == Later(e, d);
    }
  }

  lemma NewRow(hash: Bytes -> Checksum, run: seq<Event>, m: nat)
    requires m < |run|
    ensures
      var s := After(hash, run[..m]);
      var documents := Step(hash, s, run[m]).0.documents;
      if Commits(hash, run, m)
      then |documents| == |s.documents| + 1 && IsRowOf(hash, run, m, m + 1, documents[|s.documents|])
      else |documents| == |s.documents|
  {
    var s := After(hash, run[..m]);
    if Commits(hash, run, m) {
      assert !IsDeletedBefore(run, m, m + 1);
    }
  }

  lemma RowOfLater(hash: Bytes -> Checksum, run: seq<Event>, i: int, m: nat, d: Document)
    requires m < |run| && IsRowOf(hash, run, i, m, d)
    ensures IsRowOf(hash, run, i, m + 1, Later(run[m], d))
  {
    assert IsDeletion(run, m, d.id) <==> run[m] == SoftDelete(d.id);
    if k :| i < k < m && IsDeletion(run, k, d.id) {
      assert IsDeletedBefore(run, i, m + 1);
    }
  }

  lemma {:induction false} RowsTellTheRun(hash: Bytes -> Checksum, run: seq<Event>, n: nat)
    requires n <= |run|
    ensures RowsAreUploads(hash, run, n, After(hash, run[..n]).documents)
    ensures UploadsHaveRows(hash, run, n, After(hash, run[..n]).documents)
    decreases n
  {
    if n == 0 {
      assert run[..0] == [];
    } else {
      var m := n - 1;
      RowsTellTheRun(hash, run, m);
      assert run[..n][..m] == run[..m];
      RowsAreUploadsLater(hash, run, m);
      UploadsHaveRowsLater(hash, run, m);
    }
  }

  lemma RowsAreUploadsLater(hash: Bytes -> Checksum, run: seq<Event>, m: nat)
    requires m < |run| && RowsAreUploads(hash, run, m, After(hash, run[..m]).documents)
    ensures RowsAreUploads(hash, run, m + 1, Step(hash, After(hash, run[..m]), run[m]).0.documents)
  {
    var s := After(hash, run[..m]);
    var documents := Step(hash, s, run[m]).0.documents;
    RowsLater(hash, s, run[m]);
    NewRow(hash, run, m);
    forall d | d in documents
      ensures IsSomeUploads(hash, run, m + 1, d)
    {
      var x :| 0 <= x < |documents| && documents[x] == d;
      if x < |s.documents| {
        assert s.documents[x] in s.documents;
        var i :| IsRowOf(hash, run, i, m, s.documents[x]);
        RowOfLater(hash, run, i, m, s.documents[x]);
      } else {
        assert IsRowOf(hash, run, m, m + 1, d);
      }
    }
  }

  lemma UploadsHaveRowsLater(hash: Bytes -> Checksum, run: seq<Event>, m: nat)
    requires m < |run| && UploadsHaveRows(hash, run, m, After(hash, run[..m]).documents)
    ensures UploadsHaveRows(hash, run, m + 1, Step(hash, After(hash, run[..m]), run[m]).0.documents)
  {
    var s := After(hash, run[..m]);
    var documents := Step(hash, s, run[m]).0.documents;
    RowsLater(hash, s, run[m]);
    NewRow(hash, run, m);
    forall i | i < m + 1 && Commits(hash, run, i)
      ensures HasItsRow(hash, run, m + 1, documents, i)
    {
      if i < m {
        assert HasItsRow(hash, run, m, s.documents, i);
        var d :| d in s.documents && IsRowOf(hash, run, i, m, d);
        RowOfLater(hash, run, i, m, d);
      } else {
        assert documents[|s.documents|] in documents;
      }
    }
  }

  /** The rows of the table, after any run: exactly one kind of row for each committed upload, with the
      upload's data, and deleted if and only if a later event deleted that document. */
  lemma {:induction false} RowsAreTheUploads(hash: Bytes -> Checksum, run: seq<Event>)
    ensures RowsAreUploads(hash, run, |run|, After(hash, run).documents)
    ensures UploadsHaveRows(hash, run, |run|, After(hash, run).documents)
  {
    RowsTellTheRun(hash, run, |run|);
    assert run[..|run|] == run;
  }

  /** Some earlier upload to the knowledge base, committed and not deleted since, has that checksum. */
  ghost predicate HasEarlierCopy(hash: Bytes -> Checksum, run: seq<Event>, n: nat, kbId: Part, checksum: Checksum) {
    exists i :: i < n && Commits(hash, run, i) && run[i].request.kbId == kbId
             && hash(run[i].request.content) == checksum && !IsDeletedBefore(run, i, n)
  }

  lemma {:induction false} LiveCopiesAreEarlierUploads(
    hash: Bytes -> Checksum, run: seq<Event>, n: nat, kbId: Part, checksum: Checksum)
    requires n <= |run|
    ensures HasLiveCopy(After(hash, run[..n]).documents, kbId, checksum)
       <==> HasEarlierCopy(hash, run, n, kbId, checksum)
  {
    var documents := After(hash, run[..n]).documents;
    RowsTellTheRun(hash, run, n);
    if HasLiveCopy(documents, kbId, checksum) {
      LiveCopyIsEarlier(hash, run, n, documents, kbId, checksum);
    }
    if HasEarlierCopy(hash, run, n, kbId, checksum) {
      EarlierIsLiveCopy(hash, run, n, documents, kbId, checksum);
    }
  }

  lemma LiveCopyIsEarlier(
    hash: Bytes -> Checksum, run: seq<Event>, n: nat, documents: seq<Document>, kbId: Part, checksum: Checksum)
    requires RowsAreUploads(hash, run, n, documents) && HasLiveCopy(documents, kbId, checksum)
    ensures HasEarlierCopy(hash, run, n, kbId, checksum)
  {
    var x :| 0 <= x < |documents| && IsLiveCopy(documents[x], kbId, checksum);
    assert documents[x] in documents;
    var i :| IsRowOf(hash, run, i, n, documents[x]);
  }

  lemma EarlierIsLiveCopy(
    hash: Bytes -> Checksum, run: seq<Event>, n: nat, documents: seq<Document>, kbId: Part, checksum: Checksum)
    requires UploadsHaveRows(hash, run, n, documents) && HasEarlierCopy(hash, run, n, kbId, checksum)
    ensures HasLiveCopy(documents, kbId, checksum)
  {
    var i :| i < n && Commits(hash, run, i) && run[i].request.kbId == kbId
      && hash(run[i].request.content) == checksum && !IsDeletedBefore(run, i, n);
    assert HasItsRow(hash, run, n, documents, i);
    var d :| d in documents && IsRowOf(hash, run, i, n, d);
    var x :| 0 <= x < |documents| && documents[x] == d;
    assert IsLiveCopy(documents[x], kbId, checksum);
  }

  /** What an upload is told: it is invalid exactly if the knowledge base is another organization's or
      the file does not pass validation; a duplicate exactly if it is valid and the knowledge base has
      an upload of the same content that was committed and not deleted since; and otherwise it succeeds
      exactly if nothing fails. */
  lemma {:induction false} FateOfUpload(hash: Bytes -> Checksum, run: seq<Event>, n: nat)
    requires n < |run| && run[n].Upload?
    ensures
      var r, outcome := run[n].request, OutcomeAt(hash, run, n);
      var valid := r.kbOrganizationId == r.organizationId && r.isValid;
      var copied := HasEarlierCopy(hash, run, n, r.kbId, hash(r.content));
      && (outcome == InvalidRequest <==> !valid)
      && (outcome == Duplicate <==> valid && copied)
      && (outcome == Uploaded <==> valid && !copied && r.fault == NoFault)
      && (outcome == UploadFailed <==> valid && !copied && r.fault != NoFault)
  {
    LiveCopiesAreEarlierUploads(hash, run, n, run[n].request.kbId, hash(run[n].request.content));
  }
}
