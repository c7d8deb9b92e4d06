/** DocumentService: uploads write a file and then commit a row, clean up when the transaction fails,
    and deletion is soft.

    Runs are serial.  Validation of the upload, failures of storage, commit, refresh and clean-up, and
    what a failed write leaves behind, are inputs.  The checksum function is a parameter. */
module DocumentStore {
  import opened Prelude
  import opened Text

  type Bytes = seq<bv8>
  type Checksum = string

  /** Identifiers are UUIDs and file names are sanitized; neither holds a slash. */
  type Part = s: string | '/' !in s witness ""

  // -------------------------------------------------------------------------------- storage keys

  function GenerateStorageKey(org: Part, kb: Part, document: Part, version: nat, filename: Part): string {
    var named := document + ("/" + ("v" + (Digits(version) + ("/" + filename))));
    "org/" + (org + ("/" + ("kb/" + (kb + ("/" + ("documents/" + named))))))
  }

  /** Different parts give different keys. */
  lemma StorageKeyIsInjective(
    org: Part, kb: Part, document: Part, version: nat, filename: Part,
    org': Part, kb': Part, document': Part, version': nat, filename': Part)
    requires GenerateStorageKey(org, kb, document, version, filename)
          == GenerateStorageKey(org', kb', document', version', filename')
    ensures org == org' && kb == kb' && document == document' && version == version' && filename == filename'
  {
    var t5, t5' := "v" + (Digits(version) + ("/" + filename)), "v" + (Digits(version') + ("/" + filename'));
    var t4, t4' := "documents/" + (document + ("/" + t5)), "documents/" + (document' + ("/" + t5'));
    var t3, t3' := "kb/" + (kb + ("/" + t4)), "kb/" + (kb' + ("/" + t4'));
    DropPrefix("org/", org + ("/" + t3), org' + ("/" + t3'));
    CutAt("/", org, org', t3, t3');
    DropPrefix("kb/", kb + ("/" + t4), kb' + ("/" + t4'));
    CutAt("/", kb, kb', t4, t4');
    DropPrefix("documents/", document + ("/" + t5), document' + ("/" + t5'));
    CutAt("/", document, document', t5, t5');
    DropPrefix("v", Digits(version) + ("/" + filename), Digits(version') + ("/" + filename'));
    CutAt("/", Digits(version), Digits(version'), filename, filename');
    DigitsAreInjective(version, version');
  }

  // ------------------------------------------------------------------------------------- uploads

  datatype Document = Document(
    id: Part,
    kbId: Part,
    organizationId: Part,
    storageKey: string,
    checksum: Checksum,
    fileSize: nat,
    deleted: bool)

  datatype Store = Store(documents: seq<Document>, files: map<string, Bytes>)

  /** What goes wrong in an upload that gets as far as storing its file.  An upload that is cancelled
      ends like one whose fault is not cleaned up after. */
  datatype Fault =
    | NoFault
    | StorageFails(written: Option<Bytes>)   // what the failed write leaves, if it opened the file
    | CommitFails                            // nothing is committed
    | RefreshFails                           // the commit took effect before the failure

  datatype Request = Request(
    kbId: Part,
    kbOrganizationId: Part,
    organizationId: Part,
    filename: Part,
    isValid: bool,
    content: Bytes,
    documentId: Part,   // freshly generated
    fault: Fault,
    cleanupWorks: bool)
  {
    function Key(): string {
      GenerateStorageKey(organizationId, kbId, documentId, 1, filename)
    }

    function Row(checksum: Checksum): Document {
      Document(documentId, kbId, organizationId, Key(), checksum, |content|, false)
    }
  }

  datatype Event = Upload(request: Request) | SoftDelete(id: Part)

  datatype Outcome = Uploaded | InvalidRequest | Duplicate | UploadFailed | Deleted

  predicate IsLiveCopy(d: Document, kbId: Part, checksum: Checksum) {
    d.kbId == kbId && d.checksum == checksum && !d.deleted
  }

  predicate HasLiveCopy(documents: seq<Document>, kbId: Part, checksum: Checksum) {
    exists i | 0 <= i < |documents| :: IsLiveCopy(documents[i], kbId, checksum)
  }

  /** The upload passes the checks and leaves a mark on storage. */
  predicate GetsToStorage(hash: Bytes -> Checksum, s: Store, r: Request) {
    && r.kbOrganizationId == r.organizationId && r.isValid
    && !HasLiveCopy(s.documents, r.kbId, hash(r.content))
    && r.fault != StorageFails(None)
  }

  function UploadDocument(hash: Bytes -> Checksum, s: Store, r: Request): (Store, Outcome) {
    if r.kbOrganizationId != r.organizationId || !r.isValid then (s, InvalidRequest)
    else if HasLiveCopy(s.documents, r.kbId, hash(r.content)) then (s, Duplicate)
    else
      var stored := s.(files := s.files[r.Key() := r.content]);
      var committed := stored.(documents := stored.documents + [r.Row(hash(r.content))]);
      match r.fault
      case NoFault => (committed, Uploaded)
      case StorageFails(None) => (s, UploadFailed)
      case StorageFails(Some(part)) => (s.(files := s.files[r.Key() := part]), UploadFailed)
      case CommitFails => (CleanUp(stored, r), UploadFailed)
      case RefreshFails => (CleanUp(committed, r), UploadFailed)
  }

  function CleanUp(s: Store, r: Request): Store {
    if r.cleanupWorks then s.(files := s.files - {r.Key()}) else s
  }

  function DeleteDocument(s: Store, id: Part): Store {
    s.(documents := seq(|s.documents|, i requires 0 <= i < |s.documents| =>
      if s.documents[i].id == id then s.documents[i].(deleted := true) else s.documents[i]))
  }

  function Step(hash: Bytes -> Checksum, s: Store, e: Event): (Store, Outcome) {
    match e
    case Upload(r) => UploadDocument(hash, s, r)
    case SoftDelete(id) => (DeleteDocument(s, id), Deleted)
  }

  function After(hash: Bytes -> Checksum, run: seq<Event>): Store {
    if run == [] then Store([], map[])
    else Step(hash, After(hash, run[..|run| - 1]), run[|run| - 1]).0
  }

  // ------------------------------------------------------------------------------- the service

  class DocumentService {
    var documents: seq<Document>
    var files: map<string, Bytes>

    ghost function Value(): Store
      reads this
    {
      Store(documents, files)
    }

    constructor ()
      ensures Value() == Store([], map[])
    {
      documents, files := [], map[];
    }

    method Upload(hash: Bytes -> Checksum, r: Request) returns (outcome: Outcome)
      modifies this
      ensures (Value(), outcome) == UploadDocument(hash, old(Value()), r)
    {
      if r.kbOrganizationId != r.organizationId || !r.isValid {
        return InvalidRequest;
      }
      var checksum := hash(r.content);
      if HasLiveCopy(documents, r.kbId, checksum) {
        return Duplicate;
      }
      var storageKey := r.Key();
      if r.fault.StorageFails? {
        if r.fault.written.Some? {
          files := files[storageKey := r.fault.written.value];
        }
        return UploadFailed;
      }
      files := files[storageKey := r.content];
      if !r.fault.CommitFails? {
        documents := documents + [r.Row(checksum)];
        if !r.fault.RefreshFails? {
          return Uploaded;
        }
      }
      if r.cleanupWorks {
        files := files - {storageKey};
      }
      return UploadFailed;
    }

    method Delete(id: Part)
      modifies this`documents
      ensures Value() == DeleteDocument(old(Value()), id)
    {
      var marked := [];
      for i := 0 to |documents|
        invariant documents == old(documents)
        invariant marked == DeleteDocument(old(Value()), id).documents[..i]
      {
        marked := marked + [if documents[i].id == id then documents[i].(deleted := true) else documents[i]];
      }
      documents := marked;
    }
  }

  // ----------------------------------------------------------------------------- duplicates

  ghost predicate LiveChecksumsDiffer(documents: seq<Document>) {
    forall i, j | 0 <= i < j < |documents| ::
      documents[i].kbId == documents[j].kbId && !documents[i].deleted && !documents[j].deleted
      ==> documents[i].checksum != documents[j].checksum
  }

  /** Live documents of one knowledge base have pairwise distinct checksums, after any run, whatever
      failed; so the duplicate query finds at most one row. */
  lemma {:induction false} NoLiveDuplicates(hash: Bytes -> Checksum, run: seq<Event>)
    ensures LiveChecksumsDiffer(After(hash, run).documents)
  {
    if run != [] {
      var before, e := After(hash, run[..|run| - 1]), run[|run| - 1];
      NoLiveDuplicates(hash, run[..|run| - 1]);
      if e.Upload? && GetsToStorage(hash, before, e.request) {
        assert forall i | 0 <= i < |before.documents| ::
          !IsLiveCopy(before.documents[i], e.request.kbId, hash(e.request.content));
      }
    }
  }

  // --------------------------------------------------------------------- rows and files agree

  /** Document ids are generated fresh for every upload. */
  ghost predicate FreshIds(run: seq<Event>) {
    forall i, j | 0 <= i < j < |run| && run[i].Upload? && run[j].Upload? ::
      run[i].request.documentId != run[j].request.documentId
  }

  ghost predicate HasRow(s: Store, key: string) {
    exists i :: 0 <= i < |s.documents| && s.documents[i].storageKey == key
  }

  /** The stored files are exactly those of the document rows, deleted ones included, and each file's
      content has its row's checksum. */
  ghost predicate Agree(hash: Bytes -> Checksum, s: Store) {
    && (forall key :: key in s.files <==> HasRow(s, key))
    && ContentsMatch(hash, s)
  }

  ghost predicate ContentsMatch(hash: Bytes -> Checksum, s: Store) {
    forall i | 0 <= i < |s.documents| && s.documents[i].storageKey in s.files ::
      hash(s.files[s.documents[i].storageKey]) == s.documents[i].checksum
  }

  /** The three faults that separate a row from its file: a write that fails after opening the file,
      which nothing cleans up after; a commit that fails and is not cleaned up after; and a failure
      after the commit that is cleaned up after. */
  predicate Separates(r: Request) {
    match r.fault
    case NoFault => false
    case StorageFails(written) => written.Some?
    case CommitFails => !r.cleanupWorks
    case RefreshFails => r.cleanupWorks
  }

  ghost predicate SeparatesAt(hash: Bytes -> Checksum, run: seq<Event>, i: nat)
    requires i < |run|
  {
    run[i].Upload? && GetsToStorage(hash, After(hash, run[..i]), run[i].request) && Separates(run[i].request)
  }

  ghost predicate InUse(s: Store, key: string) {
    key in s.files || HasRow(s, key)
  }

  ghost predicate MadeKey(run: seq<Event>, i: int, key: string) {
    0 <= i < |run| && run[i].Upload? && run[i].request.Key() == key
  }

  lemma DeletionKeepsKeys(hash: Bytes -> Checksum, s: Store, id: Part)
    ensures forall key :: HasRow(DeleteDocument(s, id), key) <==> HasRow(s, key)
    ensures ContentsMatch(hash, s) ==> ContentsMatch(hash, DeleteDocument(s, id))
  {
    var s' := DeleteDocument(s, id);
    forall key
      ensures HasRow(s', key) <==> HasRow(s, key)
    {
      if i :| 0 <= i < |s.documents| && s.documents[i].storageKey == key {
        assert s'.documents[i].storageKey == key;
      }
    }
  }

  predicate LeavesFile(r: Request) {
    r.fault.NoFault? || r.fault.StorageFails? || !r.cleanupWorks
  }

  predicate LeavesRow(r: Request) {
    r.fault.NoFault? || r.fault.RefreshFails?
  }

  /** What an upload that gets to storage does to the keys of files and rows. */
  lemma UploadEffect(hash: Bytes -> Checksum, s: Store, r: Request)
    requires GetsToStorage(hash, s, r)
    ensures
      var s' := UploadDocument(hash, s, r).0;
      && (forall key :: key in s'.files <==>
            if key == r.Key() then LeavesFile(r) else key in s.files)
      && (forall key :: HasRow(s', key) <==> HasRow(s, key) || (key == r.Key() && LeavesRow(r)))
  {
    var s' := UploadDocument(hash, s, r).0;
    forall key
      ensures HasRow(s', key) <==> HasRow(s, key) || (key == r.Key() && LeavesRow(r))
    {
      if i :| 0 <= i < |s.documents| && s.documents[i].storageKey == key {
        assert s'.documents[i].storageKey == key;
      }
      if LeavesRow(r) {
        assert s'.documents[|s.documents|].storageKey == r.Key();
      }
    }
  }

  /** Every key in use was made by an upload of the run. */
  lemma {:induction false} KeysAreMade(hash: Bytes -> Checksum, run: seq<Event>, key: string)
    requires InUse(After(hash, run), key)
    ensures exists i :: MadeKey(run, i, key)
  {
    assert run != [];
    var before, e := run[..|run| - 1], run[|run| - 1];
    if InUse(After(hash, before), key) {
      KeysAreMade(hash, before, key);
      var i :| MadeKey(before, i, key);
      assert MadeKey(run, i, key);
    } else {
      match e
      case Upload(r) =>
        if GetsToStorage(hash, After(hash, before), r) {
          UploadEffect(hash, After(hash, before), r);
        }
        assert MadeKey(run, |run| - 1, key);
      case SoftDelete(id) =>
        DeletionKeepsKeys(hash, After(hash, before), id);
        assert false;
    }
  }

  /** No upload overwrites a file or reuses the key of a row. */
  lemma UploadsUseNewKeys(hash: Bytes -> Checksum, run: seq<Event>, r: Request)
    requires FreshIds(run + [Upload(r)])
    ensures !InUse(After(hash, run), r.Key())
  {
    if InUse(After(hash, run), r.Key()) {
      KeysAreMade(hash, run, r.Key());
      var i :| MadeKey(run, i, r.Key());
      var q, longer := run[i].request, run + [Upload(r)];
      assert longer[i] == Upload(q) && longer[|run|] == Upload(r);
      StorageKeyIsInjective(q.organizationId, q.kbId, q.documentId, 1, q.filename,
                            r.organizationId, r.kbId, r.documentId, 1, r.filename);
    }
  }

  lemma UploadKeepsContents(hash: Bytes -> Checksum, s: Store, r: Request)
    requires ContentsMatch(hash, s) && !HasRow(s, r.Key())
    ensures ContentsMatch(hash, UploadDocument(hash, s, r).0)
  {
    assert forall i | 0 <= i < |s.documents| :: s.documents[i].storageKey != r.Key();
  }

  /** Row and file belong together under key. */
  ghost predicate AgreeOn(s: Store, key: string) {
    key in s.files <==> HasRow(s, key)
  }

  lemma StepAgreesElsewhere(hash: Bytes -> Checksum, s: Store, e: Event, key: string)
    requires e.Upload? && GetsToStorage(hash, s, e.request) ==> key != e.request.Key()
    ensures AgreeOn(Step(hash, s, e).0, key) == AgreeOn(s, key)
  {
    match e
    case Upload(r) => if GetsToStorage(hash, s, r) { UploadEffect(hash, s, r); }
    case SoftDelete(id) => DeletionKeepsKeys(hash, s, id);
  }

  lemma {:induction false} ContentsAlwaysMatch(hash: Bytes -> Checksum, run: seq<Event>)
    requires FreshIds(run)
    ensures ContentsMatch(hash, After(hash, run))
  {
    if run != [] {
      var before, e := run[..|run| - 1], run[|run| - 1];
      ContentsAlwaysMatch(hash, before);
      match e
      case Upload(r) =>
        assert before + [Upload(r)] == run;
        UploadsUseNewKeys(hash, before, r);
        UploadKeepsContents(hash, After(hash, before), r);
      case SoftDelete(id) =>
        DeletionKeepsKeys(hash, After(hash, before), id);
    }
  }

  /** A key agrees after the upload that made it unless the upload separated row and file, and nothing
      later changes that. */
  lemma {:induction false} KeyAgreesUnlessSeparated(hash: Bytes -> Checksum, run: seq<Event>, i: nat)
    requires FreshIds(run) && i < |run| && run[i].Upload?
    requires GetsToStorage(hash, After(hash, run[..i]), run[i].request)
    ensures AgreeOn(After(hash, run), run[i].request.Key()) <==> !Separates(run[i].request)
    decreases |run|
  {
    var before, e := run[..|run| - 1], run[|run| - 1];
    var r := run[i].request;
    if i == |run| - 1 {
      assert run == before + [Upload(r)];
      UploadsUseNewKeys(hash, before, r);
      UploadEffect(hash, After(hash, before), r);
    } else {
      assert before[..i] == run[..i] && before[i] == run[i];
      KeyAgreesUnlessSeparated(hash, before, i);
      if e.Upload? {
        KeysDiffer(run, i, |run| - 1);
      }
      StepAgreesElsewhere(hash, After(hash, before), e, r.Key());
    }
  }

  lemma KeysDiffer(run: seq<Event>, i: nat, j: nat)
    requires FreshIds(run) && i < j < |run| && run[i].Upload? && run[j].Upload?
    ensures run[i].request.Key() != run[j].request.Key()
  {
    var q, r := run[i].request, run[j].request;
    if q.Key() == r.Key() {
      StorageKeyIsInjective(q.organizationId, q.kbId, q.documentId, 1, q.filename,
                            r.organizationId, r.kbId, r.documentId, 1, r.filename);
    }
  }

  lemma {:induction false} AgreeWhileNotSeparated(hash: Bytes -> Checksum, run: seq<Event>, key: string)
    requires FreshIds(run) && NothingSeparated(hash, run)
    ensures AgreeOn(After(hash, run), key)
  {
    if run != [] {
      var before, e := run[..|run| - 1], run[|run| - 1];
      forall i | 0 <= i < |before|
        ensures !SeparatesAt(hash, before, i)
      {
        assert before[..i] == run[..i];
        assert !SeparatesAt(hash, run, i);
      }
      AgreeWhileNotSeparated(hash, before, key);
      if e.Upload? && GetsToStorage(hash, After(hash, before), e.request) && key == e.request.Key() {
        assert !SeparatesAt(hash, run, |run| - 1);
        KeyAgreesUnlessSeparated(hash, run, |run| - 1);
      } else {
        StepAgreesElsewhere(hash, After(hash, before), e, key);
      }
    }
  }

  ghost predicate NothingSeparated(hash: Bytes -> Checksum, run: seq<Event>) {
    forall i | 0 <= i < |run| :: !SeparatesAt(hash, run, i)
  }

  lemma AgreeIsAgreeOnAll(hash: Bytes -> Checksum, s: Store)
    requires ContentsMatch(hash, s)
    ensures Agree(hash, s) <==> forall key :: AgreeOn(s, key)
  {
    if Agree(hash, s) {
      forall key
        ensures AgreeOn(s, key)
      {
        assert key in s.files <==> HasRow(s, key);
      }
    }
    if forall key :: AgreeOn(s, key) {
      forall key
        ensures key in s.files <==> HasRow(s, key)
      {
        assert AgreeOn(s, key);
      }
    }
  }

  /** Rows and files: after any serial run of uploads, failures and soft deletes, the stored files are
      exactly the storage keys of the document rows, with content matching the row's checksum, if and
      only if no upload of the run ran into one of the three separating faults.  In particular they
      agree when failed writes leave nothing, every failed commit is cleaned up after and nothing
      fails after a commit. */
  lemma RowsAndFilesAgree(hash: Bytes -> Checksum, run: seq<Event>)
    requires FreshIds(run)
    ensures Agree(hash, After(hash, run)) <==> NothingSeparated(hash, run)
  {
    ContentsAlwaysMatch(hash, run);
    AgreeIsAgreeOnAll(hash, After(hash, run));
    if NothingSeparated(hash, run) {
      forall key
        ensures AgreeOn(After(hash, run), key)
      {
        AgreeWhileNotSeparated(hash, run, key);
      }
    } else {
      var i :| 0 <= i < |run| && SeparatesAt(hash, run, i);
      KeyAgreesUnlessSeparated(hash, run, i);
    }
  }

  /** Each separating fault does its damage in a single upload to an empty store: a failed write or
      commit leaves a file without a row, a failure after the commit a row without its file. */
  lemma OneUploadSeparates(hash: Bytes -> Checksum, r: Request)
    requires r.kbOrganizationId == r.organizationId && r.isValid && Separates(r)
    ensures
      var s := After(hash, [Upload(r)]);
      && !Agree(hash, s)
      && (if r.fault.RefreshFails? then HasRow(s, r.Key()) && s.files == map[]
          else r.Key() in s.files && s.documents == [])
  {
    var run, s := [Upload(r)], After(hash, [Upload(r)]);
    assert run[..|run| - 1] == [] && After(hash, []) == Store([], map[]);
    assert s == Step(hash, Store([], map[]), run[0]).0;
    if r.fault.RefreshFails? {
      assert s.documents[0].storageKey == r.Key();
      assert r.Key() !in s.files;
    } else {
      assert !HasRow(s, r.Key());
    }
  }
}
