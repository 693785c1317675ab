/**
 * Guarantees of the document services over whole runs: version numbering, the
 * decision log, stored files, what failed calls leave behind, and single-instance categories.
 */
module DocumentTheorems {
  import opened Common
  import opened DocumentModel

  /** How many of the first `i` version rows belong to document `d`. */
  function CountUpTo(versions: seq<Version>, i: nat, d: nat): (n: nat)
    requires i <= |versions|
    ensures n <= i
  {
    if i == 0 then 0 else CountUpTo(versions, i - 1, d) + Bit(versions[i - 1].document == d)
  }

  /** The number of versions a document has. */
  function VersionCount(versions: seq<Version>, d: nat): nat {
    CountUpTo(versions, |versions|, d)
  }

  // ----- the invariant -----------------------------------------------------

  /** A version is numbered by its place among its document's versions. */
  ghost predicate NumberedAt(versions: seq<Version>, i: nat)
    requires i < |versions|
  {
    versions[i].number == 1 + CountUpTo(versions, i, versions[i].document)
  }

  ghost predicate Numbered(versions: seq<Version>) {
    forall i :: 0 <= i < |versions| ==> NumberedAt(versions, i)
  }

  ghost predicate IsLast(versions: seq<Version>, i: nat)
    requires i < |versions|
  {
    forall j :: i < j < |versions| ==> versions[j].document != versions[i].document
  }

  ghost predicate CurrentAt(versions: seq<Version>, i: nat)
    requires i < |versions|
  {
    versions[i].isCurrent <==> IsLast(versions, i)
  }

  /** Exactly the last version of each document is current. */
  ghost predicate LastIsCurrent(versions: seq<Version>) {
    forall i :: 0 <= i < |versions| ==> CurrentAt(versions, i)
  }

  /** Files are named in the order of the rows, and storage holds one for each row. */
  ghost predicate FilesMatch(versions: seq<Version>, files: set<nat>, nextFile: nat) {
    && (forall i :: 0 <= i < |versions| ==> versions[i].file < nextFile)
    && (forall i, j :: 0 <= i < j < |versions| ==> versions[i].file < versions[j].file)
    && FilesOf(versions) <= files
    && (forall f :: f in files ==> f < nextFile)
  }

  function FilesOf(versions: seq<Version>): set<nat> {
    set i | 0 <= i < |versions| :: versions[i].file
  }

  /** Log row `a` names a version and carries its hash. */
  ghost predicate EntryOk(versions: seq<Version>, log: seq<LogEntry>, a: nat)
    requires a < |log|
  {
    log[a].version < |versions| && log[a].hash == versions[log[a].version].upload.hash
  }

  /** Log rows `a` and `b`, in this order, do not go back to an older version of the same document. */
  ghost predicate Forward(versions: seq<Version>, log: seq<LogEntry>, a: nat, b: nat)
    requires a < |log| && b < |log| && log[a].version < |versions| && log[b].version < |versions|
  {
    versions[log[a].version].document == versions[log[b].version].document ==>
      versions[log[a].version].number <= versions[log[b].version].number
  }

  ghost predicate LogOk(versions: seq<Version>, log: seq<LogEntry>) {
    && (forall a :: 0 <= a < |log| ==> EntryOk(versions, log, a))
    && (forall a, b :: 0 <= a < b < |log| ==>
          EntryOk(versions, log, a) && EntryOk(versions, log, b) && Forward(versions, log, a, b))
  }

  ghost predicate VersionsOk(versions: seq<Version>, log: seq<LogEntry>, files: set<nat>, nextFile: nat) {
    && Numbered(versions)
    && LastIsCurrent(versions)
    && FilesMatch(versions, files, nextFile)
    && LogOk(versions, log)
  }

  ghost predicate DocumentsOk(s: State) {
    && (forall i :: 0 <= i < |s.documents| ==> s.documents[i].category < |s.categories|)
    && (forall i, j :: 0 <= i < j < |s.documents| ==> s.documents[i].code != s.documents[j].code)
    && (forall i :: 0 <= i < |s.versions| ==> s.versions[i].document < |s.documents|)
  }

  ghost predicate Inv(s: State) {
    VersionsOk(s.versions, s.log, s.files, s.nextFile) && DocumentsOk(s)
  }

  // ----- counting versions -------------------------------------------------

  lemma {:induction false} SameDocumentsSameCount(a: seq<Version>, b: seq<Version>, i: nat, d: nat)
    requires i <= |a| && i <= |b| && forall j :: 0 <= j < i ==> a[j].document == b[j].document
    ensures CountUpTo(a, i, d) == CountUpTo(b, i, d)
  {
    if i > 0 { SameDocumentsSameCount(a, b, i - 1, d); }
  }

  lemma PrefixNumbered(versions: seq<Version>, n: nat)
    requires Numbered(versions) && n <= |versions|
    ensures Numbered(versions[..n])
  {
    forall i | 0 <= i < n ensures NumberedAt(versions[..n], i) {
      assert NumberedAt(versions, i);
      SameDocumentsSameCount(versions, versions[..n], i, versions[i].document);
    }
  }

  lemma {:induction false} LatestNumberCounts(versions: seq<Version>, d: nat)
    requires Numbered(versions)
    ensures LatestNumber(versions, d) == VersionCount(versions, d)
  {
    if versions != [] {
      var last := |versions| - 1;
      PrefixNumbered(versions, last);
      LatestNumberCounts(versions[..last], d);
      SameDocumentsSameCount(versions, versions[..last], last, d);
      assert NumberedAt(versions, last);
    }
  }

  lemma {:induction false} CountGrows(versions: seq<Version>, i: nat, j: nat, d: nat)
    requires i <= j <= |versions|
    ensures CountUpTo(versions, i, d) <= CountUpTo(versions, j, d)
    decreases j
  {
    if i < j { CountGrows(versions, i, j - 1, d); }
  }

  lemma {:induction false} NoneLaterSameCount(versions: seq<Version>, i: nat, j: nat, d: nat)
    requires i <= j <= |versions| && forall k :: i <= k < j ==> versions[k].document != d
    ensures CountUpTo(versions, i, d) == CountUpTo(versions, j, d)
    decreases j
  {
    if i < j { NoneLaterSameCount(versions, i, j - 1, d); }
  }

  /** Later versions of a document have larger numbers. */
  lemma NumbersIncrease(versions: seq<Version>, i: nat, j: nat)
    requires Numbered(versions) && i < j < |versions| && versions[i].document == versions[j].document
    ensures versions[i].number < versions[j].number
  {
    assert NumberedAt(versions, i) && NumberedAt(versions, j);
    CountGrows(versions, i + 1, j, versions[i].document);
  }

  ghost predicate HasNumber(versions: seq<Version>, d: nat, k: int) {
    exists i :: 0 <= i < |versions| && versions[i].document == d && versions[i].number == k
  }

  lemma {:induction false} NumberExists(versions: seq<Version>, d: nat, k: nat, i: nat)
    requires Numbered(versions) && i <= |versions| && 1 <= k <= CountUpTo(versions, i, d)
    ensures HasNumber(versions, d, k)
    decreases i
  {
    if k <= CountUpTo(versions, i - 1, d) {
      NumberExists(versions, d, k, i - 1);
    } else {
      assert NumberedAt(versions, i - 1);
      assert versions[i - 1].document == d && versions[i - 1].number == k;
    }
  }

  lemma NumberWithinCount(versions: seq<Version>, i: nat)
    requires Numbered(versions) && i < |versions|
    ensures 1 <= versions[i].number <= VersionCount(versions, versions[i].document)
  {
    assert NumberedAt(versions, i);
    CountGrows(versions, i + 1, |versions|, versions[i].document);
  }

  lemma LastHasLatestNumber(versions: seq<Version>, i: nat)
    requires Numbered(versions) && i < |versions| && IsLast(versions, i)
    ensures versions[i].number == VersionCount(versions, versions[i].document)
  {
    assert NumberedAt(versions, i);
    NoneLaterSameCount(versions, i + 1, |versions|, versions[i].document);
  }

  lemma LatestNumberIsLast(versions: seq<Version>, i: nat)
    requires Numbered(versions) && i < |versions| && !IsLast(versions, i)
    ensures versions[i].number < VersionCount(versions, versions[i].document)
  {
    var j :| i < j < |versions| && versions[j].document == versions[i].document;
    NumbersIncrease(versions, i, j);
    NumberWithinCount(versions, j);
  }

  // ----- what a step does to versions and log ------------------------------

  lemma UploadFailureKeepsRows(s: State, d: nat, upload: Upload, source: Source, actor: Option<nat>, fault: Fault)
    ensures var (after, r) := UploadStep(s, d, upload, source, actor, fault);
            !r.Uploaded? ==>
              Failure(r) && after.(nextFile := s.nextFile) == s && s.nextFile <= after.nextFile
  {
  }

  /** One version was appended after the demotion of its document's current one. */
  ghost predicate Rotated(before: State, after: State) {
    var n := |before.versions|;
    && |after.versions| == n + 1
    && after.versions[..n] == Demoted(before.versions, FindCurrent(before.versions, after.versions[n].document))
    && after.log == before.log
  }

  ghost predicate SameVersions(before: State, after: State) {
    after.versions == before.versions && after.log == before.log
  }

  lemma UploadEffect(s: State, d: nat, upload: Upload, source: Source, actor: Option<nat>, fault: Fault)
    ensures var (after, r) := UploadStep(s, d, upload, source, actor, fault);
            if r.Uploaded? then Rotated(s, after) else SameVersions(s, after)
  {
  }

  lemma PreparedKeepsVersions(s: State, op: Op)
    requires op.Submit? && op.category < |s.categories|
    ensures var prepared := SubmitDocument(s, op).0;
            SameVersions(s, prepared) && prepared.files == s.files && prepared.nextFile == s.nextFile
  {
  }

  lemma SubmitEffect(s: State, op: Op)
    requires op.Submit?
    ensures var (after, r) := SubmitStep(s, op);
            if r.Uploaded? then Rotated(s, after) else SameVersions(s, after)
  {
    if op.category < |s.categories| {
      var (prepared, r) := SubmitDocument(s, op);
      PreparedKeepsVersions(s, op);
      if r.Saved? { UploadEffect(prepared, r.id, op.upload, op.source, op.actor, Nested(op.fault)); }
    }
  }

  /** Versions and log change only by a rotation, by an allowed decision, or by a scan report. */
  ghost predicate VersionEffect(s: State, op: Op, after: State) {
    match op
    case Decide(v, decision, remarks, reviewedBy) => after == DecideStep(s, v, decision, remarks, reviewedBy).0
    case RecordScan(v, scan) => after == ScanStep(s, v, scan).0
    case _ => SameVersions(s, after) || Rotated(s, after)
  }

  lemma StepEffect(s: State, op: Op)
    ensures VersionEffect(s, op, Step(s, op).0)
  {
    match op
    case Submit(_, _, _, _, _, _, _, _, _) => SubmitEffect(s, op);
    case UploadVersion(d, upload, source, actor, fault) => UploadEffect(s, d, upload, source, actor, fault);
    case _ =>
  }

  // ----- preservation ------------------------------------------------------

  /** The row's uploaded file and place are what they were. */
  predicate SameIdentity(before: Version, after: Version) {
    && after.document == before.document
    && after.number == before.number
    && after.file == before.file
    && after.upload == before.upload
    && after.source == before.source
    && after.uploader == before.uploader
  }

  ghost predicate SameIdentities(before: seq<Version>, after: seq<Version>) {
    |before| == |after| && forall i :: 0 <= i < |before| ==> SameIdentity(before[i], after[i])
  }

  lemma SameIdentitiesNumbered(before: seq<Version>, after: seq<Version>)
    requires SameIdentities(before, after) && Numbered(before)
    ensures Numbered(after)
  {
    forall i | 0 <= i < |after| ensures NumberedAt(after, i) {
      assert NumberedAt(before, i) && SameIdentity(before[i], after[i]);
      assert forall j :: 0 <= j < i ==> SameIdentity(before[j], after[j]);
      SameDocumentsSameCount(before, after, i, after[i].document);
    }
  }

  lemma SameIdentitiesFilesAndLog(before: seq<Version>, after: seq<Version>, log: seq<LogEntry>)
    requires SameIdentities(before, after)
    ensures FilesOf(after) == FilesOf(before)
    ensures LogOk(before, log) ==> LogOk(after, log)
  {
    forall i | 0 <= i < |before| ensures after[i].file == before[i].file {
      assert SameIdentity(before[i], after[i]);
    }
    assert forall f :: f in FilesOf(after) <==> f in FilesOf(before);
    if LogOk(before, log) {
      forall a | 0 <= a < |log| ensures EntryOk(after, log, a) {
        assert EntryOk(before, log, a);
        assert SameIdentity(before[log[a].version], after[log[a].version]);
      }
      forall a, b | 0 <= a < b < |log|
        ensures EntryOk(after, log, a) && EntryOk(after, log, b) && Forward(after, log, a, b)
      {
        assert EntryOk(before, log, a) && EntryOk(before, log, b) && Forward(before, log, a, b);
        assert SameIdentity(before[log[a].version], after[log[a].version]);
        assert SameIdentity(before[log[b].version], after[log[b].version]);
      }
    }
  }

  /** Changing verification and scan statuses in place. */
  lemma StatusesKeep(before: seq<Version>, after: seq<Version>, log: seq<LogEntry>, files: set<nat>, nextFile: nat)
    requires VersionsOk(before, log, files, nextFile) && SameIdentities(before, after)
    requires forall i :: 0 <= i < |before| ==> after[i].isCurrent == before[i].isCurrent
    ensures VersionsOk(after, log, files, nextFile)
  {
    SameIdentitiesNumbered(before, after);
    SameIdentitiesFilesAndLog(before, after, log);
    forall i | 0 <= i < |after| ensures CurrentAt(after, i) {
      assert CurrentAt(before, i);
      assert forall j :: 0 <= j < |after| ==> SameIdentity(before[j], after[j]);
    }
    assert forall i :: 0 <= i < |after| ==> SameIdentity(before[i], after[i]);
  }

  /** A decision on the current version continues the log forward. */
  lemma AppendingToLogKeeps(versions: seq<Version>, log: seq<LogEntry>, entry: LogEntry)
    requires Numbered(versions) && LastIsCurrent(versions) && LogOk(versions, log)
    requires entry.version < |versions| && versions[entry.version].isCurrent
    requires entry.hash == versions[entry.version].upload.hash
    ensures LogOk(versions, log + [entry])
  {
    var longer, v := log + [entry], entry.version;
    assert CurrentAt(versions, v) && IsLast(versions, v);
    forall a | 0 <= a < |longer| ensures EntryOk(versions, longer, a) {
      if a < |log| { assert EntryOk(versions, log, a); }
    }
    forall a, b | 0 <= a < b < |longer|
      ensures EntryOk(versions, longer, a) && EntryOk(versions, longer, b) && Forward(versions, longer, a, b)
    {
      if b < |log| {
        assert EntryOk(versions, log, a) && EntryOk(versions, log, b);
        assert Forward(versions, log, a, b);
      } else {
        var w := longer[a].version;
        if w < v && versions[w].document == versions[v].document { NumbersIncrease(versions, w, v); }
      }
    }
  }

  lemma DecideKeeps(s: State, v: nat, decision: Decision, remarks: string, reviewedBy: nat)
    requires Inv(s)
    ensures Inv(DecideStep(s, v, decision, remarks, reviewedBy).0)
  {
    var (after, r) := DecideStep(s, v, decision, remarks, reviewedBy);
    if r.Saved? {
      AppendingToLogKeeps(s.versions, s.log, after.log[|s.log|]);
      StatusesKeep(s.versions, after.versions, after.log, s.files, s.nextFile);
    }
  }

  lemma ScanKeeps(s: State, v: nat, scan: Scan)
    requires Inv(s)
    ensures Inv(ScanStep(s, v, scan).0)
  {
    StatusesKeep(s.versions, ScanStep(s, v, scan).0.versions, s.log, s.files, s.nextFile);
  }

  /** Demoting the current version clears the flag of that document and touches nothing else. */
  lemma DemotionIsExact(versions: seq<Version>, d: nat)
    requires Numbered(versions) && LastIsCurrent(versions)
    ensures var demoted := Demoted(versions, FindCurrent(versions, d));
            && SameIdentities(versions, demoted)
            && (forall i :: 0 <= i < |versions| ==>
                  && demoted[i].verification == versions[i].verification
                  && demoted[i].scan == versions[i].scan
                  && (demoted[i].isCurrent <==> versions[i].isCurrent && versions[i].document != d)
                  && demoted[i] == if versions[i].document == d then versions[i].(isCurrent := false) else versions[i])
            && LatestNumber(demoted, d) == LatestNumber(versions, d)
  {
    var found := FindCurrent(versions, d);
    var demoted := Demoted(versions, found);
    forall i | 0 <= i < |versions| && versions[i].document == d && versions[i].isCurrent
      ensures found == Some(i)
    {
      assert CurrentAt(versions, i) && CurrentAt(versions, found.value);
    }
    SameIdentitiesNumbered(versions, demoted);
    LatestNumberCounts(versions, d);
    LatestNumberCounts(demoted, d);
    assert forall i :: 0 <= i < |versions| ==> SameIdentity(versions[i], demoted[i]);
    SameDocumentsSameCount(versions, demoted, |versions|, d);
  }

  lemma RotationKeepsCurrent(versions: seq<Version>, version: Version)
    requires Numbered(versions) && LastIsCurrent(versions) && version.isCurrent
    ensures LastIsCurrent(Demoted(versions, FindCurrent(versions, version.document)) + [version])
  {
    var d := version.document;
    var demoted := Demoted(versions, FindCurrent(versions, d));
    var after := demoted + [version];
    DemotionIsExact(versions, d);
    forall i | 0 <= i < |versions| ensures after[i].document == versions[i].document {
      assert SameIdentity(versions[i], demoted[i]);
    }
    forall i | 0 <= i < |after| ensures CurrentAt(after, i) {
      if i < |versions| {
        assert CurrentAt(versions, i);
        assert after[|versions|].document == d;
      }
    }
  }

  lemma RotationKeepsFiles(versions: seq<Version>, demoted: seq<Version>, files: set<nat>, nextFile: nat, version: Version)
    requires FilesMatch(versions, files, nextFile) && SameIdentities(versions, demoted) && version.file == nextFile
    ensures FilesMatch(demoted + [version], files + {nextFile}, nextFile + 1)
  {
    var after := demoted + [version];
    forall i | 0 <= i < |versions| ensures after[i].file == versions[i].file {
      assert SameIdentity(versions[i], demoted[i]);
    }
    assert after[|versions|].file == nextFile;
    forall f | f in FilesOf(versions) ensures f in FilesOf(after) {
      var i :| 0 <= i < |versions| && versions[i].file == f;
      assert after[i].file == f;
    }
  }

  /** The version table after a successful upload. */
  lemma RotationKeeps(versions: seq<Version>, log: seq<LogEntry>, files: set<nat>, nextFile: nat, version: Version)
    requires VersionsOk(versions, log, files, nextFile)
    requires version.number == LatestNumber(versions, version.document) + 1
    requires version.isCurrent && version.file == nextFile
    ensures VersionsOk(Demoted(versions, FindCurrent(versions, version.document)) + [version],
                       log, files + {nextFile}, nextFile + 1)
  {
    var demoted := Demoted(versions, FindCurrent(versions, version.document));
    DemotionIsExact(versions, version.document);
    SameIdentitiesNumbered(versions, demoted);
    SameIdentitiesFilesAndLog(versions, demoted, log);
    AppendNumbered(demoted, version);
    AppendKeepsLog(demoted, version, log);
    RotationKeepsCurrent(versions, version);
    RotationKeepsFiles(versions, demoted, files, nextFile, version);
  }

  lemma AppendNumbered(versions: seq<Version>, version: Version)
    requires Numbered(versions) && version.number == LatestNumber(versions, version.document) + 1
    ensures Numbered(versions + [version])
  {
    var after := versions + [version];
    LatestNumberCounts(versions, version.document);
    forall i | 0 <= i < |after| ensures NumberedAt(after, i) {
      SameDocumentsSameCount(versions, after, i, after[i].document);
      if i < |versions| { assert NumberedAt(versions, i); }
    }
  }

  lemma AppendKeepsLog(versions: seq<Version>, version: Version, log: seq<LogEntry>)
    requires LogOk(versions, log)
    ensures LogOk(versions + [version], log)
  {
    var after := versions + [version];
    forall a | 0 <= a < |log| ensures EntryOk(after, log, a) {
      assert EntryOk(versions, log, a);
    }
    forall a, b | 0 <= a < b < |log|
      ensures EntryOk(after, log, a) && EntryOk(after, log, b) && Forward(after, log, a, b)
    {
      assert EntryOk(versions, log, a) && EntryOk(versions, log, b);
      assert Forward(versions, log, a, b);
    }
  }

  lemma UploadKeepsVersions(s: State, d: nat, upload: Upload, source: Source, actor: Option<nat>, fault: Fault)
    requires Inv(s)
    ensures var after := UploadStep(s, d, upload, source, actor, fault).0;
            VersionsOk(after.versions, after.log, after.files, after.nextFile)
  {
    if UploadStep(s, d, upload, source, actor, fault).1.Uploaded? {
      RotationKeeps(s.versions, s.log, s.files, s.nextFile, NewVersion(s, d, upload, source, actor));
    }
  }

  lemma UploadKeepsDocuments(s: State, d: nat, upload: Upload, source: Source, actor: Option<nat>, fault: Fault)
    requires DocumentsOk(s)
    ensures DocumentsOk(UploadStep(s, d, upload, source, actor, fault).0)
  {
  }

  lemma UploadKeeps(s: State, d: nat, upload: Upload, source: Source, actor: Option<nat>, fault: Fault)
    requires Inv(s)
    ensures Inv(UploadStep(s, d, upload, source, actor, fault).0)
  {
    UploadKeepsVersions(s, d, upload, source, actor, fault);
    UploadKeepsDocuments(s, d, upload, source, actor, fault);
  }

  lemma CreateKeeps(s: State, document: Document, formOk: bool)
    requires Inv(s)
    ensures Inv(CreateStep(s, document, formOk).0)
  {
  }

  lemma RewriteKeeps(s: State, id: nat, document: Document, formOk: bool)
    requires Inv(s) && id < |s.documents|
    ensures Inv(RewriteStep(s, id, document, formOk).0)
  {
  }

  lemma SubmitDocumentKeeps(s: State, op: Op)
    requires Inv(s) && op.Submit? && op.category < |s.categories|
    ensures Inv(SubmitDocument(s, op).0)
  {
    var existing := FindActive(s.documents, op.employee, op.category);
    if existing.Some? && !s.categories[op.category].allowMultiple {
      var document := s.documents[existing.value];
      RewriteKeeps(s, existing.value,
                   document.(metadata := Refreshed(document.metadata, op.metadata, EDITABLE_METADATA_FIELDS)), op.formOk);
    } else {
      CreateKeeps(s, Document(op.code, op.employee, op.category, Active, false, op.metadata), op.formOk);
    }
  }

  /** The same submission when nothing goes wrong outside the service. */
  function Undisturbed(op: Op): Op
    requires op.Submit?
  {
    Submit(op.employee, op.category, op.metadata, op.formOk, op.code, op.upload, op.source, op.actor, NoFault)
  }

  /** The document part and the upload went well, and only the commit of the whole failed. */
  predicate FailsToCommit(s: State, op: Op) {
    op.Submit? && op.fault.CommitFailure? && SubmitStep(s, Undisturbed(op)).1.Uploaded?
  }

  /** What a submission has to meet, read from the request, its category and the documents on file. */
  predicate Acceptable(s: State, op: Op)
    requires op.Submit?
  {
    && op.formOk
    && op.category < |s.categories|
    && (var category := s.categories[op.category];
        && category.employeeScope && category.isActive
        && (op.source == ByEmployee ==> category.employeeCanUpload)
        && 1 <= op.upload.size <= category.maxFileSizeMb * 1024 * 1024
        && (category.allowedExtensions != {} ==> op.upload.extension in category.allowedExtensions))
    && |op.upload.fileName| <= 255 && |op.upload.contentType| <= 100
    && match Reused(s, op)
       case Some(d) =>
         && d < |s.documents|
         && !ExpiresBeforeIssue(Refreshed(s.documents[d].metadata, op.metadata, EDITABLE_METADATA_FIELDS))
         && VersionCount(s.versions, d) < MAX_VERSION_NUMBER
       case None =>
         && !ExpiresBeforeIssue(op.metadata)
         && forall i :: 0 <= i < |s.documents| ==> s.documents[i].code != op.code
  }

  /** The document a submission appends to, if it does not create one. */
  function Reused(s: State, op: Op): Option<nat>
    requires op.Submit? && op.category < |s.categories|
  {
    if s.categories[op.category].allowMultiple then None else FindActive(s.documents, op.employee, op.category)
  }

  /** An acceptable submission whose commit fails leaves its file without a row. */
  predicate LosesFile(s: State, op: Op) {
    op.Submit? && op.fault.CommitFailure? && Acceptable(s, op)
  }

  lemma PreparedIff(s: State, op: Op)
    requires Inv(s) && op.Submit? && op.category < |s.categories|
    ensures SubmitDocument(s, op).1.Saved? <==>
            && op.formOk && s.categories[op.category].employeeScope
            && match Reused(s, op)
               case Some(d) =>
                 !ExpiresBeforeIssue(Refreshed(s.documents[d].metadata, op.metadata, EDITABLE_METADATA_FIELDS))
               case None =>
                 && !ExpiresBeforeIssue(op.metadata)
                 && forall i :: 0 <= i < |s.documents| ==> s.documents[i].code != op.code
  {
  }

  /** The document a submission prepared, for the upload. */
  lemma PreparedDocument(s: State, op: Op)
    requires Inv(s) && op.Submit? && op.category < |s.categories| && SubmitDocument(s, op).1.Saved?
    ensures var (prepared, r) := SubmitDocument(s, op);
            && prepared.categories == s.categories && prepared.versions == s.versions
            && r.id < |prepared.documents|
            && ActiveIn(prepared.documents[r.id], op.employee, op.category)
            && VersionCount(s.versions, r.id) == if Reused(s, op).Some? then VersionCount(s.versions, Reused(s, op).value) else 0
  {
    if Reused(s, op).None? {
      var n := |s.documents|;
      NoneLaterSameCount(s.versions, 0, |s.versions|, n);
    }
  }

  /** Without a failure from outside, a submission succeeds exactly when it is acceptable. */
  lemma UndisturbedSucceedsIff(s: State, op: Op)
    requires Inv(s) && op.Submit? && op.fault.NoFault?
    ensures SubmitStep(s, op).1.Uploaded? <==> Acceptable(s, op)
  {
    if op.category < |s.categories| {
      PreparedIff(s, op);
      var (prepared, r) := SubmitDocument(s, op);
      if r.Saved? {
        PreparedDocument(s, op);
        SubmitDocumentKeeps(s, op);
        UniqueChecksPass(prepared, s.categories[op.category], NewVersion(prepared, r.id, op.upload, op.source, op.actor));
      }
    }
  }

  lemma SameRequestSameAcceptance(s: State, op: Op)
    requires op.Submit?
    ensures Acceptable(s, Undisturbed(op)) == Acceptable(s, op)
  {
  }

  lemma LosesFileIff(s: State, op: Op)
    requires Inv(s)
    ensures LosesFile(s, op) <==> FailsToCommit(s, op)
  {
    if op.Submit? {
      UndisturbedSucceedsIff(s, Undisturbed(op));
      SameRequestSameAcceptance(s, op);
    }
  }

  lemma OnlyUndisturbedSucceeds(s: State, op: Op)
    requires op.Submit? && !op.fault.NoFault?
    ensures !SubmitStep(s, op).1.Uploaded?
  {
  }

  /** Exactly when a submission succeeds, and exactly when it leaves a file behind without a row, in every run. */
  lemma SubmitSucceedsIff(ops: seq<Op>, op: Op)
    requires op.Submit?
    ensures var s := Run(EMPTY, ops);
            && (Step(s, op).1.Uploaded? <==> Acceptable(s, op) && op.fault.NoFault?)
            && (Step(s, op).0.files != s.files && !Step(s, op).1.Uploaded? <==>
                  Acceptable(s, op) && op.fault.CommitFailure?)
  {
    var s := Run(EMPTY, ops);
    RunKeeps(EMPTY, ops);
    LosesFileIff(s, op);
    if op.fault.NoFault? { UndisturbedSucceedsIff(s, op); } else { OnlyUndisturbedSucceeds(s, op); }
    SubmitAddsFile(s, op);
  }

  /** A submission that does not succeed keeps every row, and every file but the one it loses. */
  lemma SubmitAddsFile(s: State, op: Op)
    requires op.Submit?
    ensures var (after, r) := SubmitStep(s, op);
            !r.Uploaded? ==>
              && Failure(r)
              && after.(files := s.files, nextFile := s.nextFile) == s
              && s.nextFile <= after.nextFile
              && after.files == (if FailsToCommit(s, op) then s.files + {s.nextFile} else s.files)
              && (FailsToCommit(s, op) ==> after.nextFile == s.nextFile + 1)
  {
    if op.category < |s.categories| {
      var (prepared, r) := SubmitDocument(s, op);
      PreparedKeepsVersions(s, op);
      if r.Saved? {
        assert SubmitDocument(s, Undisturbed(op)) == (prepared, r);
        UploadFailureKeepsRows(prepared, r.id, op.upload, op.source, op.actor, Nested(op.fault));
      }
    }
  }

  lemma SubmitKeeps(s: State, op: Op)
    requires Inv(s) && op.Submit?
    ensures Inv(SubmitStep(s, op).0)
  {
    if op.category < |s.categories| {
      var (prepared, r) := SubmitDocument(s, op);
      if r.Saved? {
        SubmitDocumentKeeps(s, op);
        PreparedKeepsVersions(s, op);
        UploadKeeps(prepared, r.id, op.upload, op.source, op.actor, Nested(op.fault));
        SubmitAddsFile(s, op);
      }
    }
  }

  lemma StepKeeps(s: State, op: Op)
    requires Inv(s)
    ensures Inv(Step(s, op).0)
  {
    match op
    case Submit(_, _, _, _, _, _, _, _, _) => SubmitKeeps(s, op);
    case UploadVersion(d, upload, source, actor, fault) => UploadKeeps(s, d, upload, source, actor, fault);
    case Decide(v, decision, remarks, reviewedBy) => DecideKeeps(s, v, decision, remarks, reviewedBy);
    case RecordScan(v, scan) => ScanKeeps(s, v, scan);
    case Create(data, formOk) => CreateKeeps(s, Built(data), formOk);
    case Update(d, data, formOk) =>
      if LiveDocument(s.documents, d) { RewriteKeeps(s, d, Patched(s.documents[d], data), formOk); }
    case Delete(_) =>
    case SetCategory(_, _) =>
  }

  lemma {:induction false} RunKeeps(s: State, ops: seq<Op>)
    requires Inv(s)
    ensures Inv(Run(s, ops))
    decreases |ops|
  {
    if ops != [] {
      StepKeeps(s, ops[0]);
      RunKeeps(Step(s, ops[0]).0, ops[1..]);
    }
  }

  // ----- numbering and storage ---------------------------------------------

  /** In every run a document's versions are numbered 1..n without gap or repetition, and
      exactly number n is current. */
  lemma VersionsAreOneToN(ops: seq<Op>, d: nat)
    ensures var versions := Run(EMPTY, ops).versions;
            var n := VersionCount(versions, d);
            && (forall i :: 0 <= i < |versions| && versions[i].document == d ==>
                  1 <= versions[i].number <= n && (versions[i].isCurrent <==> versions[i].number == n))
            && (forall k :: 1 <= k <= n ==> HasNumber(versions, d, k))
            && (forall i, j :: 0 <= i < j < |versions| && versions[i].document == d == versions[j].document ==>
                  versions[i].number != versions[j].number)
  {
    var versions := Run(EMPTY, ops).versions;
    var n := VersionCount(versions, d);
    RunKeeps(EMPTY, ops);
    forall i | 0 <= i < |versions| && versions[i].document == d
      ensures 1 <= versions[i].number <= n && (versions[i].isCurrent <==> versions[i].number == n)
    {
      assert CurrentAt(versions, i);
      NumberWithinCount(versions, i);
      if IsLast(versions, i) { LastHasLatestNumber(versions, i); } else { LatestNumberIsLast(versions, i); }
    }
    forall k | 1 <= k <= n ensures HasNumber(versions, d, k) {
      NumberExists(versions, d, k, |versions|);
    }
    forall i, j | 0 <= i < j < |versions| && versions[i].document == d == versions[j].document
      ensures versions[i].number != versions[j].number
    {
      NumbersIncrease(versions, i, j);
    }
  }

  /** The files left behind by submissions of the run that failed to commit. */
  function Lost(s: State, ops: seq<Op>): set<nat>
    decreases |ops|
  {
    if ops == [] then {}
    else (if LosesFile(s, ops[0]) then {s.nextFile} else {}) + Lost(Step(s, ops[0]).0, ops[1..])
  }

  lemma UploadFiles(s: State, d: nat, upload: Upload, source: Source, actor: Option<nat>, fault: Fault)
    requires Inv(s)
    ensures var (after, r) := UploadStep(s, d, upload, source, actor, fault);
            if r.Uploaded? then
              FilesOf(after.versions) == FilesOf(s.versions) + {s.nextFile} && after.files == s.files + {s.nextFile}
            else after.versions == s.versions && after.files == s.files
  {
    var (after, r) := UploadStep(s, d, upload, source, actor, fault);
    if r.Uploaded? {
      var version := NewVersion(s, d, upload, source, actor);
      var demoted := Demoted(s.versions, FindCurrent(s.versions, d));
      DemotionIsExact(s.versions, d);
      SameIdentitiesFilesAndLog(s.versions, demoted, s.log);
      FilesOfAppend(demoted, version);
    }
  }

  lemma FilesOfAppend(versions: seq<Version>, version: Version)
    ensures FilesOf(versions + [version]) == FilesOf(versions) + {version.file}
  {
    var after := versions + [version];
    assert after[|versions|] == version;
    forall f | f in FilesOf(versions) ensures f in FilesOf(after) {
      var i :| 0 <= i < |versions| && versions[i].file == f;
      assert after[i].file == f;
    }
  }

  /** What one call stores: a file with its row, a file that is lost, or nothing. */
  lemma StepFiles(s: State, op: Op)
    requires Inv(s)
    ensures var after := Step(s, op).0;
            if LosesFile(s, op) then
              FilesOf(after.versions) == FilesOf(s.versions) && after.files == s.files + {s.nextFile}
            else if Step(s, op).1.Uploaded? then
              FilesOf(after.versions) == FilesOf(s.versions) + {s.nextFile} && after.files == s.files + {s.nextFile}
            else FilesOf(after.versions) == FilesOf(s.versions) && after.files == s.files
  {
    var (after, r) := Step(s, op);
    match op
    case Submit(_, _, _, _, _, upload, source, actor, fault) =>
      SubmitAddsFile(s, op);
      LosesFileIff(s, op);
      if r.Uploaded? {
        var (prepared, saved) := SubmitDocument(s, op);
        SubmitDocumentKeeps(s, op);
        PreparedKeepsVersions(s, op);
        UploadFiles(prepared, saved.id, upload, source, actor, fault);
      }
    case UploadVersion(d, upload, source, actor, fault) => UploadFiles(s, d, upload, source, actor, fault);
    case Decide(v, _, _, _) => SameIdentitiesFilesAndLog(s.versions, after.versions, s.log);
    case RecordScan(v, _) => SameIdentitiesFilesAndLog(s.versions, after.versions, s.log);
    case _ =>
  }

  lemma {:induction false} RunFiles(s: State, ops: seq<Op>, lost: set<nat>)
    requires Inv(s) && s.files == FilesOf(s.versions) + lost && FilesOf(s.versions) !! lost
    ensures var after := Run(s, ops);
            after.files == FilesOf(after.versions) + (lost + Lost(s, ops)) && FilesOf(after.versions) !! lost + Lost(s, ops)
    decreases |ops|
  {
    if ops == [] {
      assert lost + Lost(s, ops) == lost;
    } else {
      var next := Step(s, ops[0]).0;
      var now := if LosesFile(s, ops[0]) then lost + {s.nextFile} else lost;
      StepKeeps(s, ops[0]);
      StepFiles(s, ops[0]);
      RunFiles(next, ops[1..], now);
      assert now + Lost(next, ops[1..]) == lost + Lost(s, ops);
    }
  }

  /** In every run storage holds one file for each version row and besides exactly the files of the
      submissions whose commit failed: none is missing, and without such a failure none is left over. */
  lemma FilesAreThoseOfVersions(ops: seq<Op>)
    ensures var s := Run(EMPTY, ops);
            && s.files == FilesOf(s.versions) + Lost(EMPTY, ops)
            && FilesOf(s.versions) !! Lost(EMPTY, ops)
            && s.nextFile !in s.files
            && (forall i, j :: 0 <= i < j < |s.versions| ==> s.versions[i].file != s.versions[j].file)
  {
    RunKeeps(EMPTY, ops);
    RunFiles(EMPTY, ops, {});
  }

  /** A call that fails leaves every row and flag as it was, and every file but that of a failed commit. */
  lemma FailureKeepsRows(s: State, op: Op)
    requires Failure(Step(s, op).1)
    ensures var after := Step(s, op).0;
            && after.(files := s.files, nextFile := s.nextFile) == s
            && after.files == if FailsToCommit(s, op) then s.files + {s.nextFile} else s.files
  {
    if op.Submit? {
      SubmitAddsFile(s, op);
    } else if op.UploadVersion? {
      UploadFailureKeepsRows(s, op.document, op.upload, op.source, op.actor, op.fault);
    }
  }

  /** In every run a call that fails leaves every row and flag as it was, and all of storage if and only if
      it is not an acceptable submission whose commit failed. */
  lemma FailureLeavesNoTraceIff(ops: seq<Op>, op: Op)
    requires Failure(Step(Run(EMPTY, ops), op).1)
    ensures var s := Run(EMPTY, ops);
            var after := Step(s, op).0;
            && after.(files := s.files, nextFile := s.nextFile) == s
            && (after.files == s.files <==> !(op.Submit? && op.fault.CommitFailure? && Acceptable(s, op)))
            && (after.files != s.files ==> after.files == s.files + {s.nextFile})
  {
    RunKeeps(EMPTY, ops);
    FailureKeepsRows(Run(EMPTY, ops), op);
    LosesFileIff(Run(EMPTY, ops), op);
  }

  /** After the demotion the new row meets both unique constraints, so its own limits decide. */
  lemma UniqueChecksPass(s: State, category: Category, version: Version)
    requires Inv(s)
    requires version.number == LatestNumber(s.versions, version.document) + 1
    ensures VersionValid(Demoted(s.versions, FindCurrent(s.versions, version.document)), category, version) <==>
              && 1 <= version.upload.size <= category.maxFileSizeMb * 1024 * 1024
              && (category.allowedExtensions != {} ==> version.upload.extension in category.allowedExtensions)
              && VersionCount(s.versions, version.document) < MAX_VERSION_NUMBER
              && |version.upload.fileName| <= 255 && |version.upload.contentType| <= 100
  {
    var d := version.document;
    var demoted := Demoted(s.versions, FindCurrent(s.versions, d));
    LatestNumberCounts(s.versions, d);
    DemotionIsExact(s.versions, d);
    forall i | 0 <= i < |demoted| && demoted[i].document == d
      ensures demoted[i].number != version.number && !demoted[i].isCurrent
    {
      assert SameIdentity(s.versions[i], demoted[i]);
    }
  }

  /** Exactly when an upload succeeds: in a run the unique constraints on versions never stand in the way. */
  lemma UploadSucceedsIff(ops: seq<Op>, d: nat, upload: Upload, source: Source, actor: Option<nat>, fault: Fault)
    ensures var s := Run(EMPTY, ops);
            UploadStep(s, d, upload, source, actor, fault).1.Uploaded? <==>
              && LiveDocument(s.documents, d)
              && s.documents[d].lifecycle == Active
              && s.documents[d].category < |s.categories|
              && (var category := s.categories[s.documents[d].category];
                  && category.isActive
                  && (source == ByEmployee ==> category.employeeCanUpload)
                  && 1 <= upload.size <= category.maxFileSizeMb * 1024 * 1024
                  && (category.allowedExtensions != {} ==> upload.extension in category.allowedExtensions))
              && VersionCount(s.versions, d) < MAX_VERSION_NUMBER
              && |upload.fileName| <= 255 && |upload.contentType| <= 100
              && fault.NoFault?
  {
    var s := Run(EMPTY, ops);
    RunKeeps(EMPTY, ops);
    if LiveDocument(s.documents, d) {
      UniqueChecksPass(s, s.categories[s.documents[d].category], NewVersion(s, d, upload, source, actor));
    }
  }

  /** A successful upload appends version n + 1 with the data sent, unverified and unscanned, demotes
      the document's current version and changes nothing else. */
  lemma UploadAppendsNextVersion(ops: seq<Op>, d: nat, upload: Upload, source: Source, actor: Option<nat>, fault: Fault)
    requires UploadStep(Run(EMPTY, ops), d, upload, source, actor, fault).1.Uploaded?
    ensures var s := Run(EMPTY, ops);
            var (after, r) := UploadStep(s, d, upload, source, actor, fault);
            AppendedNext(s, after, d) &&
            var added := after.versions[|s.versions|];
            && r == Uploaded(d, |s.versions|)
            && added.upload == upload && added.source == source && added.uploader == actor
            && added.scan == ScanPending
            && d < |s.documents| && s.documents[d].category < |s.categories|
            && added.verification ==
               (if s.categories[s.documents[d].category].mode == NotNeeded then VerNotRequired else VerPending)
  {
    var s := Run(EMPTY, ops);
    RunKeeps(EMPTY, ops);
    UploadGivesRotation(s, d, upload, source, actor, fault);
    RotationIsAppendedNext(s, UploadStep(s, d, upload, source, actor, fault).0, NewVersion(s, d, upload, source, actor));
  }

  /** One current version of `d` was added with the next number and a new file; all else stands. */
  ghost predicate AppendedNext(before: State, after: State, d: nat) {
    var n := |before.versions|;
    && |after.versions| == n + 1
    && after.versions[n].document == d
    && after.versions[n].number == VersionCount(before.versions, d) + 1
    && after.versions[n].isCurrent
    && after.versions[n].file !in before.files
    && after.files == before.files + {after.versions[n].file}
    && (forall i :: 0 <= i < n ==>
          after.versions[i] ==
          if before.versions[i].document == d then before.versions[i].(isCurrent := false) else before.versions[i])
    && after.documents == before.documents && after.log == before.log && after.categories == before.categories
  }

  lemma UploadGivesRotation(s: State, d: nat, upload: Upload, source: Source, actor: Option<nat>, fault: Fault)
    requires UploadStep(s, d, upload, source, actor, fault).1.Uploaded?
    ensures d < |s.documents| && s.documents[d].category < |s.categories|
    ensures UploadStep(s, d, upload, source, actor, fault).0 ==
            s.(versions := Demoted(s.versions, FindCurrent(s.versions, d)) + [NewVersion(s, d, upload, source, actor)],
               files := s.files + {s.nextFile}, nextFile := s.nextFile + 1)
  {
  }

  lemma RotationIsAppendedNext(s: State, after: State, version: Version)
    requires Inv(s) && version.isCurrent && version.file == s.nextFile
    requires version.number == LatestNumber(s.versions, version.document) + 1
    requires after == s.(versions := Demoted(s.versions, FindCurrent(s.versions, version.document)) + [version],
                         files := s.files + {s.nextFile}, nextFile := s.nextFile + 1)
    ensures AppendedNext(s, after, version.document)
  {
    LatestNumberCounts(s.versions, version.document);
    DemotionIsExact(s.versions, version.document);
    assert s.nextFile !in FilesOf(s.versions);
  }

  /** A successful submission puts the file on an active document of the employee in the category:
      the existing one of a single-instance category, whose other metadata it keeps, or else a new one. */
  lemma SubmitReusesOrCreates(s: State, op: Op)
    requires op.Submit? && SubmitStep(s, op).1.Uploaded?
    ensures var (after, r) := SubmitStep(s, op);
            var d := r.document;
            var existing := FindActive(s.documents, op.employee, op.category);
            && d < |after.documents| && ActiveIn(after.documents[d], op.employee, op.category)
            && r.version < |after.versions| && after.versions[r.version].document == d && after.versions[r.version].isCurrent
            && op.category < |s.categories|
            && (if existing.Some? && !s.categories[op.category].allowMultiple then
                  && d == existing.value && |after.documents| == |s.documents|
                  && after.documents[d].code == s.documents[d].code
                  && (forall k :: k in s.documents[d].metadata && (k !in EDITABLE_METADATA_FIELDS || k !in op.metadata) ==>
                        k in after.documents[d].metadata && after.documents[d].metadata[k] == s.documents[d].metadata[k])
                else
                  && d == |s.documents| && |after.documents| == |s.documents| + 1
                  && after.documents[d].code == op.code && after.documents[d].metadata == op.metadata)
            && (forall k :: k in op.metadata && k in EDITABLE_METADATA_FIELDS ==>
                  k in after.documents[d].metadata && after.documents[d].metadata[k] == op.metadata[k])
            && (forall i :: 0 <= i < |s.documents| && i != d ==> after.documents[i] == s.documents[i])
  {
    var (prepared, r) := SubmitDocument(s, op);
    UploadChangesNoDocument(prepared, r.id, op.upload, op.source, op.actor, op.fault);
  }

  lemma UploadChangesNoDocument(s: State, d: nat, upload: Upload, source: Source, actor: Option<nat>, fault: Fault)
    ensures var (after, r) := UploadStep(s, d, upload, source, actor, fault);
            after.documents == s.documents &&
            (r.Uploaded? ==> r == Uploaded(d, |s.versions|) && |after.versions| == |s.versions| + 1 &&
                             after.versions[|s.versions|].document == d && after.versions[|s.versions|].isCurrent)
  {
  }

  // ----- the decision log --------------------------------------------------

  /** What never changes or disappears: earlier log rows and each version's uploaded file. */
  ghost predicate Extends(before: State, after: State) {
    && before.log <= after.log
    && |before.versions| <= |after.versions|
    && forall i :: 0 <= i < |before.versions| ==> SameIdentity(before.versions[i], after.versions[i])
  }

  lemma EffectExtends(s: State, op: Op, after: State)
    requires VersionEffect(s, op, after)
    ensures Extends(s, after)
  {
  }

  lemma {:induction false} RunExtends(s: State, ops: seq<Op>)
    ensures Extends(s, Run(s, ops))
    decreases |ops|
  {
    if ops != [] {
      StepEffect(s, ops[0]);
      EffectExtends(s, ops[0], Step(s, ops[0]).0);
      RunExtends(Step(s, ops[0]).0, ops[1..]);
    }
  }

  /** Per document the log never goes back to an older version, and each entry carries its version's hash. */
  lemma LogFollowsVersions(ops: seq<Op>, a: nat, b: nat)
    requires a <= b < |Run(EMPTY, ops).log|
    ensures var s := Run(EMPTY, ops);
            && s.log[a].version < |s.versions| && s.log[b].version < |s.versions|
            && s.log[a].hash == s.versions[s.log[a].version].upload.hash
            && (s.versions[s.log[a].version].document == s.versions[s.log[b].version].document ==>
                  s.versions[s.log[a].version].number <= s.versions[s.log[b].version].number)
  {
    RunKeeps(EMPTY, ops);
    var s := Run(EMPTY, ops);
    assert EntryOk(s.versions, s.log, a) && EntryOk(s.versions, s.log, b);
    if a < b { assert Forward(s.versions, s.log, a, b); }
  }

  /** The status a version has after the given log rows. */
  function Replayed(log: seq<LogEntry>, v: nat, status: Verification): Verification {
    if log == [] then status
    else if log[|log| - 1].version == v then
      match log[|log| - 1].decision
      case Accept => VerVerified
      case Reject => VerRejected
    else Replayed(log[..|log| - 1], v, status)
  }

  lemma {:induction false} ReplayedConcat(a: seq<LogEntry>, b: seq<LogEntry>, v: nat, status: Verification)
    ensures Replayed(a + b, v, status) == Replayed(b, v, Replayed(a, v, status))
  {
    if b == [] {
      assert a + b == a;
    } else {
      assert (a + b)[..|a + b| - 1] == a + b[..|b| - 1];
      ReplayedConcat(a, b[..|b| - 1], v, status);
    }
  }

  lemma ReplayedInTwo(first: seq<LogEntry>, second: seq<LogEntry>, third: seq<LogEntry>, v: nat, status: Verification)
    requires first <= second <= third
    ensures Replayed(third[|first|..], v, status) ==
            Replayed(third[|second|..], v, Replayed(second[|first|..], v, status))
  {
    ReplayedConcat(second[|first|..], third[|second|..], v, status);
    assert third[|first|..] == second[|first|..] + third[|second|..];
  }

  lemma EffectReplays(s: State, op: Op, after: State, v: nat)
    requires VersionEffect(s, op, after) && v < |s.versions|
    ensures && |s.log| <= |after.log| && |s.versions| <= |after.versions|
            && after.versions[v].verification == Replayed(after.log[|s.log|..], v, s.versions[v].verification)
  {
    if |after.log| > |s.log| {
      var added := after.log[|s.log|..];
      assert added == [after.log[|s.log|]];
      assert added[..0] == [];
    } else {
      assert after.log[|s.log|..] == [];
    }
  }

  /** From any point of a run on, a version's status is its status then, overwritten by the last
      decision logged for it since; in particular nothing but a logged decision changes it. */
  lemma {:induction false} StatusIsLastDecision(s: State, ops: seq<Op>, v: nat)
    requires v < |s.versions|
    ensures var after := Run(s, ops);
            && s.log <= after.log && |s.versions| <= |after.versions|
            && after.versions[v].verification == Replayed(after.log[|s.log|..], v, s.versions[v].verification)
    decreases |ops|
  {
    if ops == [] {
      assert s.log[|s.log|..] == [];
    } else {
      var next, after := Step(s, ops[0]).0, Run(s, ops);
      StepEffect(s, ops[0]);
      EffectExtends(s, ops[0], next);
      EffectReplays(s, ops[0], next, v);
      StatusIsLastDecision(next, ops[1..], v);
      ReplayedInTwo(s.log, next.log, after.log, v, s.versions[v].verification);
    }
  }

  lemma EffectFreezes(s: State, op: Op, after: State, v: nat)
    requires VersionEffect(s, op, after) && v < |s.versions| && !s.versions[v].isCurrent
    ensures && |s.versions| <= |after.versions|
            && !after.versions[v].isCurrent
            && after.versions[v].verification == s.versions[v].verification
  {
    var n := |s.versions|;
    if |after.versions| > n { assert after.versions[v] == after.versions[..n][v]; }
  }

  /** Once a newer version exists, a version's status is final and it never becomes current again. */
  lemma {:induction false} SupersededIsFrozen(s: State, ops: seq<Op>, v: nat)
    requires v < |s.versions| && !s.versions[v].isCurrent
    ensures var after := Run(s, ops);
            && |s.versions| <= |after.versions|
            && !after.versions[v].isCurrent
            && after.versions[v].verification == s.versions[v].verification
    decreases |ops|
  {
    if ops != [] {
      StepEffect(s, ops[0]);
      EffectFreezes(s, ops[0], Step(s, ops[0]).0, v);
      SupersededIsFrozen(Step(s, ops[0]).0, ops[1..], v);
    }
  }

  lemma {:induction false} RunLast(s: State, ops: seq<Op>)
    requires ops != []
    ensures Run(s, ops) == Step(Run(s, ops[..|ops| - 1]), ops[|ops| - 1]).0
    decreases |ops|
  {
    var init := ops[..|ops| - 1];
    if |ops| > 1 {
      assert ops[1..][..|ops| - 2] == init[1..];
      RunLast(Step(s, ops[0]).0, ops[1..]);
    }
  }

  lemma EffectLogs(s: State, op: Op, after: State)
    requires VersionEffect(s, op, after)
    ensures after.log == s.log ||
            (op.Decide? && op.version < |s.versions| && DecisionValid(s.versions[op.version], op.decision, op.remarks) &&
             after.log == s.log + [LogEntry(op.version, op.decision, s.versions[op.version].upload.hash, op.remarks, op.reviewedBy)])
  {
  }

  /** Every log row was written by a decision on the then current version; an acceptance was
      written while that version's scan was clean, a rejection with remarks. */
  lemma {:induction false} EveryDecisionWasAllowed(ops: seq<Op>, a: nat)
    requires a < |Run(EMPTY, ops).log|
    ensures exists k :: 0 <= k < |ops| && WroteEntry(ops, k, a, Run(EMPTY, ops).log[a])
    decreases |ops|
  {
    var n := |ops| - 1;
    var init := ops[..n];
    RunLast(EMPTY, ops);
    StepEffect(Run(EMPTY, init), ops[n]);
    EffectLogs(Run(EMPTY, init), ops[n], Run(EMPTY, ops));
    if a < |Run(EMPTY, init).log| {
      EveryDecisionWasAllowed(init, a);
      var k :| 0 <= k < n && WroteEntry(init, k, a, Run(EMPTY, init).log[a]);
      assert init[..k] == ops[..k];
      assert WroteEntry(ops, k, a, Run(EMPTY, ops).log[a]);
    } else {
      assert WroteEntry(ops, n, a, Run(EMPTY, ops).log[a]);
    }
  }

  /** Call `k` of the run wrote log row `a`, being allowed to by the state it found. */
  ghost predicate WroteEntry(ops: seq<Op>, k: nat, a: nat, entry: LogEntry)
    requires k < |ops|
  {
    var s := Run(EMPTY, ops[..k]);
    && ops[k] == Decide(entry.version, entry.decision, entry.remarks, entry.reviewedBy)
    && |s.log| == a
    && entry.version < |s.versions|
    && s.versions[entry.version].isCurrent
    && (entry.decision == Accept ==> s.versions[entry.version].scan == Clean)
    && (entry.decision == Reject ==> !IsBlank(entry.remarks))
  }

  // ----- acceptance and later scans ----------------------------------------

  /** The last completed scan result that the run reports for the version. */
  function LastScan(ops: seq<Op>, v: nat): Option<Scan> {
    if ops == [] then None
    else
      var later := LastScan(ops[1..], v);
      if later.Some? then later
      else if ops[0].RecordScan? && ops[0].version == v && ops[0].scan != ScanPending then Some(ops[0].scan)
      else None
  }

  /** A version's scan status is the last one reported, whatever was decided meanwhile. */
  lemma {:induction false} ScanIsLastReported(s: State, ops: seq<Op>, v: nat)
    requires v < |s.versions|
    ensures var after := Run(s, ops);
            && |s.versions| <= |after.versions|
            && after.versions[v].scan ==
               (if LastScan(ops, v).Some? then LastScan(ops, v).value else s.versions[v].scan)
    decreases |ops|
  {
    if ops != [] {
      StepEffect(s, ops[0]);
      EffectScans(s, ops[0], Step(s, ops[0]).0, v);
      ScanIsLastReported(Step(s, ops[0]).0, ops[1..], v);
    }
  }

  lemma EffectScans(s: State, op: Op, after: State, v: nat)
    requires VersionEffect(s, op, after) && v < |s.versions|
    ensures && |s.versions| <= |after.versions|
            && after.versions[v].scan ==
               (if op.RecordScan? && op.version == v && op.scan != ScanPending then op.scan else s.versions[v].scan)
  {
  }

  /** An accepted version is still clean later exactly when no later report says otherwise. */
  lemma AcceptedStaysCleanIff(s: State, v: nat, remarks: string, reviewedBy: nat, later: seq<Op>)
    requires DecideStep(s, v, Accept, remarks, reviewedBy).1.Saved?
    ensures var after := Run(DecideStep(s, v, Accept, remarks, reviewedBy).0, later);
            v < |after.versions| &&
            (after.versions[v].scan == Clean <==> LastScan(later, v).None? || LastScan(later, v).value == Clean)
  {
    ScanIsLastReported(DecideStep(s, v, Accept, remarks, reviewedBy).0, later, v);
  }

  // ----- the scan of waiting versions ---------------------------------------

  function Holds(versions: seq<Version>, scan: Scan): nat -> bool {
    (v: nat) => v < |versions| && versions[v].scan == scan
  }

  function Waiting(includeFailed: bool): Version -> bool {
    (v: Version) => Waits(v, includeFailed)
  }

  lemma {:induction false} TalliesAddUp(ids: seq<nat>, scanner: nat -> Scan)
    requires Decisive(scanner)
    ensures Count(ids, Says(scanner, Clean)) + Count(ids, Says(scanner, Infected)) + Count(ids, Says(scanner, Failed)) == |ids|
  {
    if ids != [] {
      var last := ids[|ids| - 1];
      assert scanner(last) in {Clean, Infected, Failed};
      TalliesAddUp(ids[..|ids| - 1], scanner);
    }
  }

  lemma {:induction false} AwaitingCounts(versions: seq<Version>, includeFailed: bool)
    ensures |Awaiting(versions, includeFailed)| == Count(versions, Waiting(includeFailed))
  {
    if versions != [] { AwaitingCounts(versions[..|versions| - 1], includeFailed); }
  }

  lemma {:induction false} SameVerdictsSameCount(ids: seq<nat>, p: nat -> bool, q: nat -> bool)
    requires forall k :: 0 <= k < |ids| ==> p(ids[k]) == q(ids[k])
    ensures Count(ids, p) == Count(ids, q)
  {
    if ids != [] { SameVerdictsSameCount(ids[..|ids| - 1], p, q); }
  }

  /** The scheduled scan leaves no version pending and touches only the scan status of its snapshot. */
  lemma ScanLoopLeavesNonePending(versions: seq<Version>, includeFailed: bool, scanner: nat -> Scan, i: nat)
    requires Decisive(scanner) && i < |versions|
    ensures var after := Scanned(versions, Awaiting(versions, includeFailed), scanner);
            && after[i].scan != ScanPending
            && after[i].(scan := versions[i].scan) == versions[i]
            && (!Waits(versions[i], includeFailed) ==> after[i] == versions[i])
  {
    assert scanner(i) in {Clean, Infected, Failed};
  }

  lemma TallyIsStatusCount(versions: seq<Version>, ids: seq<nat>, scanner: nat -> Scan, c: Scan)
    requires forall k :: 0 <= k < |ids| ==> ids[k] < |versions|
    ensures Count(ids, Says(scanner, c)) == Count(ids, Holds(Scanned(versions, ids, scanner), c))
  {
    SameVerdictsSameCount(ids, Says(scanner, c), Holds(Scanned(versions, ids, scanner), c));
  }

  /** The counters of the scheduled scan are the numbers of snapshot versions that end in each
      status, and add up to the number of versions that were waiting. */
  lemma ScanLoopCountsStatuses(versions: seq<Version>, includeFailed: bool, scanner: nat -> Scan, counts: map<Scan, nat>)
    requires Decisive(scanner) && Tallied(counts, Awaiting(versions, includeFailed), scanner)
    ensures var ids, after := Awaiting(versions, includeFailed), Scanned(versions, Awaiting(versions, includeFailed), scanner);
            && counts[Clean] == Count(ids, Holds(after, Clean))
            && counts[Infected] == Count(ids, Holds(after, Infected))
            && counts[Failed] == Count(ids, Holds(after, Failed))
            && counts[Clean] + counts[Infected] + counts[Failed] == Count(versions, Waiting(includeFailed))
  {
    var ids := Awaiting(versions, includeFailed);
    AwaitingCounts(versions, includeFailed);
    TalliesAddUp(ids, scanner);
    TallyIsStatusCount(versions, ids, scanner, Clean);
    TallyIsStatusCount(versions, ids, scanner, Infected);
    TallyIsStatusCount(versions, ids, scanner, Failed);
  }

  /** The scan results that the loop records, as calls of the run. */
  function Reports(ids: seq<nat>, scanner: nat -> Scan): seq<Op> {
    seq(|ids|, k requires 0 <= k < |ids| => RecordScan(ids[k], scanner(ids[k])))
  }

  /** The loop is a run of single scan reports, so every run property also covers it. */
  lemma {:induction false} ScanLoopIsARun(s: State, ids: seq<nat>, scanner: nat -> Scan)
    requires Decisive(scanner) && forall k :: 0 <= k < |ids| ==> ids[k] < |s.versions|
    ensures Run(s, Reports(ids, scanner)) == s.(versions := Scanned(s.versions, ids, scanner))
    decreases |ids|
  {
    if ids == [] {
      assert Scanned(s.versions, ids, scanner) == s.versions;
    } else {
      var n := |ids| - 1;
      var ops := Reports(ids, scanner);
      assert ops[..n] == Reports(ids[..n], scanner);
      assert scanner(ids[n]) in {Clean, Infected, Failed};
      RunLast(s, ops);
      ScanLoopIsARun(s, ids[..n], scanner);
      assert forall i :: i in ids <==> i in ids[..n] || i == ids[n];
      var v := ids[n];
      var before := Scanned(s.versions, ids[..n], scanner);
      assert Scanned(s.versions, ids, scanner) == before[v := before[v].(scan := scanner(v))];
    }
  }

  // ----- single-instance categories ----------------------------------------

  predicate BothActive(a: Document, b: Document) {
    ActiveIn(a, b.employee, b.category) && ActiveIn(b, b.employee, b.category)
  }

  /** No employee has two live active documents in a single-instance category. */
  ghost predicate SingleInstance(s: State) {
    forall i, j :: 0 <= i < j < |s.documents| &&
      s.documents[i].category < |s.categories| && !s.categories[s.documents[i].category].allowMultiple
      ==> !BothActive(s.documents[i], s.documents[j])
  }

  /** Calls other than the general create and update of documents and changes of category settings. */
  predicate KeepsSettings(op: Op) {
    !op.Create? && !op.Update? && !op.SetCategory?
  }

  lemma SubmitKeepsSingleInstance(s: State, op: Op)
    requires SingleInstance(s) && op.Submit?
    ensures SingleInstance(SubmitStep(s, op).0)
  {
    if op.category < |s.categories| {
      var (prepared, r) := SubmitDocument(s, op);
      assert SingleInstance(prepared);
      if r.Saved? {
        UploadChangesNoDocument(prepared, r.id, op.upload, op.source, op.actor, Nested(op.fault));
      }
    }
  }

  lemma StepKeepsSingleInstance(s: State, op: Op)
    requires SingleInstance(s) && KeepsSettings(op)
    ensures SingleInstance(Step(s, op).0)
  {
    if op.Submit? { SubmitKeepsSingleInstance(s, op); }
  }

  lemma {:induction false} RunKeepsSingleInstance(s: State, ops: seq<Op>)
    requires SingleInstance(s) && forall k :: 0 <= k < |ops| ==> KeepsSettings(ops[k])
    ensures SingleInstance(Run(s, ops))
    decreases |ops|
  {
    if ops != [] {
      StepKeepsSingleInstance(s, ops[0]);
      RunKeepsSingleInstance(Step(s, ops[0]).0, ops[1..]);
    }
  }

  /** Whatever categories are configured, submitting, uploading, deleting, deciding and scanning
      never give an employee a second active document in a single-instance category. */
  lemma SingleInstanceHolds(categories: seq<Category>, ops: seq<Op>)
    requires forall k :: 0 <= k < |ops| ==> KeepsSettings(ops[k])
    ensures SingleInstance(Run(EMPTY.(categories := categories), ops))
  {
    RunKeepsSingleInstance(EMPTY.(categories := categories), ops);
  }

  /** Before the call: an active document of a single-instance category is about to be written for an employee
      who has another one there, or a category with two active documents of one employee is to become
      single-instance. */
  ghost predicate Duplicates(s: State, op: Op) {
    match op
    case Create(data, _) => AddsSecond(s, None, Built(data))
    case Update(d, data, _) => LiveDocument(s.documents, d) && AddsSecond(s, Some(d), Patched(s.documents[d], data))
    case SetCategory(c, settings) =>
      !settings.allowMultiple && HasTwoActive(s, if c < |s.categories| then c else |s.categories|)
    case _ => false
  }

  /** The row `pk`, or a new one, would stand beside another active document in a single-instance category. */
  ghost predicate AddsSecond(s: State, pk: Option<nat>, document: Document) {
    && document.lifecycle == Active && !document.deleted
    && document.category < |s.categories| && !s.categories[document.category].allowMultiple
    && exists i :: 0 <= i < |s.documents| && Some(i) != pk &&
         ActiveIn(s.documents[i], document.employee, document.category)
  }

  ghost predicate HasTwoActive(s: State, category: nat) {
    exists i, j :: 0 <= i < j < |s.documents| && s.documents[i].category == category &&
      BothActive(s.documents[i], s.documents[j])
  }

  lemma CreateKeepsSingleInstanceIff(s: State, document: Document, formOk: bool)
    requires SingleInstance(s) && CreateStep(s, document, formOk).1.Saved?
    ensures SingleInstance(CreateStep(s, document, formOk).0) <==> !AddsSecond(s, None, document)
  {
    var after, n := CreateStep(s, document, formOk).0, |s.documents|;
    assert forall i :: 0 <= i < n ==> after.documents[i] == s.documents[i];
    if AddsSecond(s, None, document) {
      var i :| 0 <= i < n && ActiveIn(s.documents[i], document.employee, document.category);
      assert BothActive(after.documents[i], after.documents[n]);
    } else {
      forall i, j | 0 <= i < j <= n && BothActive(after.documents[i], after.documents[j])
        ensures after.documents[i].category < |s.categories| ==> s.categories[after.documents[i].category].allowMultiple
      {
        if j < n {
          assert BothActive(s.documents[i], s.documents[j]);
        } else {
          assert ActiveIn(s.documents[i], document.employee, document.category);
        }
      }
    }
  }

  lemma RewriteKeepsSingleInstanceIff(s: State, d: nat, document: Document, formOk: bool)
    requires SingleInstance(s) && d < |s.documents| && RewriteStep(s, d, document, formOk).1.Saved?
    ensures SingleInstance(RewriteStep(s, d, document, formOk).0) <==> !AddsSecond(s, Some(d), document)
  {
    var after, n := RewriteStep(s, d, document, formOk).0, |s.documents|;
    if AddsSecond(s, Some(d), document) {
      var i :| 0 <= i < n && Some(i) != Some(d) && ActiveIn(s.documents[i], document.employee, document.category);
      var a, b := if i < d then i else d, if i < d then d else i;
      assert BothActive(after.documents[a], after.documents[b]);
    } else {
      forall i, j | 0 <= i < j < n && BothActive(after.documents[i], after.documents[j])
        ensures after.documents[i].category < |s.categories| ==> s.categories[after.documents[i].category].allowMultiple
      {
        if i != d && j != d { assert BothActive(s.documents[i], s.documents[j]); }
      }
    }
  }

  lemma SettingKeepsSingleInstanceIff(s: State, c: nat, settings: Category)
    requires SingleInstance(s)
    ensures SingleInstance(Step(s, SetCategory(c, settings)).0) <==> !Duplicates(s, SetCategory(c, settings))
  {
    var after := Step(s, SetCategory(c, settings)).0;
    var k := if c < |s.categories| then c else |s.categories|;
    if !settings.allowMultiple && HasTwoActive(s, k) {
      var i, j :| 0 <= i < j < |s.documents| && s.documents[i].category == k && BothActive(s.documents[i], s.documents[j]);
      assert BothActive(after.documents[i], after.documents[j]);
    } else {
      forall i, j | 0 <= i < j < |s.documents| && BothActive(after.documents[i], after.documents[j])
        ensures after.documents[i].category < |after.categories| ==> after.categories[after.documents[i].category].allowMultiple
      {
        assert BothActive(s.documents[i], s.documents[j]);
      }
    }
  }

  /** Exactly which accepted calls break the rule of one active document. */
  lemma StepKeepsSingleInstanceIff(s: State, op: Op)
    requires SingleInstance(s)
    ensures SingleInstance(Step(s, op).0) <==> Failure(Step(s, op).1) || !Duplicates(s, op)
  {
    match op
    case Create(data, formOk) =>
      if Step(s, op).1.Saved? { CreateKeepsSingleInstanceIff(s, Built(data), formOk); }
    case Update(d, data, formOk) =>
      if Step(s, op).1.Saved? { RewriteKeepsSingleInstanceIff(s, d, Patched(s.documents[d], data), formOk); }
    case SetCategory(c, settings) => SettingKeepsSingleInstanceIff(s, c, settings);
    case _ => StepKeepsSingleInstance(s, op);
  }

  /** The rule holds after every call of a run. */
  ghost predicate AlwaysSingleInstance(s: State, ops: seq<Op>)
    decreases |ops|
  {
    SingleInstance(s) && (ops != [] ==> AlwaysSingleInstance(Step(s, ops[0]).0, ops[1..]))
  }

  /** Some accepted call of the run duplicates when it is made. */
  ghost predicate EverDuplicates(s: State, ops: seq<Op>)
    decreases |ops|
  {
    ops != [] &&
    ((!Failure(Step(s, ops[0]).1) && Duplicates(s, ops[0])) || EverDuplicates(Step(s, ops[0]).0, ops[1..]))
  }

  lemma {:induction false} AlwaysIffNeverDuplicates(s: State, ops: seq<Op>)
    requires SingleInstance(s)
    ensures AlwaysSingleInstance(s, ops) <==> !EverDuplicates(s, ops)
    decreases |ops|
  {
    if ops != [] {
      StepKeepsSingleInstanceIff(s, ops[0]);
      if SingleInstance(Step(s, ops[0]).0) { AlwaysIffNeverDuplicates(Step(s, ops[0]).0, ops[1..]); }
    }
  }

  /** For every run of all calls: the rule of one active document holds throughout exactly when no accepted
      general create or update adds a second one and no category with two becomes single-instance. */
  lemma SingleInstanceThroughoutIff(ops: seq<Op>)
    ensures AlwaysSingleInstance(EMPTY, ops) <==> !EverDuplicates(EMPTY, ops)
  {
    AlwaysIffNeverDuplicates(EMPTY, ops);
  }

  // ----- runs that break the rule -------------------------------------------

  const ONE_EACH := Category(true, Required, true, {}, 10, true, false)

  const PAPER := Upload("a.pdf", "pdf", "application/pdf", 1, "h")

  function Sent(code: string, category: nat): Op {
    Submit(0, category, map[], true, code, PAPER, ByHr, None, NoFault)
  }

  /** Two single-instance categories. */
  function TwoCategories(): State {
    EMPTY.(categories := [ONE_EACH, ONE_EACH])
  }

  function Filed(code: string, category: nat): Document {
    Document(code, 0, category, Active, false, map[])
  }

  function FirstVersion(d: nat): Version {
    Version(d, 1, d, PAPER, ByHr, None, VerPending, ScanPending, true)
  }

  /** One document of employee 0 submitted to each of the two. */
  function OneInEach(): State {
    State([ONE_EACH, ONE_EACH], [Filed("A", 0), Filed("B", 1)], [FirstVersion(0), FirstVersion(1)], [], {0, 1}, 2)
  }

  lemma CategoriesAreSet()
    ensures Step(Step(EMPTY, SetCategory(0, ONE_EACH)).0, SetCategory(1, ONE_EACH)).0 == TwoCategories()
  {
    assert Step(EMPTY, SetCategory(0, ONE_EACH)).0.categories == [ONE_EACH];
  }

  lemma FirstIsSubmitted()
    ensures Step(TwoCategories(), Sent("A", 0)).0 ==
            TwoCategories().(documents := [Filed("A", 0)], versions := [FirstVersion(0)], files := {0}, nextFile := 1)
  {
    var s := TwoCategories();
    assert DocumentValid(s, None, Filed("A", 0), true);
    assert s.documents + [Filed("A", 0)] == [Filed("A", 0)];
    assert SubmitDocument(s, Sent("A", 0)) == (s.(documents := [Filed("A", 0)]), Saved(0));
  }

  lemma SecondIsCreated(s: State)
    requires s == TwoCategories().(documents := [Filed("A", 0)], versions := [FirstVersion(0)], files := {0}, nextFile := 1)
    ensures SubmitDocument(s, Sent("B", 1)) == (s.(documents := [Filed("A", 0), Filed("B", 1)]), Saved(1))
  {
    assert s.documents[..0] == [];
    assert FindActive(s.documents, 0, 1).None?;
    assert DocumentValid(s, None, Filed("B", 1), true);
    assert s.documents + [Filed("B", 1)] == [Filed("A", 0), Filed("B", 1)];
  }

  lemma SecondIsUploaded(s: State)
    requires s == OneInEach().(versions := [FirstVersion(0)], files := {0}, nextFile := 1)
    ensures UploadStep(s, 1, PAPER, ByHr, None, NoFault) == (OneInEach(), Uploaded(1, 1))
  {
    assert s.versions[..0] == [];
    assert FindCurrent(s.versions, 1).None? && LatestNumber(s.versions, 1) == 0;
    assert NewVersion(s, 1, PAPER, ByHr, None) == FirstVersion(1);
    assert VersionValid(s.versions, ONE_EACH, FirstVersion(1));
    assert s.versions + [FirstVersion(1)] == OneInEach().versions;
    assert s.files + {1} == OneInEach().files;
  }

  lemma SecondIsSubmitted()
    ensures Step(Step(TwoCategories(), Sent("A", 0)).0, Sent("B", 1)).0 == OneInEach()
  {
    FirstIsSubmitted();
    var s := Step(TwoCategories(), Sent("A", 0)).0;
    SecondIsCreated(s);
    SecondIsUploaded(s.(documents := [Filed("A", 0), Filed("B", 1)]));
  }

  lemma {:induction false} RunPrefix(s: State, a: seq<Op>, b: seq<Op>)
    ensures Run(s, a + b) == Run(Run(s, a), b)
    decreases |a|
  {
    if a == [] {
      assert a + b == b;
    } else {
      assert (a + b)[1..] == a[1..] + b;
      RunPrefix(Step(s, a[0]).0, a[1..], b);
    }
  }

  lemma RunOfTwo(s: State, a: Op, b: Op)
    ensures Run(s, [a, b]) == Step(Step(s, a).0, b).0
  {
    assert [a, b][1..] == [b] && [b][1..] == [];
    assert Run(Step(s, a).0, [b]) == Run(Step(Step(s, a).0, b).0, []);
  }

  const FILE_ONE_IN_EACH := [SetCategory(0, ONE_EACH), SetCategory(1, ONE_EACH), Sent("A", 0), Sent("B", 1)]

  lemma OneInEachIsReached()
    ensures Run(EMPTY, FILE_ONE_IN_EACH) == OneInEach()
  {
    assert FILE_ONE_IN_EACH == [SetCategory(0, ONE_EACH), SetCategory(1, ONE_EACH)] + [Sent("A", 0), Sent("B", 1)];
    RunPrefix(EMPTY, [SetCategory(0, ONE_EACH), SetCategory(1, ONE_EACH)], [Sent("A", 0), Sent("B", 1)]);
    RunOfTwo(EMPTY, SetCategory(0, ONE_EACH), SetCategory(1, ONE_EACH));
    CategoriesAreSet();
    RunOfTwo(TwoCategories(), Sent("A", 0), Sent("B", 1));
    SecondIsSubmitted();
  }

  const MOVE := Update(1, DocumentData(None, None, Some(0), None, map[]), true)

  const ADD := Create(DocumentData(Some("C"), Some(0), Some(0), None, map[]), true)

  lemma OneInEachMeetsTheRule()
    ensures SingleInstance(OneInEach())
  {
    assert OneInEach().documents == [Filed("A", 0), Filed("B", 1)];
  }

  lemma MoveIsAccepted()
    ensures Step(OneInEach(), MOVE).1 == Saved(1) && Duplicates(OneInEach(), MOVE)
  {
    var s := OneInEach();
    assert Patched(s.documents[1], MOVE.data) == Filed("B", 0);
    assert ActiveIn(s.documents[0], 0, 0);
  }

  lemma AdditionIsAccepted()
    ensures Step(OneInEach(), ADD).1 == Saved(2) && Duplicates(OneInEach(), ADD)
  {
    assert Built(ADD.data) == Filed("C", 0);
    assert ActiveIn(OneInEach().documents[0], 0, 0);
  }

  /** After two categories are set up and a document submitted to each, the rule holds; moving the second
      document to the first's category, or creating one there, is accepted and breaks it. */
  lemma GeneralWritesCanDuplicate()
    ensures var s := Run(EMPTY, FILE_ONE_IN_EACH);
            && SingleInstance(s)
            && Step(s, MOVE).1.Saved? && !SingleInstance(Step(s, MOVE).0)
            && Step(s, ADD).1.Saved? && !SingleInstance(Step(s, ADD).0)
  {
    OneInEachIsReached();
    OneInEachMeetsTheRule();
    MoveIsAccepted();
    AdditionIsAccepted();
    StepKeepsSingleInstanceIff(OneInEach(), MOVE);
    StepKeepsSingleInstanceIff(OneInEach(), ADD);
  }

  // ----- a lost file, and an accepted version that is infected --------------

  const UNCOMMITTED := Submit(0, 0, map[], true, "A", PAPER, ByHr, None, CommitFailure(false))

  /** A submission that fails to commit: no row is written, and its file stays. */
  lemma CommitFailureLosesFile()
    ensures var s := Run(EMPTY, [SetCategory(0, ONE_EACH), SetCategory(1, ONE_EACH)]);
            var (after, r) := Step(s, UNCOMMITTED);
            && r == Unexpected
            && after.documents == [] && after.versions == []
            && s.files == {} && after.files == {0}
  {
    RunOfTwo(EMPTY, SetCategory(0, ONE_EACH), SetCategory(1, ONE_EACH));
    CategoriesAreSet();
    var s := TwoCategories();
    assert DocumentValid(s, None, Filed("A", 0), true);
    var prepared := s.(documents := [Filed("A", 0)]);
    assert s.documents + [Filed("A", 0)] == [Filed("A", 0)];
    assert SubmitDocument(s, UNCOMMITTED) == (prepared, Saved(0));
    assert UploadStep(prepared, 0, PAPER, ByHr, None, NoFault).1.Uploaded?;
  }

  const REPORTS := [RecordScan(0, Clean), Decide(0, Accept, "", 0), RecordScan(0, Infected)]

  lemma AcceptedThenInfected(s: State)
    requires s == OneInEach()
    ensures var after := Run(s, REPORTS); |after.versions| == 2 && after.versions[0].verification == VerVerified && after.versions[0].scan == Infected
  {
    var clean := Step(s, REPORTS[0]).0;
    assert clean.versions[0].scan == Clean && clean.versions[0].isCurrent;
    var accepted := Step(clean, REPORTS[1]).0;
    assert accepted.versions[0].verification == VerVerified;
    assert REPORTS == [REPORTS[0], REPORTS[1]] + [REPORTS[2]];
    RunPrefix(s, [REPORTS[0], REPORTS[1]], [REPORTS[2]]);
    RunOfTwo(s, REPORTS[0], REPORTS[1]);
    assert [REPORTS[2]][1..] == [];
    assert Run(accepted, [REPORTS[2]]) == Run(Step(accepted, REPORTS[2]).0, []);
  }

  /** A run from nothing that ends with an accepted version whose scan says infected. */
  lemma AcceptedVersionCanTurnInfected()
    ensures var s := Run(EMPTY, FILE_ONE_IN_EACH + REPORTS);
            |s.versions| == 2 && s.versions[0].verification == VerVerified && s.versions[0].scan == Infected
  {
    RunPrefix(EMPTY, FILE_ONE_IN_EACH, REPORTS);
    OneInEachIsReached();
    AcceptedThenInfected(OneInEach());
  }
}
