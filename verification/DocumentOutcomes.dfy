/**
 * What the document services answer, what an accepted call writes, and that
 * each document holds what was last accepted for it.
 */
module DocumentOutcomes {
  import opened Common
  import opened DocumentModel
  import opened DocumentTheorems

  // ----- decisions and scans -----------------------------------------------

  /** A decision is accepted exactly on an existing current version, for acceptance with a clean scan, for
      rejection with remarks; it then becomes the version's status and one log row, and nothing else changes. */
  lemma DecisionAnswers(s: State, op: Op)
    requires op.Decide?
    ensures var (after, r) := Step(s, op);
            var v := op.version;
            && (r == NotFound <==> v >= |s.versions|)
            && (r == Saved(|s.log|) <==>
                  && v < |s.versions| && s.versions[v].isCurrent
                  && (op.decision == Accept ==> s.versions[v].scan == Clean)
                  && (op.decision == Reject ==> exists c :: c in op.remarks && c !in {' ', '\t', '\n', '\r'}))
            && (r in {NotFound, ValidationFailed, Saved(|s.log|)})
            && (Failure(r) ==> after == s)
            && (!Failure(r) ==>
                  && |after.versions| == |s.versions|
                  && after.versions[v] ==
                     s.versions[v].(verification := match op.decision case Accept => VerVerified case Reject => VerRejected)
                  && (forall i :: 0 <= i < |s.versions| && i != v ==> after.versions[i] == s.versions[i])
                  && after.log == s.log + [LogEntry(v, op.decision, s.versions[v].upload.hash, op.remarks, op.reviewedBy)]
                  && after.documents == s.documents && after.files == s.files)
  {
    assert IsBlank(op.remarks) <==> forall c :: c in op.remarks ==> c in {' ', '\t', '\n', '\r'};
  }

  lemma ScanAnswers(s: State, op: Op)
    requires op.RecordScan?
    ensures var (after, r) := Step(s, op);
            var v := op.version;
            && (r == ValidationFailed <==> op.scan == ScanPending)
            && (r == NotFound <==> op.scan != ScanPending && v >= |s.versions|)
            && (r == Saved(v) <==> op.scan != ScanPending && v < |s.versions|)
            && (Failure(r) ==> after == s)
            && (!Failure(r) ==> after == s.(versions := s.versions[v := s.versions[v].(scan := op.scan)]))
  {
  }

  /** The scheduled scan gives the scanner's verdict to every version still pending and, if asked to, to those
      whose scan failed; it leaves the others alone. */
  lemma ScanLoopIsExact(versions: seq<Version>, includeFailed: bool, scanner: nat -> Scan, i: nat)
    requires i < |versions|
    ensures var after := Scanned(versions, Awaiting(versions, includeFailed), scanner);
            && |after| == |versions|
            && after[i] == if versions[i].scan == ScanPending || (includeFailed && versions[i].scan == Failed)
                           then versions[i].(scan := scanner(i)) else versions[i]
  {
    var ids := Awaiting(versions, includeFailed);
    assert i in ids <==> Waits(versions[i], includeFailed);
  }

  // ----- uploads and submissions -------------------------------------------

  /** The first rule that an upload to a live document breaks, in the order the rules are looked at. */
  function FirstRefusal(document: Document, category: Category, source: Source): Option<Outcome> {
    if document.lifecycle in {Archived, Revoked} then Some(Conflict)
    else if !category.isActive then Some(ValidationFailed)
    else if source == ByEmployee && !category.employeeCanUpload then Some(NotAllowed)
    else None
  }

  /** The answer of an upload to a live document: the policy is looked at first, then the file's limits and the
      room for another version, and last come the failures from outside, told apart by whether a constraint
      refused them. */
  function Verdict(refusal: Option<Outcome>, fits: bool, fault: Fault, uploaded: Outcome): Outcome {
    if refusal.Some? then refusal.value
    else if !fits then ValidationFailed
    else match fault
      case NoFault => uploaded
      case UniqueViolation(_) => Conflict
      case OtherFailure(_) => Unexpected
      case CommitFailure(integrity) => if integrity then Conflict else Unexpected
  }

  lemma UploadVerdict(s: State, d: nat, upload: Upload, source: Source, actor: Option<nat>, fault: Fault)
    requires Inv(s) && LiveDocument(s.documents, d)
    ensures s.documents[d].category < |s.categories|
    ensures var category := s.categories[s.documents[d].category];
            UploadStep(s, d, upload, source, actor, fault).1 ==
            Verdict(FirstRefusal(s.documents[d], category, source),
                    FileFits(category, upload) && VersionCount(s.versions, d) < MAX_VERSION_NUMBER,
                    fault, Uploaded(d, |s.versions|))
  {
    UniqueChecksPass(s, s.categories[s.documents[d].category], NewVersion(s, d, upload, source, actor));
  }

  /** Every answer of an upload in a run. */
  lemma UploadAnswers(ops: seq<Op>, op: Op)
    requires op.UploadVersion?
    ensures var s := Run(EMPTY, ops);
            var r := Step(s, op).1;
            var d := op.document;
            && (r == NotFound <==> !LiveDocument(s.documents, d))
            && (LiveDocument(s.documents, d) ==>
                  && s.documents[d].category < |s.categories|
                  && var category := s.categories[s.documents[d].category];
                     r == Verdict(FirstRefusal(s.documents[d], category, op.source),
                                  FileFits(category, op.upload) && VersionCount(s.versions, d) < MAX_VERSION_NUMBER,
                                  op.fault, Uploaded(d, |s.versions|)))
  {
    var s := Run(EMPTY, ops);
    RunKeeps(EMPTY, ops);
    if LiveDocument(s.documents, op.document) {
      UploadVerdict(s, op.document, op.upload, op.source, op.actor, op.fault);
    }
  }

  predicate FileFits(category: Category, upload: Upload) {
    && 1 <= upload.size <= category.maxFileSizeMb * 1024 * 1024
    && (category.allowedExtensions != {} ==> upload.extension in category.allowedExtensions)
    && |upload.fileName| <= 255 && |upload.contentType| <= 100
  }

  /** The employee's document in the category, not deleted, archived or revoked. */
  predicate OnFile(document: Document, employee: nat, category: nat) {
    document.employee == employee && document.category == category && document.lifecycle == Active && !document.deleted
  }

  /** A submission reuses such a document exactly when the category takes one only and there is one. */
  lemma ReusedIff(s: State, op: Op)
    requires op.Submit? && op.category < |s.categories|
    ensures match Reused(s, op)
            case Some(d) =>
              && !s.categories[op.category].allowMultiple
              && d < |s.documents| && OnFile(s.documents[d], op.employee, op.category)
            case None =>
              || s.categories[op.category].allowMultiple
              || forall i :: 0 <= i < |s.documents| ==> !OnFile(s.documents[i], op.employee, op.category)
  {
    assert forall i :: 0 <= i < |s.documents| ==>
      OnFile(s.documents[i], op.employee, op.category) == ActiveIn(s.documents[i], op.employee, op.category);
  }

  /** What the rule of one active document says of any two rows. */
  lemma SingleInstanceMeans(s: State)
    ensures SingleInstance(s) <==>
            forall i, j :: 0 <= i < |s.documents| && 0 <= j < |s.documents| && i != j &&
              s.documents[i].category < |s.categories| && SameFile(s.documents[i], s.documents[j])
              ==> s.categories[s.documents[i].category].allowMultiple
  {
    forall i, j | 0 <= i < |s.documents| && 0 <= j < |s.documents|
      ensures BothActive(s.documents[i], s.documents[j]) == SameFile(s.documents[i], s.documents[j])
    {
    }
  }

  /** Both documents are on file for the employee and category of the first. */
  predicate SameFile(a: Document, b: Document) {
    OnFile(a, a.employee, a.category) && OnFile(b, a.employee, a.category)
  }

  /** A successful submission appends to its document number n + 1 with the file, source and uploader sent,
      unscanned, with the category's initial status, and demotes only that document's current version. */
  lemma SubmitAppendsNextVersion(ops: seq<Op>, op: Op)
    requires op.Submit? && Step(Run(EMPTY, ops), op).1.Uploaded?
    ensures var s := Run(EMPTY, ops);
            var (after, r) := Step(s, op);
            var n := |s.versions|;
            && r.version == n && |after.versions| == n + 1
            && op.category < |s.categories|
            && after.versions[n] ==
               Version(r.document, VersionCount(s.versions, r.document) + 1, s.nextFile, op.upload, op.source, op.actor,
                       if s.categories[op.category].mode == NotNeeded then VerNotRequired else VerPending,
                       ScanPending, true)
            && (forall i :: 0 <= i < n ==>
                  after.versions[i] ==
                  if s.versions[i].document == r.document then s.versions[i].(isCurrent := false) else s.versions[i])
            && after.log == s.log && after.files == s.files + {s.nextFile}
  {
    var s := Run(EMPTY, ops);
    RunKeeps(EMPTY, ops);
    var (prepared, saved) := SubmitDocument(s, op);
    PreparedDocument(s, op);
    SubmitDocumentKeeps(s, op);
    PreparedKeepsVersions(s, op);
    UploadGivesRotation(prepared, saved.id, op.upload, op.source, op.actor, op.fault);
    RotationIsAppendedNext(prepared, Step(s, op).0, NewVersion(prepared, saved.id, op.upload, op.source, op.actor));
    LatestNumberCounts(s.versions, saved.id);
  }

  // ----- documents ---------------------------------------------------------

  function Either<T>(supplied: Option<T>, otherwise: T): T {
    if supplied.Some? then supplied.value else otherwise
  }

  /** What a document has to meet beside its code: fields, category and dates. */
  predicate Wellformed(s: State, category: nat, metadata: map<string, Value>, formOk: bool) {
    && formOk && category < |s.categories| && s.categories[category].employeeScope
    && !(&& "issue_date_ad" in metadata && metadata["issue_date_ad"].Day?
         && "expiry_date_ad" in metadata && metadata["expiry_date_ad"].Day?
         && metadata["expiry_date_ad"].day < metadata["issue_date_ad"].day)
  }

  /** A code held by a live document is a validation error; one held only by a deleted row is a conflict. */
  predicate HeldByLive(s: State, pk: Option<nat>, code: string) {
    exists i :: 0 <= i < |s.documents| && Some(i) != pk && !s.documents[i].deleted && s.documents[i].code == code
  }

  predicate Held(s: State, pk: Option<nat>, code: string) {
    exists i :: 0 <= i < |s.documents| && Some(i) != pk && s.documents[i].code == code
  }

  /** Exactly when a general create is accepted, and the row stored: live, active unless told otherwise. */
  lemma CreateAnswers(s: State, op: Op)
    requires op.Create?
    ensures var (after, r) := Step(s, op);
            var data := op.data;
            var code, category := Either(data.code, ""), Either(data.category, 0);
            var fits := Wellformed(s, category, data.metadata, op.formOk) && !HeldByLive(s, None, code);
            && (r == ValidationFailed <==> !fits)
            && (r == Conflict <==> fits && Held(s, None, code))
            && (r == Saved(|s.documents|) <==> fits && !Held(s, None, code))
            && (Failure(r) ==> after == s)
            && (!Failure(r) ==> after == s.(documents :=
                  s.documents + [Document(code, Either(data.employee, 0), category, Either(data.lifecycle, Active), false, data.metadata)]))
  {
    assert CodeTaken(s.documents, None, Either(op.data.code, "")) == Held(s, None, Either(op.data.code, ""));
  }

  /** Exactly when a general update is accepted; the deletion mark is not among what it writes. */
  lemma UpdateAnswers(s: State, op: Op)
    requires op.Update?
    ensures var (after, r) := Step(s, op);
            var d := op.document;
            && (r == NotFound <==> !LiveDocument(s.documents, d))
            && (LiveDocument(s.documents, d) ==>
                  var was := s.documents[d];
                  var code := Either(op.data.code, was.code);
                  var fits := Wellformed(s, Either(op.data.category, was.category), was.metadata + op.data.metadata, op.formOk)
                    && !HeldByLive(s, Some(d), code);
                  && (r == ValidationFailed <==> !fits)
                  && (r == Conflict <==> fits && Held(s, Some(d), code))
                  && (r == Saved(d) <==> fits && !Held(s, Some(d), code)))
            && (Failure(r) ==> after == s)
  {
    if LiveDocument(s.documents, op.document) {
      var code := Either(op.data.code, s.documents[op.document].code);
      assert CodeTaken(s.documents, Some(op.document), code) == Held(s, Some(op.document), code);
    }
  }

  lemma DeleteAnswers(s: State, op: Op)
    requires op.Delete?
    ensures var (after, r) := Step(s, op);
            var d := op.document;
            && (r == Deleted <==> d < |s.documents| && !s.documents[d].deleted)
            && (r == NotFound <==> r != Deleted)
            && (r == NotFound ==> after == s)
            && (r == Deleted ==> after == s.(documents := s.documents[d := s.documents[d].(deleted := true)]))
  {
  }

  /** How a submission fares before the upload: its document is refused as an update or a create would be. */
  function DocumentRefusal(s: State, op: Op): Option<Outcome>
    requires op.Submit? && op.category < |s.categories|
    requires Reused(s, op).Some? ==> Reused(s, op).value < |s.documents|
  {
    match Reused(s, op)
    case Some(d) =>
      var metadata := Refreshed(s.documents[d].metadata, op.metadata, EDITABLE_METADATA_FIELDS);
      if !Wellformed(s, op.category, metadata, op.formOk) then Some(ValidationFailed) else None
    case None =>
      if !Wellformed(s, op.category, op.metadata, op.formOk) || HeldByLive(s, None, op.code) then Some(ValidationFailed)
      else if Held(s, None, op.code) then Some(Conflict)
      else None
  }

  lemma PreparedOrRefused(s: State, op: Op)
    requires Inv(s) && op.Submit? && op.category < |s.categories|
    ensures var r := SubmitDocument(s, op).1;
            match DocumentRefusal(s, op)
            case Some(refusal) => r == refusal
            case None => r == Saved(if Reused(s, op).Some? then Reused(s, op).value else |s.documents|)
  {
    assert CodeTaken(s.documents, None, op.code) == Held(s, None, op.code);
  }

  lemma PreparedVerdict(s: State, op: Op)
    requires Inv(s) && op.Submit? && op.category < |s.categories| && SubmitDocument(s, op).1.Saved?
    ensures var d := if Reused(s, op).Some? then Reused(s, op).value else |s.documents|;
            var category := s.categories[op.category];
            && SubmitDocument(s, op).1 == Saved(d)
            && UploadStep(SubmitDocument(s, op).0, d, op.upload, op.source, op.actor, Nested(op.fault)).1 ==
               Verdict(SubmissionRefusal(category, op.source),
                       FileFits(category, op.upload) && VersionCount(s.versions, d) < MAX_VERSION_NUMBER,
                       Nested(op.fault), Uploaded(d, |s.versions|))
  {
    var (prepared, r) := SubmitDocument(s, op);
    PreparedOrRefused(s, op);
    PreparedDocument(s, op);
    SubmitDocumentKeeps(s, op);
    UploadVerdict(prepared, r.id, op.upload, op.source, op.actor, Nested(op.fault));
  }

  /** The category's part of the upload policy; the document of a submission is active. */
  function SubmissionRefusal(category: Category, source: Source): Option<Outcome> {
    if !category.isActive then Some(ValidationFailed)
    else if source == ByEmployee && !category.employeeCanUpload then Some(NotAllowed)
    else None
  }

  /** Every answer of a submission in a run: its document is looked at first, then it fares like an upload. */
  lemma SubmitAnswers(ops: seq<Op>, op: Op)
    requires op.Submit?
    ensures var s := Run(EMPTY, ops);
            var r := Step(s, op).1;
            if op.category >= |s.categories| then r == ValidationFailed
            else if DocumentRefusal(s, op).Some? then r == DocumentRefusal(s, op).value
            else
              var category := s.categories[op.category];
              var d := if Reused(s, op).Some? then Reused(s, op).value else |s.documents|;
              r == Verdict(SubmissionRefusal(category, op.source),
                           FileFits(category, op.upload) && VersionCount(s.versions, d) < MAX_VERSION_NUMBER,
                           op.fault, Uploaded(d, |s.versions|))
  {
    var s := Run(EMPTY, ops);
    RunKeeps(EMPTY, ops);
    if op.category < |s.categories| {
      PreparedOrRefused(s, op);
      if SubmitDocument(s, op).1.Saved? { PreparedVerdict(s, op); }
    }
  }

  const REFRESHED := {"title", "document_number", "issued_by", "issue_date_ad", "issue_date_bs",
                      "expiry_date_ad", "expiry_date_bs", "remarks"}

  /** The call is a successful submission that appends to document `d`, already on file. */
  predicate Refreshes(s: State, op: Op, d: nat) {
    op.Submit? && Step(s, op).1.Uploaded? && op.category < |s.categories| && Reused(s, op) == Some(d)
  }

  /** The fields of document `d` after the call, its metadata apart. */
  function DocumentAfter(was: Document, s: State, op: Op, d: nat): Document {
    match op
    case Update(id, data, _) =>
      if id == d && Step(s, op).1.Saved? then
        was.(code := Either(data.code, was.code), employee := Either(data.employee, was.employee),
             category := Either(data.category, was.category), lifecycle := Either(data.lifecycle, was.lifecycle))
      else was
    case Delete(id) => if id == d && Step(s, op).1.Deleted? then was.(deleted := true) else was
    case _ => was
  }

  function Entry(metadata: map<string, Value>, key: string): Option<Value> {
    if key in metadata then Some(metadata[key]) else None
  }

  /** The metadata entry `key` of document `d` after the call: an update writes what it supplies, a submission
      that reuses the document only the listed fields. */
  function EntryAfter(was: Option<Value>, s: State, op: Op, d: nat, key: string): Option<Value> {
    match op
    case Update(id, data, _) => if id == d && Step(s, op).1.Saved? && key in data.metadata then Some(data.metadata[key]) else was
    case Submit(_, _, metadata, _, _, _, _, _, _) =>
      if Refreshes(s, op, d) && key in REFRESHED && key in metadata then Some(metadata[key]) else was
    case _ => was
  }

  function DocumentAfterRun(was: Document, s: State, ops: seq<Op>, d: nat): Document
    decreases |ops|
  {
    if ops == [] then was else DocumentAfterRun(DocumentAfter(was, s, ops[0], d), Step(s, ops[0]).0, ops[1..], d)
  }

  function EntryAfterRun(was: Option<Value>, s: State, ops: seq<Op>, d: nat, key: string): Option<Value>
    decreases |ops|
  {
    if ops == [] then was else EntryAfterRun(EntryAfter(was, s, ops[0], d, key), Step(s, ops[0]).0, ops[1..], d, key)
  }

  function Bare(document: Document): Document {
    document.(metadata := map[])
  }

  lemma EditableAreRefreshed(key: string)
    ensures key in EDITABLE_METADATA_FIELDS <==> key in REFRESHED
  {
    assert EDITABLE_METADATA_FIELDS ==
      ["title", "document_number", "issued_by", "issue_date_ad", "issue_date_bs", "expiry_date_ad", "expiry_date_bs", "remarks"];
  }

  lemma SubmitWritesDocument(s: State, op: Op, d: nat, key: string)
    requires op.Submit? && d < |s.documents|
    ensures d < |Step(s, op).0.documents|
    ensures Bare(Step(s, op).0.documents[d]) == Bare(s.documents[d])
    ensures Entry(Step(s, op).0.documents[d].metadata, key) == EntryAfter(Entry(s.documents[d].metadata, key), s, op, d, key)
  {
    EditableAreRefreshed(key);
    if op.category < |s.categories| {
      var (prepared, r) := SubmitDocument(s, op);
      if r.Saved? { UploadChangesNoDocument(prepared, r.id, op.upload, op.source, op.actor, Nested(op.fault)); }
    }
  }

  lemma StepWritesDocument(s: State, op: Op, d: nat, key: string)
    requires d < |s.documents|
    ensures d < |Step(s, op).0.documents|
    ensures Bare(Step(s, op).0.documents[d]) == DocumentAfter(Bare(s.documents[d]), s, op, d)
    ensures Entry(Step(s, op).0.documents[d].metadata, key) == EntryAfter(Entry(s.documents[d].metadata, key), s, op, d, key)
  {
    match op
    case Submit(_, _, _, _, _, _, _, _, _) => SubmitWritesDocument(s, op, d, key);
    case UploadVersion(id, upload, source, actor, fault) => UploadChangesNoDocument(s, id, upload, source, actor, fault);
    case _ =>
  }

  /** In every run each field of a document holds the value last accepted for it. */
  lemma {:induction false} DocumentIsLastAccepted(s: State, ops: seq<Op>, d: nat, key: string)
    requires d < |s.documents|
    ensures d < |Run(s, ops).documents|
    ensures Bare(Run(s, ops).documents[d]) == DocumentAfterRun(Bare(s.documents[d]), s, ops, d)
    ensures Entry(Run(s, ops).documents[d].metadata, key) == EntryAfterRun(Entry(s.documents[d].metadata, key), s, ops, d, key)
    decreases |ops|
  {
    if ops != [] {
      StepWritesDocument(s, ops[0], d, key);
      DocumentIsLastAccepted(Step(s, ops[0]).0, ops[1..], d, key);
    }
  }
}
