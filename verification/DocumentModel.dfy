/**
 * Employee documents, their file versions, the decision log and the stored
 * files.  Database rows are rolled back on failure; stored files are not, so a
 * failed upload has to delete its own file.
 */
module DocumentModel {
  import opened Common

  datatype VerificationMode = Required | TrustedUploader | NotNeeded

  datatype Category = Category(
    employeeScope: bool,
    mode: VerificationMode,
    employeeCanUpload: bool,
    allowedExtensions: set<string>,
    maxFileSizeMb: nat,
    isActive: bool,
    allowMultiple: bool)

  datatype Lifecycle = Active | Archived | Revoked

  /** A metadata value: text, a calendar day, or an empty date. */
  datatype Value = Text(text: string) | Day(day: int) | Empty

  datatype Document = Document(
    code: string,
    employee: nat,
    category: nat,
    lifecycle: Lifecycle,
    deleted: bool,
    metadata: map<string, Value>)

  datatype Verification = VerPending | VerVerified | VerRejected | VerNotRequired

  datatype Scan = ScanPending | Clean | Infected | Failed

  datatype Source = ByEmployee | ByHr | BySystem

  /** The uploaded file as inspected: metadata derived from its content and name. */
  datatype Upload = Upload(fileName: string, extension: string, contentType: string, size: nat, hash: string)

  datatype Version = Version(
    document: nat,
    number: nat,
    file: nat,
    upload: Upload,
    source: Source,
    uploader: Option<nat>,
    verification: Verification,
    scan: Scan,
    isCurrent: bool)

  datatype Decision = Accept | Reject

  /** One row of the append-only decision log. */
  datatype LogEntry = LogEntry(version: nat, decision: Decision, hash: string, remarks: string, reviewedBy: nat)

  /** `files` are the names in storage; `nextFile` is the next unused name. */
  datatype State = State(
    categories: seq<Category>,
    documents: seq<Document>,
    versions: seq<Version>,
    log: seq<LogEntry>,
    files: set<nat>,
    nextFile: nat)

  const EMPTY := State([], [], [], [], {}, 0)

  const EDITABLE_METADATA_FIELDS: seq<string> :=
    ["title", "document_number", "issued_by", "issue_date_ad", "issue_date_bs",
     "expiry_date_ad", "expiry_date_bs", "remarks"]

  const MAX_VERSION_NUMBER := 32767

  /** How a transaction fails, if it does: while the version row is written, the file being stored by
      then or not, or only when the whole transaction commits, on a constraint or for another reason. */
  datatype Fault = NoFault | UniqueViolation(stored: bool) | OtherFailure(stored: bool) | CommitFailure(integrity: bool)

  datatype DocumentData = DocumentData(
    code: Option<string>,
    employee: Option<nat>,
    category: Option<nat>,
    lifecycle: Option<Lifecycle>,
    metadata: map<string, Value>)

  /** `formOk` stands for the field checks not modelled here. */
  datatype Op =
    | Create(data: DocumentData, formOk: bool)
    | Submit(employee: nat, category: nat, metadata: map<string, Value>, formOk: bool, code: string,
             upload: Upload, source: Source, actor: Option<nat>, fault: Fault)
    | UploadVersion(document: nat, upload: Upload, source: Source, actor: Option<nat>, fault: Fault)
    | Update(document: nat, data: DocumentData, formOk: bool)
    | Delete(document: nat)
    | Decide(version: nat, decision: Decision, remarks: string, reviewedBy: nat)
    | RecordScan(version: nat, scan: Scan)
    | SetCategory(category: nat, settings: Category)

  datatype Outcome =
    | Saved(id: nat)
    | Uploaded(document: nat, version: nat)
    | Deleted
    | NotFound
    | ValidationFailed
    | Conflict
    | NotAllowed
    | Unexpected

  predicate Failure(r: Outcome) {
    r.NotFound? || r.ValidationFailed? || r.Conflict? || r.NotAllowed? || r.Unexpected?
  }

  // ----- documents ---------------------------------------------------------

  predicate LiveDocument(documents: seq<Document>, id: nat) {
    id < |documents| && !documents[id].deleted
  }

  /** `full_clean` of a document; the unique check sees live rows only. */
  predicate DocumentValid(s: State, pk: Option<nat>, document: Document, formOk: bool) {
    && formOk
    && document.category < |s.categories|
    && s.categories[document.category].employeeScope
    && !ExpiresBeforeIssue(document.metadata)
    && forall i :: 0 <= i < |s.documents| && Some(i) != pk && !s.documents[i].deleted ==>
         s.documents[i].code != document.code
  }

  predicate ExpiresBeforeIssue(metadata: map<string, Value>) {
    && "issue_date_ad" in metadata && metadata["issue_date_ad"].Day?
    && "expiry_date_ad" in metadata && metadata["expiry_date_ad"].Day?
    && metadata["expiry_date_ad"].day < metadata["issue_date_ad"].day
  }

  /** The unique code constraint of the table also covers deleted rows. */
  predicate CodeTaken(documents: seq<Document>, pk: Option<nat>, code: string) {
    exists i :: 0 <= i < |documents| && Some(i) != pk && documents[i].code == code
  }

  function Built(data: DocumentData): Document {
    Document(
      if data.code.Some? then data.code.value else "",
      if data.employee.Some? then data.employee.value else 0,
      if data.category.Some? then data.category.value else 0,
      if data.lifecycle.Some? then data.lifecycle.value else Active,
      false,
      data.metadata)
  }

  function Patched(document: Document, data: DocumentData): Document {
    document.(
      code := if data.code.Some? then data.code.value else document.code,
      employee := if data.employee.Some? then data.employee.value else document.employee,
      category := if data.category.Some? then data.category.value else document.category,
      lifecycle := if data.lifecycle.Some? then data.lifecycle.value else document.lifecycle,
      metadata := document.metadata + data.metadata)
  }

  function CreateStep(s: State, document: Document, formOk: bool): (State, Outcome) {
    if !DocumentValid(s, None, document, formOk) then (s, ValidationFailed)
    else if CodeTaken(s.documents, None, document.code) then (s, Conflict)
    else (s.(documents := s.documents + [document]), Saved(|s.documents|))
  }

  function RewriteStep(s: State, id: nat, document: Document, formOk: bool): (State, Outcome)
    requires id < |s.documents|
  {
    if !DocumentValid(s, Some(id), document, formOk) then (s, ValidationFailed)
    else if CodeTaken(s.documents, Some(id), document.code) then (s, Conflict)
    else (s.(documents := s.documents[id := document]), Saved(id))
  }

  function DeleteStep(s: State, id: nat): (State, Outcome) {
    if !LiveDocument(s.documents, id) then (s, NotFound)
    else (s.(documents := s.documents[id := s.documents[id].(deleted := true)]), Deleted)
  }

  // ----- versions ----------------------------------------------------------

  /** The largest version number of a document over all its rows, or zero. */
  function LatestNumber(versions: seq<Version>, d: nat): (n: nat)
    ensures forall i :: 0 <= i < |versions| && versions[i].document == d ==> versions[i].number <= n
    ensures n > 0 ==> exists i :: 0 <= i < |versions| && versions[i].document == d && versions[i].number == n
  {
    if versions == [] then 0
    else
      var last := versions[|versions| - 1];
      var n := LatestNumber(versions[..|versions| - 1], d);
      if last.document == d && last.number > n then last.number else n
  }

  function FindCurrent(versions: seq<Version>, d: nat): (found: Option<nat>)
    ensures found.Some? ==>
      found.value < |versions| && versions[found.value].document == d && versions[found.value].isCurrent
    ensures found.None? ==> forall i :: 0 <= i < |versions| && versions[i].document == d ==> !versions[i].isCurrent
  {
    if versions == [] then None
    else
      var last := |versions| - 1;
      if versions[last].document == d && versions[last].isCurrent then Some(last)
      else FindCurrent(versions[..last], d)
  }

  /** `full_clean` of a new version: limits of its category, column limits, unique constraints. */
  predicate VersionValid(versions: seq<Version>, category: Category, version: Version) {
    && 1 <= version.upload.size <= category.maxFileSizeMb * 1024 * 1024
    && (category.allowedExtensions != {} ==> version.upload.extension in category.allowedExtensions)
    && 1 <= version.number <= MAX_VERSION_NUMBER
    && |version.upload.fileName| <= 255 && |version.upload.contentType| <= 100
    && forall i :: 0 <= i < |versions| && versions[i].document == version.document ==>
         versions[i].number != version.number && !(versions[i].isCurrent && version.isCurrent)
  }

  function Demoted(versions: seq<Version>, current: Option<nat>): seq<Version>
    requires current.Some? ==> current.value < |versions|
  {
    if current.Some? then versions[current.value := versions[current.value].(isCurrent := false)] else versions
  }

  function NewVersion(s: State, d: nat, upload: Upload, source: Source, actor: Option<nat>): Version
    requires d < |s.documents| && s.documents[d].category < |s.categories|
  {
    Version(
      d,
      LatestNumber(s.versions, d) + 1,
      s.nextFile,
      upload,
      source,
      actor,
      if s.categories[s.documents[d].category].mode == NotNeeded then VerNotRequired else VerPending,
      ScanPending,
      true)
  }

  /** The policy an upload has to meet before anything is written. */
  function PolicyError(document: Document, category: Category, source: Source): Option<Outcome> {
    if document.lifecycle != Active then Some(Conflict)
    else if !category.isActive then Some(ValidationFailed)
    else if source == ByEmployee && !category.employeeCanUpload then Some(NotAllowed)
    else None
  }

  /** A failing upload leaves every row and file; it may only have used up a file name. */
  function UploadStep(s: State, d: nat, upload: Upload, source: Source, actor: Option<nat>, fault: Fault): (State, Outcome) {
    if !LiveDocument(s.documents, d) || s.documents[d].category >= |s.categories| then (s, NotFound)
    else
      var category := s.categories[s.documents[d].category];
      var refusal := PolicyError(s.documents[d], category, source);
      if refusal.Some? then (s, refusal.value)
      else
        var demoted := Demoted(s.versions, FindCurrent(s.versions, d));
        var version := NewVersion(s, d, upload, source, actor);
        if !VersionValid(demoted, category, version) then (s, ValidationFailed)
        else
          SavedOrUndone(s, d, demoted, version, fault)
  }

  /** Saving the version behind the demoted rows, with the file under the next name, or undoing it all. */
  function SavedOrUndone(s: State, d: nat, demoted: seq<Version>, version: Version, fault: Fault): (State, Outcome) {
    match fault
    case UniqueViolation(stored) => (AfterFault(s, stored), Conflict)
    case OtherFailure(stored) => (AfterFault(s, stored), Unexpected)
    case CommitFailure(integrity) => (AfterFault(s, true), CommitError(integrity))
    case NoFault =>
      (s.(versions := demoted + [version], files := s.files + {s.nextFile}, nextFile := s.nextFile + 1),
       Uploaded(d, |demoted|))
  }

  function CommitError(integrity: bool): Outcome {
    if integrity then Conflict else Unexpected
  }

  function AfterFault(s: State, stored: bool): State {
    if stored then s.(nextFile := s.nextFile + 1) else s
  }

  /** The newest live active document of the employee in the category. */
  function FindActive(documents: seq<Document>, employee: nat, category: nat): (found: Option<nat>)
    ensures found.Some? ==> found.value < |documents| && ActiveIn(documents[found.value], employee, category)
    ensures found.None? ==> forall i :: 0 <= i < |documents| ==> !ActiveIn(documents[i], employee, category)
  {
    if documents == [] then None
    else
      var last := |documents| - 1;
      if ActiveIn(documents[last], employee, category) then Some(last)
      else FindActive(documents[..last], employee, category)
  }

  predicate ActiveIn(document: Document, employee: nat, category: nat) {
    && document.employee == employee
    && document.category == category
    && document.lifecycle == Active
    && !document.deleted
  }

  /** Refresh only the listed fields that the request supplies. */
  function Refreshed(metadata: map<string, Value>, data: map<string, Value>, fields: seq<string>): map<string, Value> {
    metadata + (map k | k in data && k in fields :: data[k])
  }

  /** The document part of `submit`: reuse the active document of a single-instance category, or create one. */
  function SubmitDocument(s: State, op: Op): (State, Outcome)
    requires op.Submit? && op.category < |s.categories|
  {
    var existing := FindActive(s.documents, op.employee, op.category);
    if existing.Some? && !s.categories[op.category].allowMultiple then
      var document := s.documents[existing.value];
      RewriteStep(s, existing.value,
                  document.(metadata := Refreshed(document.metadata, op.metadata, EDITABLE_METADATA_FIELDS)), op.formOk)
    else
      CreateStep(s, Document(op.code, op.employee, op.category, Active, false, op.metadata), op.formOk)
  }

  /** What an upload nested in another transaction meets: it does not commit itself. */
  function Nested(fault: Fault): Fault {
    if fault.CommitFailure? then NoFault else fault
  }

  /** Document and version are written together or not at all; but the upload's clean-up is over when the
      enclosing transaction commits, so a failing commit leaves the stored file. */
  function SubmitStep(s: State, op: Op): (State, Outcome)
    requires op.Submit?
  {
    if op.category >= |s.categories| then (s, ValidationFailed)
    else
      var (prepared, r) := SubmitDocument(s, op);
      if !r.Saved? then (s, r)
      else
        var (after, uploaded) := UploadStep(prepared, r.id, op.upload, op.source, op.actor, Nested(op.fault));
        var undone := s.(files := after.files, nextFile := after.nextFile);
        if !uploaded.Uploaded? then (undone, uploaded)
        else if op.fault.CommitFailure? then (undone, CommitError(op.fault.integrity))
        else (after, uploaded)
  }

  // ----- decisions and scans -----------------------------------------------

  const BLANKS := {' ', '\t', '\n', '\r'}

  predicate IsBlank(text: string) {
    forall c :: c in text ==> c in BLANKS
  }

  predicate DecisionValid(version: Version, decision: Decision, remarks: string) {
    && (decision == Accept ==> version.scan == Clean)
    && version.isCurrent
    && (decision == Reject ==> !IsBlank(remarks))
  }

  function Decided(decision: Decision): Verification {
    if decision == Accept then VerVerified else VerRejected
  }

  function DecideStep(s: State, v: nat, decision: Decision, remarks: string, reviewedBy: nat): (State, Outcome) {
    if v >= |s.versions| then (s, NotFound)
    else if !DecisionValid(s.versions[v], decision, remarks) then (s, ValidationFailed)
    else
      (s.(versions := s.versions[v := s.versions[v].(verification := Decided(decision))],
          log := s.log + [LogEntry(v, decision, s.versions[v].upload.hash, remarks, reviewedBy)]),
       Saved(|s.log|))
  }

  function ScanStep(s: State, v: nat, scan: Scan): (State, Outcome) {
    if scan == ScanPending then (s, ValidationFailed)
    else if v >= |s.versions| then (s, NotFound)
    else (s.(versions := s.versions[v := s.versions[v].(scan := scan)]), Saved(v))
  }

  // ----- the scan of waiting versions ---------------------------------------

  predicate Waits(version: Version, includeFailed: bool) {
    version.scan == ScanPending || (includeFailed && version.scan == Failed)
  }

  /** Keys of the versions waiting for a scan, in key order. */
  function Awaiting(versions: seq<Version>, includeFailed: bool): (ids: seq<nat>)
    ensures forall k :: 0 <= k < |ids| ==> ids[k] < |versions| && Waits(versions[ids[k]], includeFailed)
    ensures forall i :: 0 <= i < |versions| && Waits(versions[i], includeFailed) ==> i in ids
    ensures forall k, l :: 0 <= k < l < |ids| ==> ids[k] < ids[l]
  {
    if versions == [] then []
    else
      var last := |versions| - 1;
      Awaiting(versions[..last], includeFailed) +
      if Waits(versions[last], includeFailed) then [last] else []
  }

  /** The versions after the scanner's verdict on each listed key. */
  function Scanned(versions: seq<Version>, ids: seq<nat>, scanner: nat -> Scan): seq<Version> {
    seq(|versions|, i requires 0 <= i < |versions| =>
      if i in ids then versions[i].(scan := scanner(i)) else versions[i])
  }

  /** A scan ends in a verdict or in a recorded failure. */
  ghost predicate Decisive(scanner: nat -> Scan) {
    forall v :: scanner(v) in {Clean, Infected, Failed}
  }

  function Says(scanner: nat -> Scan, verdict: Scan): nat -> bool {
    (v: nat) => scanner(v) == verdict
  }

  /** The counters say how often each verdict was given for the listed keys. */
  ghost predicate Tallied(counts: map<Scan, nat>, ids: seq<nat>, scanner: nat -> Scan) {
    counts == map[Clean := Count(ids, Says(scanner, Clean)),
                  Infected := Count(ids, Says(scanner, Infected)),
                  Failed := Count(ids, Says(scanner, Failed))]
  }

  // ----- runs --------------------------------------------------------------

  function Step(s: State, op: Op): (State, Outcome) {
    match op
    case Create(data, formOk) => CreateStep(s, Built(data), formOk)
    case Submit(_, _, _, _, _, _, _, _, _) => SubmitStep(s, op)
    case UploadVersion(d, upload, source, actor, fault) => UploadStep(s, d, upload, source, actor, fault)
    case Update(d, data, formOk) =>
      if !LiveDocument(s.documents, d) then (s, NotFound)
      else RewriteStep(s, d, Patched(s.documents[d], data), formOk)
    case Delete(d) => DeleteStep(s, d)
    case Decide(v, decision, remarks, reviewedBy) => DecideStep(s, v, decision, remarks, reviewedBy)
    case RecordScan(v, scan) => ScanStep(s, v, scan)
    case SetCategory(c, settings) =>
      if c < |s.categories| then (s.(categories := s.categories[c := settings]), Saved(c))
      else (s.(categories := s.categories + [settings]), Saved(|s.categories|))
  }

  function Run(s: State, ops: seq<Op>): State
    decreases |ops|
  {
    if ops == [] then s else Run(Step(s, ops[0]).0, ops[1..])
  }
}
