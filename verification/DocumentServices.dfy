/**
 * The document services over one store of rows and one store of files.
 * A transaction keeps a savepoint of the rows and returns to it when its body
 * fails; what was written to file storage has to be removed by hand.
 */
module DocumentServices {
  import opened Common
  import opened DocumentModel

  type Bytes = seq<bv8>

  function Joined(chunks: seq<Bytes>): Bytes {
    if chunks == [] then [] else Joined(chunks[..|chunks| - 1]) + chunks[|chunks| - 1]
  }

  /** Size and hash of an upload, read chunk by chunk, are those of its whole content. */
  method InspectUploadedFile(fileName: string, extension: string, contentType: string, chunks: seq<Bytes>,
                             digest: Bytes -> string) returns (upload: Upload)
    ensures upload.size == |Joined(chunks)| && upload.hash == digest(Joined(chunks))
    ensures upload.fileName == fileName && upload.extension == extension
    ensures upload.contentType == if contentType == "" then "application/octet-stream" else contentType
  {
    var absorbed: Bytes := [];
    var size: nat := 0;
    for i := 0 to |chunks|
      invariant absorbed == Joined(chunks[..i]) && size == |absorbed|
    {
      assert chunks[..i + 1][..i] == chunks[..i];
      absorbed := absorbed + chunks[i];
      size := size + |chunks[i]|;
    }
    assert chunks[..|chunks|] == chunks;
    upload := Upload(fileName, extension, if contentType == "" then "application/octet-stream" else contentType,
                     size, digest(absorbed));
  }

  /** The row is written; the transaction may still fail to commit. */
  predicate Writes(fault: Fault) {
    fault.NoFault? || fault.CommitFailure?
  }

  class DocumentStore {
    var categories: seq<Category>
    var documents: seq<Document>
    var versions: seq<Version>
    var log: seq<LogEntry>
    var files: set<nat>
    var nextFile: nat

    ghost function Contents(): State
      reads this
    {
      State(categories, documents, versions, log, files, nextFile)
    }

    constructor ()
      ensures Contents() == EMPTY
    {
      categories, documents, versions, log, files, nextFile := [], [], [], [], {}, 0;
    }

    method Begin() returns (saved: State)
      ensures saved == Contents()
    {
      saved := State(categories, documents, versions, log, files, nextFile);
    }

    /** Rows return to the savepoint; files stay as they are. */
    method RollbackRows(saved: State)
      modifies this`categories, this`documents, this`versions, this`log
      ensures categories == saved.categories && documents == saved.documents
      ensures versions == saved.versions && log == saved.log
    {
      categories, documents, versions, log := saved.categories, saved.documents, saved.versions, saved.log;
    }

    /** Store the upload under a fresh name. */
    method StoreFile() returns (name: nat)
      modifies this`files, this`nextFile
      ensures name == old(nextFile) && files == old(files) + {name} && nextFile == name + 1
    {
      name := nextFile;
      files := files + {name};
      nextFile := name + 1;
    }

    /** Saving a version row first stores its file, then writes the row; either may fail. */
    method SaveVersion(version: Version, fault: Fault) returns (stored: Option<nat>)
      modifies this`versions, this`files, this`nextFile
      ensures stored == if Writes(fault) || fault.stored then Some(old(nextFile)) else None
      ensures files == if stored.Some? then old(files) + {old(nextFile)} else old(files)
      ensures nextFile == if stored.Some? then old(nextFile) + 1 else old(nextFile)
      ensures versions == if Writes(fault) then old(versions) + [version] else old(versions)
    {
      stored := None;
      if Writes(fault) || fault.stored {
        var name := StoreFile();
        stored := Some(name);
      }
      if Writes(fault) {
        versions := versions + [version];
      }
    }

    /** The locked current version, if any, stops being current. */
    method MarkNotCurrent(current: Option<nat>)
      requires current.Some? ==> current.value < |versions|
      modifies this`versions
      ensures versions == Demoted(old(versions), current)
    {
      if current.Some? {
        versions := versions[current.value := versions[current.value].(isCurrent := false)];
      }
    }

    method DeleteFile(name: nat)
      modifies this`files
      ensures files == old(files) - {name}
    {
      files := files - {name};
    }
  }

  class DocumentUploadService {
    const db: DocumentStore

    constructor (db: DocumentStore)
      ensures this.db == db
    {
      this.db := db;
    }

    method UploadNewVersion(d: nat, upload: Upload, source: Source, actor: Option<nat>, fault: Fault) returns (r: Outcome)
      requires db.nextFile !in db.files
      modifies db
      ensures (db.Contents(), r) == UploadStep(old(db.Contents()), d, upload, source, actor, fault)
    {
      var saved := db.Begin();
      if !LiveDocument(db.documents, d) || db.documents[d].category >= |db.categories| {
        return NotFound;
      }
      var document := db.documents[d];
      var category := db.categories[document.category];
      var refusal := ValidateUploadPolicy(document, category, source);
      if refusal.Some? {
        return refusal.value;
      }
      var current := FindCurrent(db.versions, d);
      var number := LatestNumber(db.versions, d) + 1;
      var verification := if category.mode == NotNeeded then VerNotRequired else VerPending;
      var version := Version(d, number, db.nextFile, upload, source, actor, verification, ScanPending, true);
      assert version == NewVersion(saved, d, upload, source, actor);

      db.MarkNotCurrent(current);
      if !VersionValid(db.versions, category, version) {
        db.RollbackRows(saved);
        return ValidationFailed;
      }
      r := SaveOrUndo(saved, d, version, fault);
    }

    /** Save the prepared version and commit; if either fails, return to the savepoint and remove what was stored. */
    method SaveOrUndo(saved: State, d: nat, version: Version, fault: Fault) returns (r: Outcome)
      requires db.nextFile !in db.files
      requires db.Contents() == saved.(versions := db.versions)
      modifies db
      ensures (db.Contents(), r) == SavedOrUndone(saved, d, old(db.versions), version, fault)
    {
      var stored := db.SaveVersion(version, fault);
      if !fault.NoFault? {
        db.RollbackRows(saved);
        DeleteStoredFile(stored);
        assert db.files == saved.files;
        return if fault.UniqueViolation? || fault == CommitFailure(true) then Conflict else Unexpected;
      }
      r := Uploaded(d, |db.versions| - 1);
    }

    method ValidateUploadPolicy(document: Document, category: Category, source: Source) returns (refusal: Option<Outcome>)
      ensures refusal == PolicyError(document, category, source)
    {
      if document.lifecycle != Active {
        return Some(Conflict);
      }
      if !category.isActive {
        return Some(ValidationFailed);
      }
      if source == ByEmployee && !category.employeeCanUpload {
        return Some(NotAllowed);
      }
      refusal := None;
    }

    /** Remove the file of a version that could not be saved, if it had reached storage. */
    method DeleteStoredFile(stored: Option<nat>)
      modifies db`files
      ensures db.files == if stored.Some? then old(db.files) - {stored.value} else old(db.files)
    {
      if stored.Some? {
        db.DeleteFile(stored.value);
      }
    }
  }

  class EmployeeDocumentService {
    const db: DocumentStore
    const uploads: DocumentUploadService

    constructor (db: DocumentStore)
      ensures Valid() && this.db == db
    {
      this.db := db;
      uploads := new DocumentUploadService(db);
    }

    ghost predicate Valid() {
      uploads.db == db
    }

    method BuildAndSave(document: Document, formOk: bool) returns (r: Outcome)
      modifies db`documents
      ensures (db.Contents(), r) == CreateStep(old(db.Contents()), document, formOk)
    {
      if !DocumentValid(State(db.categories, db.documents, db.versions, db.log, db.files, db.nextFile), None, document, formOk) {
        return ValidationFailed;
      }
      if CodeTaken(db.documents, None, document.code) {
        return Conflict;
      }
      r := Saved(|db.documents|);
      db.documents := db.documents + [document];
    }

    method ValidateAndSave(id: nat, document: Document, formOk: bool) returns (r: Outcome)
      requires id < |db.documents|
      modifies db`documents
      ensures (db.Contents(), r) == RewriteStep(old(db.Contents()), id, document, formOk)
    {
      if !DocumentValid(State(db.categories, db.documents, db.versions, db.log, db.files, db.nextFile), Some(id), document, formOk) {
        return ValidationFailed;
      }
      if CodeTaken(db.documents, Some(id), document.code) {
        return Conflict;
      }
      r := Saved(id);
      db.documents := db.documents[id := document];
    }

    /** Create or append in one transaction, of which the upload is a part. */
    method Submit(employee: nat, category: nat, metadata: map<string, Value>, formOk: bool, code: string,
                  upload: Upload, source: Source, actor: Option<nat>, fault: Fault) returns (r: Outcome)
      requires Valid() && db.nextFile !in db.files
      modifies db
      ensures (db.Contents(), r) ==
              SubmitStep(old(db.Contents()),
                         Op.Submit(employee, category, metadata, formOk, code, upload, source, actor, fault))
    {
      if category >= |db.categories| {
        return ValidationFailed;
      }
      var saved := db.Begin();
      var existing := FindActive(db.documents, employee, category);
      if existing.Some? && !db.categories[category].allowMultiple {
        var document := db.documents[existing.value];
        var merged := RefreshMetadata(document.metadata, metadata);
        r := ValidateAndSave(existing.value, document.(metadata := merged), formOk);
      } else {
        r := BuildAndSave(Document(code, employee, category, Active, false, metadata), formOk);
      }
      if !r.Saved? {
        return;
      }
      r := uploads.UploadNewVersion(r.id, upload, source, actor, Nested(fault));
      if !r.Uploaded? {
        db.RollbackRows(saved);
      } else if fault.CommitFailure? {
        db.RollbackRows(saved);
        r := if fault.integrity then Conflict else Unexpected;
      }
    }

    method RefreshMetadata(metadata: map<string, Value>, data: map<string, Value>) returns (merged: map<string, Value>)
      ensures merged == Refreshed(metadata, data, EDITABLE_METADATA_FIELDS)
    {
      merged := metadata;
      for i := 0 to |EDITABLE_METADATA_FIELDS|
        invariant merged == Refreshed(metadata, data, EDITABLE_METADATA_FIELDS[..i])
      {
        RefreshedStep(metadata, data, EDITABLE_METADATA_FIELDS, i);
        var field := EDITABLE_METADATA_FIELDS[i];
        if field in data {
          merged := merged[field := data[field]];
        }
      }
      assert EDITABLE_METADATA_FIELDS[..|EDITABLE_METADATA_FIELDS|] == EDITABLE_METADATA_FIELDS;
    }

    method Update(id: nat, data: DocumentData, formOk: bool) returns (r: Outcome)
      modifies db`documents
      ensures (db.Contents(), r) == Step(old(db.Contents()), Op.Update(id, data, formOk))
    {
      if !LiveDocument(db.documents, id) {
        return NotFound;
      }
      var document := db.documents[id];
      if data.code.Some? { document := document.(code := data.code.value); }
      if data.employee.Some? { document := document.(employee := data.employee.value); }
      if data.category.Some? { document := document.(category := data.category.value); }
      if data.lifecycle.Some? { document := document.(lifecycle := data.lifecycle.value); }
      document := document.(metadata := document.metadata + data.metadata);
      r := ValidateAndSave(id, document, formOk);
    }

    method Delete(id: nat) returns (r: Outcome)
      modifies db`documents
      ensures (db.Contents(), r) == DeleteStep(old(db.Contents()), id)
    {
      if !LiveDocument(db.documents, id) {
        return NotFound;
      }
      db.documents := db.documents[id := db.documents[id].(deleted := true)];
      r := Deleted;
    }
  }

  lemma RefreshedStep(metadata: map<string, Value>, data: map<string, Value>, fields: seq<string>, i: nat)
    requires i < |fields|
    ensures Refreshed(metadata, data, fields[..i + 1]) ==
            if fields[i] in data then Refreshed(metadata, data, fields[..i])[fields[i] := data[fields[i]]]
            else Refreshed(metadata, data, fields[..i])
  {
    assert fields[..i + 1] == fields[..i] + [fields[i]];
  }

  class DocumentVerificationService {
    const db: DocumentStore

    constructor (db: DocumentStore)
      ensures this.db == db
    {
      this.db := db;
    }

    method RecordDecision(v: nat, decision: Decision, remarks: string, reviewedBy: nat) returns (r: Outcome)
      modifies db`versions, db`log
      ensures (db.Contents(), r) == DecideStep(old(db.Contents()), v, decision, remarks, reviewedBy)
    {
      if v >= |db.versions| {
        return NotFound;
      }
      var version := db.versions[v];
      var errors: set<string> := {};
      if decision == Accept && version.scan != Clean {
        errors := errors + {"decision"};
      }
      if !version.isCurrent {
        errors := errors + {"version"};
      }
      if decision == Reject && IsBlank(remarks) {
        errors := errors + {"remarks"};
      }
      if errors != {} {
        return ValidationFailed;
      }
      r := Saved(|db.log|);
      db.log := db.log + [LogEntry(v, decision, version.upload.hash, remarks, reviewedBy)];
      db.versions := db.versions[v := version.(verification := if decision == Accept then VerVerified else VerRejected)];
    }
  }

  // ----- scanning ----------------------------------------------------------

  lemma ScannedStep(versions: seq<Version>, ids: seq<nat>, scanner: nat -> Scan, k: nat)
    requires k < |ids| && ids[k] < |versions|
    requires forall l :: 0 <= l < k ==> ids[l] != ids[k]
    ensures var before, v := Scanned(versions, ids[..k], scanner), ids[k];
            Scanned(versions, ids[..k + 1], scanner) == before[v := before[v].(scan := scanner(v))]
  {
    assert ids[..k + 1] == ids[..k] + [ids[k]];
  }

  lemma TallyStep(counts: map<Scan, nat>, ids: seq<nat>, scanner: nat -> Scan, k: nat)
    requires k < |ids| && Tallied(counts, ids[..k], scanner) && scanner(ids[k]) in counts
    ensures Tallied(counts[scanner(ids[k]) := counts[scanner(ids[k])] + 1], ids[..k + 1], scanner)
  {
    assert ids[..k + 1] == ids[..k] + [ids[k]];
    CountAppend(ids[..k], ids[k], Says(scanner, Clean));
    CountAppend(ids[..k], ids[k], Says(scanner, Infected));
    CountAppend(ids[..k], ids[k], Says(scanner, Failed));
  }

  class DocumentScanService {
    const db: DocumentStore

    constructor (db: DocumentStore)
      ensures this.db == db
    {
      this.db := db;
    }

    method RecordResult(v: nat, scan: Scan) returns (r: Outcome)
      modifies db`versions
      ensures (db.Contents(), r) == ScanStep(old(db.Contents()), v, scan)
    {
      if scan !in {Clean, Infected, Failed} {
        return ValidationFailed;
      }
      if v >= |db.versions| {
        return NotFound;
      }
      db.versions := db.versions[v := db.versions[v].(scan := scan)];
      r := Saved(v);
    }

    /** Scan one version with the configured scanner: nothing happens when scanning is disabled, an unknown
        version is reported, and otherwise the verdict, if it is one, becomes the version's status. */
    method ScanVersion(v: nat, scanner: Option<nat -> Scan>) returns (r: Option<Outcome>)
      modifies db`versions
      ensures r.None? <==> scanner.None?
      ensures r == Some(NotFound) <==> scanner.Some? && v >= |old(db.versions)|
      ensures r == Some(Saved(v)) <==> scanner.Some? && v < |old(db.versions)| && scanner.value(v) != ScanPending
      ensures r in {None, Some(NotFound), Some(ValidationFailed), Some(Saved(v))}
      ensures db.versions ==
              if r == Some(Saved(v)) then old(db.versions)[v := old(db.versions)[v].(scan := scanner.value(v))]
              else old(db.versions)
    {
      if scanner.None? {
        return None;
      }
      if v >= |db.versions| {
        return Some(NotFound);
      }
      var recorded := RecordResult(v, scanner.value(v));
      r := Some(recorded);
    }

    /** The scheduled command: scan a snapshot of the waiting versions and count the verdicts;
        when scanning is disabled it stops at once. */
    method ScanPendingVersions(includeFailed: bool, configured: Option<nat -> Scan>) returns (r: Option<map<Scan, nat>>)
      requires configured.Some? ==> Decisive(configured.value)
      modifies db`versions
      ensures r.Some? <==> configured.Some?
      ensures configured.None? ==> db.versions == old(db.versions)
      ensures configured.Some? ==>
        && db.versions == Scanned(old(db.versions), Awaiting(old(db.versions), includeFailed), configured.value)
        && Tallied(r.value, Awaiting(old(db.versions), includeFailed), configured.value)
    {
      if configured.None? {
        return None;
      }
      var scanner := configured.value;
      var ids := Awaiting(db.versions, includeFailed);
      ghost var before := db.versions;
      var counts: map<Scan, nat> := map[Clean := 0, Infected := 0, Failed := 0];
      for k := 0 to |ids|
        invariant db.versions == Scanned(before, ids[..k], scanner)
        invariant Tallied(counts, ids[..k], scanner)
      {
        ScannedStep(before, ids, scanner, k);
        TallyStep(counts, ids, scanner, k);
        var _ := ScanVersion(ids[k], configured);
        var status := db.versions[ids[k]].scan;
        counts := counts[status := counts[status] + 1];
      }
      assert ids[..|ids|] == ids;
      r := Some(counts);
    }
  }
}
