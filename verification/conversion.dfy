/**
 * The decision logic of `convert_cdr_to_pdf` in `referencias/tasks.py`:
 * which on-disk CDR file to upload, which tasks of the conversion job to use,
 * and under which name the resulting PDF is stored.
 *
 * The file system is the set of paths that exist.  The answers of the
 * conversion service (the tasks of the created job, and how polling the job
 * ended) are parameters; the requests themselves, the upload and download,
 * the polling loop and the storage write are not modelled.
 */
module Conversion {
  import opened Wrappers
  import opened PosixPath

  /** The three settings the task reads; an absent setting is `None`. */
  datatype Settings = Settings(apiKey: Option<string>, mediaRoot: Option<string>, baseDir: Option<string>)

  /** Python truthiness of a string setting: present and not empty. */
  predicate Truthy(setting: Option<string>)
  {
    setting.Some? && setting.value != ""
  }

  // ---------------------------------------------------------------------
  // First match in a sequence (the `for ... if ...: ...; break` loops)
  // ---------------------------------------------------------------------

  /** The position of the first element satisfying `p`, if there is one. */
  function FirstIndex<T>(xs: seq<T>, p: T -> bool): (r: Option<nat>)
    ensures r.Some? ==> r.value < |xs| && p(xs[r.value]) && forall j :: 0 <= j < r.value ==> !p(xs[j])
    ensures r.None? ==> forall j :: 0 <= j < |xs| ==> !p(xs[j])
  {
    if xs == [] then None
    else if p(xs[0]) then Some(0)
    else
      match FirstIndex(xs[1..], p)
      case None => None
      case Some(i) => Some(i + 1)
  }

  /** The first element satisfying `p`, if there is one. */
  function FirstWhere<T>(xs: seq<T>, p: T -> bool): (r: Option<T>)
    ensures r.None? <==> forall j :: 0 <= j < |xs| ==> !p(xs[j])
    ensures r.Some? ==> exists i :: 0 <= i < |xs| && xs[i] == r.value && p(xs[i]) && forall j :: 0 <= j < i ==> !p(xs[j])
  {
    match FirstIndex(xs, p)
    case None => None
    case Some(i) => Some(xs[i])
  }

  /** A `for` loop that stops at the first element satisfying `p`. */
  method FindFirst<T>(xs: seq<T>, p: T -> bool) returns (found: Option<T>)
    ensures found == FirstWhere(xs, p)
  {
    found := None;
    for i := 0 to |xs|
      invariant found == None
      invariant forall j :: 0 <= j < i ==> !p(xs[j])
    {
      if p(xs[i]) {
        found := Some(xs[i]);
        return;
      }
    }
  }

  // ---------------------------------------------------------------------
  // Resolving the CDR file on disk
  // ---------------------------------------------------------------------

  /** The legacy location of an absolute path: `BASE_DIR/cdr_files/<basename>`. */
  function LegacyOfAbsolute(baseDir: string, path: string): (r: string)
    ensures r == JoinPrefix(baseDir) + "cdr_files" + "/" + Basename(path)
  {
    UnderCdrFiles(baseDir, Basename(path));
    Join3(baseDir, "cdr_files", Basename(path))
  }

  /** The legacy location keeps the file's base name. */
  lemma LegacyKeepsBasename(baseDir: string, path: string)
    ensures Basename(LegacyOfAbsolute(baseDir, path)) == Basename(path)
  {
    var dir := JoinPrefix(baseDir) + "cdr_files";
    BasenameAfterSlash(dir, Basename(path));
  }

  /** The legacy location of a relative path: under `cdr_files/` by base name if the path mentions it, else the path itself. */
  function LegacyOfRelative(baseDir: string, path: string): (r: string)
    ensures Contains(path, "cdr_files/") ==> r == LegacyOfAbsolute(baseDir, path)
    ensures !Contains(path, "cdr_files/") && !IsAbs(path) ==> r == JoinPrefix(baseDir) + path
  {
    if Contains(path, "cdr_files/") then Join3(baseDir, "cdr_files", Basename(path))
    else if IsAbs(path) then Join(baseDir, path)
    else
      JoinRelative(baseDir, path);
      Join(baseDir, path)
  }

  /** The locations that are checked for the CDR file, in the order they are checked. */
  function Candidates(s: Settings, path: string): (c: seq<string>)
    ensures IsAbs(path) ==> 1 <= |c| <= 2 && c[0] == path
    ensures !IsAbs(path) ==> |c| <= 2
    ensures forall i :: 0 <= i < |c| ==> c[i] != ""
  {
    LocationsNonEmpty(s, path);
    if IsAbs(path) then
      [path] + (if Truthy(s.baseDir) then [LegacyOfAbsolute(s.baseDir.value, path)] else [])
    else
      var media := if Truthy(s.mediaRoot) then [Join(s.mediaRoot.value, path)] else [];
      var legacy := if Truthy(s.baseDir) then [LegacyOfRelative(s.baseDir.value, path)] else [];
      assert forall i :: 0 <= i < |media + legacy| ==> (media + legacy)[i] in media || (media + legacy)[i] in legacy;
      media + legacy
  }

  /** No location built from a configured directory is empty. */
  lemma LocationsNonEmpty(s: Settings, path: string)
    ensures Truthy(s.mediaRoot) ==> Join(s.mediaRoot.value, path) != ""
    ensures Truthy(s.baseDir) ==> LegacyOfAbsolute(s.baseDir.value, path) != ""
    ensures Truthy(s.baseDir) ==> LegacyOfRelative(s.baseDir.value, path) != ""
  {
    if Truthy(s.baseDir) {
      var legacy := LegacyOfAbsolute(s.baseDir.value, path);
      assert |legacy| >= |"cdr_files"|;
    }
  }

  /** The path that is used: the first candidate that exists. */
  function ResolvedPath(s: Settings, existing: set<string>, path: string): (r: Option<string>)
    ensures r.Some? ==> r.value in existing && r.value in Candidates(s, path) && r.value != ""
    ensures r.None? <==> forall c :: c in Candidates(s, path) ==> c !in existing
  {
    FirstWhere(Candidates(s, path), (c: string) => c in existing)
  }

  /**
   * The branches that assign `cdr_file_full_path`: an absolute path first,
   * then its legacy location; a relative path under MEDIA_ROOT first, then
   * under BASE_DIR.
   */
  method ResolveCdrPath(s: Settings, existing: set<string>, path: string) returns (fullPath: Option<string>)
    ensures fullPath == ResolvedPath(s, existing, path)
  {
    ResolutionOrder(s, existing, path);
    fullPath := None;
    if IsAbs(path) {
      if path in existing {
        fullPath := Some(path);
      } else {
        var filename := Basename(path);
        if Truthy(s.baseDir) {
          var legacyPath := Join3(s.baseDir.value, "cdr_files", filename);
          if legacyPath in existing {
            fullPath := Some(legacyPath);
          }
        }
      }
    } else {
      if Truthy(s.mediaRoot) {
        var mediaPath := Join(s.mediaRoot.value, path);
        if mediaPath in existing {
          fullPath := Some(mediaPath);
        }
      }
      if !Truthy(fullPath) && Truthy(s.baseDir) {
        var legacyPath;
        if Contains(path, "cdr_files/") {
          var filename := Basename(path);
          legacyPath := Join3(s.baseDir.value, "cdr_files", filename);
        } else {
          legacyPath := Join(s.baseDir.value, path);
        }
        if legacyPath in existing {
          fullPath := Some(legacyPath);
        }
      }
    }
  }

  /** The search order, case by case. */
  lemma ResolutionOrder(s: Settings, existing: set<string>, path: string)
    ensures IsAbs(path) && path in existing ==> ResolvedPath(s, existing, path) == Some(path)
    ensures IsAbs(path) && path !in existing ==>
      ResolvedPath(s, existing, path) ==
        if Truthy(s.baseDir) && LegacyOfAbsolute(s.baseDir.value, path) in existing
        then Some(LegacyOfAbsolute(s.baseDir.value, path)) else None
    ensures !IsAbs(path) && Truthy(s.mediaRoot) && Join(s.mediaRoot.value, path) in existing ==>
      ResolvedPath(s, existing, path) == Some(Join(s.mediaRoot.value, path))
    ensures !IsAbs(path) && !(Truthy(s.mediaRoot) && Join(s.mediaRoot.value, path) in existing) ==>
      ResolvedPath(s, existing, path) ==
        if Truthy(s.baseDir) && LegacyOfRelative(s.baseDir.value, path) in existing
        then Some(LegacyOfRelative(s.baseDir.value, path)) else None
  {
  }

  // ---------------------------------------------------------------------
  // The conversion job
  // ---------------------------------------------------------------------

  /** The upload form of an import task. */
  datatype UploadForm = UploadForm(url: string, parameters: map<string, string>)

  /** One file produced by an export task. */
  datatype ExportedFile = ExportedFile(url: string)

  /** The `result` object of a task; a missing key is `None`. */
  datatype TaskResult = TaskResult(form: Option<UploadForm>, files: Option<seq<ExportedFile>>)

  /** One task of a conversion job as the service reports it. */
  datatype Task = Task(id: string, operation: string, status: string, result: Option<TaskResult>)

  /** How polling the job ended: finished with its tasks, failed with an optional message, or past the time limit. */
  datatype JobPoll = Finished(tasks: seq<Task>) | Failed(message: Option<string>) | TimedOut

  /** The exceptions the task raises (and then logs). */
  datatype Failure =
    | ValueError(message: string)
    | KeyError(key: string)
    | IndexError
    | JobFailed(message: string)
    | Timeout(message: string)

  /** How one call ends. */
  datatype Outcome =
    | MissingApiKey
    | CdrNotFound(tried: seq<string>)
    | Raised(failure: Failure)
    | Saved(source: string, uploadUrl: string, uploadFields: map<string, string>, uploadName: string,
            downloadUrl: string, storedAs: string)

  /** The task that receives the upload. */
  function IsWaitingUpload(t: Task): bool
  {
    t.operation == "import/upload" && t.status == "waiting"
  }

  /** The task that exports the converted file. */
  function IsUrlExport(t: Task): bool
  {
    t.operation == "export/url"
  }

  /** The export task, once it has finished. */
  function IsFinishedTask(id: string): Task -> bool
  {
    (t: Task) => t.id == id && t.status == "finished"
  }

  const UploadNotFound := "Upload task not found in job"
  const ExportNotFound := "Export task not found in job"
  const ExportNotCompleted := "Export task not completed or no files found"
  const JobFailedPrefix := "CloudConvert job failed: "
  const TimeoutMessage := "CloudConvert conversion timeout (exceeded 5 minutes)"

  /** The exception raised when the job itself reports an error. */
  function JobFailure(message: Option<string>): (f: Failure)
    ensures f.JobFailed? && JobFailedPrefix <= f.message
    ensures message.Some? ==> f.message[|JobFailedPrefix|..] == message.value
    ensures message.None? ==> f.message[|JobFailedPrefix|..] == "Unknown error"
  {
    var detail := if message.Some? then message.value else "Unknown error";
    assert (JobFailedPrefix + detail)[|JobFailedPrefix|..] == detail;
    JobFailed(JobFailedPrefix + detail)
  }

  /** The outcome once the job has been polled, given the export task id and the resolved file. */
  function AfterPolling(poll: JobPoll, exportId: string, full: string, form: UploadForm, path: string): (r: Outcome)
    ensures r.Raised? || r.Saved?
    ensures r.Saved? ==> r.source == full && r.uploadUrl == form.url && r.uploadFields == form.parameters
    ensures r.Saved? ==> r.uploadName == Basename(path)
    ensures r.Saved? ==> poll.Finished? && FirstWhere(poll.tasks, IsFinishedTask(exportId)).Some?
  {
    match poll
    case Failed(message) => Raised(JobFailure(message))
    case TimedOut => Raised(Timeout(TimeoutMessage))
    case Finished(finalTasks) =>
      match FirstWhere(finalTasks, IsFinishedTask(exportId))
      case None => Raised(ValueError(ExportNotCompleted))
      case Some(exportTask) =>
        if exportTask.result.None? || exportTask.result.value.files.None? then Raised(ValueError(ExportNotCompleted))
        else if exportTask.result.value.files.value == [] then Raised(IndexError)
        else Saved(full, form.url, form.parameters, Basename(path),
                   exportTask.result.value.files.value[0].url, "pdf_files/" + PdfFilename(path))
  }

  /** The outcome once the CDR file `full` has been found: the job's tasks decide the rest. */
  function WithCdrFile(full: string, path: string, jobTasks: seq<Task>, poll: JobPoll): (r: Outcome)
    ensures r.Raised? || r.Saved?
    ensures r.Saved? ==> r.source == full
  {
    match FirstWhere(jobTasks, IsWaitingUpload)
    case None => Raised(ValueError(UploadNotFound))
    case Some(upload) =>
      if upload.result.None? then Raised(KeyError("result"))
      else if upload.result.value.form.None? then Raised(KeyError("form"))
      else
        match FirstWhere(jobTasks, IsUrlExport)
        case None => Raised(ValueError(ExportNotFound))
        case Some(exportTask) =>
          if exportTask.id == "" then Raised(ValueError(ExportNotFound))
          else AfterPolling(poll, exportTask.id, full, upload.result.value.form.value, path)
  }

  /** What `convert_cdr_to_pdf` does, as a function of the settings, the file system and the service's answers. */
  function Conversion(s: Settings, existing: set<string>, path: string, jobTasks: seq<Task>, poll: JobPoll): (r: Outcome)
    ensures r == MissingApiKey <==> !Truthy(s.apiKey)
    ensures r.CdrNotFound? <==> Truthy(s.apiKey) && ResolvedPath(s, existing, path).None?
    ensures r.Saved? ==> Some(r.source) == ResolvedPath(s, existing, path)
  {
    if !Truthy(s.apiKey) then MissingApiKey
    else
      match ResolvedPath(s, existing, path)
      case None => CdrNotFound(AttemptedPathsAsWritten(s, path))
      case Some(full) => WithCdrFile(full, path, jobTasks, poll)
  }

  /**
   * `convert_cdr_to_pdf`, step by step: check the API key, resolve the file,
   * then run the job on it.
   */
  method ConvertCdrToPdf(s: Settings, existing: set<string>, path: string, jobTasks: seq<Task>, poll: JobPoll)
    returns (outcome: Outcome)
    ensures outcome == Conversion(s, existing, path, jobTasks, poll)
  {
    if !Truthy(s.apiKey) {
      return MissingApiKey;
    }
    var fullPath := ResolveCdrPath(s, existing, path);
    if !Truthy(fullPath) || fullPath.value !in existing {
      var attempted := AttemptedPaths(s, path);
      return CdrNotFound(attempted);
    }
    outcome := RunJob(fullPath.value, path, jobTasks, poll);
  }

  /** The "Tried:" list of the not-found report, built as the code builds it. */
  method AttemptedPaths(s: Settings, path: string) returns (attempted: seq<string>)
    ensures attempted == AttemptedPathsAsWritten(s, path)
  {
    attempted := [];
    if IsAbs(path) {
      attempted := attempted + [path];
    }
    ghost var absolute := attempted;
    if Truthy(s.mediaRoot) && !IsAbs(path) {
      attempted := attempted + [Join(s.mediaRoot.value, path)];
    }
    ghost var underMedia := attempted[|absolute|..];
    assert attempted == absolute + underMedia;
    if Truthy(s.baseDir) {
      attempted := attempted + [Join3(s.baseDir.value, "cdr_files", Basename(path))];
    }
  }

  /** The job part of `convert_cdr_to_pdf`: find the upload task and its form, then the export task id. */
  method RunJob(full: string, path: string, jobTasks: seq<Task>, poll: JobPoll) returns (outcome: Outcome)
    ensures outcome == WithCdrFile(full, path, jobTasks, poll)
  {
    var uploadTask := FindFirst(jobTasks, IsWaitingUpload);
    if uploadTask.None? {
      return Raised(ValueError(UploadNotFound));
    }
    if uploadTask.value.result.None? {
      return Raised(KeyError("result"));
    }
    if uploadTask.value.result.value.form.None? {
      return Raised(KeyError("form"));
    }
    var form := uploadTask.value.result.value.form.value;
    var exportTask := FindFirst(jobTasks, IsUrlExport);
    var exportTaskId: Option<string> := if exportTask.Some? then Some(exportTask.value.id) else None;
    if !Truthy(exportTaskId) {
      return Raised(ValueError(ExportNotFound));
    }
    outcome := CollectPdf(poll, exportTaskId.value, full, form, path);
  }

  /** After polling: find the finished export task and name the PDF after its first file. */
  method CollectPdf(poll: JobPoll, exportId: string, full: string, form: UploadForm, path: string) returns (outcome: Outcome)
    ensures outcome == AfterPolling(poll, exportId, full, form, path)
  {
    match poll {
      case Failed(message) =>
        return Raised(JobFailure(message));
      case TimedOut =>
        return Raised(Timeout(TimeoutMessage));
      case Finished(finalTasks) =>
        var finished := FindFirst(finalTasks, IsFinishedTask(exportId));
        if finished.None? || finished.value.result.None? || finished.value.result.value.files.None? {
          return Raised(ValueError(ExportNotCompleted));
        }
        var files := finished.value.result.value.files.value;
        if files == [] {
          return Raised(IndexError);
        }
        var pdfFilename := PdfFilename(path);
        outcome := Saved(full, form.url, form.parameters, Basename(path), files[0].url, "pdf_files/" + pdfFilename);
    }
  }

  // ---------------------------------------------------------------------
  // Properties of the conversion
  // ---------------------------------------------------------------------

  /** Without an API key nothing else is looked at: the outcome is the same whatever the files and the job. */
  lemma MissingApiKeyStopsFirst(s: Settings, existing1: set<string>, path1: string, tasks1: seq<Task>, poll1: JobPoll,
                                existing2: set<string>, path2: string, tasks2: seq<Task>, poll2: JobPoll)
    requires !Truthy(s.apiKey)
    ensures Conversion(s, existing1, path1, tasks1, poll1) == MissingApiKey
    ensures Conversion(s, existing1, path1, tasks1, poll1) == Conversion(s, existing2, path2, tasks2, poll2)
  {
  }

  /**
   * A file that cannot be found stops the task before the job is used.  The
   * report is the "Tried:" list as the code builds it; every location that
   * was actually checked is missing.
   */
  lemma NotFoundStopsBeforeUpload(s: Settings, existing: set<string>, path: string, tasks: seq<Task>, poll: JobPoll)
    requires Truthy(s.apiKey)
    ensures Conversion(s, existing, path, tasks, poll).CdrNotFound? <==> ResolvedPath(s, existing, path).None?
    ensures Conversion(s, existing, path, tasks, poll).CdrNotFound? ==>
      Conversion(s, existing, path, tasks, poll).tried == AttemptedPathsAsWritten(s, path)
    ensures Conversion(s, existing, path, tasks, poll).CdrNotFound? ==>
      forall c :: c in Candidates(s, path) ==> c !in existing
  {
  }

  /** A saved PDF comes from the resolved CDR file, which exists, and a configured key. */
  lemma SavedFromResolvedFile(s: Settings, existing: set<string>, path: string, tasks: seq<Task>, poll: JobPoll)
    requires Conversion(s, existing, path, tasks, poll).Saved?
    ensures Truthy(s.apiKey)
    ensures Conversion(s, existing, path, tasks, poll).source in existing
    ensures Some(Conversion(s, existing, path, tasks, poll).source) == ResolvedPath(s, existing, path)
  {
  }

  /**
   * A saved PDF was uploaded through the first waiting upload task of the
   * job, using its form, under the input's base name.
   */
  lemma SavedThroughUploadTask(s: Settings, existing: set<string>, path: string, tasks: seq<Task>, poll: JobPoll)
    requires Conversion(s, existing, path, tasks, poll).Saved?
    ensures FirstWhere(tasks, IsWaitingUpload).Some?
    ensures var upload := FirstWhere(tasks, IsWaitingUpload).value;
      upload.result.Some? && upload.result.value.form.Some? &&
      Conversion(s, existing, path, tasks, poll).uploadUrl == upload.result.value.form.value.url &&
      Conversion(s, existing, path, tasks, poll).uploadFields == upload.result.value.form.value.parameters
    ensures Conversion(s, existing, path, tasks, poll).uploadName == Basename(path)
  {
    ConversionSaved(s, existing, path, tasks, poll);
    var full := ResolvedPath(s, existing, path).value;
    WithCdrFileSaved(full, path, tasks, poll);
    var form := FirstWhere(tasks, IsWaitingUpload).value.result.value.form.value;
    var exportId := FirstWhere(tasks, IsUrlExport).value.id;
    var out := AfterPolling(poll, exportId, full, form, path);
    assert Conversion(s, existing, path, tasks, poll) == out;
  }

  /**
   * A saved PDF was downloaded from the first file of the finished task
   * whose id is that of the first `export/url` task, once the job finished.
   */
  lemma SavedFromExportTask(s: Settings, existing: set<string>, path: string, tasks: seq<Task>, poll: JobPoll)
    requires Conversion(s, existing, path, tasks, poll).Saved?
    ensures FirstWhere(tasks, IsUrlExport).Some? && FirstWhere(tasks, IsUrlExport).value.id != ""
    ensures poll.Finished?
    ensures FirstWhere(poll.tasks, IsFinishedTask(FirstWhere(tasks, IsUrlExport).value.id)).Some?
    ensures var exportId := FirstWhere(tasks, IsUrlExport).value.id;
      var exportTask := FirstWhere(poll.tasks, IsFinishedTask(exportId)).value;
      exportTask.id == exportId && exportTask.status == "finished" &&
      exportTask.result.Some? && exportTask.result.value.files.Some? && exportTask.result.value.files.value != [] &&
      Conversion(s, existing, path, tasks, poll).downloadUrl == exportTask.result.value.files.value[0].url
  {
    ConversionSaved(s, existing, path, tasks, poll);
    var full := ResolvedPath(s, existing, path).value;
    WithCdrFileSaved(full, path, tasks, poll);
    var form := FirstWhere(tasks, IsWaitingUpload).value.result.value.form.value;
    AfterPollingSaved(poll, FirstWhere(tasks, IsUrlExport).value.id, full, form, path);
  }

  /** A saved PDF is stored under `pdf_files/` with the input's base name and a `.pdf` extension. */
  lemma SavedUnderPdfName(s: Settings, existing: set<string>, path: string, tasks: seq<Task>, poll: JobPoll)
    requires Conversion(s, existing, path, tasks, poll).Saved?
    ensures Conversion(s, existing, path, tasks, poll).storedAs == "pdf_files/" + PdfFilename(path)
    ensures var stored := Conversion(s, existing, path, tasks, poll).storedAs;
      |stored| >= 4 && stored[|stored| - 4..] == ".pdf"
  {
    ConversionSaved(s, existing, path, tasks, poll);
    var full := ResolvedPath(s, existing, path).value;
    WithCdrFileSaved(full, path, tasks, poll);
    var form := FirstWhere(tasks, IsWaitingUpload).value.result.value.form.value;
    var exportId := FirstWhere(tasks, IsUrlExport).value.id;
    AfterPollingSaved(poll, exportId, full, form, path);
    var stored := Conversion(s, existing, path, tasks, poll).storedAs;
    assert stored == AfterPolling(poll, exportId, full, form, path).storedAs;
    StoredNameIsPdf(path);
  }

  /** A saved outcome is the outcome of the job run on the resolved file. */
  lemma ConversionSaved(s: Settings, existing: set<string>, path: string, tasks: seq<Task>, poll: JobPoll)
    requires Conversion(s, existing, path, tasks, poll).Saved?
    ensures ResolvedPath(s, existing, path).Some?
    ensures Conversion(s, existing, path, tasks, poll) == WithCdrFile(ResolvedPath(s, existing, path).value, path, tasks, poll)
  {
  }

  /** A saved outcome once the file is found needs an upload form and an export id, and is then the outcome after polling. */
  lemma WithCdrFileSaved(full: string, path: string, tasks: seq<Task>, poll: JobPoll)
    requires WithCdrFile(full, path, tasks, poll).Saved?
    ensures FirstWhere(tasks, IsWaitingUpload).Some?
    ensures FirstWhere(tasks, IsWaitingUpload).value.result.Some?
    ensures FirstWhere(tasks, IsWaitingUpload).value.result.value.form.Some?
    ensures FirstWhere(tasks, IsUrlExport).Some? && FirstWhere(tasks, IsUrlExport).value.id != ""
    ensures WithCdrFile(full, path, tasks, poll) ==
      AfterPolling(poll, FirstWhere(tasks, IsUrlExport).value.id, full,
                   FirstWhere(tasks, IsWaitingUpload).value.result.value.form.value, path)
  {
  }

  /** A saved outcome of the last stage, spelled out. */
  lemma AfterPollingSaved(poll: JobPoll, exportId: string, full: string, form: UploadForm, path: string)
    requires AfterPolling(poll, exportId, full, form, path).Saved?
    ensures poll.Finished? && FirstWhere(poll.tasks, IsFinishedTask(exportId)).Some?
    ensures var exportTask := FirstWhere(poll.tasks, IsFinishedTask(exportId)).value;
      exportTask.id == exportId && exportTask.status == "finished" &&
      exportTask.result.Some? && exportTask.result.value.files.Some? && exportTask.result.value.files.value != [] &&
      AfterPolling(poll, exportId, full, form, path).downloadUrl == exportTask.result.value.files.value[0].url
    ensures AfterPolling(poll, exportId, full, form, path).storedAs == "pdf_files/" + PdfFilename(path)
  {
    var exportTask := FirstWhere(poll.tasks, IsFinishedTask(exportId)).value;
    assert IsFinishedTask(exportId)(exportTask);
  }

  /** A failed or timed-out job raises the matching exception. */
  lemma JobErrorRaises(poll: JobPoll, exportId: string, full: string, form: UploadForm, path: string)
    ensures poll.Failed? ==> AfterPolling(poll, exportId, full, form, path) == Raised(JobFailure(poll.message))
    ensures poll.TimedOut? ==> AfterPolling(poll, exportId, full, form, path) == Raised(Timeout(TimeoutMessage))
  {
  }

  /** Without a finished task carrying the export id, `ValueError("Export task not completed or no files found")` is raised. */
  lemma UnfinishedExportRaises(finalTasks: seq<Task>, exportId: string, full: string, form: UploadForm, path: string)
    requires forall j :: 0 <= j < |finalTasks| ==> !IsFinishedTask(exportId)(finalTasks[j])
    ensures AfterPolling(Finished(finalTasks), exportId, full, form, path) == Raised(ValueError(ExportNotCompleted))
  {
  }

  /** A finished export task without `result` or without `result.files` raises the same `ValueError`. */
  lemma ExportFilesMissingRaises(finalTasks: seq<Task>, exportId: string, full: string, form: UploadForm, path: string)
    requires FirstWhere(finalTasks, IsFinishedTask(exportId)).Some?
    requires var exportTask := FirstWhere(finalTasks, IsFinishedTask(exportId)).value;
      exportTask.result.None? || exportTask.result.value.files.None?
    ensures AfterPolling(Finished(finalTasks), exportId, full, form, path) == Raised(ValueError(ExportNotCompleted))
  {
  }

  /** A finished export task with an empty file list fails on `files[0]`. */
  lemma NoExportedFileRaises(finalTasks: seq<Task>, exportId: string, full: string, form: UploadForm, path: string)
    requires FirstWhere(finalTasks, IsFinishedTask(exportId)).Some?
    requires FirstWhere(finalTasks, IsFinishedTask(exportId)).value.result.Some?
    requires FirstWhere(finalTasks, IsFinishedTask(exportId)).value.result.value.files == Some([])
    ensures AfterPolling(Finished(finalTasks), exportId, full, form, path) == Raised(IndexError)
  {
  }

  /** The last stage saves exactly when the job finished and its first finished export task has a non-empty file list. */
  lemma AfterPollingSavesExactly(poll: JobPoll, exportId: string, full: string, form: UploadForm, path: string)
    ensures AfterPolling(poll, exportId, full, form, path).Saved? <==>
      poll.Finished? && FirstWhere(poll.tasks, IsFinishedTask(exportId)).Some? &&
      FirstWhere(poll.tasks, IsFinishedTask(exportId)).value.result.Some? &&
      FirstWhere(poll.tasks, IsFinishedTask(exportId)).value.result.value.files.Some? &&
      FirstWhere(poll.tasks, IsFinishedTask(exportId)).value.result.value.files.value != []
  {
    match poll
    case Finished(finalTasks) =>
      var found := FirstWhere(finalTasks, IsFinishedTask(exportId));
      if found.Some? {
        var exportTask := found.value;
        if exportTask.result.Some? && exportTask.result.value.files.Some? && exportTask.result.value.files.value != [] {
          assert AfterPolling(poll, exportId, full, form, path).Saved?;
        }
      }
    case Failed(_) =>
    case TimedOut =>
  }

  /** The stored name keeps the `.pdf` extension of the derived file name. */
  lemma StoredNameIsPdf(path: string)
    ensures var stored := "pdf_files/" + PdfFilename(path);
      |stored| >= 4 && stored[|stored| - 4..] == ".pdf"
  {
    SuffixKept("pdf_files/", PdfFilename(path));
  }

  /** Prepending a directory keeps the last four characters. */
  lemma SuffixKept(dir: string, name: string)
    requires |name| >= 4
    ensures |dir + name| >= 4 && (dir + name)[|dir + name| - 4..] == name[|name| - 4..]
  {
    var joined := dir + name;
    assert joined[|joined| - 4..] == name[|name| - 4..];
  }

  /** With the key set and the file found, a job without a waiting upload task raises `ValueError`. */
  lemma NoUploadTaskRaises(s: Settings, existing: set<string>, path: string, tasks: seq<Task>, poll: JobPoll)
    requires Truthy(s.apiKey) && ResolvedPath(s, existing, path).Some?
    requires forall j :: 0 <= j < |tasks| ==> !IsWaitingUpload(tasks[j])
    ensures Conversion(s, existing, path, tasks, poll) == Raised(ValueError(UploadNotFound))
  {
  }

  /** A usable upload task but no `export/url` task, or one with an empty id, raises `ValueError`. */
  lemma NoExportTaskRaises(s: Settings, existing: set<string>, path: string, tasks: seq<Task>, poll: JobPoll)
    requires Truthy(s.apiKey) && ResolvedPath(s, existing, path).Some?
    requires FirstWhere(tasks, IsWaitingUpload).Some?
    requires FirstWhere(tasks, IsWaitingUpload).value.result.Some?
    requires FirstWhere(tasks, IsWaitingUpload).value.result.value.form.Some?
    requires FirstWhere(tasks, IsUrlExport).None? || FirstWhere(tasks, IsUrlExport).value.id == ""
    ensures Conversion(s, existing, path, tasks, poll) == Raised(ValueError(ExportNotFound))
  {
  }

  // ---------------------------------------------------------------------
  // The "Tried:" report of a missing file
  // ---------------------------------------------------------------------

  /** The list of paths reported as tried when the file is missing, as the report builds it. */
  function AttemptedPathsAsWritten(s: Settings, path: string): seq<string>
  {
    (if IsAbs(path) then [path] else []) +
    (if Truthy(s.mediaRoot) && !IsAbs(path) then [Join(s.mediaRoot.value, path)] else []) +
    (if Truthy(s.baseDir) then [Join3(s.baseDir.value, "cdr_files", Basename(path))] else [])
  }

  /** The report is right for absolute paths and for relative paths that mention `cdr_files/`. */
  lemma AttemptedPathsAgreeWhenLegacyNamed(s: Settings, path: string)
    requires IsAbs(path) || Contains(path, "cdr_files/")
    ensures AttemptedPathsAsWritten(s, path) == Candidates(s, path)
  {
    if Truthy(s.baseDir) {
      var base := s.baseDir.value;
      assert LegacyOfAbsolute(base, path) == Join3(base, "cdr_files", Basename(path));
      assert !IsAbs(path) ==> LegacyOfRelative(base, path) == LegacyOfAbsolute(base, path);
    }
  }

  /** What `os.path.join(base, _)` puts in front of a relative path. */
  function JoinPrefix(base: string): string
  {
    if base == [] || base[|base| - 1] == '/' then base else base + "/"
  }

  /** Joining a relative path appends it to the prefix. */
  lemma JoinRelative(base: string, rel: string)
    requires !IsAbs(rel)
    ensures Join(base, rel) == JoinPrefix(base) + rel
  {
  }

  /**
   * For a relative path that does not mention `cdr_files/`, with BASE_DIR
   * set, the report names `BASE_DIR/cdr_files/<basename>`, a path that was
   * never checked, instead of `BASE_DIR/<path>`, the one that was.
   */
  lemma AttemptedPathsMisreport(s: Settings, path: string)
    requires !IsAbs(path) && !Contains(path, "cdr_files/") && Truthy(s.baseDir)
    ensures AttemptedPathsAsWritten(s, path) != Candidates(s, path)
    ensures Join3(s.baseDir.value, "cdr_files", Basename(path)) != Join(s.baseDir.value, path)
  {
    LegacyLocationMisreported(s.baseDir.value, path);
    ReportedLast(s, path);
    CheckedLast(s, path);
  }

  /** With BASE_DIR set, the report ends with `BASE_DIR/cdr_files/<basename>`. */
  lemma ReportedLast(s: Settings, path: string)
    requires Truthy(s.baseDir)
    ensures var reported := AttemptedPathsAsWritten(s, path);
      |reported| > 0 && reported[|reported| - 1] == Join3(s.baseDir.value, "cdr_files", Basename(path))
  {
  }

  /** With BASE_DIR set, the last location checked for a relative path without `cdr_files/` is `BASE_DIR/<path>`. */
  lemma CheckedLast(s: Settings, path: string)
    requires !IsAbs(path) && !Contains(path, "cdr_files/") && Truthy(s.baseDir)
    ensures var checked := Candidates(s, path);
      |checked| > 0 && checked[|checked| - 1] == Join(s.baseDir.value, path)
  {
  }

  /** `BASE_DIR/cdr_files/<basename>` is not `BASE_DIR/<path>` for a relative path without `cdr_files/`. */
  lemma LegacyLocationMisreported(base: string, path: string)
    requires !IsAbs(path) && !Contains(path, "cdr_files/")
    ensures Join3(base, "cdr_files", Basename(path)) != Join(base, path)
  {
    var name := Basename(path);
    UnderCdrFiles(base, name);
    JoinRelative(base, path);
    DifferentTails(JoinPrefix(base), path, name);
  }

  /** `os.path.join(base, 'cdr_files', name)` for a name without slashes. */
  lemma UnderCdrFiles(base: string, name: string)
    requires '/' !in name
    ensures Join3(base, "cdr_files", name) == JoinPrefix(base) + "cdr_files" + "/" + name
  {
    JoinRelative(base, "cdr_files");
    var dir := JoinPrefix(base) + "cdr_files";
    assert dir[|dir| - 1] == 's';
    assert !IsAbs(name) by {
      if |name| > 0 { assert name[0] in name; }
    }
  }

  /** After a common prefix, `cdr_files/<name>` differs from a path that does not contain `cdr_files/`. */
  lemma DifferentTails(prefix: string, path: string, name: string)
    requires !Contains(path, "cdr_files/")
    ensures prefix + "cdr_files" + "/" + name != prefix + path
  {
    var reported, checked := prefix + "cdr_files" + "/" + name, prefix + path;
    assert reported[|prefix|..] == "cdr_files/" + name;
    assert checked[|prefix|..] == path;
  }
}
