/** The attachment-filtering pipeline of `download_attachments`: the pure
    specification of one run over an abstract world, the properties it
    has, and the `Downloader` class that performs the run step by step. */
module Pipeline {
  import opened Common
  import opened Text
  import opened Gmail
  import opened Pdf
  import opened Matching

  const DEFAULT_DOWNLOAD_FOLDER := "attachments"

  /** `os.path.join(folder, name)`, kept as the pair of its parts. */
  datatype FilePath = FilePath(folder: string, name: string)

  /** The collaborators the pipeline calls but does not implement: the mail
      service, `base64.urlsafe_b64decode`, the PDF library, the error (if
      any) that `open(path, 'wb')` raises for a path, and the error (if any)
      that `f.write` raises for a path and the bytes written. */
  datatype Collaborators = Collaborators(
    service: Service,
    decode: string -> Result<Bytes>,
    parse: Bytes -> Document,
    openError: FilePath -> Option<string>,
    writeError: (FilePath, Bytes) -> Option<string>)

  /** What a run can observe or change: the files on disk, the existing
      directories, the printed lines and the requests sent to the service. */
  datatype World = World(files: map<FilePath, Bytes>, dirs: set<string>, log: seq<string>, calls: seq<Call>)

  /** A run either finishes or is stopped by an exception outside the
      per-part `try`. */
  datatype Outcome = Completed | Aborted(detail: string)

  datatype Run = Run(world: World, outcome: Outcome)

  /** The world at the end of a part's `try` block and the exception raised
      in it, if any. */
  datatype Step = Step(world: World, error: Option<string>)

  /** A non-empty filename whose lower-cased form ends in `.pdf`. */
  predicate IsPdfName(name: string)
  {
    name != "" && EndsWith(Lower(name), ".pdf")
  }

  /** The part filter of `download_attachments`. */
  predicate IsSelected(part: Part)
  {
    part.filename.Some? && IsPdfName(part.filename.value)
  }

  function ErrorLine(filename: string, detail: string): string
  {
    "Error processing " + filename + ": " + detail
  }

  function DownloadedLine(filename: string): string
  {
    "Downloaded: " + filename
  }

  /** `save_attachment`: opening the file (which may raise) creates or
      truncates it, then the decoded data is written (which may raise, and
      then leaves the file truncated) and a line printed. */
  function SaveSpec(env: Collaborators, w: World, data: string, filename: string, folder: string): Step
  {
    var path := FilePath(folder, filename);
    match env.openError(path)
    case Some(e) => Step(w, Some(e))
    case None =>
      match env.decode(data)
      case Failure(e) => Step(w.(files := w.files[path := []]), Some(e))
      case Success(raw) =>
        match env.writeError(path, raw)
        case Some(e) => Step(w.(files := w.files[path := []]), Some(e))
        case None => Step(w.(files := w.files[path := raw], log := w.log + [DownloadedLine(filename)]), None)
  }

  /** The `try` block for one selected part: retrieve, extract, match, save. */
  function TryPart(env: Collaborators, w: World, messageId: string, part: Part, filename: string,
                   searchStrings: seq<string>, folder: string): Step
  {
    var w1 := w.(calls := w.calls + RetrievalCalls(messageId, part));
    match GetAttachmentData(env.service, messageId, part)
    case Failure(e) => Step(w1, Some(e))
    case Success(data) =>
      match env.decode(data)
      case Failure(e) => Step(w1, Some(e))
      case Success(raw) =>
        var doc := env.parse(raw);
        var w2 := w1.(log := w1.log + ReadLog(doc));
        if ContainsSearchStrings(ReadText(doc), searchStrings) then SaveSpec(env, w2, data, filename, folder)
        else Step(w2, None)
  }

  /** One iteration of the inner loop: unselected parts are skipped; an
      exception in the `try` block is printed with the filename. */
  function PartStep(env: Collaborators, w: World, messageId: string, part: Part,
                    searchStrings: seq<string>, folder: string): World
  {
    if !IsSelected(part) then w
    else
      var filename := part.filename.value;
      var step := TryPart(env, w, messageId, part, filename, searchStrings, folder);
      match step.error
      case None => step.world
      case Some(e) => step.world.(log := step.world.log + [ErrorLine(filename, e)])
  }

  /** The inner loop over a message's top-level parts. */
  function PartsStep(env: Collaborators, w: World, messageId: string, parts: seq<Part>,
                     searchStrings: seq<string>, folder: string): World
    decreases |parts|
  {
    if parts == [] then w
    else PartsStep(env, PartStep(env, w, messageId, parts[0], searchStrings, folder), messageId, parts[1..], searchStrings, folder)
  }

  /** One iteration of the outer loop: a missing `id`, a failing fetch or a
      missing `payload` raises outside the `try` and stops the run; a payload
      without `parts` is skipped. */
  function MessageStep(env: Collaborators, w: World, message: MessageRef,
                       searchStrings: seq<string>, folder: string): (r: Run)
    ensures r.outcome.Aborted? <==>
              || message.id.None?
              || env.service.get(message.id.value).Failure?
              || env.service.get(message.id.value).value.payload.None?
  {
    match message.id
    case None => Run(w, Aborted(KeyErrorDetail("id")))
    case Some(id) =>
      var w1 := w.(calls := w.calls + [GetCall(id)]);
      match env.service.get(id)
      case Failure(e) => Run(w1, Aborted(e))
      case Success(msg) =>
        match msg.payload
        case None => Run(w1, Aborted(KeyErrorDetail("payload")))
        case Some(payload) =>
          match payload.parts
          case None => Run(w1, Completed)
          case Some(parts) => Run(PartsStep(env, w1, id, parts, searchStrings, folder), Completed)
  }

  /** The outer loop over the candidate messages, stopping at the first abort. */
  function MessagesStep(env: Collaborators, w: World, messages: seq<MessageRef>,
                        searchStrings: seq<string>, folder: string): Run
    decreases |messages|
  {
    if messages == [] then Run(w, Completed)
    else
      var r := MessageStep(env, w, messages[0], searchStrings, folder);
      if r.outcome.Aborted? then r
      else MessagesStep(env, r.world, messages[1..], searchStrings, folder)
  }

  /** `download_attachments`: create the folder if absent, list the
      candidates, then process every message. */
  function RunSpec(env: Collaborators, w: World, startDate: string, endDate: string,
                   searchStrings: seq<string>, folder: string): Run
  {
    var w1 := if folder in w.dirs then w else w.(dirs := w.dirs + {folder});
    var w2 := w1.(calls := w1.calls + [ListCall(Query(startDate, endDate))]);
    match GetMessages(env.service, startDate, endDate)
    case Failure(e) => Run(w2, Aborted(e))
    case Success(messages) => MessagesStep(env, w2, messages, searchStrings, folder)
  }

  // ---------------------------------------------------------------------
  // Part selection

  /** The extension test is case-insensitive: a name is selected exactly when
      its last four characters, lower-cased, are `.pdf`. */
  lemma PdfNameIff(name: string)
    ensures IsPdfName(name) <==> |name| >= 4 && Lower(name[|name| - 4..]) == ".pdf"
  {
    if |name| >= 4 {
      LowerAppend(name[..|name| - 4], name[|name| - 4..]);
      assert name == name[..|name| - 4] + name[|name| - 4..];
    }
  }

  /** Any spelling of the extension (`.PDF`, `.Pdf`, `.pdf`, ...) selects the part. */
  lemma PdfExtensionInAnyCase(base: string, ext: string, body: Option<Body>, children: Option<seq<Part>>)
    requires Lower(ext) == ".pdf"
    ensures IsSelected(Part(Some(base + ext), body, children))
  {
    var name := base + ext;
    assert name[|name| - 4..] == ext;
    PdfNameIff(name);
  }

  /** Only the top-level part is examined: its own children never change what
      processing it does. */
  lemma ChildrenIgnored(env: Collaborators, w: World, messageId: string, part: Part,
                        children: Option<seq<Part>>, searchStrings: seq<string>, folder: string)
    ensures PartStep(env, w, messageId, part.(parts := children), searchStrings, folder) ==
            PartStep(env, w, messageId, part, searchStrings, folder)
  {
    var other := part.(parts := children);
    if IsSelected(part) {
      var filename := part.filename.value;
      RetrievalDependsOnBodyOnly(env.service, messageId, part, other);
      assert TryPart(env, w, messageId, other, filename, searchStrings, folder) ==
             TryPart(env, w, messageId, part, filename, searchStrings, folder);
    }
  }

  lemma RetrievalDependsOnBodyOnly(service: Service, messageId: string, p1: Part, p2: Part)
    requires p1.body == p2.body
    ensures RetrievalCalls(messageId, p1) == RetrievalCalls(messageId, p2)
    ensures GetAttachmentData(service, messageId, p1) == GetAttachmentData(service, messageId, p2)
  {
  }

  /** The parts the filter of the inner loop keeps, in their order. */
  function SelectedParts(parts: seq<Part>): (r: seq<Part>)
    ensures forall i :: 0 <= i < |r| ==> IsSelected(r[i])
    ensures forall p :: p in r <==> p in parts && IsSelected(p)
    ensures |r| <= |parts|
  {
    if parts == [] then []
    else if IsSelected(parts[0]) then [parts[0]] + SelectedParts(parts[1..])
    else SelectedParts(parts[1..])
  }

  /** Skipped parts leave no trace at all: no request, no file, no line.
      Processing a list of parts is processing its selected parts. */
  lemma {:induction false} SkippedPartsInvisible(env: Collaborators, w: World, messageId: string, parts: seq<Part>,
                                                  searchStrings: seq<string>, folder: string)
    ensures PartsStep(env, w, messageId, parts, searchStrings, folder) ==
            PartsStep(env, w, messageId, SelectedParts(parts), searchStrings, folder)
    decreases |parts|
  {
    if parts != [] {
      var w1 := PartStep(env, w, messageId, parts[0], searchStrings, folder);
      SkippedPartsInvisible(env, w1, messageId, parts[1..], searchStrings, folder);
      if IsSelected(parts[0]) {
        assert ([parts[0]] + SelectedParts(parts[1..]))[1..] == SelectedParts(parts[1..]);
      } else {
        SkippedPartsInvisible(env, w, messageId, parts[1..], searchStrings, folder);
      }
    }
  }

  /** A message whose top-level parts include no PDF contributes only its own
      fetch, whatever its nested parts hold. */
  lemma NoPdfPartNoEffect(env: Collaborators, w: World, id: string, payload: Part, parts: seq<Part>,
                          searchStrings: seq<string>, folder: string)
    requires env.service.get(id) == Success(FullMessage(Some(payload)))
    requires payload.parts == Some(parts)
    requires forall i :: 0 <= i < |parts| ==> !IsSelected(parts[i])
    ensures MessageStep(env, w, MessageRef(Some(id)), searchStrings, folder) ==
            Run(w.(calls := w.calls + [GetCall(id)]), Completed)
  {
    var w1 := w.(calls := w.calls + [GetCall(id)]);
    SkippedPartsInvisible(env, w1, id, parts, searchStrings, folder);
    assert SelectedParts(parts) == [];
  }

  /** A payload without `parts` contributes only its own fetch. */
  lemma MessageWithoutParts(env: Collaborators, w: World, id: string, payload: Part,
                            searchStrings: seq<string>, folder: string)
    requires env.service.get(id) == Success(FullMessage(Some(payload)))
    requires payload.parts.None?
    ensures MessageStep(env, w, MessageRef(Some(id)), searchStrings, folder) ==
            Run(w.(calls := w.calls + [GetCall(id)]), Completed)
  {
  }

  // ---------------------------------------------------------------------
  // Writing files

  /** The file a part's processing writes, if any: a selected part whose
      retrieval, decoding and opening succeed and whose extracted text
      matches is stored under its filename with the decoded data, or left
      empty when the write raises. */
  function PartWrite(env: Collaborators, messageId: string, part: Part,
                     searchStrings: seq<string>, folder: string): (pw: Option<(FilePath, Bytes)>)
    ensures pw.Some? ==>
              && IsSelected(part)
              && pw.value.0 == FilePath(folder, part.filename.value)
              && GetAttachmentData(env.service, messageId, part).Success?
              && env.decode(GetAttachmentData(env.service, messageId, part).value).Success?
              && var raw := env.decode(GetAttachmentData(env.service, messageId, part).value).value;
                 && ContainsSearchStrings(ReadText(env.parse(raw)), searchStrings)
                 && env.openError(pw.value.0).None?
                 && pw.value.1 == (if env.writeError(pw.value.0, raw).None? then raw else [])
    ensures (&& IsSelected(part)
             && GetAttachmentData(env.service, messageId, part).Success?
             && env.decode(GetAttachmentData(env.service, messageId, part).value).Success?
             && ContainsSearchStrings(ReadText(env.parse(env.decode(GetAttachmentData(env.service, messageId, part).value).value)), searchStrings)
             && env.openError(FilePath(folder, part.filename.value)).None?)
            ==> pw.Some?
  {
    if !IsSelected(part) then None
    else
      var path := FilePath(folder, part.filename.value);
      match GetAttachmentData(env.service, messageId, part)
      case Failure(_) => None
      case Success(data) =>
        match env.decode(data)
        case Failure(_) => None
        case Success(raw) =>
          if ContainsSearchStrings(ReadText(env.parse(raw)), searchStrings) && env.openError(path).None?
          then Some((path, if env.writeError(path, raw).None? then raw else []))
          else None
  }

  /** A part changes the folder only by storing `PartWrite`'s file: the
      truncation `save_attachment` would leave behind on a decoding error
      cannot happen, because the same data already decoded for extraction;
      only a failing write leaves the file empty. */
  lemma PartStepFiles(env: Collaborators, w: World, messageId: string, part: Part,
                      searchStrings: seq<string>, folder: string)
    ensures var pw := PartWrite(env, messageId, part, searchStrings, folder);
            PartStep(env, w, messageId, part, searchStrings, folder).files ==
              if pw.Some? then w.files[pw.value.0 := pw.value.1] else w.files
  {
  }

  /** A part whose retrieval or decoding raises prints one error line naming
      the file, writes nothing, and the loop goes on with the next part. */
  lemma FailedPartIsIsolated(env: Collaborators, w: World, messageId: string, part: Part, rest: seq<Part>,
                             searchStrings: seq<string>, folder: string, detail: string)
    requires IsSelected(part)
    requires || GetAttachmentData(env.service, messageId, part) == Failure(detail)
             || (GetAttachmentData(env.service, messageId, part).Success? &&
                 env.decode(GetAttachmentData(env.service, messageId, part).value) == Failure(detail))
    ensures PartsStep(env, w, messageId, [part] + rest, searchStrings, folder) ==
            PartsStep(env, w.(calls := w.calls + RetrievalCalls(messageId, part),
                              log := w.log + [ErrorLine(part.filename.value, detail)]),
                      messageId, rest, searchStrings, folder)
  {
    assert ([part] + rest)[1..] == rest;
  }

  /** A matching part whose write raises stays in the folder as an empty
      file, and the error is printed with its filename after the
      extraction's lines. */
  lemma FailedWriteLeavesEmptyFile(env: Collaborators, w: World, messageId: string, part: Part,
                                   searchStrings: seq<string>, folder: string,
                                   data: string, raw: Bytes, detail: string)
    requires IsSelected(part)
    requires GetAttachmentData(env.service, messageId, part) == Success(data)
    requires env.decode(data) == Success(raw)
    requires ContainsSearchStrings(ReadText(env.parse(raw)), searchStrings)
    requires env.openError(FilePath(folder, part.filename.value)).None?
    requires env.writeError(FilePath(folder, part.filename.value), raw) == Some(detail)
    ensures PartStep(env, w, messageId, part, searchStrings, folder) ==
            w.(files := w.files[FilePath(folder, part.filename.value) := []],
               calls := w.calls + RetrievalCalls(messageId, part),
               log := w.log + ReadLog(env.parse(raw)) + [ErrorLine(part.filename.value, detail)])
  {
  }

  /** A later matching part with the same filename replaces the earlier one's
      file; nothing else in the folder changes. */
  lemma LaterWriteWins(env: Collaborators, w: World, messageId: string, p1: Part, p2: Part,
                       searchStrings: seq<string>, folder: string)
    requires PartWrite(env, messageId, p1, searchStrings, folder).Some?
    requires PartWrite(env, messageId, p2, searchStrings, folder).Some?
    requires p1.filename == p2.filename
    ensures var pw := PartWrite(env, messageId, p2, searchStrings, folder).value;
            PartsStep(env, w, messageId, [p1, p2], searchStrings, folder).files == w.files[pw.0 := pw.1]
  {
    var w1 := PartStep(env, w, messageId, p1, searchStrings, folder);
    PartStepFiles(env, w, messageId, p1, searchStrings, folder);
    PartStepFiles(env, w1, messageId, p2, searchStrings, folder);
    assert [p1, p2][1..] == [p2];
    assert [p2][1..] == [];
    var pw1 := PartWrite(env, messageId, p1, searchStrings, folder).value;
    var pw2 := PartWrite(env, messageId, p2, searchStrings, folder).value;
    assert pw1.0 == pw2.0;
    var w2 := PartStep(env, w1, messageId, p2, searchStrings, folder);
    assert PartsStep(env, w1, messageId, [p2], searchStrings, folder) == PartsStep(env, w2, messageId, [], searchStrings, folder) == w2;
    assert PartsStep(env, w, messageId, [p1, p2], searchStrings, folder) == PartsStep(env, w1, messageId, [p2], searchStrings, folder);
    assert w.files[pw1.0 := pw1.1][pw2.0 := pw2.1] == w.files[pw2.0 := pw2.1];
  }

  /** An extraction failure yields "", and "" contains the empty search
      string, which a leading, doubled or trailing comma in the configuration
      produces: an unreadable PDF is then saved. */
  lemma UnreadablePdfSavedWithEmptySearchString(env: Collaborators, messageId: string, part: Part,
                                                searchStrings: seq<string>, folder: string,
                                                data: string, raw: Bytes, detail: string)
    requires IsSelected(part)
    requires GetAttachmentData(env.service, messageId, part) == Success(data)
    requires env.decode(data) == Success(raw) && env.parse(raw) == Failure(detail)
    requires env.openError(FilePath(folder, part.filename.value)).None?
    requires env.writeError(FilePath(folder, part.filename.value), raw).None?
    requires "" in searchStrings
    ensures PartWrite(env, messageId, part, searchStrings, folder) == Some((FilePath(folder, part.filename.value), raw))
  {
    EmptySearchStringMatchesAll("", searchStrings);
  }

  /** Without an empty search string, an unreadable PDF is never saved. */
  lemma UnreadablePdfNotSaved(env: Collaborators, messageId: string, part: Part,
                              searchStrings: seq<string>, folder: string, data: string, raw: Bytes)
    requires GetAttachmentData(env.service, messageId, part) == Success(data)
    requires env.decode(data) == Success(raw) && DocumentText(env.parse(raw)).Failure?
    requires "" !in searchStrings
    ensures PartWrite(env, messageId, part, searchStrings, folder).None?
  {
    EmptyTextMatchesOnlyEmptySearchString(searchStrings);
  }

  // ---------------------------------------------------------------------
  // Whole-run properties

  /** What processing may do to the world: directories stay as they are, no
      file disappears, only PDF-named files in the download folder change,
      the printed lines and the requests only grow, and no list request is
      added. */
  ghost predicate Evolves(w: World, w': World, folder: string)
  {
    && w'.dirs == w.dirs
    && w.files.Keys <= w'.files.Keys
    && (forall p :: p in w'.files && (p !in w.files || w'.files[p] != w.files[p]) ==>
                      p.folder == folder && IsPdfName(p.name))
    && w.log <= w'.log
    && w.calls <= w'.calls
    && (forall i :: |w.calls| <= i < |w'.calls| ==> !w'.calls[i].ListCall?)
  }

  lemma EvolvesTrans(a: World, b: World, c: World, folder: string)
    requires Evolves(a, b, folder) && Evolves(b, c, folder)
    ensures Evolves(a, c, folder)
  {
    forall i | |a.calls| <= i < |c.calls| ensures !c.calls[i].ListCall? {
      if i < |b.calls| {
        assert c.calls[i] == b.calls[i];
      }
    }
  }

  lemma SaveEvolves(env: Collaborators, w: World, data: string, filename: string, folder: string)
    requires IsPdfName(filename)
    ensures Evolves(w, SaveSpec(env, w, data, filename, folder).world, folder)
  {
  }

  lemma TryPartEvolves(env: Collaborators, w: World, messageId: string, part: Part, filename: string,
                       searchStrings: seq<string>, folder: string)
    requires IsPdfName(filename)
    ensures Evolves(w, TryPart(env, w, messageId, part, filename, searchStrings, folder).world, folder)
  {
    var w1 := w.(calls := w.calls + RetrievalCalls(messageId, part));
    assert Evolves(w, w1, folder);
    var data := GetAttachmentData(env.service, messageId, part);
    if data.Success? && env.decode(data.value).Success? {
      var doc := env.parse(env.decode(data.value).value);
      var w2 := w1.(log := w1.log + ReadLog(doc));
      assert Evolves(w1, w2, folder);
      EvolvesTrans(w, w1, w2, folder);
      SaveEvolves(env, w2, data.value, filename, folder);
      EvolvesTrans(w, w2, SaveSpec(env, w2, data.value, filename, folder).world, folder);
    }
  }

  lemma PartStepEvolves(env: Collaborators, w: World, messageId: string, part: Part,
                        searchStrings: seq<string>, folder: string)
    ensures Evolves(w, PartStep(env, w, messageId, part, searchStrings, folder), folder)
  {
    if IsSelected(part) {
      var filename := part.filename.value;
      var step := TryPart(env, w, messageId, part, filename, searchStrings, folder);
      TryPartEvolves(env, w, messageId, part, filename, searchStrings, folder);
      if step.error.Some? {
        var w' := step.world.(log := step.world.log + [ErrorLine(filename, step.error.value)]);
        assert Evolves(step.world, w', folder);
        EvolvesTrans(w, step.world, w', folder);
      }
    }
  }

  lemma {:induction false} PartsStepEvolves(env: Collaborators, w: World, messageId: string, parts: seq<Part>,
                                             searchStrings: seq<string>, folder: string)
    ensures Evolves(w, PartsStep(env, w, messageId, parts, searchStrings, folder), folder)
    decreases |parts|
  {
    if parts != [] {
      var w1 := PartStep(env, w, messageId, parts[0], searchStrings, folder);
      PartStepEvolves(env, w, messageId, parts[0], searchStrings, folder);
      PartsStepEvolves(env, w1, messageId, parts[1..], searchStrings, folder);
      EvolvesTrans(w, w1, PartsStep(env, w1, messageId, parts[1..], searchStrings, folder), folder);
    }
  }

  lemma MessageStepEvolves(env: Collaborators, w: World, message: MessageRef,
                           searchStrings: seq<string>, folder: string)
    ensures Evolves(w, MessageStep(env, w, message, searchStrings, folder).world, folder)
  {
    if message.id.Some? {
      var id := message.id.value;
      var w1 := w.(calls := w.calls + [GetCall(id)]);
      assert Evolves(w, w1, folder);
      var got := env.service.get(id);
      if got.Success? && got.value.payload.Some? && got.value.payload.value.parts.Some? {
        var parts := got.value.payload.value.parts.value;
        PartsStepEvolves(env, w1, id, parts, searchStrings, folder);
        EvolvesTrans(w, w1, PartsStep(env, w1, id, parts, searchStrings, folder), folder);
      }
    }
  }

  lemma {:induction false} MessagesStepEvolves(env: Collaborators, w: World, messages: seq<MessageRef>,
                                                searchStrings: seq<string>, folder: string)
    ensures Evolves(w, MessagesStep(env, w, messages, searchStrings, folder).world, folder)
    decreases |messages|
  {
    if messages != [] {
      var r := MessageStep(env, w, messages[0], searchStrings, folder);
      MessageStepEvolves(env, w, messages[0], searchStrings, folder);
      if r.outcome.Completed? {
        MessagesStepEvolves(env, r.world, messages[1..], searchStrings, folder);
        EvolvesTrans(w, r.world, MessagesStep(env, r.world, messages[1..], searchStrings, folder).world, folder);
      }
    }
  }

  /** Over a whole run: the download folder exists afterwards (and creating
      an existing one changes nothing); exactly one list request is sent,
      first, with the window's query (no pagination); printed lines are only
      appended; no file is removed; and every file that is created or changed
      is a PDF-named file in the download folder. */
  lemma RunShape(env: Collaborators, w: World, startDate: string, endDate: string,
                 searchStrings: seq<string>, folder: string)
    ensures var r := RunSpec(env, w, startDate, endDate, searchStrings, folder).world;
            && r.dirs == w.dirs + {folder}
            && |w.calls| < |r.calls|
            && r.calls[..|w.calls| + 1] == w.calls + [ListCall(Query(startDate, endDate))]
            && (forall i :: |w.calls| < i < |r.calls| ==> !r.calls[i].ListCall?)
            && w.log <= r.log
            && w.files.Keys <= r.files.Keys
            && (forall p :: p in r.files && (p !in w.files || r.files[p] != w.files[p]) ==>
                              p.folder == folder && IsPdfName(p.name))
  {
    var w1 := if folder in w.dirs then w else w.(dirs := w.dirs + {folder});
    var w2 := w1.(calls := w1.calls + [ListCall(Query(startDate, endDate))]);
    var listed := GetMessages(env.service, startDate, endDate);
    if listed.Success? {
      MessagesStepEvolves(env, w2, listed.value, searchStrings, folder);
      var r := MessagesStep(env, w2, listed.value, searchStrings, folder).world;
      assert r.calls[..|w2.calls|] == w2.calls;
    }
  }

  /** Running against a folder that already exists behaves exactly like
      running against one that `makedirs` has to create. */
  lemma FolderCreationIdempotent(env: Collaborators, w: World, startDate: string, endDate: string,
                                 searchStrings: seq<string>, folder: string)
    ensures RunSpec(env, w.(dirs := w.dirs + {folder}), startDate, endDate, searchStrings, folder) ==
            RunSpec(env, w, startDate, endDate, searchStrings, folder)
  {
    if folder in w.dirs {
      assert w.dirs + {folder} == w.dirs;
      assert w.(dirs := w.dirs + {folder}) == w;
    }
  }

  /** A run stops at the first message that aborts: later messages are not
      fetched and their parts not processed. */
  lemma AbortStopsRun(env: Collaborators, w: World, message: MessageRef, rest: seq<MessageRef>,
                      searchStrings: seq<string>, folder: string)
    requires MessageStep(env, w, message, searchStrings, folder).outcome.Aborted?
    ensures MessagesStep(env, w, [message] + rest, searchStrings, folder) ==
            MessageStep(env, w, message, searchStrings, folder)
  {
  }

  lemma {:induction false} PartsStepNoCriteria(env: Collaborators, w: World, messageId: string, parts: seq<Part>, folder: string)
    ensures PartsStep(env, w, messageId, parts, [], folder).files == w.files
    decreases |parts|
  {
    if parts != [] {
      var w1 := PartStep(env, w, messageId, parts[0], [], folder);
      PartStepFiles(env, w, messageId, parts[0], [], folder);
      PartsStepNoCriteria(env, w1, messageId, parts[1..], folder);
    }
  }

  lemma {:induction false} MessagesStepNoCriteria(env: Collaborators, w: World, messages: seq<MessageRef>, folder: string)
    ensures MessagesStep(env, w, messages, [], folder).world.files == w.files
    decreases |messages|
  {
    if messages != [] {
      var m := messages[0];
      var r := MessageStep(env, w, m, [], folder);
      if m.id.Some? {
        var id := m.id.value;
        var got := env.service.get(id);
        if got.Success? && got.value.payload.Some? && got.value.payload.value.parts.Some? {
          PartsStepNoCriteria(env, w.(calls := w.calls + [GetCall(id)]), id, got.value.payload.value.parts.value, folder);
        }
      }
      if r.outcome.Completed? {
        MessagesStepNoCriteria(env, r.world, messages[1..], folder);
      }
    }
  }

  /** With `search_strings` left at its default `[]`, nothing ever matches and
      no file is written. */
  lemma NoSearchStringsNoWrites(env: Collaborators, w: World, startDate: string, endDate: string, folder: string)
    ensures RunSpec(env, w, startDate, endDate, [], folder).world.files == w.files
  {
    var w1 := if folder in w.dirs then w else w.(dirs := w.dirs + {folder});
    var w2 := w1.(calls := w1.calls + [ListCall(Query(startDate, endDate))]);
    var listed := GetMessages(env.service, startDate, endDate);
    if listed.Success? {
      MessagesStepNoCriteria(env, w2, listed.value, folder);
    }
  }

  lemma InvoiceCriterionMatches(text: string)
    requires Contains("invoice", text)
    ensures ContainsSearchStrings(text, ["INVOICE"])
  {
    assert Lower("INVOICE") == "invoice";
    assert ["INVOICE"][0] == "INVOICE";
  }

  lemma SinglePageText(pageText: string)
    ensures ReadText(Success([Success(pageText)])) == Lower(pageText)
    ensures ReadLog(Success([Success(pageText)])) == []
  {
    var pages: seq<Result<string>> := [Success(pageText)];
    assert pages[1..] == [];
    assert PagesText(pages[1..]) == Success("");
    assert PagesText(pages) == Prepend(Lower(pageText), PagesText(pages[1..]));
    assert Lower(pageText) + "" == Lower(pageText);
    assert DocumentText(Success(pages)) == Success(Lower(pageText));
  }

  lemma InlineInvoicePartSaved(env: Collaborators, w: World, id: string, filename: string,
                                data: string, raw: Bytes, pageText: string)
    requires IsPdfName(filename)
    requires env.decode(data) == Success(raw)
    requires env.parse(raw) == Success([Success(pageText)])
    requires Contains("invoice", Lower(pageText))
    requires env.openError(FilePath(DEFAULT_DOWNLOAD_FOLDER, filename)).None?
    requires env.writeError(FilePath(DEFAULT_DOWNLOAD_FOLDER, filename), raw).None?
    ensures PartsStep(env, w, id, [Part(Some(filename), Some(Body(Some(data), None)), None)], ["INVOICE"], DEFAULT_DOWNLOAD_FOLDER) ==
            w.(files := w.files[FilePath(DEFAULT_DOWNLOAD_FOLDER, filename) := raw], log := w.log + [DownloadedLine(filename)])
  {
    var part := Part(Some(filename), Some(Body(Some(data), None)), None);
    SinglePageText(pageText);
    InvoiceCriterionMatches(Lower(pageText));
    assert GetAttachmentData(env.service, id, part) == Success(data);
    assert RetrievalCalls(id, part) == [];
    assert w.calls + [] == w.calls && w.log + [] == w.log;
    assert [part][1..] == [];
  }

  /** One message with one PDF part carried inline, whose single page
      mentions "invoice": with the criterion `INVOICE` the run writes exactly
      that file, with the decoded bytes, and prints one line. */
  lemma SingleInvoiceScenario(env: Collaborators, w: World, startDate: string, endDate: string,
                              id: string, filename: string, data: string, raw: Bytes, pageText: string)
    requires env.service.list(Query(startDate, endDate)) == Success(ListResponse(Some([MessageRef(Some(id))])))
    requires env.service.get(id) ==
             Success(FullMessage(Some(Part(None, None, Some([Part(Some(filename), Some(Body(Some(data), None)), None)])))))
    requires IsPdfName(filename)
    requires env.decode(data) == Success(raw)
    requires env.parse(raw) == Success([Success(pageText)])
    requires Contains("invoice", Lower(pageText))
    requires env.openError(FilePath(DEFAULT_DOWNLOAD_FOLDER, filename)).None?
    requires env.writeError(FilePath(DEFAULT_DOWNLOAD_FOLDER, filename), raw).None?
    ensures var r := RunSpec(env, w, startDate, endDate, ["INVOICE"], DEFAULT_DOWNLOAD_FOLDER);
            && r.outcome == Completed
            && r.world.files == w.files[FilePath(DEFAULT_DOWNLOAD_FOLDER, filename) := raw]
            && r.world.log == w.log + [DownloadedLine(filename)]
  {
    var folder, criteria := DEFAULT_DOWNLOAD_FOLDER, ["INVOICE"];
    var message := MessageRef(Some(id));
    var w1 := if folder in w.dirs then w else w.(dirs := w.dirs + {folder});
    var w2 := w1.(calls := w1.calls + [ListCall(Query(startDate, endDate))]);
    var w3 := w2.(calls := w2.calls + [GetCall(id)]);
    InlineInvoicePartSaved(env, w3, id, filename, data, raw, pageText);
    var w4 := w3.(files := w3.files[FilePath(folder, filename) := raw], log := w3.log + [DownloadedLine(filename)]);
    assert MessageStep(env, w2, message, criteria, folder) == Run(w4, Completed);
    assert [message][1..] == [];
    assert MessagesStep(env, w2, [message], criteria, folder) == Run(w4, Completed);
  }

  // ---------------------------------------------------------------------
  // The run, performed step by step

  /** The process's observable state while `download_attachments` runs. */
  class Downloader {
    var files: map<FilePath, Bytes>
    var dirs: set<string>
    var log: seq<string>
    var calls: seq<Call>

    constructor (existingDirs: set<string>, existingFiles: map<FilePath, Bytes>)
      ensures State() == World(existingFiles, existingDirs, [], [])
    {
      files, dirs, log, calls := existingFiles, existingDirs, [], [];
    }

    function State(): World
      reads this
    {
      World(files, dirs, log, calls)
    }

    /** `save_attachment` */
    method SaveAttachment(env: Collaborators, data: string, filename: string, folder: string)
      returns (error: Option<string>)
      modifies this
      ensures Step(State(), error) == SaveSpec(env, old(State()), data, filename, folder)
    {
      var path := FilePath(folder, filename);
      var openError := env.openError(path);
      if openError.Some? {
        return openError;
      }
      files := files[path := []];
      var decoded := env.decode(data);
      if decoded.Failure? {
        return Some(decoded.error);
      }
      var writeError := env.writeError(path, decoded.value);
      if writeError.Some? {
        return writeError;
      }
      files := files[path := decoded.value];
      log := log + [DownloadedLine(filename)];
      return None;
    }

    /** The body of the inner loop, with its `try`/`except`. */
    method ProcessPart(env: Collaborators, messageId: string, part: Part, searchStrings: seq<string>, folder: string)
      modifies this
      ensures State() == PartStep(env, old(State()), messageId, part, searchStrings, folder)
    {
      if !IsSelected(part) {
        return;
      }
      var filename := part.filename.value;
      var error: Option<string> := None;
      calls := calls + RetrievalCalls(messageId, part);
      var data := GetAttachmentData(env.service, messageId, part);
      if data.Failure? {
        error := Some(data.error);
      } else {
        var text, printed := ExtractPdfText(env.decode, env.parse, data.value);
        log := log + printed;
        if text.Failure? {
          error := Some(text.error);
        } else if ContainsSearchStrings(text.value, searchStrings) {
          error := SaveAttachment(env, data.value, filename, folder);
        }
      }
      if error.Some? {
        log := log + [ErrorLine(filename, error.value)];
      }
    }

    /** `download_attachments` */
    method DownloadAttachments(env: Collaborators, startDate: string, endDate: string,
                               searchStrings: seq<string>, folder: string)
      returns (outcome: Outcome)
      modifies this
      ensures Run(State(), outcome) == RunSpec(env, old(State()), startDate, endDate, searchStrings, folder)
    {
      if folder !in dirs {
        dirs := dirs + {folder};
      }
      calls := calls + [ListCall(Query(startDate, endDate))];
      var listed := GetMessages(env.service, startDate, endDate);
      if listed.Failure? {
        return Aborted(listed.error);
      }
      var messages := listed.value;
      ghost var w0 := State();
      var i := 0;
      while i < |messages|
        invariant 0 <= i <= |messages|
        invariant MessagesStep(env, State(), messages[i..], searchStrings, folder) ==
                  MessagesStep(env, w0, messages, searchStrings, folder)
      {
        var message := messages[i];
        ghost var wi := State();
        assert messages[i..][0] == message && messages[i..][1..] == messages[i + 1..];
        if message.id.None? {
          return Aborted(KeyErrorDetail("id"));
        }
        var id := message.id.value;
        calls := calls + [GetCall(id)];
        var got := env.service.get(id);
        if got.Failure? {
          return Aborted(got.error);
        }
        if got.value.payload.None? {
          return Aborted(KeyErrorDetail("payload"));
        }
        var payload := got.value.payload.value;
        if payload.parts.Some? {
          var parts := payload.parts.value;
          ghost var wm := State();
          var j := 0;
          while j < |parts|
            invariant 0 <= j <= |parts|
            invariant PartsStep(env, State(), id, parts[j..], searchStrings, folder) ==
                      PartsStep(env, wm, id, parts, searchStrings, folder)
          {
            assert parts[j..][0] == parts[j] && parts[j..][1..] == parts[j + 1..];
            ProcessPart(env, id, parts[j], searchStrings, folder);
            j := j + 1;
          }
          assert parts[j..] == [];
        }
        i := i + 1;
      }
      assert messages[i..] == [];
      return Completed;
    }
  }
}
