/**
 * `ScanHandler.on_created`: filter a file-creation event, wait for the file to
 * settle, upload it, and on success move it into the archive directory under a
 * freshly generated name. Everything the handler gets from the outside world
 * (readings, clock, HTTP outcomes, the result of makedirs and move) is one
 * Environment value, so the handler is a function of event and environment.
 */
module Handler {
  import opened Wrappers
  import opened Paths
  import opened Naming
  import opened Stability
  import opened Uploader

  /** A creation event from the watcher. */
  datatype Event = Event(isDirectory: bool, srcPath: string)

  /** What the outside world does while one event is handled. */
  datatype Environment = Environment(
    polls: seq<Observation>,  // one reading per stability poll
    uploadClock: seq<string>, // clock readings while upload_file runs
    attempts: seq<Attempt>,   // outcome of each upload attempt
    makedirsOk: bool,         // os.makedirs(UPLOADED_DIR, exist_ok=True) returns
    archiveStamp: string,     // clock reading when the archive name is generated
    moveOk: bool)             // shutil.move returns

  /** The environment supplies a reading for every poll and an outcome for every attempt. */
  predicate Supplies(env: Environment)
  {
    PollBudget(DEFAULT_TIMEOUT) <= |env.polls| && CoversUpload(env.uploadClock) && RETRY_COUNT <= |env.attempts|
  }

  /** How handling an event ends; no case raises. */
  datatype Outcome =
    | Ignored                       // a directory, or not a PDF
    | Unstable                      // the file never settled, or vanished
    | UploadFailed                  // every attempt failed
    | Archived(destination: string) // uploaded and moved
    | ArchiveFailed                 // uploaded, but makedirs or move raised

  /**
   * What the handler did on the way: the stability polls, the URL each upload
   * attempt targeted, the RETRY_DELAY sleeps after failed upload attempts, and the
   * move it tried.
   */
  datatype Effects = Effects(polls: nat, attemptUrls: seq<string>, retrySleeps: nat, moveTo: Option<string>)

  datatype Handled = Handled(outcome: Outcome, effects: Effects)

  /** The events the handler acts on: files whose name ends in .pdf in any case. */
  predicate Relevant(event: Event)
  {
    !event.isDirectory && IsPdfPath(event.srcPath)
  }

  /**
   * The handler acts exactly on file events whose path ends in '.' followed by
   * p, d, f, each in either case.
   */
  lemma RelevantExactlyPdfFiles(event: Event)
    ensures var p := event.srcPath;
      Relevant(event) <==>
        && !event.isDirectory
        && |p| >= 4
        && p[|p| - 4] == '.'
        && (p[|p| - 3] == 'p' || p[|p| - 3] == 'P')
        && (p[|p| - 2] == 'd' || p[|p| - 2] == 'D')
        && (p[|p| - 1] == 'f' || p[|p| - 1] == 'F')
  {
    PdfFilterIsCaseInsensitive(event.srcPath);
  }

  /** Where an uploaded scan is moved: the archive directory, under a new timestamped name. */
  function ArchiveDestination(stamp: string, srcPath: string): (destination: string)
  {
    Join(UPLOADED_DIR, TimestampedName(stamp, Basename(srcPath)))
  }

  /**
   * The handler. It is silent on irrelevant events, uploads only a stable file,
   * tries the move only after a successful upload, and catches move errors.
   */
  function OnCreated(config: Config, event: Event, env: Environment): (h: Handled)
    requires Supplies(env)
    ensures h.outcome.Ignored? <==> !Relevant(event)
    ensures h.outcome.Ignored? ==> h.effects == Effects(0, [], 0, None)
    ensures !h.outcome.Ignored? ==> h.effects.polls == Wait(env.polls, DEFAULT_TIMEOUT).polls
    ensures h.outcome.Unstable? <==> Relevant(event) && !Wait(env.polls, DEFAULT_TIMEOUT).stable
    ensures h.outcome.Unstable? ==> h.effects.attemptUrls == [] && h.effects.retrySleeps == 0 && h.effects.moveTo == None
    ensures |h.effects.attemptUrls| > 0 <==> Relevant(event) && Wait(env.polls, DEFAULT_TIMEOUT).stable
    ensures Relevant(event) && Wait(env.polls, DEFAULT_TIMEOUT).stable ==>
      var run := Upload(config, event.srcPath, env.uploadClock, env.attempts);
      h.effects.attemptUrls == run.attemptUrls && h.effects.retrySleeps == run.retrySleeps
    ensures h.outcome.UploadFailed? <==>
      && Relevant(event)
      && Wait(env.polls, DEFAULT_TIMEOUT).stable
      && !Upload(config, event.srcPath, env.uploadClock, env.attempts).success
    ensures h.effects.moveTo.Some? <==>
      && Relevant(event)
      && Wait(env.polls, DEFAULT_TIMEOUT).stable
      && Upload(config, event.srcPath, env.uploadClock, env.attempts).success
      && env.makedirsOk
    ensures h.effects.moveTo.Some? ==> h.effects.moveTo.value == ArchiveDestination(env.archiveStamp, event.srcPath)
    ensures h.outcome.Archived? <==> h.effects.moveTo.Some? && env.moveOk
    ensures h.outcome.Archived? ==> h.effects.moveTo == Some(h.outcome.destination)
    ensures h.outcome.ArchiveFailed? <==>
      && Relevant(event)
      && Wait(env.polls, DEFAULT_TIMEOUT).stable
      && Upload(config, event.srcPath, env.uploadClock, env.attempts).success
      && !(env.makedirsOk && env.moveOk)
  {
    if event.isDirectory || !IsPdfPath(event.srcPath) then
      Handled(Ignored, Effects(0, [], 0, None))
    else
      var wait := Wait(env.polls, DEFAULT_TIMEOUT);
      if !wait.stable then
        Handled(Unstable, Effects(wait.polls, [], 0, None))
      else
        var run := Upload(config, event.srcPath, env.uploadClock, env.attempts);
        var effects := Effects(wait.polls, run.attemptUrls, run.retrySleeps, None);
        if !run.success then
          Handled(UploadFailed, effects)
        else if !env.makedirsOk then
          Handled(ArchiveFailed, effects)
        else
          var destination := ArchiveDestination(env.archiveStamp, event.srcPath);
          var moved := effects.(moveTo := Some(destination));
          if env.moveOk then Handled(Archived(destination), moved) else Handled(ArchiveFailed, moved)
  }

  /**
   * The file is archived exactly when it passed the filter, settled, was
   * uploaded, and the directory creation and the move both went through.
   */
  lemma ArchivedIffEveryStepSucceeds(config: Config, event: Event, env: Environment)
    requires Supplies(env)
    ensures OnCreated(config, event, env).outcome.Archived? <==>
      && Relevant(event)
      && Wait(env.polls, DEFAULT_TIMEOUT).stable
      && Upload(config, event.srcPath, env.uploadClock, env.attempts).success
      && env.makedirsOk && env.moveOk
  {
  }

  /**
   * When every step goes through, the handler polls until stable, makes the
   * upload's attempts and retry sleeps, and moves the file to ArchiveDestination.
   */
  lemma HappyPath(config: Config, event: Event, env: Environment)
    requires Supplies(env) && Relevant(event)
    requires Wait(env.polls, DEFAULT_TIMEOUT).stable
    requires Upload(config, event.srcPath, env.uploadClock, env.attempts).success
    requires env.makedirsOk && env.moveOk
    ensures var run := Upload(config, event.srcPath, env.uploadClock, env.attempts);
      var destination := ArchiveDestination(env.archiveStamp, event.srcPath);
      OnCreated(config, event, env) == Handled(Archived(destination),
        Effects(Wait(env.polls, DEFAULT_TIMEOUT).polls, run.attemptUrls, run.retrySleeps, Some(destination)))
  {
  }

  /**
   * For a slash-free clock reading, the archive destination is a file directly
   * inside the archive directory, named by the stamp, '_' and the original basename.
   */
  lemma ArchiveDestinationShape(stamp: string, srcPath: string)
    requires '/' !in stamp
    ensures var name := TimestampedName(stamp, Basename(srcPath));
      && ArchiveDestination(stamp, srcPath) == UPLOADED_DIR + "/" + name
      && Basename(ArchiveDestination(stamp, srcPath)) == name
  {
    var name := TimestampedName(stamp, Basename(srcPath));
    NoSlashInName(stamp, Basename(srcPath));
    assert name[0] != '/' by {
      assert name[0] in name;
    }
    assert UPLOADED_DIR[|UPLOADED_DIR| - 1] == 'd';
    assert Join(UPLOADED_DIR, name) == UPLOADED_DIR + "/" + name;
    BasenameOfJoin(UPLOADED_DIR, name);
  }

  /**
   * The archive name is generated separately from the remote name: the archived
   * file carries the remote name exactly when both clock readings agree.
   */
  lemma ArchiveNameMatchesRemoteIffSameStamp(srcPath: string, uploadStamp: string, archiveStamp: string)
    requires '/' !in archiveStamp
    ensures Basename(ArchiveDestination(archiveStamp, srcPath)) == RemoteName(srcPath, uploadStamp)
      <==> archiveStamp == uploadStamp
  {
    ArchiveDestinationShape(archiveStamp, srcPath);
    SameOriginalCollidesIffSameStamp(archiveStamp, uploadStamp, Basename(srcPath));
  }

  /** The outcome, and the archive destination with it, does not depend on the clock readings taken for the upload. */
  lemma ArchiveIndependentOfUploadClock(config: Config, event: Event, env: Environment, otherClock: seq<string>)
    requires Supplies(env) && CoversUpload(otherClock)
    ensures OnCreated(config, event, env.(uploadClock := otherClock)).outcome == OnCreated(config, event, env).outcome
  {
  }

  /** A directory event, or a non-PDF such as notes.txt, produces no poll, upload attempt or move. */
  lemma NonPdfIgnored(config: Config, env: Environment)
    requires Supplies(env)
    ensures OnCreated(config, Event(false, "/scan/notes.txt"), env) == Handled(Ignored, Effects(0, [], 0, None))
    ensures OnCreated(config, Event(true, "/scan/folder.pdf"), env) == Handled(Ignored, Effects(0, [], 0, None))
  {
    PdfFilterIsCaseInsensitive("/scan/notes.txt");
  }

  /**
   * A PDF that settles at 1024 bytes and is accepted on the third attempt after
   * two connection errors is moved into the archive directory under the
   * archive-time name, after exactly two polls, three attempts and two retry sleeps.
   */
  lemma EndToEndScenario(config: Config, path: string, env: Environment)
    requires Supplies(env) && IsStamp(env.archiveStamp) && IsPdfPath(path)
    requires env.polls[0] == Present(1024) && env.polls[1] == Present(1024)
    requires env.attempts[0] == Raised && env.attempts[1] == Raised && env.attempts[2] == Responded(201)
    requires env.makedirsOk && env.moveOk
    ensures var h := OnCreated(config, Event(false, path), env);
      && h.outcome == Archived(UPLOADED_DIR + "/" + TimestampedName(env.archiveStamp, Basename(path)))
      && |h.effects.attemptUrls| == 3 && h.effects.polls == 2 && h.effects.retrySleeps == 2
  {
    OneShotWriteIsStableAtSecondPoll(env.polls, 1024);
    ThirdAttemptAccepted(config, path, env.uploadClock, env.attempts);
    StampHasNoSlash(env.archiveStamp);
    ArchiveDestinationShape(env.archiveStamp, path);
    HappyPath(config, Event(false, path), env);
  }

  /** A move that raises after a successful upload leaves the outcome ArchiveFailed, not an exception. */
  lemma MoveErrorSwallowed(config: Config, event: Event, env: Environment)
    requires Supplies(env) && Relevant(event)
    requires Wait(env.polls, DEFAULT_TIMEOUT).stable
    requires Upload(config, event.srcPath, env.uploadClock, env.attempts).success
    requires !env.makedirsOk || !env.moveOk
    ensures OnCreated(config, event, env).outcome == ArchiveFailed
    ensures |OnCreated(config, event, env).effects.attemptUrls| > 0
  {
  }
}
