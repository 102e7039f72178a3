# scan2nextcloud uploader: a verified model of its decision logic

scan2nextcloud watches a scan directory and handles each new PDF in turn. It
waits until the file's size stops changing. It then uploads the file to a
Nextcloud WebDAV folder under a timestamped name, retrying a fixed number of
times. After a successful upload it moves the local file into `/uploaded`
under a freshly generated timestamped name.

This project models the logic of `upload.py` in Dafny, with the file system,
HTTP, the clock and `shutil.move` replaced by inputs:

- `paths.dfy` (module `Paths`): `os.path.basename`, two-argument `os.path.join`
  and the `.lower().endswith(".pdf")` filter.
- `naming.dfy` (module `Naming`): `generate_timestamped_name`. The formatted
  clock reading is a parameter.
- `stability.dfy` (module `Stability`): `wait_until_complete`. `WaitUntilComplete`
  is the polling loop: `last_size` starts at -1 and a clock advances by 2 after
  each poll. The loop runs over one `Observation` (`Missing` or `Present(size)`)
  per poll. The method is proved equal to the specification function `Wait`.
- `upload.dfy` (module `Uploader`): `upload_file`. The clock is a sequence of
  formatted readings. `upload_file` reads it once, before the loop
  (upload.py:69); the later entries are what the clock would read during each
  attempt, and the code never uses them. `UploadFile` names the file from the
  first reading, builds the URL, and runs `Retry`, the `for attempt` loop over
  one `Attempt` (`Responded(status)` or `Raised`) per try. `Retry` is proved
  equal to the specification function `Send`, and `UploadFile` to `Upload`.
  Both record the result, the URL each attempt targets (`attemptUrls`) and the
  number of RETRY_DELAY sleeps (`retrySleeps`).
- `handler.dfy` (module `Handler`): `ScanHandler.on_created`. This is a function
  of the event and an `Environment` holding everything the outside world
  supplies. It returns the final state (`Ignored`, `Unstable`, `UploadFailed`,
  `Archived(destination)` or `ArchiveFailed`) and the effects along the way.

upload.py:101 sleeps after every failed attempt, the last one included, so a
fully failed upload makes RETRY_COUNT sleeps. `Send` and `Upload` state this.

## Model

| member | source | states |
|---|---|---|
| Paths.Basename | upload.py:68 | the basename is the longest suffix of the path that contains no '/' |
| Paths.BasenameUnique | upload.py:68 | any slash-free suffix that is the whole path or follows a '/' is the basename |
| Paths.Join | upload.py:135 | the joined path ends with the name; an absolute name is the whole result; a relative name keeps the directory as prefix, directly when the directory is empty or ends in '/', otherwise with one '/' in between |
| Paths.BasenameOfJoin | upload.py:135 | joining a slash-free name onto a directory and taking the basename gives the name back |
| Paths.LowerChar | upload.py:115 | a capital ASCII letter becomes the lower-case letter at the same position in the alphabet; any other character is unchanged; no result is a capital |
| Paths.Lower | upload.py:115 | same length, every character lowered by LowerChar, no capital left |
| Paths.LowerIdempotent | upload.py:115 | lowering twice is lowering once |
| Paths.EndsWith | upload.py:115 | `endswith`: true exactly when the string is some prefix followed by the suffix |
| Paths.PdfFilterIgnoresCase | upload.py:115 | IsPdfPath gives the same verdict on a path and on its lower-cased form |
| Paths.PdfFilterIsCaseInsensitive | upload.py:115 | IsPdfPath: the filter accepts exactly the paths ending in '.' then p, d, f, each in either case |
| Paths.PdfFilterExamples | upload.py:115-117 | `.PDF` and `.Pdf` pass; `notes.txt`, `scan.pdf.part` and `pdf` do not |
| Naming.TimestampedName | upload.py:62-64 | the name is the stamp, one '_', then the original name, with length \|stamp\| + 1 + \|original\| |
| Naming.NameDeterminesParts | upload.py:64 | for stamps of equal length, the name determines both the stamp and the original name |
| Naming.SameOriginalCollidesIffSameStamp | upload.py:62-64 | for one original name, two names coincide exactly when the clock readings coincide |
| Naming.StampedNameShape | upload.py:63-64 | a well-formed stamp gives a name of the form 8 digits, '_', 6 digits, '_', original |
| Naming.StampHasNoSlash | upload.py:63 | a well-formed stamp contains no '/' |
| Naming.NoSlashInName | upload.py:64 | a stamp and an original name without '/' give a name without '/' |
| Stability.StableMeansRepeatedPositiveSize | upload.py:50-51 | StableAt: a poll is stable exactly when it is not the first and it and the previous poll found the file with one positive size |
| Stability.EndsWaitCases | upload.py:47-51 | EndsWait: a missing file always ends the wait; a present one ends it only after the first poll, repeating the previous positive size; the first poll ends it only when the file is missing |
| Stability.PollBudget | upload.py:46-56 | the number of polls is the least n with n * 2 >= timeout, so every poll starts below the timeout |
| Stability.FirstEnd | upload.py:46-56 | the first poll that finds the file missing or stable, and no earlier one does |
| Stability.Wait | upload.py:41-59 | stable only at a poll repeating the previous positive size, never at the first poll; a missing file ends the wait with false; otherwise false after the whole budget |
| Stability.WaitUntilComplete | upload.py:41-59 | the polling loop with last_size = -1 returns exactly the verdict and poll count of Wait |
| Stability.DefaultBudgetIsSixtyPolls | upload.py:41-56 | with timeout 120 and interval 2 the waiter polls at most 60 times |
| Stability.NoPollAfterMissing | upload.py:47-48 | no reading is taken after a poll that finds the file missing |
| Stability.FirstEndOnPrefix | upload.py:46-56 | the first ending poll depends only on the readings up to that poll |
| Stability.WaitIgnoresLaterReadings | upload.py:46-56 | readings after the last poll made do not change the outcome |
| Stability.EmptyFileTimesOut | upload.py:51-59 | a file whose size stays 0 is not stable: false after the whole budget |
| Stability.GrowingFileTimesOut | upload.py:50-59 | a file that grows between every two polls is not stable: false after the whole budget |
| Stability.SettledFileIsStable | upload.py:50-53 | a present file with the same positive size at polls k and k+1 is stable by poll k+1 |
| Stability.OneShotWriteIsStableAtSecondPoll | upload.py:44-55 | a file with the same positive size at the first two polls is stable after exactly two polls |
| Uploader.AcceptedExactly201Or204 | upload.py:89 | Accepted: exactly the responses 201 and 204; an exception never |
| Uploader.RemoteNameIsLastUrlSegment | upload.py:68-74 | RemoteName: for a slash-free reading, the remote name contains no '/', ends with the local basename, and is the last segment of the upload URL |
| Uploader.UrlPrefix | upload.py:71-73 | the part of the URL before the file name is non-empty and ends in '/' |
| Uploader.UploadUrl | upload.py:71-74 | the URL ends in '/' followed by the remote file name |
| Uploader.UploadUrlInjective | upload.py:71-74 | for one configuration, distinct file names give distinct URLs |
| Uploader.FirstAccepted | upload.py:79-91 | the first attempt answered 201 or 204, with no earlier one accepted |
| Uploader.Send | upload.py:79-103 | between 1 and RETRY_COUNT attempts, each targeting the given URL; success exactly when the last attempt made is accepted, and no earlier one is; success returns the name; failure returns None after RETRY_COUNT attempts; one RETRY_DELAY sleep per failed attempt |
| Uploader.Upload | upload.py:67-103 | the same, with every attempt targeting the URL of the name built from the clock reading taken before the first attempt |
| Uploader.Retry | upload.py:79-103 | the `for attempt` loop returns exactly the result, attempt URLs and retry sleeps of Send |
| Uploader.UploadFile | upload.py:67-103 | naming the file once and running the loop returns exactly the result, attempt URLs and retry sleeps of Upload |
| Uploader.UploadReadsClockOnce | upload.py:68-74 | two clocks that agree on the reading before the first attempt give the same run: readings during the attempts are never used |
| Uploader.FirstAcceptedOnPrefix | upload.py:79-91 | the first accepted attempt depends only on outcomes up to that attempt |
| Uploader.SendIgnoresLaterOutcomes | upload.py:89-91 | outcomes after the last attempt made do not change the loop's run |
| Uploader.UploadIgnoresLaterOutcomes | upload.py:89-91 | outcomes after the last attempt made do not change the upload's run |
| Uploader.AllAttemptsFailing | upload.py:92-103 | with no accepted attempt: (False, None), RETRY_COUNT attempts, RETRY_COUNT retry sleeps |
| Uploader.SendAcceptedAtOnce | upload.py:89-91 | an accepted first attempt: success with the name, one attempt at the URL, no sleep |
| Uploader.FirstAttemptAccepted | upload.py:89-91 | 201 at the first attempt: success with the remote name, one attempt, no sleep |
| Uploader.SendAcceptedThird | upload.py:79-101 | attempts 0 and 1 not accepted and attempt 2 accepted: success after three attempts and two retry sleeps |
| Uploader.ThirdAttemptAccepted | upload.py:79-101 | two exceptions then 201: success after three attempts and two retry sleeps |
| Handler.OnCreated | upload.py:111-144 | ignored exactly for directories and non-PDFs, with no effect; otherwise the polls are those of Wait; unstable exactly when the wait fails, with no upload attempt, retry sleep or move; upload attempts made exactly when the file is stable, and then the attempt URLs and retry sleeps are those of Upload; upload failure exactly when Upload fails; a move tried exactly after a relevant, stable, uploaded file and a successful makedirs, to ArchiveDestination; archived exactly when that move succeeds; a makedirs or move error ends in ArchiveFailed |
| Handler.RelevantExactlyPdfFiles | upload.py:112-117 | Relevant: exactly the non-directory events whose path ends in '.' then p, d, f, each in either case |
| Handler.ArchivedIffEveryStepSucceeds | upload.py:121-139 | archived exactly when the event is relevant, the file is stable, the upload succeeds and makedirs and move succeed |
| Handler.HappyPath | upload.py:125-139 | when every step succeeds, the handler's polls, attempt URLs and retry sleeps are those of Wait and Upload, and the move goes to ArchiveDestination |
| Handler.ArchiveDestinationShape | upload.py:129-135 | ArchiveDestination: for a slash-free reading, the archive path is "/uploaded/" + the archive-time name, and its basename is that name |
| Handler.ArchiveNameMatchesRemoteIffSameStamp | upload.py:125-135 | the basename of the archive destination equals the remote name exactly when the two clock readings are equal |
| Handler.ArchiveIndependentOfUploadClock | upload.py:131-135 | the outcome, archive destination included, does not depend on the clock readings taken during the upload |
| Handler.NonPdfIgnored | upload.py:112-117 | notes.txt, and a directory, are ignored with no poll, upload attempt or move |
| Handler.EndToEndScenario | upload.py:111-139 | a PDF that settles and is accepted on the third attempt is archived after 2 polls, 3 upload attempts and 2 retry sleeps |
| Handler.MoveErrorSwallowed | upload.py:127-142 | after a successful upload, a makedirs or move error yields ArchiveFailed, not an exception |

## Left out

- The watchdog `PollingObserver`, the `__main__` loop and its start-up `makedirs` are not modelled. They are third-party, concurrent event plumbing.
- Concurrent or duplicate events for one path are not modelled. The handler has no mechanism for them.
- Environment-variable configuration and logging are not modelled. `Config` holds only the URL, user and folder used to build the request URL. If a variable is unset, Python formats `None` into the URL; the model does not capture this.
- `requests.put` with basic authentication, the password, the 180-second request timeout and the request body are not modelled. Each attempt is only its outcome: a status code or an exception.
- The attempt log has one entry per attempt, whether or not a PUT was sent: an `open` that raises (upload.py:81) sends none, and the model does not tell it apart from a PUT that raised.
- The sleeps of the stability wait (`time.sleep(2)` after each poll that does not end it, upload.py:56) are not counted in the effects; `retrySleeps` counts only RETRY_DELAY sleeps. The number of polls is recorded.
- File-system calls (`os.path.exists`, `getsize`, `open`, `os.makedirs`, `shutil.move`) are inputs: one reading per poll and success flags. A file that vanishes between `exists` and `getsize` makes `getsize` raise out of the handler. The model does not capture this race.
- Stability.WaitUntilComplete: the clock is idealised. It advances exactly by the poll interval per poll and ignores the time spent in the file-system calls. For a clock that never goes back, the real loop can therefore make fewer than `PollBudget(timeout)` polls, never more. Wall-clock jumps, which `time.time()` can make, are not captured.
- `datetime.now().strftime` is not modelled. The formatted reading is a parameter; `IsStamp` describes its shape where a lemma needs it.
- `str.lower` is modelled for ASCII letters only. Other characters are left unchanged.
