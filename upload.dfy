/**
 * `upload_file`: PUT the scan to the WebDAV endpoint under a timestamped name,
 * trying up to RETRY_COUNT times and sleeping RETRY_DELAY seconds after every
 * failed attempt. Each attempt's outcome (a status code or an exception) is an
 * input, and so is the clock: the formatted reading taken before the loop,
 * followed by what the clock would read during each attempt, which the code
 * never uses.
 */
module Uploader {
  import opened Wrappers
  import opened Paths
  import opened Naming

  /** Number of upload attempts. */
  const RETRY_COUNT: nat := 5

  /** Seconds slept after each failed attempt. */
  const RETRY_DELAY: nat := 5

  /** Remote connection settings, read once from the environment. */
  datatype Config = Config(baseUrl: string, user: string, folder: string)

  /**
   * What one attempt yields: an HTTP status, or an exception. The exception may
   * come from `open`, before any PUT is sent, or from the PUT itself.
   */
  datatype Attempt = Responded(status: int) | Raised

  /** The record of one run of the uploader. */
  datatype UploadRun = UploadRun(
    success: bool,              // first component of the returned pair
    remoteName: Option<string>, // second component: the name, or None
    attemptUrls: seq<string>,   // the URL each attempt targets, in order
    retrySleeps: nat)           // number of RETRY_DELAY sleeps

  /**
   * What the formatted clock reads while `upload_file` runs: `clock[0]` before
   * the loop, `clock[a]` during attempt `a`.
   */
  predicate CoversUpload(clock: seq<string>)
  {
    RETRY_COUNT < |clock|
  }

  /** Created or No Content: the server stored the file. */
  predicate Accepted(attempt: Attempt)
  {
    attempt.Responded? && (attempt.status == 201 || attempt.status == 204)
  }

  /** The name the scan is stored under remotely. */
  function RemoteName(filepath: string, stamp: string): (name: string)
  {
    TimestampedName(stamp, Basename(filepath))
  }

  /** Only a response of 201 or 204 counts as stored; an exception never does. */
  lemma AcceptedExactly201Or204(attempt: Attempt)
    ensures Accepted(attempt) <==> attempt == Responded(201) || attempt == Responded(204)
  {
  }

  /** `{url}/remote.php/dav/files/{user}/{folder}/`: the part of the URL before the file name. */
  function UrlPrefix(config: Config): (prefix: string)
    ensures |prefix| > 0 && prefix[|prefix| - 1] == '/'
  {
    config.baseUrl + "/remote.php/dav/files/" + config.user + "/" + config.folder + "/"
  }

  /** `{url}/remote.php/dav/files/{user}/{folder}/{filename}`. */
  function UploadUrl(config: Config, filename: string): (url: string)
    ensures |filename| < |url|
    ensures url[|url| - |filename|..] == filename && url[|url| - |filename| - 1] == '/'
  {
    UrlPrefix(config) + filename
  }

  /** For one configuration, different file names go to different URLs. */
  lemma UploadUrlInjective(config: Config, name1: string, name2: string)
    requires UploadUrl(config, name1) == UploadUrl(config, name2)
    ensures name1 == name2
  {
    var prefix := UrlPrefix(config);
    assert name1 == (prefix + name1)[|prefix|..];
  }

  /**
   * For a slash-free clock reading, the remote name is one path segment: the
   * last segment of the upload URL, ending with the local basename.
   */
  lemma RemoteNameIsLastUrlSegment(config: Config, filepath: string, stamp: string)
    requires '/' !in stamp
    ensures var name := RemoteName(filepath, stamp);
      && '/' !in name
      && name[|stamp| + 1..] == Basename(filepath)
      && Basename(UploadUrl(config, name)) == name
  {
    var name := RemoteName(filepath, stamp);
    NoSlashInName(stamp, Basename(filepath));
    BasenameUnique(UploadUrl(config, name), name);
  }

  /** The first accepted attempt in [from, count), or `count` if none is. */
  function FirstAccepted(attempts: seq<Attempt>, from: nat, count: nat): (k: nat)
    requires from <= count <= |attempts|
    ensures from <= k <= count
    ensures k < count ==> Accepted(attempts[k])
    ensures forall j :: from <= j < k ==> !Accepted(attempts[j])
    decreases count - from
  {
    if from == count then count
    else if Accepted(attempts[from]) then from
    else FirstAccepted(attempts, from + 1, count)
  }

  /**
   * The retry loop of `upload_file` once the name and its URL are fixed: every
   * attempt targets `url`; the run stops at the first accepted attempt and
   * returns `name`; otherwise it makes RETRY_COUNT attempts and returns failure
   * with no name. A sleep follows every failed attempt, the last one included.
   */
  function Send(name: string, url: string, attempts: seq<Attempt>): (run: UploadRun)
    requires RETRY_COUNT <= |attempts|
    ensures 1 <= |run.attemptUrls| <= RETRY_COUNT
    ensures forall i :: 0 <= i < |run.attemptUrls| ==> run.attemptUrls[i] == url
    ensures forall i :: 0 <= i < |run.attemptUrls| - 1 ==> !Accepted(attempts[i])
    ensures run.success <==> Accepted(attempts[|run.attemptUrls| - 1])
    ensures run.success ==> run.remoteName == Some(name)
    ensures !run.success ==> run.remoteName == None && |run.attemptUrls| == RETRY_COUNT
    ensures run.retrySleeps == if run.success then |run.attemptUrls| - 1 else |run.attemptUrls|
  {
    var k := FirstAccepted(attempts, 0, RETRY_COUNT);
    if k < RETRY_COUNT then UploadRun(true, Some(name), seq(k + 1, _ => url), k)
    else UploadRun(false, None, seq(RETRY_COUNT, _ => url), RETRY_COUNT)
  }

  /**
   * What `upload_file` does with the given clock and attempt outcomes: the name
   * comes from the clock reading taken before the first attempt, and every
   * attempt targets the URL of that name.
   */
  function Upload(config: Config, filepath: string, clock: seq<string>, attempts: seq<Attempt>): (run: UploadRun)
    requires CoversUpload(clock) && RETRY_COUNT <= |attempts|
    ensures 1 <= |run.attemptUrls| <= RETRY_COUNT
    ensures forall i :: 0 <= i < |run.attemptUrls| ==> run.attemptUrls[i] == UploadUrl(config, RemoteName(filepath, clock[0]))
    ensures forall i :: 0 <= i < |run.attemptUrls| - 1 ==> !Accepted(attempts[i])
    ensures run.success <==> Accepted(attempts[|run.attemptUrls| - 1])
    ensures run.success ==> run.remoteName == Some(RemoteName(filepath, clock[0]))
    ensures !run.success ==> run.remoteName == None && |run.attemptUrls| == RETRY_COUNT
    ensures run.retrySleeps == if run.success then |run.attemptUrls| - 1 else |run.attemptUrls|
  {
    var name := RemoteName(filepath, clock[0]);
    var url := UploadUrl(config, name);
    var run := Send(name, url, attempts);
    assert forall i :: 0 <= i < |run.attemptUrls| ==> run.attemptUrls[i] == url;
    run
  }

  /** The loop of `upload_file`: one attempt at a time until one is accepted or RETRY_COUNT have failed. */
  method Retry(name: string, url: string, attempts: seq<Attempt>)
    returns (success: bool, remoteName: Option<string>, attemptUrls: seq<string>, retrySleeps: nat)
    requires RETRY_COUNT <= |attempts|
    ensures UploadRun(success, remoteName, attemptUrls, retrySleeps) == Send(name, url, attempts)
  {
    attemptUrls, retrySleeps := [], 0;
    for attempt := 1 to RETRY_COUNT + 1
      invariant |attemptUrls| == attempt - 1
      invariant forall i :: 0 <= i < |attemptUrls| ==> attemptUrls[i] == url
      invariant retrySleeps == attempt - 1
      invariant forall j :: 0 <= j < attempt - 1 ==> !Accepted(attempts[j])
    {
      attemptUrls := attemptUrls + [url];
      if Accepted(attempts[attempt - 1]) {
        FirstAcceptedIs(attempts, attempt - 1, RETRY_COUNT);
        SameAttemptLogs(attemptUrls, Send(name, url, attempts).attemptUrls);
        return true, Some(name), attemptUrls, retrySleeps;
      }
      retrySleeps := retrySleeps + 1;
    }
    FirstAcceptedIs(attempts, RETRY_COUNT, RETRY_COUNT);
    SameAttemptLogs(attemptUrls, Send(name, url, attempts).attemptUrls);
    return false, None, attemptUrls, retrySleeps;
  }

  /** `upload_file`: the file name is generated once, before the retry loop, and every attempt targets its URL. */
  method UploadFile(config: Config, filepath: string, clock: seq<string>, attempts: seq<Attempt>)
    returns (success: bool, remoteName: Option<string>, attemptUrls: seq<string>, retrySleeps: nat)
    requires CoversUpload(clock) && RETRY_COUNT <= |attempts|
    ensures UploadRun(success, remoteName, attemptUrls, retrySleeps) == Upload(config, filepath, clock, attempts)
  {
    var filename := RemoteName(filepath, clock[0]);
    var url := UploadUrl(config, filename);
    success, remoteName, attemptUrls, retrySleeps := Retry(filename, url, attempts);
  }

  /** Two attempt logs of one length, each of a single URL, the same URL at index 0, are equal. */
  lemma SameAttemptLogs(log1: seq<string>, log2: seq<string>)
    requires |log1| == |log2| && 0 < |log1| && log1[0] == log2[0]
    requires forall i :: 0 <= i < |log1| ==> log1[i] == log1[0]
    requires forall i :: 0 <= i < |log2| ==> log2[i] == log2[0]
    ensures log1 == log2
  {
  }

  /** An index with no accepted attempt before it, and accepted itself unless it is `count`, is FirstAccepted. */
  lemma FirstAcceptedIs(attempts: seq<Attempt>, k: nat, count: nat)
    requires k <= count <= |attempts|
    requires forall j :: 0 <= j < k ==> !Accepted(attempts[j])
    requires k < count ==> Accepted(attempts[k])
    ensures FirstAccepted(attempts, 0, count) == k
  {
  }

  /** Only the clock reading taken before the first attempt matters. */
  lemma UploadReadsClockOnce(config: Config, filepath: string, clock: seq<string>, clock': seq<string>,
                             attempts: seq<Attempt>)
    requires CoversUpload(clock) && CoversUpload(clock') && RETRY_COUNT <= |attempts|
    requires clock'[0] == clock[0]
    ensures Upload(config, filepath, clock', attempts) == Upload(config, filepath, clock, attempts)
  {
  }

  /** FirstAccepted looks at no outcome past the attempt it returns. */
  lemma {:induction false} FirstAcceptedOnPrefix(attempts: seq<Attempt>, attempts': seq<Attempt>, from: nat, count: nat)
    requires from <= count <= |attempts| && count <= |attempts'|
    requires var k := FirstAccepted(attempts, from, count);
      forall j :: from <= j <= k && j < count ==> attempts'[j] == attempts[j]
    ensures FirstAccepted(attempts', from, count) == FirstAccepted(attempts, from, count)
    decreases count - from
  {
    if from < count {
      assert attempts'[from] == attempts[from];
      if !Accepted(attempts[from]) {
        FirstAcceptedOnPrefix(attempts, attempts', from + 1, count);
      }
    }
  }

  /** No attempt is made after the first accepted one: later outcomes change nothing. */
  lemma SendIgnoresLaterOutcomes(name: string, url: string, attempts: seq<Attempt>, attempts': seq<Attempt>)
    requires RETRY_COUNT <= |attempts| && RETRY_COUNT <= |attempts'|
    requires forall j :: 0 <= j < |Send(name, url, attempts).attemptUrls| ==> attempts'[j] == attempts[j]
    ensures Send(name, url, attempts') == Send(name, url, attempts)
  {
    FirstAcceptedOnPrefix(attempts, attempts', 0, RETRY_COUNT);
  }

  /** The uploader's run depends on no outcome past the attempt that ends it. */
  lemma UploadIgnoresLaterOutcomes(config: Config, filepath: string, clock: seq<string>,
                                   attempts: seq<Attempt>, attempts': seq<Attempt>)
    requires CoversUpload(clock) && RETRY_COUNT <= |attempts| && RETRY_COUNT <= |attempts'|
    requires forall j :: 0 <= j < |Upload(config, filepath, clock, attempts).attemptUrls| ==> attempts'[j] == attempts[j]
    ensures Upload(config, filepath, clock, attempts') == Upload(config, filepath, clock, attempts)
  {
    var name := RemoteName(filepath, clock[0]);
    SendIgnoresLaterOutcomes(name, UploadUrl(config, name), attempts, attempts');
  }

  /**
   * When no attempt is accepted the uploader gives up after exactly RETRY_COUNT
   * attempts, with RETRY_COUNT sleeps, and returns (False, None).
   */
  lemma AllAttemptsFailing(config: Config, filepath: string, clock: seq<string>, attempts: seq<Attempt>)
    requires CoversUpload(clock) && RETRY_COUNT <= |attempts|
    requires forall j :: 0 <= j < RETRY_COUNT ==> !Accepted(attempts[j])
    ensures var run := Upload(config, filepath, clock, attempts);
      && !run.success && run.remoteName == None
      && |run.attemptUrls| == RETRY_COUNT && run.retrySleeps == RETRY_COUNT
  {
  }

  /** A server that answers 201 at once gets exactly one attempt and no sleep. */
  lemma FirstAttemptAccepted(config: Config, filepath: string, clock: seq<string>, attempts: seq<Attempt>)
    requires CoversUpload(clock) && RETRY_COUNT <= |attempts| && attempts[0] == Responded(201)
    ensures Upload(config, filepath, clock, attempts)
      == UploadRun(true, Some(RemoteName(filepath, clock[0])), [UploadUrl(config, RemoteName(filepath, clock[0]))], 0)
  {
    var name := RemoteName(filepath, clock[0]);
    SendAcceptedAtOnce(name, UploadUrl(config, name), attempts);
  }

  /** The first attempt accepted: one attempt at `url`, no sleep, success under `name`. */
  lemma SendAcceptedAtOnce(name: string, url: string, attempts: seq<Attempt>)
    requires RETRY_COUNT <= |attempts| && Accepted(attempts[0])
    ensures Send(name, url, attempts) == UploadRun(true, Some(name), [url], 0)
  {
    var run := Send(name, url, attempts);
    assert |run.attemptUrls| == 1;
    assert run.attemptUrls == [url];
  }

  /** Two connection errors, then 201: three attempts, two sleeps, success. */
  lemma ThirdAttemptAccepted(config: Config, filepath: string, clock: seq<string>, attempts: seq<Attempt>)
    requires CoversUpload(clock) && RETRY_COUNT <= |attempts|
    requires attempts[0] == Raised && attempts[1] == Raised && attempts[2] == Responded(201)
    ensures var run := Upload(config, filepath, clock, attempts);
      run.success && |run.attemptUrls| == 3 && run.retrySleeps == 2
  {
    var name := RemoteName(filepath, clock[0]);
    SendAcceptedThird(name, UploadUrl(config, name), attempts);
  }

  /** Attempts 0 and 1 failed and attempt 2 accepted: three attempts and two sleeps. */
  lemma SendAcceptedThird(name: string, url: string, attempts: seq<Attempt>)
    requires RETRY_COUNT <= |attempts|
    requires !Accepted(attempts[0]) && !Accepted(attempts[1]) && Accepted(attempts[2])
    ensures var run := Send(name, url, attempts);
      run.success && |run.attemptUrls| == 3 && run.retrySleeps == 2
  {
    FirstAcceptedIs(attempts, 2, RETRY_COUNT);
  }
}
