/**
 * The standalone test-compile script for one (vulnerable, fixed) commit
 * pair. It builds the vulnerable commit with coverage, records for each test
 * of the suite the changed files it executed (resumable through a JSON
 * checkpoint), then builds the fixed commit, runs its suite and appends one
 * CSV row per (test, changed file) covered on either side.
 *
 * Process results are parameters: whether the project directory exists, the
 * `git diff-tree` and `make fate-list` output, whether `git checkout` and
 * `make` succeeded, whether the CSV already existed, and the walk of the
 * build tree after each test.
 */
module VulnFixTestCompile {
  import opened Wrappers
  import opened PyStr
  import opened TestRelevance

  const RepoName: string := "FFmpeg"
  const VulnCommit: string := "89505d38de989bddd579ce3b841f1c011f1d7bf2"
  const FixCommit: string := "9ffa49496d1aae4cbbb387aac28a9e061a6ab0a6"
  /** `TEST_LIMIT = None`: the whole suite. */
  const TestLimit: Option<int> := None

  /** The one OpenSSL workload the script knows. */
  const OpensslWorkload: string := "standard_workload"

  /**
   * `get_test_suite`: the test names for the repository, chosen on its
   * lower-cased name; `fateListing` is what `make fate-list` printed.
   */
  function TestSuite(repo: string, fateListing: string, limit: Option<int>): (r: seq<string>)
    ensures Lower(repo) == "ffmpeg" ==> r == FateTests(fateListing, limit)
    ensures Lower(repo) == "openssl" ==> r == [OpensslWorkload]
    ensures Lower(repo) != "ffmpeg" && Lower(repo) != "openssl" ==> r == []
  {
    if Lower(repo) == "ffmpeg" then FateTests(fateListing, limit)
    else if Lower(repo) == "openssl" then [OpensslWorkload]
    else []
  }

  /** The configured repository is FFmpeg, so the suite is the whole FATE listing. */
  lemma ConfiguredSuiteIsFate(fateListing: string)
    ensures TestSuite(RepoName, fateListing, TestLimit) == FateNames(Split(fateListing, '\n'))
  {
    assert Lower(RepoName) == "ffmpeg";
  }

  /**
   * `run_vuln_phase`: a complete checkpoint is returned without building; a
   * failed checkout or `make` gives `None` and leaves the checkpoint as it
   * was; otherwise the suite runs from the cached results and the checkpoint
   * is saved complete with the results it returns.
   */
  method RunVulnPhase(checkpoint: Checkpoint, checkoutOk: bool, makeOk: bool,
                      suite: seq<string>, runs: seq<seq<WalkEntry>>, targets: set<string>)
    returns (results: Option<Results>, saved: Checkpoint)
    requires |runs| == |suite|
    ensures IsComplete(checkpoint) ==> results == Some(checkpoint.results) && saved == checkpoint
    ensures !IsComplete(checkpoint) && !(checkoutOk && makeOk) ==> results.None? && saved == checkpoint
    ensures !IsComplete(checkpoint) && checkoutOk && makeOk ==>
      results == Some(VulnAfter(checkpoint.results, suite, runs, targets, |suite|))
      && saved == Checkpoint(Some("COMPLETE"), results.value)
  {
    if IsComplete(checkpoint) {
      return Some(checkpoint.results), checkpoint;
    }
    if !checkoutOk || !makeOk {
      return None, checkpoint;
    }
    var r := RunVulnTests(checkpoint.results, suite, runs, targets);
    results := Some(r);
    saved := Checkpoint(Some("COMPLETE"), r);
  }

  /**
   * `run_fix_phase`: the records it appends to the CSV. A failed checkout or
   * `make` appends nothing; the header is appended only when the file did not
   * exist yet; then come the rows of the fix pass.
   */
  method RunFixPhase(checkoutOk: bool, makeOk: bool, csvExists: bool,
                     suite: seq<string>, runs: seq<seq<WalkEntry>>, vuln: Results, targetOrder: seq<string>)
    returns (appended: seq<seq<string>>)
    requires |runs| == |suite|
    ensures !(checkoutOk && makeOk) ==> appended == []
    ensures checkoutOk && makeOk ==>
      appended == (if csvExists then [] else [Header])
        + CsvRecords(RepoName, VulnCommit, FixCommit, FixPassRows(suite, runs, vuln, targetOrder))
  {
    if !checkoutOk || !makeOk {
      return [];
    }
    appended := if csvExists then [] else [Header];
    var rows := RunFixTests(suite, runs, vuln, targetOrder);
    appended := appended + CsvRecords(RepoName, VulnCommit, FixCommit, rows);
  }

  /** The header is among the appended records exactly when the file did not exist: no row record equals it. */
  lemma HeaderOnlyWhenNew(csvExists: bool, rows: seq<CoverageRow>)
    ensures Header in (if csvExists then [] else [Header]) + CsvRecords(RepoName, VulnCommit, FixCommit, rows) <==> !csvExists
  {
    var records := CsvRecords(RepoName, VulnCommit, FixCommit, rows);
    forall i | 0 <= i < |records|
      ensures records[i] != Header
    {
      assert records[i][0] == RepoName;
      assert RepoName[0] != Header[0][0];
    }
  }

  /** What one run of the script does. */
  datatype Outcome =
    | NoProject                               // the project directory is missing
    | NoTargets                               // the fix commit changed no file
    | VulnFailed(saved: Checkpoint)           // the vulnerable commit did not build
    | Written(saved: Checkpoint, appended: seq<seq<string>>)

  /**
   * `main`: stops without a project directory, without changed files and
   * when the vulnerable phase fails; otherwise the fix phase appends to the
   * CSV using the results of the vulnerable phase. `targetOrder` is the
   * iteration order of the set of changed files.
   */
  method RunPipeline(
    projectExists: bool, diffListing: string, targetOrder: seq<string>, checkpoint: Checkpoint,
    vulnCheckoutOk: bool, vulnMakeOk: bool, vulnListing: string, vulnRuns: seq<seq<WalkEntry>>,
    fixCheckoutOk: bool, fixMakeOk: bool, csvExists: bool, fixListing: string, fixRuns: seq<seq<WalkEntry>>)
    returns (outcome: Outcome)
    requires Enumerates(targetOrder, DiffFiles(diffListing))
    requires |vulnRuns| == |TestSuite(RepoName, vulnListing, TestLimit)|
    requires |fixRuns| == |TestSuite(RepoName, fixListing, TestLimit)|
    ensures !projectExists <==> outcome.NoProject?
    ensures projectExists ==> (outcome.NoTargets? <==> DiffFiles(diffListing) == {})
    ensures projectExists && DiffFiles(diffListing) != {} ==>
      (outcome.VulnFailed? <==> !IsComplete(checkpoint) && !(vulnCheckoutOk && vulnMakeOk))
    ensures outcome.VulnFailed? ==> outcome.saved == checkpoint
    ensures outcome.Written? ==>
      var targets := DiffFiles(diffListing);
      var vuln := if IsComplete(checkpoint) then checkpoint.results
        else VulnAfter(checkpoint.results, FateNames(Split(vulnListing, '\n')), vulnRuns, targets, |vulnRuns|);
      targets != {}
      && (IsComplete(checkpoint) || (vulnCheckoutOk && vulnMakeOk))
      && outcome.saved.results == vuln && IsComplete(outcome.saved)
      && outcome.appended == (if fixCheckoutOk && fixMakeOk then
          (if csvExists then [] else [Header])
            + CsvRecords(RepoName, VulnCommit, FixCommit, FixPassRows(FateNames(Split(fixListing, '\n')), fixRuns, vuln, targetOrder))
        else [])
  {
    if !projectExists {
      return NoProject;
    }
    var targets := DiffFiles(diffListing);
    if targets == {} {
      return NoTargets;
    }
    ConfiguredSuiteIsFate(vulnListing);
    ConfiguredSuiteIsFate(fixListing);
    var vulnSuite := TestSuite(RepoName, vulnListing, TestLimit);
    var vuln, saved := RunVulnPhase(checkpoint, vulnCheckoutOk, vulnMakeOk, vulnSuite, vulnRuns, targets);
    if vuln.None? {
      return VulnFailed(saved);
    }
    var fixSuite := TestSuite(RepoName, fixListing, TestLimit);
    var appended := RunFixPhase(fixCheckoutOk, fixMakeOk, csvExists, fixSuite, fixRuns, vuln.value, targetOrder);
    outcome := Written(saved, appended);
  }
}
