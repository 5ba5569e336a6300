/** The `index-repo` job run on a `repository.connected` event: step
    `fetch-files` reads the user's provider token and fetches the repository's
    files, step `index-codebase` hands them to the indexer under the key
    `owner/repo`. The step runtime stores each completed step's result under
    the step's name for the lifetime of the run, so a retried run skips the
    steps that already completed. */
module IndexJob {
  import opened Records

  const FetchFiles := "fetch-files"
  const IndexCodebase := "index-codebase"
  const GitHubProvider := "github"
  const NoTokenError := "No GitHub access token found"

  datatype File = File(path: string, content: string)

  /** `event.data` of `repository.connected`. */
  datatype EventData = EventData(owner: string, repo: string, userId: UserId)

  /** A completed step's stored result. */
  datatype StepValue = FetchedFiles(files: seq<File>) | Indexed

  /** Calls into the external collaborators, in order. */
  datatype Call =
    | FetchCall(token: string, owner: string, repo: string)
    | IndexCall(key: string, files: seq<File>)

  datatype JobError =
    | NoAccount            // no account row: reading `accessToken` of `null` throws
    | NoToken(message: string)
    | FetchThrew
    | IndexThrew

  datatype JobOutcome = Completed(indexedFiles: nat) | Failed(step: string, error: JobError)

  /** The runtime's store is well formed: each step name holds its own kind of
      result, and indexing completes only after fetching. */
  predicate WellFormedMemo(memo: map<string, StepValue>) {
    && (FetchFiles in memo ==> memo[FetchFiles].FetchedFiles?)
    && (IndexCodebase in memo ==> FetchFiles in memo && memo[IndexCodebase] == Indexed)
  }

  /** `account.findFirst({ where: { userId, providerId: "github" } })`. */
  function FindAccount(accounts: seq<Account>, userId: UserId): (r: Option<Account>)
    ensures r.Some? ==> r.value in accounts && r.value.userId == userId && r.value.providerId == GitHubProvider
    ensures r.None? ==> forall a :: a in accounts ==> a.userId != userId || a.providerId != GitHubProvider
  {
    var k := FindFirst(accounts, (a: Account) => a.userId == userId && a.providerId == GitHubProvider);
    if k.None? then None else Some(accounts[k.value])
  }

  /** The token is usable: present and not the empty string (which is falsy). */
  predicate HasToken(a: Account) {
    a.accessToken.Some? && a.accessToken.value != ""
  }

  function RepoKey(data: EventData): string {
    data.owner + "/" + data.repo
  }

  /** The store after an attempt, the calls it made, and how it ended. */
  datatype Attempt = Attempt(memo: map<string, StepValue>, calls: seq<Call>, outcome: JobOutcome)

  /** The `index-codebase` step, given the files of `fetch-files`. */
  function IndexStep(memo: map<string, StepValue>, calls: seq<Call>, data: EventData, files: seq<File>, indexSucceeds: bool)
    : Attempt
  {
    if IndexCodebase in memo then Attempt(memo, calls, Completed(|files|))
    else
      var call := IndexCall(RepoKey(data), files);
      if indexSucceeds then Attempt(memo[IndexCodebase := Indexed], calls + [call], Completed(|files|))
      else Attempt(memo, calls + [call], Failed(IndexCodebase, IndexThrew))
  }

  /** One attempt of the job body. `fetchReply` is what `getRepoFileContents`
      returns if it is called (absent: it throws); `indexSucceeds` says whether
      `indexCodebase` returns if it is called. */
  function RunAttempt(memo: map<string, StepValue>, data: EventData, accounts: seq<Account>,
                      fetchReply: Option<seq<File>>, indexSucceeds: bool): (a: Attempt)
    requires WellFormedMemo(memo)
    ensures a.outcome.Completed? <==> IndexCodebase in a.memo
    ensures |a.calls| <= 2
  {
    if FetchFiles in memo then IndexStep(memo, [], data, memo[FetchFiles].files, indexSucceeds)
    else
      var account := FindAccount(accounts, data.userId);
      if account.None? then Attempt(memo, [], Failed(FetchFiles, NoAccount))
      else if !HasToken(account.value) then Attempt(memo, [], Failed(FetchFiles, NoToken(NoTokenError)))
      else
        var call := FetchCall(account.value.accessToken.value, data.owner, data.repo);
        if fetchReply.None? then Attempt(memo, [call], Failed(FetchFiles, FetchThrew))
        else IndexStep(memo[FetchFiles := FetchedFiles(fetchReply.value)], [call], data, fetchReply.value, indexSucceeds)
  }

  /** The store only grows: a completed step keeps its stored result, and the
      store stays well formed. */
  lemma AttemptKeepsCompletedSteps(memo: map<string, StepValue>, data: EventData, accounts: seq<Account>,
                                   fetchReply: Option<seq<File>>, indexSucceeds: bool)
    requires WellFormedMemo(memo)
    ensures var a := RunAttempt(memo, data, accounts, fetchReply, indexSucceeds);
      && WellFormedMemo(a.memo)
      && (forall name :: name in memo ==> name in a.memo && a.memo[name] == memo[name])
      && (forall name :: name in a.memo ==> name == FetchFiles || name == IndexCodebase || name in memo)
  {
  }

  /** When the user has no `github` account, or the first one found has a
      missing or empty token, `fetch-files` fails before any call and
      `index-codebase` never runs. */
  lemma NoTokenNoIndexing(memo: map<string, StepValue>, data: EventData, accounts: seq<Account>,
                          fetchReply: Option<seq<File>>, indexSucceeds: bool)
    requires WellFormedMemo(memo) && FetchFiles !in memo
    requires var acc := FindAccount(accounts, data.userId); acc.None? || !HasToken(acc.value)
    ensures var a := RunAttempt(memo, data, accounts, fetchReply, indexSucceeds);
      && a.calls == [] && a.memo == memo
      && a.outcome.Failed? && a.outcome.step == FetchFiles
      && (a.outcome.error == NoAccount || a.outcome.error == NoToken(NoTokenError))
  {
  }

  /** The files are fetched with the user's token for the event's owner and
      repo; `index-codebase` runs only after `fetch-files` has a result, receives
      exactly those files under the key `owner/repo`, and a completed run reports
      their number. A step already stored is not run again. */
  lemma StepsRunInOrderOnFetchedFiles(memo: map<string, StepValue>, data: EventData, accounts: seq<Account>,
                                      fetchReply: Option<seq<File>>, indexSucceeds: bool)
    requires WellFormedMemo(memo)
    ensures var a := RunAttempt(memo, data, accounts, fetchReply, indexSucceeds);
      && (forall i :: 0 <= i < |a.calls| && a.calls[i].FetchCall? ==>
            && i == 0 && FetchFiles !in memo
            && a.calls[i].owner == data.owner && a.calls[i].repo == data.repo
            && FindAccount(accounts, data.userId).Some?
            && FindAccount(accounts, data.userId).value.accessToken == Some(a.calls[i].token))
      && (forall i :: 0 <= i < |a.calls| && a.calls[i].IndexCall? ==>
            && i == |a.calls| - 1 && IndexCodebase !in memo
            && FetchFiles in a.memo
            && a.calls[i] == IndexCall(data.owner + "/" + data.repo, a.memo[FetchFiles].files))
      && (a.outcome.Completed? ==>
            && FetchFiles in a.memo && IndexCodebase in a.memo
            && a.outcome.indexedFiles == |a.memo[FetchFiles].files|)
      && |a.calls| <= 2
  {
  }

  /** The scenario of a retried run: `fetch-files` succeeds and `index-codebase`
      throws; the retry reuses the stored files, calls the indexer once more and
      never the fetcher. */
  lemma RetryReExecutesOnlyIndexing(data: EventData, accounts: seq<Account>, files: seq<File>,
                                    secondReply: Option<seq<File>>)
    requires var a := FindAccount(accounts, data.userId); a.Some? && HasToken(a.value)
    ensures var first := RunAttempt(map[], data, accounts, Some(files), false);
      && first.outcome == Failed(IndexCodebase, IndexThrew)
      && |first.calls| == 2 && first.calls[0].FetchCall?
      && var second := RunAttempt(first.memo, data, accounts, secondReply, true);
         && second.calls == [IndexCall(RepoKey(data), files)]
         && second.outcome == Completed(|files|)
  {
  }

  /** Replays of a run: each attempt starts from the store the previous left. */
  datatype Retry = Retry(fetchReply: Option<seq<File>>, indexSucceeds: bool)

  /** The store, the calls of all attempts, and the outcome of the last attempt (none before the first). */
  datatype Run = Run(memo: map<string, StepValue>, calls: seq<Call>, last: Option<JobOutcome>)

  function RunAttempts(memo: map<string, StepValue>, data: EventData, accounts: seq<Account>, retries: seq<Retry>): (r: Run)
    requires WellFormedMemo(memo)
    ensures WellFormedMemo(r.memo)
    ensures r.last.None? <==> |retries| == 0
    decreases |retries|
  {
    if |retries| == 0 then Run(memo, [], None)
    else
      var prev := RunAttempts(memo, data, accounts, retries[..|retries| - 1]);
      var last := retries[|retries| - 1];
      AttemptKeepsCompletedSteps(prev.memo, data, accounts, last.fetchReply, last.indexSucceeds);
      var next := RunAttempt(prev.memo, data, accounts, last.fetchReply, last.indexSucceeds);
      Run(next.memo, prev.calls + next.calls, Some(next.outcome))
  }

  /** The number of fetch calls in a call log. */
  function CountFetches(calls: seq<Call>): nat {
    if |calls| == 0 then 0
    else CountFetches(calls[..|calls| - 1]) + (if calls[|calls| - 1].FetchCall? then 1 else 0)
  }

  /** Across any number of attempts of one run, the fetch call that completed
      `fetch-files` is the last fetch call ever made: once stored, the step body
      is not run again. So at most one fetch call succeeds per run. */
  lemma {:induction false} FetchCompletesAtMostOnce(data: EventData, accounts: seq<Account>, retries: seq<Retry>, extra: seq<Retry>)
    requires FetchFiles in RunAttempts(map[], data, accounts, retries).memo
    ensures CountFetches(RunAttempts(map[], data, accounts, retries + extra).calls)
         == CountFetches(RunAttempts(map[], data, accounts, retries).calls)
    ensures FetchFiles in RunAttempts(map[], data, accounts, retries + extra).memo
    decreases |extra|
  {
    if |extra| == 0 {
      assert retries + extra == retries;
    } else {
      var init := extra[..|extra| - 1];
      assert (retries + extra)[..|retries + extra| - 1] == retries + init;
      assert (retries + extra)[|retries + extra| - 1] == extra[|extra| - 1];
      FetchCompletesAtMostOnce(data, accounts, retries, init);
      var prev := RunAttempts(map[], data, accounts, retries + init);
      var last := extra[|extra| - 1];
      AttemptKeepsCompletedSteps(prev.memo, data, accounts, last.fetchReply, last.indexSucceeds);
      StepsRunInOrderOnFetchedFiles(prev.memo, data, accounts, last.fetchReply, last.indexSucceeds);
      var next := RunAttempt(prev.memo, data, accounts, last.fetchReply, last.indexSucceeds);
      CountFetchesAppend(prev.calls, next.calls);
    }
  }

  lemma {:induction false} CountFetchesAppend(a: seq<Call>, b: seq<Call>)
    requires forall i :: 0 <= i < |b| ==> !b[i].FetchCall?
    ensures CountFetches(a + b) == CountFetches(a)
    decreases |b|
  {
    if |b| == 0 {
      assert a + b == a;
    } else {
      assert (a + b)[..|a + b| - 1] == a + b[..|b| - 1];
      assert (a + b)[|a + b| - 1] == b[|b| - 1];
      CountFetchesAppend(a, b[..|b| - 1]);
    }
  }

  /** One run of the job, holding the runtime's store of step results. */
  class JobRun {
    var memo: map<string, StepValue>
    var calls: seq<Call>

    ghost predicate Valid()
      reads this
    {
      WellFormedMemo(memo)
    }

    constructor ()
      ensures Valid() && memo == map[] && calls == []
    {
      memo := map[];
      calls := [];
    }

    /** One attempt of the job body; the store and the call log are updated in place. */
    method Execute(data: EventData, accounts: seq<Account>, fetchReply: Option<seq<File>>, indexSucceeds: bool)
        returns (outcome: JobOutcome)
      requires Valid()
      modifies this
      ensures Valid()
      ensures var a := RunAttempt(old(memo), data, accounts, fetchReply, indexSucceeds);
        memo == a.memo && calls == old(calls) + a.calls && outcome == a.outcome
    {
      AttemptKeepsCompletedSteps(memo, data, accounts, fetchReply, indexSucceeds);
      var files: seq<File>;
      if FetchFiles in memo {
        files := memo[FetchFiles].files;
      } else {
        var account := FindAccount(accounts, data.userId);
        if account.None? {
          return Failed(FetchFiles, NoAccount);
        }
        if !HasToken(account.value) {
          return Failed(FetchFiles, NoToken(NoTokenError));
        }
        calls := calls + [FetchCall(account.value.accessToken.value, data.owner, data.repo)];
        if fetchReply.None? {
          return Failed(FetchFiles, FetchThrew);
        }
        files := fetchReply.value;
        memo := memo[FetchFiles := FetchedFiles(files)];
      }
      if IndexCodebase !in memo {
        calls := calls + [IndexCall(RepoKey(data), files)];
        if !indexSucceeds {
          return Failed(IndexCodebase, IndexThrew);
        }
        memo := memo[IndexCodebase := Indexed];
      }
      outcome := Completed(|files|);
    }
  }
}
