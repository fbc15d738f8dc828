/** The landing worker's job algorithm (`LandingWorker.run_job`) as a pure
    function of the repository configuration, the revision stack and the
    outcomes of its collaborators: the working-copy refresh, patch
    application, the formatter, the push and the commit-id source. The
    collaborators are parameters (`Env`), so every outcome the worker can
    reach is the value of `Run` for some environment. */
module LandingWorker {
  import opened Text
  import opened ErrorData

  type Files = map<string, string>

  /** A commit id: opaque, always 40 characters long. */
  type CommitId = s: string | |s| == 40 witness "0000000000000000000000000000000000000000"

  datatype Commit = Commit(description: string, files: Files)

  /** The files of the working copy: those of the tip commit. */
  function TipFiles(h: seq<Commit>): Files {
    if h == [] then map[] else h[|h| - 1].files
  }

  datatype Status = Submitted | InProgress | Deferred | Failed | Landed | Cancelled

  datatype Repo = Repo(name: string, pullPath: string, pushPath: string, pushTarget: string,
                       forcePush: bool, autoformatEnabled: bool)

  /** `Repo.objects.create(...)`: an omitted push target is the empty string
      (the default branch) and an omitted force-push flag is false. */
  function CreateRepo(name: string, pullPath: string, pushPath: string, pushTarget: Option<string>,
                      forcePush: Option<bool>, autoformatEnabled: bool): (r: Repo)
    ensures r.name == name && r.autoformatEnabled == autoformatEnabled
    ensures r.pushPath == pushPath && r.pullPath == pullPath
    ensures pushTarget.None? ==> r.pushTarget == ""
    ensures pushTarget.Some? ==> r.pushTarget == pushTarget.value
    ensures r.forcePush <==> forcePush == Some(true)
  {
    Repo(name, pullPath, pushPath,
         match pushTarget case None => "" case Some(t) => t,
         match forcePush case None => false case Some(f) => f,
         autoformatEnabled)
  }

  /** One revision of the stack: its Phabricator id and its patch text. */
  datatype StackEntry = StackEntry(revisionId: int, patch: string)

  // ---------------------------------------------------------------------
  // Collaborators.

  datatype UpdateResult = Updated(history: seq<Commit>) | UpdateRaised(message: string)
  datatype ApplyResult = Applied(files: Files) | Conflict(diagnostic: string)
  datatype FormatResult = NotConfigured | FormatSucceeded(files: Files) | FormatFailed(output: string)
  datatype PushResult = PushSucceeded | PushLostRace | PushRaised(message: string)

  /** `AUTOFORMAT_COMMIT_MESSAGE`: text around the `{bugs}` placeholder. */
  datatype MessageTemplate = MessageTemplate(before: string, after: string)

  function FormatTemplate(t: MessageTemplate, bugs: string): string {
    t.before + bugs + t.after
  }

  const IgnoreMarker := "# ignore-this-changeset"

  /** What the worker's collaborators do on this run. `update` is the
      refresh of the working copy (the history it leaves, or the exception
      it raised); `apply` applies a patch to the working copy's files;
      `description` and `parseBugs` read a patch's commit message and the
      bug numbers in it; `format` runs the repository's formatters on the
      working copy; `push` is the outcome of the push; `node` names a
      history's tip; `rejectFiles` holds the reject files in the working
      copy; `template` is the autoformat commit message. */
  datatype Env = Env(update: UpdateResult,
                     apply: (Files, string) -> ApplyResult,
                     description: string -> string,
                     parseBugs: string -> seq<nat>,
                     format: Files -> FormatResult,
                     push: PushResult,
                     node: seq<Commit> -> CommitId,
                     rejectFiles: map<string, string>,
                     template: MessageTemplate)

  // ---------------------------------------------------------------------
  // Applying the stack.

  const DiffStartLineHeader := "# Diff Start Line"

  /** The patch names the line its diff starts on. */
  predicate HasDiffStartLine(patch: string) {
    var ls := Lines(patch);
    exists i :: 0 <= i < |ls| && StartsWith(ls[i], DiffStartLineHeader)
  }

  /** A patch with a diff start line contains the header; so a patch in
      which the header never occurs has none. */
  lemma DiffStartLineInPatch(patch: string)
    requires HasDiffStartLine(patch)
    ensures Contains(patch, DiffStartLineHeader)
  {
    var ls := Lines(patch);
    var i :| 0 <= i < |ls| && StartsWith(ls[i], DiffStartLineHeader);
    UnlinesLines(patch);
    LineStartContained(ls, i, DiffStartLineHeader);
  }

  datatype Halt = MissingDiffStartLine(revisionId: int) | PatchConflict(revisionId: int, diagnostic: string)

  datatype StackResult = StackApplied(history: seq<Commit>) | StackHalted(halt: Halt)

  /** Apply one revision on top of `h`: one new commit with the patch's
      description, or the reason the revision cannot be applied. */
  function ApplyOne(h: seq<Commit>, e: StackEntry, env: Env): StackResult {
    if !HasDiffStartLine(e.patch) then StackHalted(MissingDiffStartLine(e.revisionId))
    else
      match env.apply(TipFiles(h), e.patch)
      case Applied(files) => StackApplied(h + [Commit(env.description(e.patch), files)])
      case Conflict(diagnostic) => StackHalted(PatchConflict(e.revisionId, diagnostic))
  }

  /** Apply the revisions in stack order, stopping at the first that fails.
      A stack that applies adds one commit per revision, in order, on top
      of the history it started from. */
  function ApplyAll(h0: seq<Commit>, entries: seq<StackEntry>, env: Env): (r: StackResult)
    ensures r.StackApplied? ==> |r.history| == |h0| + |entries| && r.history[..|h0|] == h0
    ensures r.StackApplied? ==>
              forall i :: 0 <= i < |entries| ==>
                HasDiffStartLine(entries[i].patch) &&
                r.history[|h0| + i].description == env.description(entries[i].patch)
    ensures r.StackApplied? ==>
              forall i :: 0 <= i < |entries| ==>
                env.apply(TipFiles(r.history[..|h0| + i]), entries[i].patch)
                  == Applied(r.history[|h0| + i].files)
    decreases |entries|
  {
    if entries == [] then StackApplied(h0)
    else
      var init, last := entries[..|entries| - 1], entries[|entries| - 1];
      match ApplyAll(h0, init, env)
      case StackHalted(x) => StackHalted(x)
      case StackApplied(h) =>
        ApplyOneExtends(h0, init, h, last, env);
        assert init + [last] == entries;
        ApplyOne(h, last, env)
  }

  /** Applying one more revision on top of a stack that applied keeps what
      `ApplyAll` states of the earlier revisions and states it of the new one. */
  lemma ApplyOneExtends(h0: seq<Commit>, init: seq<StackEntry>, h: seq<Commit>, e: StackEntry, env: Env)
    requires |h| == |h0| + |init| && h[..|h0|] == h0
    requires forall i :: 0 <= i < |init| ==>
               HasDiffStartLine(init[i].patch) && h[|h0| + i].description == env.description(init[i].patch)
    requires forall i :: 0 <= i < |init| ==>
               env.apply(TipFiles(h[..|h0| + i]), init[i].patch) == Applied(h[|h0| + i].files)
    ensures var r, es := ApplyOne(h, e, env), init + [e];
            r.StackApplied? ==>
              |r.history| == |h0| + |es| && r.history[..|h0|] == h0 &&
              (forall i :: 0 <= i < |es| ==>
                 HasDiffStartLine(es[i].patch) && r.history[|h0| + i].description == env.description(es[i].patch)) &&
              (forall i :: 0 <= i < |es| ==>
                 env.apply(TipFiles(r.history[..|h0| + i]), es[i].patch) == Applied(r.history[|h0| + i].files))
  {
    var r, es := ApplyOne(h, e, env), init + [e];
    if r.StackApplied? {
      var h' := r.history;
      assert h'[..|h|] == h;
      forall i | 0 <= i < |es|
        ensures HasDiffStartLine(es[i].patch) && h'[|h0| + i].description == env.description(es[i].patch)
        ensures env.apply(TipFiles(h'[..|h0| + i]), es[i].patch) == Applied(h'[|h0| + i].files)
      {
        if i < |init| {
          assert es[i] == init[i];
          assert h'[..|h0| + i] == h[..|h0| + i];
        }
      }
    }
  }

  /** Once a revision fails, later revisions are not applied and the
      failure is the result of the whole stack. */
  lemma {:induction false} HaltedPersists(h0: seq<Commit>, entries: seq<StackEntry>, k: nat, env: Env)
    requires k <= |entries|
    requires ApplyAll(h0, entries[..k], env).StackHalted?
    ensures ApplyAll(h0, entries, env) == ApplyAll(h0, entries[..k], env)
    decreases |entries| - k
  {
    if k < |entries| {
      assert entries[..k + 1][..k] == entries[..k];
      HaltedPersists(h0, entries, k + 1, env);
    } else {
      assert entries[..k] == entries;
    }
  }

  /** A stack whose first patch names no diff start line halts on it. */
  lemma {:induction false} FirstWithoutDiffStartLine(h0: seq<Commit>, entries: seq<StackEntry>, env: Env)
    requires entries != [] && !HasDiffStartLine(entries[0].patch)
    ensures ApplyAll(h0, entries, env) == StackHalted(MissingDiffStartLine(entries[0].revisionId))
  {
    assert entries[..1][..0] == [];
    HaltedPersists(h0, entries, 1, env);
  }

  /** A stack whose every patch names its diff start line and applies
      cleanly on top of the revisions before it is applied whole. */
  lemma {:induction false} ConflictFreeApplies(h0: seq<Commit>, entries: seq<StackEntry>, env: Env)
    requires forall i :: 0 <= i < |entries| ==> HasDiffStartLine(entries[i].patch)
    requires forall i :: 0 <= i < |entries| && ApplyAll(h0, entries[..i], env).StackApplied? ==>
               env.apply(TipFiles(ApplyAll(h0, entries[..i], env).history), entries[i].patch).Applied?
    ensures ApplyAll(h0, entries, env).StackApplied?
    decreases |entries|
  {
    if entries != [] {
      var n := |entries| - 1;
      var init := entries[..n];
      assert forall i :: 0 <= i <= n ==> init[..i] == entries[..i];
      ConflictFreeApplies(h0, init, env);
    }
  }

  // ---------------------------------------------------------------------
  // The error breakdown of a conflict.

  datatype RejectEntry = RejectEntry(path: string, content: Option<string>)

  datatype Breakdown = Breakdown(revisionId: int, failedPaths: seq<string>,
                                 rejectsPaths: map<string, RejectEntry>)

  /** The reject file `reject` as read from the working copy. */
  function ReadReject(files: map<string, string>, reject: string): Option<string> {
    if reject in files then Some(files[reject]) else None
  }

  /** The reject entries keyed by failed path; a path reported twice keeps
      its last entry. */
  function RejectsByFile(failed: seq<string>, rejects: seq<string>, files: map<string, string>)
    : (m: map<string, RejectEntry>)
    requires |failed| == |rejects|
    ensures m.Keys == set i | 0 <= i < |failed| :: failed[i]
    ensures forall k :: k in m ==>
              exists i :: 0 <= i < |failed| && failed[i] == k && m[k] == RejectEntry(rejects[i], ReadReject(files, rejects[i]))
    decreases |failed|
  {
    if failed == [] then map[]
    else
      var n := |failed| - 1;
      var m := RejectsByFile(failed[..n], rejects[..n], files);
      assert forall i :: 0 <= i < n ==> failed[..n][i] == failed[i] && rejects[..n][i] == rejects[i];
      assert (set i | 0 <= i < |failed| :: failed[i]) == (set i | 0 <= i < n :: failed[..n][i]) + {failed[n]};
      m[failed[n] := RejectEntry(rejects[n], ReadReject(files, rejects[n]))]
  }

  /** `process_merge_conflict`: classify the diagnostic and read each
      reject file. */
  function BreakdownOf(revisionId: int, diagnostic: string, files: map<string, string>): (b: Breakdown)
    ensures b.revisionId == revisionId
    ensures b.failedPaths == ExtractErrorData(diagnostic).0
    ensures forall k :: k in b.rejectsPaths ==>
              b.rejectsPaths[k].path in ExtractErrorData(diagnostic).1 &&
              b.rejectsPaths[k].content == ReadReject(files, b.rejectsPaths[k].path)
    ensures var (failed, rejects) := ExtractErrorData(diagnostic);
            forall k :: k in b.rejectsPaths ==>
              exists i :: 0 <= i < |failed| && failed[i] == k && b.rejectsPaths[k].path == rejects[i]
  {
    var (failed, rejects) := ExtractErrorData(diagnostic);
    Breakdown(revisionId, failed, RejectsByFile(failed, rejects, files))
  }

  /** The conflict breakdown keys its reject entries by exactly the failed
      paths; every entry names its (non-empty) reject file; an entry's
      content is there, and not empty, whenever the working copy holds a
      non-empty reject file for it. */
  lemma ConflictBreakdown(revisionId: int, diagnostic: string, files: map<string, string>)
    ensures var b := BreakdownOf(revisionId, diagnostic, files);
            b.rejectsPaths.Keys == (set i | 0 <= i < |b.failedPaths| :: b.failedPaths[i])
    ensures var b := BreakdownOf(revisionId, diagnostic, files);
            forall k :: k in b.rejectsPaths ==> b.rejectsPaths[k].path != []
    ensures var b := BreakdownOf(revisionId, diagnostic, files);
            forall k :: k in b.rejectsPaths && b.rejectsPaths[k].path in files &&
                        files[b.rejectsPaths[k].path] != [] ==>
              b.rejectsPaths[k].content.Some? && b.rejectsPaths[k].content.value != []
    ensures var b := BreakdownOf(revisionId, diagnostic, files);
            b.rejectsPaths == map[] <==> b.failedPaths == []
  {
    var (failed, rejects) := ExtractErrorData(diagnostic);
    var m := RejectsByFile(failed, rejects, files);
    forall k | k in m
      ensures m[k].path != []
    {
      var i :| 0 <= i < |failed| && failed[i] == k && m[k] == RejectEntry(rejects[i], ReadReject(files, rejects[i]));
    }
    if failed != [] {
      assert failed[0] in m.Keys;
    }
  }

  // ---------------------------------------------------------------------
  // Autoformatting.

  /** `"Bug N"` for each bug number, separated by commas. */
  function BugsString(bugs: seq<nat>): (s: string)
    ensures s == [] <==> bugs == []
    ensures bugs != [] ==> StartsWith(s, "Bug ")
  {
    if bugs == [] then ""
    else if |bugs| == 1 then "Bug " + NatToString(bugs[0])
    else "Bug " + NatToString(bugs[0]) + ", " + BugsString(bugs[1..])
  }

  /** The autoformat commit references every bug of the stack. */
  lemma {:induction false} BugsStringMentionsEvery(bugs: seq<nat>, i: nat)
    requires i < |bugs|
    ensures Contains(BugsString(bugs), "Bug " + NatToString(bugs[i]))
  {
    var b0 := "Bug " + NatToString(bugs[0]);
    if |bugs| == 1 {
      assert OccursAt(BugsString(bugs), b0, 0) by {
        assert BugsString(bugs) == b0;
      }
    } else if i == 0 {
      ContainsPrefix(b0, ", " + BugsString(bugs[1..]));
      assert BugsString(bugs) == b0 + (", " + BugsString(bugs[1..]));
    } else {
      BugsStringMentionsEvery(bugs[1..], i - 1);
      ContainsWithin(b0 + ", ", BugsString(bugs[1..]), "", "Bug " + NatToString(bugs[i]));
      assert b0 + ", " + BugsString(bugs[1..]) + "" == BugsString(bugs);
    }
  }

  lemma BugsStringOfOneBug()
    ensures BugsString([123]) == "Bug 123"
  {
    assert NatToString(123) == "123";
  }

  /** The bug numbers of the stack's commit messages, in stack order. */
  function StackBugs(entries: seq<StackEntry>, env: Env): (bugs: seq<nat>)
    ensures forall i, b :: 0 <= i < |entries| && b in env.parseBugs(env.description(entries[i].patch)) ==>
              b in bugs
    ensures forall b :: b in bugs ==>
              exists i :: 0 <= i < |entries| && b in env.parseBugs(env.description(entries[i].patch))
  {
    if entries == [] then []
    else
      var first, rest := env.parseBugs(env.description(entries[0].patch)), StackBugs(entries[1..], env);
      assert forall i :: 0 < i < |entries| ==> entries[1..][i - 1] == entries[i];
      first + rest
  }

  datatype FormatOutcome =
    | FormatDone(history: seq<Commit>, replacements: Option<map<CommitId, CommitId>>)
    | FormatError(output: string)

  /** The autoformat step after the whole stack applied (`h`): nothing when
      autoformatting is off, no formatter is configured or the formatter
      changed nothing; otherwise a single revision is amended in place
      (keeping its description) and a longer stack gets one trailing commit
      whose message lists the stack's bugs. */
  function Autoformat(repo: Repo, entries: seq<StackEntry>, h: seq<Commit>, env: Env): (r: FormatOutcome)
    requires |entries| <= |h|
    ensures r.FormatError? <==> repo.autoformatEnabled && env.format(TipFiles(h)).FormatFailed?
    ensures r.FormatError? ==> r.output == env.format(TipFiles(h)).output
    ensures r.FormatDone? ==>
              (r.replacements.Some? <==>
                 repo.autoformatEnabled && env.format(TipFiles(h)).FormatSucceeded? &&
                 env.format(TipFiles(h)).files != TipFiles(h))
    ensures r.FormatDone? && r.replacements.None? ==> r.history == h
    ensures r.FormatDone? && r.replacements.Some? ==>
              TipFiles(r.history) == env.format(TipFiles(h)).files &&
              r.replacements.value == map[env.node(h) := env.node(r.history)]
    ensures r.FormatDone? && r.replacements.Some? && |entries| == 1 ==>
              |r.history| == |h| && r.history[..|h| - 1] == h[..|h| - 1] &&
              r.history[|h| - 1].description == h[|h| - 1].description
    ensures r.FormatDone? && r.replacements.Some? && |entries| != 1 ==>
              |r.history| == |h| + 1 && r.history[..|h|] == h &&
              r.history[|h|].description == FormatTemplate(env.template, BugsString(StackBugs(entries, env)))
  {
    if !repo.autoformatEnabled then FormatDone(h, None)
    else
      match env.format(TipFiles(h))
      case NotConfigured => FormatDone(h, None)
      case FormatFailed(output) => FormatError(output)
      case FormatSucceeded(files) =>
        if files == TipFiles(h) then FormatDone(h, None)
        else
          var h' :=
            if |entries| == 1 then h[..|h| - 1] + [Commit(h[|h| - 1].description, files)]
            else h + [Commit(FormatTemplate(env.template, BugsString(StackBugs(entries, env))), files)];
          FormatDone(h', Some(map[env.node(h) := env.node(h')]))
  }

  // ---------------------------------------------------------------------
  // Messages.

  const MalformedPatchPreamble :=
    "Lando encountered a malformed patch, please try again. If this error persists please file a bug: "
  const NoDiffStartLineReason := "Patch without a diff start line."
  const MalformedPatchMessage := MalformedPatchPreamble + NoDiffStartLineReason

  function FetchFailureMessage(pullPath: string, message: string): string {
    "Unexpected error while fetching repo from " + pullPath + ".\n" + message
  }

  function ConflictMessage(revisionId: int, diagnostic: string): string {
    "Problem while applying patch in revision " + IntToString(revisionId) + ":\n\n" + diagnostic
  }

  const FormatFailureHead := "Lando failed to format your patch"
  const FormatFailureTail := " for conformity with our formatting policy. Please see the details below.\n\n"

  function FormatFailureMessage(output: string): string {
    FormatFailureHead + (FormatFailureTail + output)
  }

  /** The formatter failure message says so and carries the formatter's output. */
  lemma FormatFailureMentions(output: string)
    ensures Contains(FormatFailureMessage(output), FormatFailureHead)
    ensures Contains(FormatFailureMessage(output), output)
  {
    ContainsPrefix(FormatFailureHead, FormatFailureTail + output);
    ContainsLast(FormatFailureHead, FormatFailureTail, output);
  }

  function PushFailureMessage(pushPath: string, message: string): string {
    "Unexpected error while pushing to " + pushPath + ".\n" + message
  }

  const LostPushRaceMessage := "Lost push race, the job will be retried."

  // ---------------------------------------------------------------------
  // The job.

  /** A call of `push`: its positional and its keyword arguments. */
  datatype Argument = Str(s: string) | Bool(b: bool)
  datatype PushCall = PushCall(positional: seq<string>, keywords: map<string, Argument>)

  /** `scm.push(repo.push_path, push_target=repo.push_target, force_push=repo.force_push)`. */
  function PushCallFor(repo: Repo): (c: PushCall)
    ensures |c.positional| == 1 && c.positional[0] == repo.pushPath
    ensures c.keywords.Keys == {"push_target", "force_push"}
    ensures c.keywords["push_target"] == Str(repo.pushTarget)
    ensures c.keywords["force_push"] == Bool(repo.forcePush)
  {
    PushCall([repo.pushPath], map["push_target" := Str(repo.pushTarget), "force_push" := Bool(repo.forcePush)])
  }

  /** The fields of a landing job that `run_job` sets. */
  datatype JobState = JobState(status: Status, error: string, errorBreakdown: Option<Breakdown>,
                               landedCommitId: Option<CommitId>,
                               formattedReplacements: Option<map<CommitId, CommitId>>)

  /** What a run does besides the job's fields: failure notifications to the
      requester, repository-update triggers to the review system, push
      calls, log lines, and the working copy's history when the run ends.
      On a halt in the stack, `history` is the refreshed history: the
      commits of the revisions applied before the failing one are not
      recorded, since nothing of a halted stack is pushed. */
  datatype Effects = Effects(failureNotices: nat, repoUpdateTriggers: nat, pushCalls: seq<PushCall>,
                             log: seq<string>, history: seq<Commit>)

  datatype Outcome = Outcome(result: bool, state: JobState, effects: Effects)

  function Fail(start: JobState, message: string): JobState {
    start.(status := Failed, error := message)
  }

  /** The push and what follows it, once the stack applied and was
      formatted into history `h`. */
  function PushStep(start: JobState, repo: Repo, h: seq<Commit>, replacements: Option<map<CommitId, CommitId>>,
                    env: Env): Outcome
  {
    var state := if replacements.Some? then start.(formattedReplacements := replacements) else start;
    var calls := [PushCallFor(repo)];
    match env.push
    case PushLostRace =>
      Outcome(false, state.(status := Deferred, error := LostPushRaceMessage),
              Effects(0, 0, calls, [LostPushRaceMessage], h))
    case PushRaised(message) =>
      var m := PushFailureMessage(repo.pushPath, message);
      Outcome(false, Fail(state, m), Effects(1, 0, calls, [m], h))
    case PushSucceeded =>
      Outcome(true, state.(status := Landed, landedCommitId := Some(env.node(h))), Effects(0, 1, calls, [], h))
  }

  /** `run_job` on a job in state `start` for stack `entries` of `repo`.
      Every run ends FAILED, DEFERRED or LANDED; the requester is notified
      exactly when it fails, the review system exactly when it lands; the
      push is attempted at most once, with the repository's push
      configuration; a deferral records no landed commit. */
  function Run(start: JobState, repo: Repo, entries: seq<StackEntry>, env: Env): (r: Outcome)
    ensures r.state.status == Failed || r.state.status == Deferred || r.state.status == Landed
    ensures r.effects.failureNotices == (if r.state.status == Failed then 1 else 0)
    ensures r.effects.repoUpdateTriggers == (if r.state.status == Landed then 1 else 0)
    ensures r.state.status == Landed ==> r.result && r.state.landedCommitId.Some?
    ensures r.state.status == Deferred ==> !r.result && r.state.landedCommitId == start.landedCommitId
    ensures r.state.status == Deferred <==> r.effects.pushCalls != [] && env.push == PushLostRace
    ensures r.state.status == Landed <==> r.effects.pushCalls != [] && env.push == PushSucceeded
    ensures r.effects.pushCalls == [] || r.effects.pushCalls == [PushCallFor(repo)]
    ensures r.state.status != Failed ==> r.state.errorBreakdown == start.errorBreakdown
  {
    match env.update
    case UpdateRaised(message) =>
      var m := FetchFailureMessage(repo.pullPath, message);
      Outcome(true, Fail(start, m), Effects(1, 0, [], [m], []))
    case Updated(h0) =>
      match ApplyAll(h0, entries, env)
      case StackHalted(MissingDiffStartLine(_)) =>
        Outcome(true, Fail(start, MalformedPatchMessage), Effects(1, 0, [], [MalformedPatchMessage], h0))
      case StackHalted(PatchConflict(revisionId, diagnostic)) =>
        var m := ConflictMessage(revisionId, diagnostic);
        var b := BreakdownOf(revisionId, diagnostic, env.rejectFiles);
        Outcome(true, Fail(start, m).(errorBreakdown := Some(b)), Effects(1, 0, [], [m], h0))
      case StackApplied(h) =>
        match Autoformat(repo, entries, h, env)
        case FormatError(output) =>
          var m := FormatFailureMessage(output);
          Outcome(false, Fail(start, m), Effects(1, 0, [], [m], h))
        case FormatDone(h', replacements) =>
          PushStep(start, repo, h', replacements, env)
  }

  // ---------------------------------------------------------------------
  // Outcomes of a run.

  /** A working copy that cannot be refreshed fails the job, with the
      exception's text, before any patch is applied. */
  lemma UpdateRaisedFails(start: JobState, repo: Repo, entries: seq<StackEntry>, env: Env)
    requires env.update.UpdateRaised?
    ensures var r := Run(start, repo, entries, env);
            r.result && r.state.status == Failed && r.effects.failureNotices == 1 &&
            r.effects.pushCalls == [] &&
            r.state.error == FetchFailureMessage(repo.pullPath, env.update.message)
  {
  }

  /** A revision whose patch names no diff start line, reached after the
      revisions before it applied, fails the job with the malformed-patch
      message, which is also logged; nothing is pushed and the history
      stays the refreshed one. */
  lemma {:induction false} MissingDiffStartLineAtFails(start: JobState, repo: Repo, entries: seq<StackEntry>,
                                                       k: nat, env: Env)
    requires env.update.Updated?
    requires k < |entries| && !HasDiffStartLine(entries[k].patch)
    requires ApplyAll(env.update.history, entries[..k], env).StackApplied?
    ensures var r := Run(start, repo, entries, env);
            r.result && r.state.status == Failed && r.effects.failureNotices == 1 &&
            r.effects.pushCalls == [] && r.state.error == MalformedPatchMessage &&
            r.effects.log == [r.state.error] && Contains(r.state.error, NoDiffStartLineReason) &&
            r.effects.history == env.update.history
  {
    var h0 := env.update.history;
    assert entries[..k + 1][..k] == entries[..k];
    assert entries[..k + 1][k] == entries[k];
    HaltedPersists(h0, entries, k + 1, env);
    ContainsSuffix(MalformedPatchPreamble, NoDiffStartLineReason);
  }

  /** The first revision's patch names no diff start line: the job fails
      in the same way. */
  lemma MissingDiffStartLineFails(start: JobState, repo: Repo, entries: seq<StackEntry>, env: Env)
    requires env.update.Updated?
    requires entries != [] && !HasDiffStartLine(entries[0].patch)
    ensures var r := Run(start, repo, entries, env);
            r.result && r.state.status == Failed && r.effects.failureNotices == 1 &&
            r.effects.pushCalls == [] && r.state.error == MalformedPatchMessage &&
            r.effects.log == [r.state.error] && Contains(r.state.error, NoDiffStartLineReason) &&
            r.effects.history == env.update.history
  {
    assert entries[..0] == [];
    MissingDiffStartLineAtFails(start, repo, entries, 0, env);
  }

  /** A conflicting patch fails the job with the diagnostic in its error
      and its log line, and records the breakdown of the diagnostic. */
  lemma ConflictFails(start: JobState, repo: Repo, entries: seq<StackEntry>, env: Env,
                      revisionId: int, diagnostic: string)
    requires env.update.Updated?
    requires ApplyAll(env.update.history, entries, env) == StackHalted(PatchConflict(revisionId, diagnostic))
    ensures var r := Run(start, repo, entries, env);
            r.result && r.state.status == Failed && r.effects.failureNotices == 1 &&
            r.effects.pushCalls == [] &&
            r.state.error == ConflictMessage(revisionId, diagnostic) &&
            r.effects.log == [r.state.error] && Contains(r.state.error, diagnostic) &&
            r.state.errorBreakdown == Some(BreakdownOf(revisionId, diagnostic, env.rejectFiles))
  {
    var m := "Problem while applying patch in revision " + IntToString(revisionId) + ":\n\n";
    ContainsSuffix(m, diagnostic);
  }

  /** A formatter failure fails the job, returns false and tells the
      requester why; nothing is pushed. */
  lemma FormatterFailureFails(start: JobState, repo: Repo, entries: seq<StackEntry>, env: Env, output: string)
    requires env.update.Updated?
    requires ApplyAll(env.update.history, entries, env).StackApplied?
    requires repo.autoformatEnabled
    requires env.format(TipFiles(ApplyAll(env.update.history, entries, env).history)) == FormatFailed(output)
    ensures var r := Run(start, repo, entries, env);
            !r.result && r.state.status == Failed && r.effects.failureNotices == 1 &&
            r.effects.pushCalls == [] && Contains(r.state.error, FormatFailureHead) &&
            Contains(r.state.error, output)
  {
    FormatFailureMentions(output);
  }

  /** The history the push step receives on a run that reaches it. */
  function PushedHistory(repo: Repo, entries: seq<StackEntry>, env: Env): seq<Commit>
    requires env.update.Updated?
    requires ApplyAll(env.update.history, entries, env).StackApplied?
  {
    var h := ApplyAll(env.update.history, entries, env).history;
    match Autoformat(repo, entries, h, env)
    case FormatDone(h', _) => h'
    case FormatError(_) => h
  }

  /** A run that applies and formats its stack pushes exactly once, with
      the repository's push path, target and force flag; on success it
      lands the tip of the pushed history and triggers one repository
      update; a lost push race defers the job without landing anything and
      without telling the requester. */
  lemma PushOutcomes(start: JobState, repo: Repo, entries: seq<StackEntry>, env: Env)
    requires env.update.Updated?
    requires ApplyAll(env.update.history, entries, env).StackApplied?
    requires Autoformat(repo, entries, ApplyAll(env.update.history, entries, env).history, env).FormatDone?
    ensures var r := Run(start, repo, entries, env);
            r.effects.pushCalls == [PushCallFor(repo)] &&
            r.effects.history == PushedHistory(repo, entries, env)
    ensures var r := Run(start, repo, entries, env);
            env.push == PushSucceeded ==>
              r.result && r.state.status == Landed &&
              r.state.landedCommitId == Some(env.node(PushedHistory(repo, entries, env))) &&
              r.effects.failureNotices == 0 && r.effects.repoUpdateTriggers == 1
    ensures var r := Run(start, repo, entries, env);
            env.push == PushLostRace ==>
              !r.result && r.state.status == Deferred && r.state.landedCommitId == start.landedCommitId &&
              r.effects.failureNotices == 0 && r.effects.repoUpdateTriggers == 0
    ensures var r := Run(start, repo, entries, env);
            env.push.PushRaised? ==> !r.result && r.state.status == Failed && r.effects.failureNotices == 1
  {
  }

  /** The push of a repository created with `force_push=True` forces the
      default branch; one created with `push_target="@"` pushes that
      bookmark without forcing. */
  lemma PushConfigurations(name: string, pullPath: string, pushPath: string, autoformat: bool)
    ensures PushCallFor(CreateRepo(name, pullPath, pushPath, None, Some(true), autoformat)).keywords
            == map["push_target" := Str(""), "force_push" := Bool(true)]
    ensures PushCallFor(CreateRepo(name, pullPath, pushPath, Some("@"), None, autoformat)).keywords
            == map["push_target" := Str("@"), "force_push" := Bool(false)]
    ensures PushCallFor(CreateRepo(name, pullPath, pushPath, None, None, autoformat)).positional == [pushPath]
  {
  }

  /** Autoformatting that changes a single revision amends it: the history
      below it is untouched, its description is kept, its files are the
      formatter's output, and the replacement maps the unformatted tip to
      the amended one. */
  lemma {:induction false} FormatAmendsSingleRevision(repo: Repo, e: StackEntry, env: Env, files: Files)
    requires env.update.Updated?
    requires ApplyAll(env.update.history, [e], env).StackApplied?
    requires repo.autoformatEnabled
    requires var h := ApplyAll(env.update.history, [e], env).history;
             env.format(TipFiles(h)) == FormatSucceeded(files) && files != TipFiles(h)
    ensures var h0, h := env.update.history, ApplyAll(env.update.history, [e], env).history;
            var f := Autoformat(repo, [e], h, env);
            f.FormatDone? && |f.history| == |h0| + 1 && f.history[..|h0|] == h0 &&
            f.history[|h0|] == Commit(env.description(e.patch), files) &&
            f.replacements == Some(map[env.node(h) := env.node(f.history)])
  {
    var h0, h := env.update.history, ApplyAll(env.update.history, [e], env).history;
    assert h[|h0|].description == env.description([e][0].patch);
    assert h[..|h| - 1] == h0;
  }

  /** Autoformatting that changes a stack of several revisions adds one
      commit on top of them, carrying the formatter's output and the
      autoformat message filled in with every bug of the stack; the ignore
      marker of the template passes to the commit. */
  lemma FormatAddsTrailingCommit(repo: Repo, entries: seq<StackEntry>, env: Env, files: Files)
    requires env.update.Updated?
    requires |entries| > 1
    requires ApplyAll(env.update.history, entries, env).StackApplied?
    requires repo.autoformatEnabled
    requires var h := ApplyAll(env.update.history, entries, env).history;
             env.format(TipFiles(h)) == FormatSucceeded(files) && files != TipFiles(h)
    ensures var h := ApplyAll(env.update.history, entries, env).history;
            var f := Autoformat(repo, entries, h, env);
            var bugs := BugsString(StackBugs(entries, env));
            f.FormatDone? && f.history == h + [Commit(FormatTemplate(env.template, bugs), files)] &&
            f.replacements == Some(map[env.node(h) := env.node(f.history)]) &&
            (Contains(env.template.before, IgnoreMarker) || Contains(env.template.after, IgnoreMarker) ==>
               Contains(f.history[|f.history| - 1].description, IgnoreMarker))
  {
    var bugs := BugsString(StackBugs(entries, env));
    if Contains(env.template.before, IgnoreMarker) || Contains(env.template.after, IgnoreMarker) {
      TemplateKeepsMarker(env.template, bugs);
    }
  }

  /** Text in either half of the template survives filling in the bugs. */
  lemma TemplateKeepsMarker(t: MessageTemplate, bugs: string)
    requires Contains(t.before, IgnoreMarker) || Contains(t.after, IgnoreMarker)
    ensures Contains(FormatTemplate(t, bugs), IgnoreMarker)
  {
    if Contains(t.before, IgnoreMarker) {
      ContainsWithin("", t.before, bugs + t.after, IgnoreMarker);
      assert "" + t.before + (bugs + t.after) == FormatTemplate(t, bugs);
    } else {
      ContainsWithin(t.before + bugs, t.after, "", IgnoreMarker);
      assert t.before + bugs + t.after + "" == FormatTemplate(t, bugs);
    }
  }

  /** A formatter that changes nothing, or a repository without formatter
      configuration, leaves the applied history as it is and records no
      replacements. */
  lemma FormatUnchanged(repo: Repo, entries: seq<StackEntry>, h: seq<Commit>, env: Env)
    requires |entries| <= |h|
    requires env.format(TipFiles(h)) == NotConfigured || env.format(TipFiles(h)) == FormatSucceeded(TipFiles(h))
    ensures Autoformat(repo, entries, h, env) == FormatDone(h, None)
  {
  }

  /** A stack the formatter leaves as it is, or a repository without
      formatter configuration, still lands: one repository-update trigger,
      no failure notice, and the job's recorded replacements untouched. */
  lemma FormatNoOpLands(start: JobState, repo: Repo, entries: seq<StackEntry>, env: Env)
    requires env.update.Updated?
    requires ApplyAll(env.update.history, entries, env).StackApplied?
    requires var tip := TipFiles(ApplyAll(env.update.history, entries, env).history);
             env.format(tip) == NotConfigured || env.format(tip) == FormatSucceeded(tip)
    requires env.push == PushSucceeded
    ensures var r := Run(start, repo, entries, env);
            r.result && r.state.status == Landed && r.effects.failureNotices == 0 &&
            r.effects.repoUpdateTriggers == 1 &&
            r.state.formattedReplacements == start.formattedReplacements &&
            r.effects.history == ApplyAll(env.update.history, entries, env).history
  {
    var h := ApplyAll(env.update.history, entries, env).history;
    FormatUnchanged(repo, entries, h, env);
  }
}
