/** A landing job as the worker updates it: `run_job` walks the revision
    stack, applying one patch at a time, then formats, pushes and records
    the outcome on the job's fields. Proved to agree with
    `LandingWorker.Run`, whose outcome properties are proved there. */
module LandingJob {
  import opened Text
  import opened LandingWorker

  class Job {
    var status: Status
    var error: string
    var errorBreakdown: Option<Breakdown>
    var landedCommitId: Option<CommitId>
    var formattedReplacements: Option<map<CommitId, CommitId>>
    /** The job's revisions, in landing order. */
    const revisions: seq<StackEntry>

    /** A new job in `status`: no error, nothing landed, nothing formatted. */
    constructor (revisions: seq<StackEntry>, status: Status)
      ensures this.revisions == revisions
      ensures State() == JobState(status, "", None, None, None)
    {
      this.revisions := revisions;
      this.status := status;
      error := "";
      errorBreakdown := None;
      landedCommitId := None;
      formattedReplacements := None;
    }

    function State(): JobState
      reads this
    {
      JobState(status, error, errorBreakdown, landedCommitId, formattedReplacements)
    }

    method Fail(message: string)
      modifies this
      ensures State() == LandingWorker.Fail(old(State()), message)
    {
      status := Failed;
      error := message;
    }

    /** Apply the stack in order on top of `h0`, one commit per revision,
        stopping at the first revision that cannot be applied. */
    method ApplyStack(h0: seq<Commit>, env: Env) returns (r: StackResult)
      ensures r == ApplyAll(h0, revisions, env)
    {
      var h := h0;
      var i := 0;
      while i < |revisions|
        invariant 0 <= i <= |revisions|
        invariant ApplyAll(h0, revisions[..i], env) == StackApplied(h)
      {
        var e := revisions[i];
        assert revisions[..i + 1][..i] == revisions[..i];
        if !HasDiffStartLine(e.patch) {
          HaltedPersists(h0, revisions, i + 1, env);
          return StackHalted(MissingDiffStartLine(e.revisionId));
        }
        var applied := env.apply(TipFiles(h), e.patch);
        if applied.Conflict? {
          HaltedPersists(h0, revisions, i + 1, env);
          return StackHalted(PatchConflict(e.revisionId, applied.diagnostic));
        }
        h := h + [Commit(env.description(e.patch), applied.files)];
        i := i + 1;
      }
      assert revisions[..|revisions|] == revisions;
      return StackApplied(h);
    }

    /** `run_job`: its result, the job's new fields and its effects are
        those `Run` gives for the job's old fields. */
    method RunJob(repo: Repo, env: Env) returns (result: bool, effects: Effects)
      modifies this
      ensures Outcome(result, State(), effects) == Run(old(State()), repo, revisions, env)
    {
      if env.update.UpdateRaised? {
        var m := FetchFailureMessage(repo.pullPath, env.update.message);
        Fail(m);
        return true, Effects(1, 0, [], [m], []);
      }
      var h0 := env.update.history;
      var applied := ApplyStack(h0, env);
      if applied.StackHalted? {
        match applied.halt
        case MissingDiffStartLine(_) =>
          Fail(MalformedPatchMessage);
          return true, Effects(1, 0, [], [MalformedPatchMessage], h0);
        case PatchConflict(revisionId, diagnostic) =>
          var m := ConflictMessage(revisionId, diagnostic);
          Fail(m);
          errorBreakdown := Some(BreakdownOf(revisionId, diagnostic, env.rejectFiles));
          return true, Effects(1, 0, [], [m], h0);
      }
      var formatted := Autoformat(repo, revisions, applied.history, env);
      if formatted.FormatError? {
        var m := FormatFailureMessage(formatted.output);
        Fail(m);
        return false, Effects(1, 0, [], [m], applied.history);
      }
      var h := formatted.history;
      if formatted.replacements.Some? {
        formattedReplacements := formatted.replacements;
      }

      var calls := [PushCallFor(repo)];
      if env.push.PushLostRace? {
        status := Deferred;
        error := LostPushRaceMessage;
        return false, Effects(0, 0, calls, [LostPushRaceMessage], h);
      }
      if env.push.PushRaised? {
        var m := PushFailureMessage(repo.pushPath, env.push.message);
        Fail(m);
        return false, Effects(1, 0, calls, [m], h);
      }
      status := Landed;
      landedCommitId := Some(env.node(h));
      return true, Effects(0, 1, calls, [], h);
    }
  }
}
