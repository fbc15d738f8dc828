/** The autoformat stack scenario: a stack of several revisions whose last
    `test.txt` the mocking-case formatter rewrites lands with one trailing
    commit holding the formatted text and naming the stack's bug. */
module AutoformatFixture {
  import opened Text
  import opened MockingCase
  import opened LandingWorker

  /** The mocking-case formatter as a formatter of the working copy: it
      always succeeds; when there is a `test.txt` it reads it in text mode
      and writes back the mocking-case form of what it read; every other
      file, and a working copy without `test.txt`, is left alone. */
  function MockingFormatter(files: Files): (r: FormatResult)
    ensures r.FormatSucceeded? && r.files.Keys == files.Keys
    ensures forall p :: p in files && p != "test.txt" ==> r.files[p] == files[p]
    ensures "test.txt" in files ==>
              var read := ReadText(files["test.txt"]);
              |r.files["test.txt"]| == |read| &&
              forall i :: 0 <= i < |read| ==> r.files["test.txt"][i] == CaseAt(i, read[i])
  {
    if "test.txt" in files then FormatSucceeded(files["test.txt" := Mocked(ReadText(files["test.txt"]))])
    else FormatSucceeded(files)
  }

  lemma FormattedDiffers()
    ensures Mocked(TestTxt2) != TestTxt2
  {
    FormattedFixture2();
    assert TestTxtFormatted2[1] == 'e';
    assert TestTxt2[1] == 'E';
  }

  lemma StackLandsFormatted(start: JobState, repo: Repo, entries: seq<StackEntry>, env: Env)
    requires env.update.Updated? && |entries| > 1 && repo.autoformatEnabled
    requires ApplyAll(env.update.history, entries, env).StackApplied?
    requires var tip := TipFiles(ApplyAll(env.update.history, entries, env).history);
             "test.txt" in tip && tip["test.txt"] == TestTxt2 && env.format(tip) == MockingFormatter(tip)
    requires StackBugs(entries, env) == [123]
    requires env.push == PushSucceeded
    ensures var r := Run(start, repo, entries, env);
            var h := ApplyAll(env.update.history, entries, env).history;
            r.state.status == Landed && r.result &&
            r.effects.history[..|h|] == h && |r.effects.history| == |h| + 1 &&
            TipFiles(r.effects.history)["test.txt"] == TestTxtFormatted2 &&
            r.effects.history[|h|].description == FormatTemplate(env.template, "Bug 123") &&
            r.state.formattedReplacements == Some(map[env.node(h) := env.node(r.effects.history)])
  {
    var h := ApplyAll(env.update.history, entries, env).history;
    var tip := TipFiles(h);
    FormattedDiffers();
    FormattedFixture2();
    ReadFixture2();
    BugsStringOfOneBug();
    assert tip["test.txt" := Mocked(TestTxt2)] != tip by {
      assert tip["test.txt" := Mocked(TestTxt2)]["test.txt"] != tip["test.txt"];
    }
    FormatAddsTrailingCommit(repo, entries, env, tip["test.txt" := Mocked(TestTxt2)]);
    PushOutcomes(start, repo, entries, env);
  }
}
