# Lando landing worker: a verified model

Lando lands Phabricator revision stacks into Mercurial repositories. A
landing job holds an ordered stack of revisions. The landing worker runs
the job as follows:

1. It refreshes the working copy from the repository's pull path.
2. It applies each revision's patch in order.
3. If the repository enables autoformatting, it runs the repository's
   formatters once over the whole stack. A single revision is amended in
   place. A longer stack gets one trailing commit whose message names the
   stack's bugs and carries the `# ignore-this-changeset` marker.
4. It pushes to the push path, with the repository's push target and
   force flag.
5. It records the outcome on the job.

Any failure marks the job FAILED and notifies the requester once. There is
one exception: losing a push race marks the job DEFERRED, with no notice
and no landed commit. A successful push marks it LANDED, with the
40-character tip id, and triggers one repository update in the review
system. When a patch does not apply, the worker classifies the `hg import`
diagnostic into failed paths and reject files (`extract_error_data`). It
records them as the job's error breakdown.

The project models:

- that outcome contract, as the pure function `LandingWorker.Run`;
- the same contract as the class `LandingJob.Job`, whose method `RunJob`
  updates the job's fields step by step and is proved equal to `Run`;
- the diagnostic classifier (`ErrorData`), and the test's seven-failure
  diagnostic proved to classify exactly as the test expects
  (`ErrorDataFixture`);
- the fake "mOcKiNg cAsE" formatter used by the autoformat tests, as a
  loop proved against its specification (`MockingCase`), and the stack
  scenario it drives (`AutoformatFixture`);
- the `Revision` record (`RevisionModel`), with its `repr`, its UTF-8
  `patch_bytes`, `get_from_revision_id`, `new_from_patch`, `set_patch` and
  `serialize`.

`Text` holds the string toolkit: lines, prefixes, containment, `str(int)`.
`Utf8` holds UTF-8 encoding and decoding as in RFC 3629, with both round
trips proved.

Collaborators that the worker calls are parameters bundled in
`LandingWorker.Env`. These are the working-copy refresh, patch
application, the commit-message reader, the bug parser, the formatters,
the push, the commit-id source and the reject files in the working copy.
Every behaviour of the worker that the tests pin is then the value of
`Run` for some environment, except what "## Left out" lists.

## Model

| member | source | states |
|---|---|---|
| LandingWorker.Run | src/lando/api/tests/test_landings.py:240-283 | every run ends FAILED, DEFERRED or LANDED; exactly one failure notice iff FAILED, exactly one repository-update trigger iff LANDED; LANDED implies result true and a landed id; DEFERRED iff the push was attempted and lost the race, with result false and the landed id untouched; at most one push, always with the repository's push arguments; the breakdown changes only on failure |
| LandingWorker.UpdateRaisedFails | src/lando/api/tests/test_landings.py:545-573 | an exception from refreshing the working copy fails the job, returns true, notifies once, pushes nothing, and puts the exception text in the error |
| LandingWorker.MissingDiffStartLineFails | src/lando/api/tests/test_landings.py:404-411 | a first patch without a `# Diff Start Line` header fails the job, returns true, notifies once, pushes nothing, keeps the refreshed history, and logs an error containing "Patch without a diff start line." |
| LandingWorker.MissingDiffStartLineAtFails | src/lando/api/tests/test_landings.py:404-411 | the same for a revision at any position whose earlier revisions applied: the job fails with the malformed-patch message, returns true, notifies once, pushes nothing and keeps the refreshed history |
| LandingWorker.ConflictFails | src/lando/api/tests/test_landings.py:502-505 | a conflicting patch fails the job and returns true; its error and log line contain the diagnostic (so "hunks FAILED" reaches the log); the breakdown is the classification of the diagnostic |
| LandingWorker.ConflictBreakdown | src/lando/api/tests/test_landings.py:505-519 | the reject entries are keyed by exactly the set of failed paths; every entry names a non-empty reject file; an entry has non-empty content whenever the working copy holds a non-empty reject file for it; there are reject entries iff there are failed paths |
| LandingWorker.BreakdownOf | src/lando/api/tests/test_landings.py:505-519 | `process_merge_conflict`: the breakdown carries the revision id and the failed paths the diagnostic reports; each reject entry names one of the diagnostic's reject files, with the content the working copy holds at that path (none when it holds no such file); the entry of a failed path names that path's own reject file; `ConflictBreakdown` states the keys |
| LandingWorker.FormatterFailureFails | src/lando/api/tests/test_landings.py:902-913 | a formatter failure fails the job, returns false, notifies once, pushes nothing, and its error contains "Lando failed to format your patch" and the formatter's output |
| LandingWorker.FormatFailureMentions | src/lando/api/tests/test_landings.py:908-910 | the formatter failure message contains the failure phrase and the formatter's output |
| LandingWorker.PushOutcomes | src/lando/api/tests/test_landings.py:441-456 | a run that gets to the push pushes exactly once with the repository's arguments; success lands the pushed tip (true, LANDED, one trigger, no notice); a lost race defers (false, DEFERRED, no notice, no trigger, landed id unchanged); any other push error fails with one notice |
| LandingWorker.PushCallFor | src/lando/api/tests/test_landings.py:325-329 | the push has one positional argument, the push path, and exactly the keywords `push_target` and `force_push`, carrying the repository's values |
| LandingWorker.PushConfigurations | src/lando/api/tests/test_landings.py:369-375 | a repository created with `force_push=True` pushes `{"push_target": "", "force_push": True}`; one created with `push_target="@"` pushes `{"push_target": "@", "force_push": False}`; the positional argument is the push path |
| LandingWorker.CreateRepo | src/lando/api/tests/test_landings.py:295-303 | an omitted push target is the empty string and an omitted force flag is false; given values are kept, and so are the name, the paths and the autoformat flag |
| LandingWorker.ApplyAll | src/lando/api/tests/test_landings.py:845-855 | a stack that applies adds exactly one commit per revision, in stack order, on top of the starting history; each commit has its patch's description and holds the files that its patch gives when applied to the commit before it; every patch names a diff start line |
| LandingWorker.HaltedPersists | src/lando/api/tests/test_landings.py:409-411 | once a revision fails, later revisions are not applied and that failure is the stack's result |
| LandingWorker.FirstWithoutDiffStartLine | src/lando/api/tests/test_landings.py:403-405 | a stack whose first patch names no diff start line halts on that revision |
| LandingWorker.HasDiffStartLine | src/lando/api/tests/test_landings.py:59-71 | some line of the patch starts with `# Diff Start Line`; `DiffStartLineInPatch`, `ApplyAll` and `FirstWithoutDiffStartLine` state what follows from it |
| LandingWorker.DiffStartLineInPatch | src/lando/api/tests/test_landings.py:59-71 | a patch with a diff start line contains the header, so a patch that never mentions it, as `PATCH_WITHOUT_STARTLINE`, has none |
| LandingWorker.ConflictFreeApplies | src/lando/api/tests/test_landings.py:276-279 | a stack whose patches all name a diff start line, and each of which applies cleanly on top of the revisions before it, is applied whole |
| LandingWorker.RejectsByFile | src/lando/api/tests/test_landings.py:510-519 | the map's keys are exactly the failed paths, and each entry is the reject file reported with its key, as read from the working copy |
| LandingWorker.FormatAmendsSingleRevision | src/lando/api/tests/test_landings.py:769-777 | formatting that changes a one-revision stack amends it: the history below is untouched (one commit lands on the pre-landing tip), the description is kept, the files are the formatter's output, and the replacement maps the old tip to the new one |
| LandingWorker.Autoformat | src/lando/api/tests/test_landings.py:769-855 | the autoformat step: it fails exactly when autoformatting is on and the formatter fails, with the formatter's output; it records replacements exactly when the formatter's output differs from the tip, and otherwise leaves the history as it is; a change leaves the formatter's output at the tip and maps the old tip to the new one; a single revision is amended in place, below-history and description kept, and a longer stack gets one commit on top with the template filled with the stack's bugs |
| LandingWorker.TemplateKeepsMarker | src/lando/api/tests/test_landings.py:848-851 | text in either half of the autoformat template survives filling in the bugs |
| LandingWorker.FormatAddsTrailingCommit | src/lando/api/tests/test_landings.py:845-855 | formatting that changes a longer stack adds one commit on top, with the formatter's output and the autoformat message filled in with the stack's bugs; an ignore marker in either half of the template (before or after the bugs) reaches the commit message |
| LandingWorker.FormatUnchanged | src/lando/api/tests/test_landings.py:683-685 | a formatter that changes nothing, or no formatter configuration, leaves the history as it is and produces no replacements |
| LandingWorker.FormatNoOpLands | src/lando/api/tests/test_landings.py:965-974 | such a run still lands: true, LANDED, no notice, one trigger, recorded replacements untouched (None on a fresh job) |
| LandingWorker.BugsStringMentionsEvery | src/lando/api/tests/test_landings.py:853-855 | the bugs text of the autoformat commit contains "Bug N" for every bug of the stack |
| LandingWorker.BugsString | src/lando/api/tests/test_landings.py:853-855 | the bugs text is empty exactly when there are no bugs, and otherwise starts with `Bug ` |
| LandingWorker.StackBugs | src/lando/api/tests/test_landings.py:853-855 | every bug number parsed from any revision's commit message is in the stack's bugs, and every one of the stack's bugs comes from some revision's message |
| LandingWorker.BugsStringOfOneBug | src/lando/api/tests/test_landings.py:853-855 | a stack with the single bug 123 gives "Bug 123" |
| LandingJob.Job.RunJob | src/lando/api/tests/test_landings.py:240-283 | running the job sets its status, error, breakdown, landed id and formatted replacements, and returns the result and effects, exactly as `Run` gives them for the job's old fields |
| LandingJob.Job.ApplyStack | src/lando/api/tests/test_landings.py:845-855 | the patch-by-patch loop computes `ApplyAll` of the job's stack |
| LandingJob.Job.constructor | src/lando/api/tests/test_landings.py:262-268 | a new job has the given status and revisions, no error, no breakdown, no landed id and no replacements |
| AutoformatFixture.StackLandsFormatted | src/lando/api/tests/test_landings.py:826-855 | a multi-revision stack whose `test.txt` the mocking-case formatter rewrites lands with one trailing commit: `test.txt` is `TESTTXT_FORMATTED_2`, the message is the template filled with "Bug 123", and the replacement maps the unformatted tip to the landed one |
| AutoformatFixture.FormattedDiffers | src/lando/api/tests/test_landings.py:220-226 | the formatter does change the fixture text, so the trailing commit is made |
| AutoformatFixture.MockingFormatter | src/lando/api/tests/test_landings.py:127-140 | the fixture's `mach` script as a working-copy formatter: it always succeeds and keeps the set of files; files other than `test.txt`, and a working copy without one, are left alone; `test.txt` becomes its text-mode reading with each character cased by the parity of its index |
| ErrorData.ParseRejectLineComplete | src/lando/api/tests/test_landings.py:583-583 | every line `N out of M hunks FAILED -- saving rejects to file R` (digits N, M, non-empty R) is recognised and gives R |
| ErrorData.ParseRejectLineSound | src/lando/api/tests/test_landings.py:583-583 | only such lines are recognised: a recognised line is the reject line for some digit runs and the non-empty path it gave |
| ErrorData.ParseRejectLine | src/lando/api/tests/test_landings.py:583-583 | a recognised path is never empty |
| ErrorData.RejectsOfLines | src/lando/api/tests/test_landings.py:627-629 | at most one reject path per line, none empty |
| ErrorData.FailedPathsOf | src/lando/api/tests/test_landings.py:607-615 | one failed path per reject path, in the same order, each the reject path without `.rej` |
| ErrorData.ExtractErrorData | src/lando/api/tests/test_landings.py:627-629 | the two lists are aligned and no reject path is empty; each failed path is its reject path without the trailing `.rej`, or the reject path itself when it has no such suffix |
| ErrorData.RejectsOfLinesAppend | src/lando/api/tests/test_landings.py:578-604 | the reject paths of two runs of lines are those of the first followed by those of the second: the tool's order is kept |
| ErrorData.IgnoresOtherLines | src/lando/api/tests/test_landings.py:578-604 | a line that is not a reject line can be removed anywhere without changing the result |
| ErrorData.ContextLinesIgnored | src/lando/api/tests/test_landings.py:597-602 | `patching file`, `file … already exists`, `unable to find '…' for patching` and `Hunk #` lines are never reject lines |
| ErrorData.ExtractErrorDataOfLines | src/lando/api/tests/test_landings.py:577-604 | classifying newline-joined lines is classifying the lines |
| ErrorData.FailedPathOfReject | src/lando/api/tests/test_landings.py:607-615 | the failed path of `X.rej` is `X` |
| ErrorData.FailureWithoutPatchingLine | src/lando/api/tests/test_landings.py:597-601 | a failure after `file X already exists` or `unable to find 'X'`, with no `patching file` line, still yields `X` and `X.rej` |
| ErrorDataFixture.Block1Rejects | src/lando/api/tests/test_landings.py:579-583 | the first block reports only `toolkit/moz.configure.rej` |
| ErrorDataFixture.Block2Rejects | src/lando/api/tests/test_landings.py:584-587 | the second block reports only `moz.configure.rej` |
| ErrorDataFixture.Block3Rejects | src/lando/api/tests/test_landings.py:588-590 | the third block reports only `a/b/c.d.rej` |
| ErrorDataFixture.Block4Rejects | src/lando/api/tests/test_landings.py:591-593 | the fourth block reports only `d/e/f.g.rej` |
| ErrorDataFixture.Block5Rejects | src/lando/api/tests/test_landings.py:594-596 | the fifth block reports only `h/i/j.k.rej` |
| ErrorDataFixture.Block6Rejects | src/lando/api/tests/test_landings.py:597-598 | the `already exists` block reports only `G0fvb1RuMQxXNjs.rej` |
| ErrorDataFixture.Block7Rejects | src/lando/api/tests/test_landings.py:599-601 | the `unable to find` block reports only `abc/def.rej` |
| ErrorDataFixture.TailQuiet | src/lando/api/tests/test_landings.py:602-604 | the succeeded-hunk and abort lines at the end report nothing |
| ErrorDataFixture.FixtureClassified | src/lando/api/tests/test_landings.py:576-629 | the full diagnostic of the test classifies to exactly the seven expected failed paths and the seven expected reject paths, in order |
| MockingCase.FormatMockingCase | src/lando/api/tests/test_landings.py:127-136 | the formatter loop's output is `Mocked` of the input: same length, with the character at each even index upper-cased and at each odd index lower-cased |
| MockingCase.Mocked | src/lando/api/tests/test_landings.py:127-136 | the formatter's output has the input's length, with the character at each even index upper-cased and at each odd index lower-cased |
| MockingCase.ReadText | src/lando/api/tests/test_landings.py:131-132 | reading the file in text mode leaves no carriage return and never lengthens the text |
| MockingCase.ReadTextPlain | src/lando/api/tests/test_landings.py:131-132 | text without carriage returns is read as stored |
| MockingCase.ReadTextLineEnds | src/lando/api/tests/test_landings.py:131-132 | `\r\n` and a lone `\r` are each read as `\n` |
| MockingCase.ReadFixture2 | src/lando/api/tests/test_landings.py:220-226 | the stacked fixture `test.txt` is read as stored |
| MockingCase.MockedFromAt | src/lando/api/tests/test_landings.py:133-134 | formatting keeps the length and rewrites each character by the parity of its index |
| MockingCase.MockedFromAppend | src/lando/api/tests/test_landings.py:133-134 | formatting a concatenation formats each piece at the index where it starts |
| MockingCase.MockedFromIdempotent | src/lando/api/tests/test_landings.py:133-134 | formatting formatted text changes nothing |
| MockingCase.FormattedFixture1 | src/lando/api/tests/test_landings.py:213-218 | the formatter turns the first fixture `test.txt` into `TESTTXT_FORMATTED_1` |
| MockingCase.FormattedFixture2 | src/lando/api/tests/test_landings.py:220-226 | the formatter turns the stacked fixture `test.txt` into `TESTTXT_FORMATTED_2` |
| RevisionModel.Revision.constructor | src/lando/main/models/revision.py:37-53 | a new revision has no ids, an empty patch, empty patch data and data, no commit id, no landing jobs |
| RevisionModel.Revision.Repr | src/lando/main/models/revision.py:55-61 | the text starts `<Revision: {id}`; it ends in `>>` exactly when the revision id is truthy, and is then `<Revision: {id}` followed by the identifier ` [D{revision id}-{diff id}]` and `>>`; otherwise it is `<Revision: {id}>` |
| RevisionModel.ReprUnbalanced | src/lando/main/models/revision.py:58-61 | as written, `repr` has one `<` but two `>` whenever the revision id is truthy |
| RevisionModel.ReprOfPhabRevision | src/lando/main/models/revision.py:58-61 | revision 1 with Phabricator ids D123 and diff 456 renders as `<Revision: 1 [D123-456]>>` |
| RevisionModel.ReprOfFalsyRevision | src/lando/main/models/revision.py:58-61 | a revision id of 0 or None omits the Phabricator part: `<Revision: 1>` |
| RevisionModel.Revision.IntendedRepr | src/lando/main/models/revision.py:55-61 | the corrected `repr` has exactly one `<` and one `>`; it is the as-written text without its doubled last `>` |
| RevisionModel.Revision.PatchBytes | src/lando/main/models/revision.py:63-65 | the bytes decode back to the patch, and there are between one and four bytes per character |
| RevisionModel.Revision.PatchString | src/lando/main/models/revision.py:67-72 | the patch string is the stored patch, and it encodes to the patch bytes |
| RevisionModel.Revision.Serialize | src/lando/main/models/revision.py:94-102 | exactly the six keys, each with the matching field (None as null) |
| RevisionModel.Revision.SetPatch | src/lando/main/models/revision.py:88-92 | stores the patch data and the patch built from the raw diff and that data; no other field and not the serialized form changes; commit-id validity is kept |
| RevisionModel.NewFromPatch | src/lando/main/models/revision.py:80-86 | a fresh valid revision with default fields, the given patch data and the patch built from it; it is returned unsaved, so no id is assigned (the database save is not modelled) |
| RevisionModel.GetFromRevisionId | src/lando/main/models/revision.py:74-78 | a revision comes back iff the store holds one with that revision id, and any returned revision has that id and is in the store |
| RevisionModel.GetFromRevisionIdUnique | src/lando/main/models/revision.py:37-37 | with revision ids unique in the store, the lookup returns exactly the revision holding that id |
| RevisionModel.OptionalIntToString | src/lando/main/models/revision.py:59-61 | the rendering of an optional id is never empty and contains no angle bracket (None renders as `None`) |
| RevisionModel.LargePatchBytes | src/lando/api/tests/test_landings.py:41-41 | a million U+1F601 characters encode to four million bytes that decode back to the patch |
| Utf8.DecodeEncode | src/lando/main/models/revision.py:63-65 | decoding the UTF-8 encoding of any string gives it back |
| Utf8.Encode | src/lando/main/models/revision.py:63-65 | `str.encode("utf-8")`: between one and four octets per character; `DecodeEncode` and `EncodeDecode` show `Decode` inverts it |
| Utf8.Decode | src/lando/main/models/revision.py:63-65 | `bytes.decode("utf-8")`: a decoded text has at most one character per octet and at least one per four octets; `EncodeDecode` shows that every octet sequence it accepts is the encoding of its result |
| Utf8.EncodeDecode | src/lando/main/models/revision.py:63-65 | every byte sequence that decodes is the encoding of what it decodes to |
| Utf8.EncodeGrinningFace | src/lando/api/tests/test_landings.py:41-41 | U+1F601 is the four octets F0 9F 98 81 |
| Utf8.EncodeRepeatLength | src/lando/api/tests/test_landings.py:41-41 | n copies of any character encode to exactly n times the octet count of one copy |
| Text.IntToString | src/lando/main/models/revision.py:59-61 | Python's `str(int)`: never empty; it starts with a minus exactly when the number is negative and is otherwise all digits; after the sign there is at least one digit and no leading zero, and a text starting with `0` is exactly `0` |
| Text.IntToStringValue | src/lando/main/models/revision.py:59-61 | the digits of `str(n)`, after the minus when there is one, read back as the magnitude of n |
| Text.DigitsValueOfNatToString | src/lando/main/models/revision.py:59-61 | the decimal text of a natural number reads back as that number |
| Text.LinesUnlines | src/lando/api/tests/test_landings.py:577-604 | splitting newline-joined, newline-free lines at newlines gives the lines back |
| Text.UnlinesLines | src/lando/api/tests/test_landings.py:577-604 | joining the lines of a text with newlines gives the text back |

## Left out

- src/lando/api/legacy/workers/landing_worker.py is not part of this model.
  `run_job`, `extract_error_data`, `process_merge_conflict` and the
  autoformat step are modelled from what the tests assert about them.
  Message texts beyond the substrings the tests check are this model's own
  wording.
- The tree-status check before a landing is not modelled. The tests always
  open the tree.
- Persistence is not modelled: the ORM, `save`, job-status transition
  history, the claiming and polling loop, sleeps, and the `Worker` and
  `Repo` tables beyond the fields used here. The model has no database.
- Notification delivery and the review-system update call are I/O. They
  are counted (the `failureNotices` and `repoUpdateTriggers` fields of
  `Effects`), not performed.
- The following are parameters of `Env`, not models:
  - Mercurial itself: patch application, commit creation, commit ids, the
    formatter run and the push;
  - patch metadata parsing (`HgPatchHelper`): commit description and bug
    numbers;
  - `build_patch_for_revision`.
- Exceptions raised by patch application other than a conflict, and by
  the formatter other than a formatting failure, are not modelled. The
  tests do not exercise them.
- LandingWorker.Run: push errors other than a lost race fail the job,
  notify once and return false. The tests do not pin this branch.
- LandingWorker.HasDiffStartLine: accepts a `# Diff Start Line` line
  anywhere in the patch, where the patch helper looks only in the header.
  The line number it carries is not used.
- LandingWorker.Autoformat: `formatted_replacements` is modelled as a map
  from the tip before formatting to the tip after it. The tests pin only
  that it stays None when nothing changed.
- LandingWorker.StackBugs: bug numbers are taken in stack order, without
  removing duplicates or sorting. The tests pin only the one-bug case.
- AutoformatFixture.MockingFormatter: writing the file back is taken to
  store `\n` as it is, as text mode does on POSIX systems; the
  translation to `\r\n` that Windows would make is not modelled.
- MockingCase.Upper: only ASCII letters change case, where Python's
  `str.upper` and `str.lower` map all of Unicode. The fixture text is
  ASCII.
- ExtractErrorData: a reject path that does not end in `.rej` is taken as
  its own failed path. Every reject path in the tests ends in `.rej`, and
  the worker's own extraction code is not part of this model.
- Utf8.Encode: Python's `str.encode("utf-8")` raises on a lone surrogate.
  A Dafny `char` is a Unicode scalar value and cannot hold one, so that
  error is not modelled.
- ErrorData.AfterDigits: `\d` is taken as the ASCII digits, where
  Python's `re` also matches other Unicode decimal digits.
- RevisionModel.GetFromRevisionId: returns the first match at most. The
  ORM would raise on duplicate revision ids, which the unique constraint
  (revision.py:37) already rules out. `GetFromRevisionIdUnique` states
  the lookup under that constraint.
- `RevisionLandingJob` (revision.py:22-26), the `DiffWarning` models and
  `DiffWarning.serialize`, the migrations and the UI tests are outside
  the modelled core.
- The `landing_jobs` relation of `Revision.serialize` is modelled as a
  list of job ids stored on the revision. Timestamps are integers.
- The revision-ordering test of jobs (test_landings.py:977-1001, an
  expected failure) is not modelled.

## Findings

| source | as written | input that shows it | evidently intended | confidence | as-written member | corrected member |
|---|---|---|---|---|---|---|
| src/lando/main/models/revision.py:58-61 | the Phabricator identifier already ends in `>`, and the surrounding format adds another | id 1, revision id 123, diff id 456 gives `<Revision: 1 [D123-456]>>` | `<Revision: 1 [D123-456]>`, one closing bracket | not executed | RevisionModel.ReprUnbalanced | RevisionModel.Revision.IntendedRepr |
