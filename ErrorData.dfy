/** The patch-apply diagnostic classifier of the landing worker
    (`LandingWorker.extract_error_data`). A failed `hg import` reports each
    file whose hunks did not apply with a line

        N out of M hunks FAILED -- saving rejects to file R

    and the classifier collects every such `R`, in the order the tool
    reported them, together with the file it belongs to (`R` without its
    `.rej` suffix). Every other line, including the `patching file X`,
    `file X already exists`, `unable to find 'X' for patching` and
    `Hunk #n succeeded` lines, contributes nothing by itself. */
module ErrorData {
  import opened Text

  const OutOf := " out of "
  const SavingRejects := " hunks FAILED -- saving rejects to file "
  const RejectSuffix := ".rej"

  /** The reject line for counts `n`, `m` and reject file `path`. */
  function RejectLine(n: string, m: string, path: string): string {
    n + (OutOf + (m + (SavingRejects + path)))
  }

  /** What follows a non-empty run of leading decimal digits (`\d+`). */
  function AfterDigits(s: string): (r: Option<string>)
    ensures r.Some? ==> |r.value| < |s| && s == s[..|s| - |r.value|] + r.value
    ensures r.Some? ==> AllDigits(s[..|s| - |r.value|])
  {
    var k := LeadingDigits(s);
    if k == 0 then None
    else
      assert s == s[..k] + s[k..];
      Some(s[k..])
  }

  /** What follows `prefix` at the front of `s`. */
  function AfterPrefix(s: string, prefix: string): (r: Option<string>)
    ensures r.Some? ==> s == prefix + r.value
  {
    if StartsWith(s, prefix) then
      assert s == s[..|prefix|] + s[|prefix|..];
      Some(s[|prefix|..])
    else None
  }

  /** The reject path a single line reports, if the whole line has the shape
      `^\d+ out of \d+ hunks FAILED -- saving rejects to file (.+)$`. */
  function ParseRejectLine(line: string): (r: Option<string>)
    ensures r.Some? ==> r.value != []
  {
    match AfterDigits(line)
    case None => None
    case Some(s1) =>
      match AfterPrefix(s1, OutOf)
      case None => None
      case Some(s2) =>
        match AfterDigits(s2)
        case None => None
        case Some(s3) =>
          match AfterPrefix(s3, SavingRejects)
          case None => None
          case Some(path) => if path == [] then None else Some(path)
  }

  lemma AfterDigitsOf(d: string, rest: string)
    requires |d| > 0 && AllDigits(d) && (rest == [] || !IsDigit(rest[0]))
    ensures AfterDigits(d + rest) == Some(rest)
  {
    LeadingDigitsOf(d, rest);
    assert (d + rest)[|d|..] == rest;
  }

  lemma AfterPrefixOf(prefix: string, rest: string)
    ensures AfterPrefix(prefix + rest, prefix) == Some(rest)
  {
    assert (prefix + rest)[..|prefix|] == prefix;
    assert (prefix + rest)[|prefix|..] == rest;
  }

  /** The four steps of `ParseRejectLine`, one after another. */
  lemma ParseRejectLineSteps(line: string, s1: string, s2: string, s3: string, path: string)
    requires AfterDigits(line) == Some(s1) && AfterPrefix(s1, OutOf) == Some(s2)
    requires AfterDigits(s2) == Some(s3) && AfterPrefix(s3, SavingRejects) == Some(path)
    requires path != []
    ensures ParseRejectLine(line) == Some(path)
  {
  }

  /** Every reject line is recognised, and its path is what it reports. */
  lemma ParseRejectLineComplete(n: string, m: string, path: string)
    requires |n| > 0 && AllDigits(n) && |m| > 0 && AllDigits(m) && path != []
    ensures ParseRejectLine(RejectLine(n, m, path)) == Some(path)
  {
    var tail3 := SavingRejects + path;
    var tail2 := m + tail3;
    var tail1 := OutOf + tail2;
    assert RejectLine(n, m, path) == n + tail1;
    AfterDigitsOf(n, tail1);
    AfterPrefixOf(OutOf, tail2);
    AfterDigitsOf(m, tail3);
    AfterPrefixOf(SavingRejects, path);
    ParseRejectLineSteps(RejectLine(n, m, path), tail1, tail2, tail3, path);
  }

  /** A recognised line went through all four steps of `ParseRejectLine`. */
  lemma ParseRejectLineUnfold(line: string)
    requires ParseRejectLine(line).Some?
    ensures AfterDigits(line).Some?
    ensures AfterPrefix(AfterDigits(line).value, OutOf).Some?
    ensures AfterDigits(AfterPrefix(AfterDigits(line).value, OutOf).value).Some?
    ensures AfterPrefix(AfterDigits(AfterPrefix(AfterDigits(line).value, OutOf).value).value, SavingRejects)
            == Some(ParseRejectLine(line).value)
  {
  }

  /** The pieces the four steps cut off put the line back together. */
  lemma RejectLineOfSteps(line: string, s1: string, s2: string, s3: string, path: string)
    requires AfterDigits(line) == Some(s1) && AfterPrefix(s1, OutOf) == Some(s2)
    requires AfterDigits(s2) == Some(s3) && AfterPrefix(s3, SavingRejects) == Some(path)
    ensures line == RejectLine(line[..|line| - |s1|], s2[..|s2| - |s3|], path)
  {
  }

  /** Only reject lines are recognised: a line that yields a path is the
      reject line for some counts and that (non-empty) path. */
  lemma ParseRejectLineSound(line: string)
    requires ParseRejectLine(line).Some?
    ensures ParseRejectLine(line).value != []
    ensures exists n, m :: |n| > 0 && AllDigits(n) && |m| > 0 && AllDigits(m)
                           && line == RejectLine(n, m, ParseRejectLine(line).value)
  {
    ParseRejectLineUnfold(line);
    var s1 := AfterDigits(line).value;
    var s2 := AfterPrefix(s1, OutOf).value;
    var s3 := AfterDigits(s2).value;
    var path := ParseRejectLine(line).value;
    RejectLineOfSteps(line, s1, s2, s3, path);
    var n, m := line[..|line| - |s1|], s2[..|s2| - |s3|];
    assert |n| > 0 && AllDigits(n) && |m| > 0 && AllDigits(m) && line == RejectLine(n, m, path);
  }

  /** The reject paths of `lines`, in order. */
  function RejectsOfLines(lines: seq<string>): (rs: seq<string>)
    ensures |rs| <= |lines|
    ensures forall i :: 0 <= i < |rs| ==> rs[i] != []
  {
    if lines == [] then []
    else
      var rest := RejectsOfLines(lines[1..]);
      match ParseRejectLine(lines[0])
      case Some(p) =>
        assert forall i :: 0 < i <= |rest| ==> ([p] + rest)[i] == rest[i - 1];
        [p] + rest
      case None => rest
  }

  /** The file a reject path belongs to: the path without its `.rej` suffix. */
  function FailedPathOf(reject: string): string {
    if EndsWith(reject, RejectSuffix) then reject[..|reject| - |RejectSuffix|] else reject
  }

  function FailedPathsOf(rejects: seq<string>): (fs: seq<string>)
    ensures |fs| == |rejects|
    ensures forall i :: 0 <= i < |fs| ==> fs[i] == FailedPathOf(rejects[i])
  {
    if rejects == [] then [] else [FailedPathOf(rejects[0])] + FailedPathsOf(rejects[1..])
  }

  /** `extract_error_data`: the failed file paths and the reject-file paths
      reported by a diagnostic text, as two aligned lists. */
  function ExtractErrorData(diagnostic: string): (r: (seq<string>, seq<string>))
    ensures |r.0| == |r.1|
    ensures forall i :: 0 <= i < |r.1| ==> r.1[i] != []
    ensures forall i :: 0 <= i < |r.1| && EndsWith(r.1[i], RejectSuffix) ==> r.0[i] + RejectSuffix == r.1[i]
    ensures forall i :: 0 <= i < |r.1| && !EndsWith(r.1[i], RejectSuffix) ==> r.0[i] == r.1[i]
  {
    var rejects := RejectsOfLines(Lines(diagnostic));
    var failed := FailedPathsOf(rejects);
    assert forall i :: 0 <= i < |rejects| && EndsWith(rejects[i], RejectSuffix) ==>
      failed[i] + RejectSuffix == rejects[i] by {
      forall i | 0 <= i < |rejects| && EndsWith(rejects[i], RejectSuffix)
        ensures failed[i] + RejectSuffix == rejects[i]
      {
        FailedPathOfSuffixed(rejects[i]);
      }
    }
    (failed, rejects)
  }

  /** Dropping the `.rej` suffix and putting it back gives the reject path. */
  lemma FailedPathOfSuffixed(r: string)
    requires EndsWith(r, RejectSuffix)
    ensures FailedPathOf(r) + RejectSuffix == r
  {
    assert r == r[..|r| - |RejectSuffix|] + r[|r| - |RejectSuffix|..];
  }

  // ---------------------------------------------------------------------
  // Order and locality: the result is assembled line by line.

  /** The reject paths of two blocks of lines are those of the first block
      followed by those of the second. */
  lemma {:induction false} RejectsOfLinesAppend(a: seq<string>, b: seq<string>)
    ensures RejectsOfLines(a + b) == RejectsOfLines(a) + RejectsOfLines(b)
  {
    if a == [] {
      assert a + b == b;
    } else {
      assert (a + b)[1..] == a[1..] + b;
      assert (a + b)[0] == a[0];
      RejectsOfLinesAppend(a[1..], b);
    }
  }

  /** A line that is not a reject line can be removed without changing the
      result: context lines, hunk lines and "succeeded" lines are ignored. */
  lemma IgnoresOtherLines(a: seq<string>, line: string, b: seq<string>)
    requires ParseRejectLine(line).None?
    ensures RejectsOfLines(a + [line] + b) == RejectsOfLines(a + b)
  {
    RejectsOfLinesAppend(a + [line], b);
    RejectsOfLinesAppend(a, [line]);
    RejectsOfLinesAppend(a, b);
  }

  /** The lines `hg import` prints besides reject lines are never reject
      lines: none of them starts with a digit. */
  lemma ContextLinesIgnored(x: string)
    ensures ParseRejectLine("patching file " + x).None?
    ensures ParseRejectLine("file " + x + " already exists").None?
    ensures ParseRejectLine("unable to find '" + x + "' for patching").None?
    ensures ParseRejectLine("Hunk #" + x).None?
  {
  }

  /** Classifying text given as lines is classifying those lines. */
  lemma ExtractErrorDataOfLines(ls: seq<string>)
    requires |ls| >= 1
    requires forall i :: 0 <= i < |ls| ==> '\n' !in ls[i]
    ensures ExtractErrorData(Unlines(ls)) == (FailedPathsOf(RejectsOfLines(ls)), RejectsOfLines(ls))
  {
    LinesUnlines(ls);
  }

  lemma RejectLineHasNoNewline(n: string, m: string, path: string)
    requires '\n' !in n && '\n' !in m && '\n' !in path
    ensures '\n' !in RejectLine(n, m, path)
  {
    assert '\n' !in OutOf;
    assert '\n' !in SavingRejects;
  }

  lemma FailedPathOfReject(x: string)
    ensures FailedPathOf(x + RejectSuffix) == x
  {
    var r := x + RejectSuffix;
    assert r[|r| - |RejectSuffix|..] == RejectSuffix;
    assert r[..|r| - |RejectSuffix|] == x;
  }

  /** A failure reported after `file X already exists` (or after
      `unable to find 'X' for patching`), with no `patching file X` line
      before it, still yields `X` and `X.rej`: the path is read from the
      reject line itself. */
  lemma FailureWithoutPatchingLine(context: string, x: string)
    requires '\n' !in context && '\n' !in x && x != []
    requires ParseRejectLine(context).None?
    ensures ExtractErrorData(context + "\n" + RejectLine("1", "1", x + RejectSuffix))
            == ([x], [x + RejectSuffix])
  {
    var path := x + RejectSuffix;
    var reject := RejectLine("1", "1", path);
    assert '\n' !in RejectSuffix;
    RejectLineHasNoNewline("1", "1", path);
    var lines := [context, reject];
    assert Unlines(lines) == context + "\n" + reject;
    ExtractErrorDataOfLines(lines);
    ParseRejectLineComplete("1", "1", path);
    assert RejectsOfLines(lines[1..]) == [path] by {
      assert lines[1..][1..] == [];
    }
    assert RejectsOfLines(lines) == [path];
    FailedPathOfReject(x);
    assert FailedPathsOf([path]) == [x];
  }
}
