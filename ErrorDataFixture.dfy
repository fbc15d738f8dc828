/** The diagnostic text of the classifier's fixture and the two lists it must
    produce (src/lando/api/tests/test_landings.py, lines 576-629). The text
    is written with the line shapes `hg import` prints, so that the proof can
    go block by block: one block per file that failed, then a tail of lines
    that report nothing. Longer literals are written as concatenations of
    shorter ones because the verifier settles facts about each short piece
    (no newline, where the parser stops) far more cheaply than about one
    long literal. */
module ErrorDataFixture {
  import opened Text
  import opened ErrorData

  function PatchingFile(x: string): string { "patching file " + x }
  function HunkFailed(k: string, at: string): string { "Hunk #" + k + " FAILED at " + at }
  function HunkSucceeded(k: string, detail: string): string { "Hunk #" + k + " succeeded" + detail }
  function AlreadyExists(x: string): string { "file " + x + " already exists" }
  function UnableToFind(x: string): string { "unable to find '" + x + "' for patching" }
  const PrefixHint := "(use '--prefix' to apply patch " + "relative to the current directory)"
  const Abort := "abort: patch failed to apply"

  ghost predicate NewlineFree(ls: seq<string>) {
    forall i :: 0 <= i < |ls| ==> '\n' !in ls[i]
  }

  /** Lines that report no reject file. */
  ghost predicate Quiet(ls: seq<string>) {
    NewlineFree(ls) && forall i :: 0 <= i < |ls| ==> ParseRejectLine(ls[i]).None?
  }

  lemma NonDigitStart(l: string)
    requires l != [] && !IsDigit(l[0])
    ensures ParseRejectLine(l).None?
  {
  }

  lemma {:induction false} QuietRejects(ls: seq<string>)
    requires Quiet(ls)
    ensures RejectsOfLines(ls) == []
  {
    if ls != [] {
      QuietRejects(ls[1..]);
    }
  }

  /** The lines `hg import` prints about one file that did not apply: a
      context line, hunk lines, and the reject line. */
  function Block(head: string, hunks: seq<string>, n: string, m: string, path: string): seq<string> {
    [head] + hunks + [RejectLine(n, m, path)]
  }

  lemma BlockRejects(head: string, hunks: seq<string>, n: string, m: string, path: string)
    requires Quiet([head]) && Quiet(hunks)
    requires |n| > 0 && AllDigits(n) && |m| > 0 && AllDigits(m) && path != []
    requires '\n' !in n && '\n' !in m && '\n' !in path
    ensures RejectsOfLines(Block(head, hunks, n, m, path)) == [path]
    ensures NewlineFree(Block(head, hunks, n, m, path))
  {
    var reject := RejectLine(n, m, path);
    RejectLineHasNoNewline(n, m, path);
    ParseRejectLineComplete(n, m, path);
    QuietRejects([head]);
    QuietRejects(hunks);
    RejectsOfLinesAppend([head] + hunks, [reject]);
    RejectsOfLinesAppend([head], hunks);
    assert RejectsOfLines([reject]) == [path] by {
      assert [reject][1..] == [];
    }
  }

  lemma HunkFailedQuiet(k: string, at: string)
    requires '\n' !in k && '\n' !in at
    ensures Quiet([HunkFailed(k, at)])
  {
    NonDigitStart(HunkFailed(k, at));
  }

  lemma PatchingFileQuiet(x: string)
    requires '\n' !in x
    ensures Quiet([PatchingFile(x)])
  {
    NonDigitStart(PatchingFile(x));
  }

  lemma NewlineFreeAppend(a: seq<string>, b: seq<string>)
    requires NewlineFree(a) && NewlineFree(b)
    ensures NewlineFree(a + b)
  {
    assert forall i :: 0 <= i < |a + b| ==> (a + b)[i] == if i < |a| then a[i] else b[i - |a|];
  }

  /** A block that reports exactly the reject file of `x`. */
  ghost predicate ReportsOne(b: seq<string>, x: string) {
    RejectsOfLines(b) == [x + RejectSuffix] && NewlineFree(b)
  }

  // The seven blocks and the tail of the fixture text, in order.

  function Block1(): seq<string> {
    Block(PatchingFile("toolkit/moz.configure"),
          [HunkFailed("1", "2075"), HunkFailed("2", "2325"), HunkFailed("3", "2340")],
          "3", "3", "toolkit/moz.configure" + RejectSuffix)
  }
  function Block2(): seq<string> {
    Block(PatchingFile("moz.configure"), [HunkFailed("1", "239"), HunkFailed("2", "250")],
          "2", "2", "moz.configure" + RejectSuffix)
  }
  function Block3(): seq<string> {
    Block(PatchingFile("a/b/c.d"), [HunkFailed("1", "656")], "1", "1", "a/b/c.d" + RejectSuffix)
  }
  function Block4(): seq<string> {
    Block(PatchingFile("d/e/f.g"), [HunkFailed("1", "6")], "1", "1", "d/e/f.g" + RejectSuffix)
  }
  function Block5(): seq<string> {
    Block(PatchingFile("h/i/j.k"), [HunkFailed("1", "4")], "1", "1", "h/i/j.k" + RejectSuffix)
  }
  function Block6(): seq<string> {
    Block(AlreadyExists("G0fvb1RuMQxXNjs"), [], "1", "1", "G0fvb1RuMQxXNjs" + RejectSuffix)
  }
  function Block7(): seq<string> {
    Block(UnableToFind("abc/def"), [PrefixHint], "1", "1", "abc/def" + RejectSuffix)
  }
  function Tail(): seq<string> {
    [PatchingFile("browser/locales/en-US/" + "browser/browserContext.ftl"),
     HunkSucceeded("1", " at 300 with fuzz 2 " + "(offset -4 lines)."),
     Abort]
  }

  function Blocks(): seq<seq<string>> {
    [Block1(), Block2(), Block3(), Block4(), Block5(), Block6(), Block7()]
  }

  /** The lines of several blocks, one after another. */
  function Concat(bs: seq<seq<string>>): seq<string> {
    if bs == [] then [] else bs[0] + Concat(bs[1..])
  }

  function DiagnosticLines(): seq<string> {
    Concat(Blocks()) + Tail()
  }

  /** The diagnostic text of the fixture. */
  function Diagnostic(): string { Unlines(DiagnosticLines()) }

  const ExpectedFailedPaths: seq<string> := [
    "toolkit/moz.configure", "moz.configure", "a/b/c.d", "d/e/f.g", "h/i/j.k",
    "G0fvb1RuMQxXNjs", "abc/def"
  ]

  const ExpectedRejectsPaths: seq<string> := [
    "toolkit/moz.configure" + RejectSuffix, "moz.configure" + RejectSuffix,
    "a/b/c.d" + RejectSuffix, "d/e/f.g" + RejectSuffix, "h/i/j.k" + RejectSuffix,
    "G0fvb1RuMQxXNjs" + RejectSuffix, "abc/def" + RejectSuffix
  ]

  lemma Block1Rejects()
    ensures ReportsOne(Blocks()[0], ExpectedFailedPaths[0])
  {
    assert Blocks()[0] == Block1();
    PatchingFileQuiet("toolkit/moz.configure");
    HunkFailedQuiet("1", "2075");
    HunkFailedQuiet("2", "2325");
    HunkFailedQuiet("3", "2340");
    var hunks := [HunkFailed("1", "2075"), HunkFailed("2", "2325"), HunkFailed("3", "2340")];
    assert Quiet(hunks) by {
      assert hunks == [HunkFailed("1", "2075")] + [HunkFailed("2", "2325")] + [HunkFailed("3", "2340")];
    }
    BlockRejects(PatchingFile("toolkit/moz.configure"), hunks, "3", "3", "toolkit/moz.configure" + RejectSuffix);
  }

  lemma Block2Rejects()
    ensures ReportsOne(Blocks()[1], ExpectedFailedPaths[1])
  {
    PatchingFileQuiet("moz.configure");
    HunkFailedQuiet("1", "239");
    HunkFailedQuiet("2", "250");
    QuietAppend([HunkFailed("1", "239")], [HunkFailed("2", "250")]);
    assert Blocks()[1] == Block2();
    BlockRejects(PatchingFile("moz.configure"), [HunkFailed("1", "239"), HunkFailed("2", "250")],
                 "2", "2", "moz.configure" + RejectSuffix);
  }

  lemma Block3Rejects()
    ensures ReportsOne(Blocks()[2], ExpectedFailedPaths[2])
  {
    assert Blocks()[2] == Block3();
    PatchingFileQuiet("a/b/c.d");
    HunkFailedQuiet("1", "656");
    BlockRejects(PatchingFile("a/b/c.d"), [HunkFailed("1", "656")], "1", "1", "a/b/c.d" + RejectSuffix);
  }

  lemma Block4Rejects()
    ensures ReportsOne(Blocks()[3], ExpectedFailedPaths[3])
  {
    assert Blocks()[3] == Block4();
    PatchingFileQuiet("d/e/f.g");
    HunkFailedQuiet("1", "6");
    BlockRejects(PatchingFile("d/e/f.g"), [HunkFailed("1", "6")], "1", "1", "d/e/f.g" + RejectSuffix);
  }

  lemma Block5Rejects()
    ensures ReportsOne(Blocks()[4], ExpectedFailedPaths[4])
  {
    assert Blocks()[4] == Block5();
    PatchingFileQuiet("h/i/j.k");
    HunkFailedQuiet("1", "4");
    BlockRejects(PatchingFile("h/i/j.k"), [HunkFailed("1", "4")], "1", "1", "h/i/j.k" + RejectSuffix);
  }

  lemma Block6Rejects()
    ensures ReportsOne(Blocks()[5], ExpectedFailedPaths[5])
  {
    assert Blocks()[5] == Block6();
    NonDigitStart(AlreadyExists("G0fvb1RuMQxXNjs"));
    BlockRejects(AlreadyExists("G0fvb1RuMQxXNjs"), [], "1", "1", "G0fvb1RuMQxXNjs" + RejectSuffix);
  }

  lemma Block7Rejects()
    ensures ReportsOne(Blocks()[6], ExpectedFailedPaths[6])
  {
    assert Blocks()[6] == Block7();
    NonDigitStart(UnableToFind("abc/def"));
    NonDigitStart(PrefixHint);
    BlockRejects(UnableToFind("abc/def"), [PrefixHint], "1", "1", "abc/def" + RejectSuffix);
  }

  lemma HunkSucceededQuiet(k: string, detail: string)
    requires '\n' !in k && '\n' !in detail
    ensures Quiet([HunkSucceeded(k, detail)])
  {
    NonDigitStart(HunkSucceeded(k, detail));
  }

  lemma QuietAppend(a: seq<string>, b: seq<string>)
    requires Quiet(a) && Quiet(b)
    ensures Quiet(a + b)
  {
    assert forall i :: 0 <= i < |a + b| ==> (a + b)[i] == if i < |a| then a[i] else b[i - |a|];
  }

  lemma TailQuiet()
    ensures Quiet(Tail())
  {
    var x := "browser/locales/en-US/" + "browser/browserContext.ftl";
    assert '\n' !in x by {
      assert '\n' !in "browser/locales/en-US/" && '\n' !in "browser/browserContext.ftl";
    }
    PatchingFileQuiet(x);
    var detail := " at 300 with fuzz 2 " + "(offset -4 lines).";
    assert '\n' !in detail by {
      assert '\n' !in " at 300 with fuzz 2 " && '\n' !in "(offset -4 lines).";
    }
    HunkSucceededQuiet("1", detail);
    NonDigitStart(Abort);
    QuietAppend([PatchingFile(x)], [HunkSucceeded("1", detail)]);
    QuietAppend([PatchingFile(x), HunkSucceeded("1", detail)], [Abort]);
    assert Tail() == [PatchingFile(x), HunkSucceeded("1", detail)] + [Abort];
  }

  function Suffixed(xs: seq<string>): seq<string> {
    if xs == [] then [] else [xs[0] + RejectSuffix] + Suffixed(xs[1..])
  }

  /** Blocks that each report one reject file `x + ".rej"` report them all,
      in order, and stay free of newlines. */
  lemma {:induction false} ConcatRejects(bs: seq<seq<string>>, xs: seq<string>)
    requires |bs| == |xs|
    requires forall i :: 0 <= i < |bs| ==> ReportsOne(bs[i], xs[i])
    ensures RejectsOfLines(Concat(bs)) == Suffixed(xs)
    ensures NewlineFree(Concat(bs))
  {
    if bs != [] {
      ConcatRejects(bs[1..], xs[1..]);
      RejectsOfLinesAppend(bs[0], Concat(bs[1..]));
      NewlineFreeAppend(bs[0], Concat(bs[1..]));
    }
  }

  lemma {:induction false} FailedPathsOfSuffixed(xs: seq<string>)
    ensures FailedPathsOf(Suffixed(xs)) == xs
  {
    if xs != [] {
      FailedPathOfReject(xs[0]);
      FailedPathsOfSuffixed(xs[1..]);
    }
  }

  lemma BlocksThenTail(bs: seq<seq<string>>, t: seq<string>, xs: seq<string>)
    requires |bs| == |xs|
    requires forall i :: 0 <= i < |bs| ==> ReportsOne(bs[i], xs[i])
    requires Quiet(t)
    ensures RejectsOfLines(Concat(bs) + t) == Suffixed(xs) && NewlineFree(Concat(bs) + t)
  {
    ConcatRejects(bs, xs);
    QuietRejects(t);
    RejectsOfLinesAppend(Concat(bs), t);
    NewlineFreeAppend(Concat(bs), t);
  }

  lemma ClassifySuffixed(ls: seq<string>, xs: seq<string>)
    requires RejectsOfLines(ls) == Suffixed(xs) && NewlineFree(ls) && ls != []
    ensures ExtractErrorData(Unlines(ls)) == (xs, Suffixed(xs))
  {
    ExtractErrorDataOfLines(ls);
    FailedPathsOfSuffixed(xs);
  }

  /** Blocks that each report one reject file, then a quiet tail, classify
      to the files and their reject files, in order. */
  lemma ClassifyBlocks(bs: seq<seq<string>>, t: seq<string>, xs: seq<string>)
    requires |bs| == |xs|
    requires forall i :: 0 <= i < |bs| ==> ReportsOne(bs[i], xs[i])
    requires Quiet(t) && t != []
    ensures ExtractErrorData(Unlines(Concat(bs) + t)) == (xs, Suffixed(xs))
  {
    BlocksThenTail(bs, t, xs);
    ClassifySuffixed(Concat(bs) + t, xs);
  }

  lemma BlocksReport()
    ensures forall i :: 0 <= i < |Blocks()| ==> ReportsOne(Blocks()[i], ExpectedFailedPaths[i])
  {
    forall i | 0 <= i < |Blocks()|
      ensures ReportsOne(Blocks()[i], ExpectedFailedPaths[i])
    {
      if i == 0 { Block1Rejects(); }
      else if i == 1 { Block2Rejects(); }
      else if i == 2 { Block3Rejects(); }
      else if i == 3 { Block4Rejects(); }
      else if i == 4 { Block5Rejects(); }
      else if i == 5 { Block6Rejects(); }
      else { Block7Rejects(); }
    }
  }

  lemma ExpectedRejectsPathsSuffixed()
    ensures Suffixed(ExpectedFailedPaths) == ExpectedRejectsPaths
  {
  }

  /** The fixture: seven failures, in the order reported, each reject path
      paired with the file it belongs to; the `succeeded` file yields nothing. */
  lemma FixtureClassified()
    ensures ExtractErrorData(Diagnostic()) == (ExpectedFailedPaths, ExpectedRejectsPaths)
  {
    BlocksReport();
    TailQuiet();
    ClassifyBlocks(Blocks(), Tail(), ExpectedFailedPaths);
    ExpectedRejectsPathsSuffixed();
  }
}
