/** The fake `mach` formatter of the autoformat fixtures
    (src/lando/api/tests/test_landings.py, lines 123-139): it rewrites
    `test.txt` to "mOcKiNg cAsE", putting the character at every even index
    in upper case and the one at every odd index in lower case. Case
    mapping is ASCII's. */
module MockingCase {

  predicate IsAsciiLower(c: char) { 'a' <= c <= 'z' }
  predicate IsAsciiUpper(c: char) { 'A' <= c <= 'Z' }

  function Upper(c: char): (u: char)
    ensures !IsAsciiLower(u)
    ensures IsAsciiLower(c) || u == c
  {
    if IsAsciiLower(c) then (c as int - 32) as char else c
  }

  function Lower(c: char): (l: char)
    ensures !IsAsciiUpper(l)
    ensures IsAsciiUpper(c) || l == c
  {
    if IsAsciiUpper(c) then (c as int + 32) as char else c
  }

  /** The character at index `i` after formatting. */
  function CaseAt(i: int, c: char): char {
    if i % 2 == 0 then Upper(c) else Lower(c)
  }

  /** The formatted text of `s` when its first character sits at index `k`. */
  function MockedFrom(s: string, k: int): string {
    if s == [] then [] else [CaseAt(k, s[0])] + MockedFrom(s[1..], k + 1)
  }

  /** The formatter's output for the whole file: the same length, with the
      character at each even index upper-cased and at each odd index
      lower-cased. */
  function Mocked(s: string): (r: string)
    ensures |r| == |s|
    ensures forall i :: 0 <= i < |s| ==> r[i] == CaseAt(i, s[i])
  {
    MockedFromAt(s, 0);
    MockedFrom(s, 0)
  }

  /** A file's text as the formatter script reads it: Python's text mode,
      opened without a `newline` argument, turns each `\r\n` and each lone
      `\r` into `\n`. */
  function ReadText(s: string): (t: string)
    ensures '\r' !in t
    ensures |t| <= |s|
    decreases |s|
  {
    if s == [] then []
    else if s[0] == '\r' then "\n" + ReadText(if |s| > 1 && s[1] == '\n' then s[2..] else s[1..])
    else [s[0]] + ReadText(s[1..])
  }

  /** Text without carriage returns is read as it is stored. */
  lemma {:induction false} ReadTextPlain(s: string)
    requires '\r' !in s
    ensures ReadText(s) == s
  {
    if s != [] {
      assert '\r' !in s[1..];
      ReadTextPlain(s[1..]);
    }
  }

  /** Both Windows and old Mac line ends are read as `\n`. */
  lemma ReadTextLineEnds()
    ensures ReadText("a\r\nb") == "a\nb"
    ensures ReadText("a\rb") == "a\nb"
  {
    assert "a\r\nb"[1..] == "\r\nb" && "\r\nb"[2..] == "b";
    assert "a\rb"[1..] == "\rb" && "\rb"[1..] == "b";
  }

  /** Formatting keeps the length and rewrites each character on its own,
      by the parity of its index. */
  lemma {:induction false} MockedFromAt(s: string, k: int)
    ensures |MockedFrom(s, k)| == |s|
    ensures forall i :: 0 <= i < |s| ==> MockedFrom(s, k)[i] == CaseAt(k + i, s[i])
  {
    if s != [] {
      MockedFromAt(s[1..], k + 1);
    }
  }

  /** Formatting two pieces is formatting each, the second at the index
      where it starts. */
  lemma {:induction false} MockedFromAppend(a: string, b: string, k: int)
    ensures MockedFrom(a + b, k) == MockedFrom(a, k) + MockedFrom(b, k + |a|)
  {
    if a == [] {
      assert a + b == b;
    } else {
      assert (a + b)[0] == a[0];
      assert (a + b)[1..] == a[1..] + b;
      MockedFromAppend(a[1..], b, k + 1);
    }
  }

  /** Formatting formatted text changes nothing: a second run of the
      formatter finds nothing to rewrite. */
  lemma {:induction false} MockedFromIdempotent(s: string, k: int)
    ensures MockedFrom(MockedFrom(s, k), k) == MockedFrom(s, k)
  {
    if s != [] {
      MockedFromIdempotent(s[1..], k + 1);
      assert MockedFrom(s, k)[1..] == MockedFrom(s[1..], k + 1);
    }
  }

  /** The formatter: one pass over the characters, appending each one
      rewritten by the parity of its index. */
  method FormatMockingCase(content: string) returns (out: string)
    ensures out == Mocked(content)
    ensures |out| == |content|
    ensures forall i :: 0 <= i < |content| ==> out[i] == CaseAt(i, content[i])
  {
    out := [];
    for i := 0 to |content|
      invariant out == Mocked(content[..i])
    {
      var c := content[i];
      out := out + [if i % 2 == 0 then Upper(c) else Lower(c)];
      assert content[..i + 1] == content[..i] + [c];
      MockedFromAppend(content[..i], [c], 0);
    }
    assert content[..|content|] == content;
    MockedFromAt(content, 0);
  }

  /** `test.txt` after the first fixture patch, and what the formatter makes
      of it. They are written as concatenations of pieces, each starting at
      a known index, so that `MockedFromAppend` can take the formatting one
      piece at a time; one long literal costs the verifier far more. */
  const TestTxt1 := "TEST" + ("\n\n\n" + ("adding" + (" another" + " line\n")))
  const TestTxtFormatted1 := "TeSt" + ("\n\n\n" + ("aDdInG" + (" AnOtHeR" + " LiNe\n")))

  /** `test.txt` after both patches of the stack, and the formatter's output. */
  const TestTxt2 := TestTxt1 + ("add one" + (" more" + " line\n"))
  const TestTxtFormatted2 := TestTxtFormatted1 + ("aDd oNe" + (" mOrE" + " LiNe\n"))

  lemma Pieces1()
    ensures MockedFrom("TEST", 0) == "TeSt"
    ensures MockedFrom("\n\n\n", 4) == "\n\n\n"
    ensures MockedFrom("adding", 7) == "aDdInG"
  {
    MockedFromAt("TEST", 0);
    MockedFromAt("\n\n\n", 4);
    MockedFromAt("adding", 7);
  }

  lemma Pieces1Tail()
    ensures MockedFrom(" another", 13) == " AnOtHeR"
    ensures MockedFrom(" line\n", 21) == " LiNe\n"
  {
    MockedFromAt(" another", 13);
    MockedFromAt(" line\n", 21);
  }

  lemma Pieces2()
    ensures MockedFrom("add one", 27) == "aDd oNe"
    ensures MockedFrom(" more", 34) == " mOrE"
    ensures MockedFrom(" line\n", 39) == " LiNe\n"
  {
    MockedFromAt("add one", 27);
    MockedFromAt(" more", 34);
    MockedFromAt(" line\n", 39);
  }

  /** The stacked fixture `test.txt` has no carriage return, so the script
      reads it as stored. */
  lemma ReadFixture2()
    ensures ReadText(TestTxt2) == TestTxt2
  {
    assert '\r' !in TestTxt2;
    ReadTextPlain(TestTxt2);
  }

  lemma FormattedFixture1()
    ensures Mocked(TestTxt1) == TestTxtFormatted1
  {
    MockedFixture1();
  }

  lemma MockedFixture1()
    ensures MockedFrom(TestTxt1, 0) == TestTxtFormatted1
  {
    Pieces1();
    Pieces1Tail();
    MockedFromAppend(" another", " line\n", 13);
    MockedFromAppend("adding", " another" + " line\n", 7);
    MockedFromAppend("\n\n\n", "adding" + (" another" + " line\n"), 4);
    MockedFromAppend("TEST", "\n\n\n" + ("adding" + (" another" + " line\n")), 0);
  }

  lemma FormattedFixture2()
    ensures Mocked(TestTxt2) == TestTxtFormatted2
  {
    MockedFixture2();
  }

  lemma MockedFixture2()
    ensures MockedFrom(TestTxt2, 0) == TestTxtFormatted2
  {
    MockedFixture1();
    Pieces2();
    MockedFromAppend(" more", " line\n", 34);
    MockedFromAppend("add one", " more" + " line\n", 27);
    MockedFromAppend(TestTxt1, "add one" + (" more" + " line\n"), 0);
  }
}
