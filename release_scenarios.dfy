/** Concrete runs of the release.py version helpers. */
module ReleaseScenarios {
  import opened PyValues
  import opened Release

  /** Release strings pass, and so does one with a trailing newline (`$`). */
  lemma ValidVersionExamples()
    ensures ValidateVersion("1.2.3") && ValidateVersion("10.0.25") && ValidateVersion("1.2.3\n")
  {
    var v := "1.2.3";
    DigitRunEndAt(v, 0, 1);
    DigitRunEndAt(v, 2, 3);
    DigitRunEndAt(v, 4, 5);
    var w := "10.0.25";
    DigitRunEndAt(w, 0, 2);
    DigitRunEndAt(w, 3, 4);
    DigitRunEndAt(w, 5, 7);
    var n := "1.2.3\n";
    DigitRunEndAt(n, 0, 1);
    DigitRunEndAt(n, 2, 3);
    DigitRunEndAt(n, 4, 5);
  }

  /** Two parts, four parts, a prefix, an empty part or trailing blanks fail. */
  lemma InvalidVersionExamples()
    ensures !ValidateVersion("1.2") && !ValidateVersion("1.2.3.4") && !ValidateVersion("v1.2.3")
    ensures !ValidateVersion("1..3") && !ValidateVersion("1.2.3 ") && !ValidateVersion("")
  {
    DigitRunEndAt("1.2", 0, 1);
    DigitRunEndAt("1.2", 2, 3);
    var four := "1.2.3.4";
    DigitRunEndAt(four, 0, 1);
    DigitRunEndAt(four, 2, 3);
    DigitRunEndAt(four, 4, 5);
    DigitRunEndAt("v1.2.3", 0, 0);
    DigitRunEndAt("1..3", 0, 1);
    DigitRunEndAt("1..3", 2, 2);
    var blank := "1.2.3 ";
    DigitRunEndAt(blank, 0, 1);
    DigitRunEndAt(blank, 2, 3);
    DigitRunEndAt(blank, 4, 5);
  }

  lemma StripExamples()
    ensures Strip(" 1.0.0 ") == "1.0.0" && Strip("\t1.1.0\n") == "1.1.0"
    ensures Strip("") == "" && Strip("1.1") == "1.1"
  {
    var a := " 1.0.0 ";
    assert SkipSpaces(a, 1) == 1;
    assert TrimSpaces(a, 1, 6) == 6;
    var b := "\t1.1.0\n";
    assert SkipSpaces(b, 1) == 1;
    assert TrimSpaces(b, 1, 6) == 6;
    assert SkipSpaces("1.1", 0) == 0;
    assert TrimSpaces("1.1", 0, 3) == 3;
  }

  /** Empty, unchanged and malformed answers are refused; surrounding whitespace is stripped. */
  lemma PromptExample()
    ensures FirstAcceptable("1.0.0", ["", " 1.0.0 ", "1.1", "\t1.1.0\n", "2.0.0"]) == Some("1.1.0")
  {
    var answers := ["", " 1.0.0 ", "1.1", "\t1.1.0\n", "2.0.0"];
    StripExamples();
    DigitRunEndAt("1.1", 0, 1);
    DigitRunEndAt("1.1", 2, 3);
    DigitRunEndAt("1.1.0", 0, 1);
    DigitRunEndAt("1.1.0", 2, 3);
    DigitRunEndAt("1.1.0", 4, 5);
    assert !Acceptable(Strip(answers[0]), "1.0.0");
    assert !Acceptable(Strip(answers[1]), "1.0.0");
    assert !Acceptable(Strip(answers[2]), "1.0.0");
    assert Acceptable(Strip(answers[3]), "1.0.0");
    assert FirstAcceptable("1.0.0", answers[3..]) == Some("1.1.0");
    assert answers[2..][1..] == answers[3..];
    assert answers[1..][1..] == answers[2..];
  }

  /** The first `version="..."` in setup.py is the current version; an empty
      value does not match, and without setup.py there is none. */
  lemma CurrentVersionExamples()
    ensures CurrentVersion(map["setup.py" := "version=\"0.1.4\", version=\"9\""]) == Some("0.1.4")
    ensures CurrentVersion(map["setup.py" := "version=\"\""]) == None
    ensures CurrentVersion(map["pyproject.toml" := "version=\"0.1.4\""]) == None
  {
    var s := "version=\"0.1.4\", version=\"9\"";
    assert s[0..9] == VersionPrefix;
    assert OccursAt(s, VersionPrefix, 0);
    QuoteAtIs(s, 9, 14);
    assert CaptureAt(s, 0) == Some(s[9..14]);
    assert s[9..14] == "0.1.4";
    var e := "version=\"\"";
    var fs := map["setup.py" := e];
    assert e[..9] == VersionPrefix;
    QuoteAtIs(e, 9, 9);
    assert forall k :: 0 <= k <= |e| ==> CaptureAt(e, k).None?;
    CurrentVersionFound(fs);
  }
}
