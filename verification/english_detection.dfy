/**
 * The English-leak detector of the chat bot (`_contains_english`).
 *
 * The source runs the greedy pattern `[a-zA-Z]{3,}` with `re.findall`, drops the
 * matches that are exactly one of a fixed list of exceptions, and reports English
 * when any match remains. Here the pattern is replaced by an explicit scan
 * (`FindAllFrom`), which is proved to find exactly the maximal runs of at least
 * three ASCII letters, an independent, regex-free description.
 */
module EnglishDetection {

  /** The character class `[a-zA-Z]`. */
  predicate IsAsciiLetter(c: char) {
    'a' <= c <= 'z' || 'A' <= c <= 'Z'
  }

  predicate AllAsciiLetters(s: string) {
    forall k :: 0 <= k < |s| ==> IsAsciiLetter(s[k])
  }

  /** The `{3,}` of the pattern: shorter runs of letters are not reported. */
  const MIN_RUN: nat := 3

  /** The exception list of the source, in its order. */
  const JAPANESE_EXCEPTIONS: seq<string> := ["pdf", "PDF", "auコマース", "au", "DC", "API"]

  /** The entries of JAPANESE_EXCEPTIONS that can ever match: the others are too short or not ASCII. */
  const EFFECTIVE_EXCEPTIONS: seq<string> := ["pdf", "PDF", "API"]

  /** t[i..j] is a run of ASCII letters that cannot be extended on either side. */
  ghost predicate IsMaximalRun(t: string, i: int, j: int) {
    0 <= i < j <= |t|
    && (forall k :: i <= k < j ==> IsAsciiLetter(t[k]))
    && (i == 0 || !IsAsciiLetter(t[i - 1]))
    && (j == |t| || !IsAsciiLetter(t[j]))
  }

  /** Position p does not lie strictly inside a run of letters, so a scan may start there. */
  ghost predicate AtRunBoundary(t: string, p: nat)
    requires p <= |t|
  {
    p == 0 || p == |t| || !IsAsciiLetter(t[p - 1]) || !IsAsciiLetter(t[p])
  }

  /** The end of the run of letters that starts at p: the first non-letter at or after p. */
  function RunEnd(t: string, p: nat): (e: nat)
    requires p <= |t|
    ensures p <= e <= |t|
    ensures forall k :: p <= k < e ==> IsAsciiLetter(t[k])
    ensures e == |t| || !IsAsciiLetter(t[e])
    decreases |t| - p
  {
    if p < |t| && IsAsciiLetter(t[p]) then RunEnd(t, p + 1) else p
  }

  /**
   * The matches of `re.findall(r'[a-zA-Z]{3,}', t)` found from position p on, in order.
   * At a letter the greedy pattern takes the whole run; a run shorter than three letters
   * matches at none of its positions, so the scan resumes after it.
   */
  function FindAllFrom(t: string, p: nat): (ms: seq<string>)
    requires p <= |t|
    ensures forall s :: s in ms ==> |s| >= MIN_RUN && AllAsciiLetters(s)
    decreases |t| - p
  {
    if p == |t| then []
    else if !IsAsciiLetter(t[p]) then FindAllFrom(t, p + 1)
    else
      var e := RunEnd(t, p);
      (if e - p >= MIN_RUN then [t[p..e]] else []) + FindAllFrom(t, e)
  }

  function FindAll(t: string): seq<string> {
    FindAllFrom(t, 0)
  }

  /** The list comprehension that drops the matches listed as exceptions (exact, case-sensitive). */
  function WithoutExceptions(ms: seq<string>, exceptions: seq<string>): (r: seq<string>)
    ensures forall s :: s in r <==> s in ms && s !in exceptions
  {
    if ms == [] then []
    else (if ms[0] in exceptions then [] else [ms[0]]) + WithoutExceptions(ms[1..], exceptions)
  }

  /** The detector with a given exception list: some match is not an exception. */
  predicate ContainsEnglishWith(t: string, exceptions: seq<string>)
    ensures ContainsEnglishWith(t, exceptions) <==> exists s :: s in FindAll(t) && s !in exceptions
  {
    var kept := WithoutExceptions(FindAll(t), exceptions);
    assert |kept| > 0 ==> kept[0] in kept;
    |kept| > 0
  }

  /** `_contains_english`: of its exception list, only pdf, PDF and API can ever filter a match. */
  predicate ContainsEnglish(t: string)
    ensures ContainsEnglish(t) <==> exists s :: s in FindAll(t) && s !in EFFECTIVE_EXCEPTIONS
  {
    assert !AllAsciiLetters("auコマース") by {
      assert !IsAsciiLetter("auコマース"[2]);
    }
    ContainsEnglishWith(t, JAPANESE_EXCEPTIONS)
  }

  /** The regex-free reference: some maximal run of at least three letters is not an exception. */
  ghost predicate HasForeignRun(t: string, exceptions: seq<string>) {
    exists i, j :: IsMaximalRun(t, i, j) && j - i >= MIN_RUN && t[i..j] !in exceptions
  }

  /** Every match found from a run boundary p is a maximal run of at least three letters at or after p. */
  lemma {:induction false} FindAllFromSound(t: string, p: nat, s: string)
    requires p <= |t| && AtRunBoundary(t, p)
    requires s in FindAllFrom(t, p)
    ensures exists i, j :: p <= i && IsMaximalRun(t, i, j) && j - i >= MIN_RUN && s == t[i..j]
    decreases |t| - p
  {
    if p == |t| {
    } else if !IsAsciiLetter(t[p]) {
      FindAllFromSound(t, p + 1, s);
    } else {
      var e := RunEnd(t, p);
      if e - p >= MIN_RUN && s == t[p..e] {
        assert IsMaximalRun(t, p, e);
      } else {
        assert s in FindAllFrom(t, e);
        FindAllFromSound(t, e, s);
      }
    }
  }

  /** Every maximal run of at least three letters at or after a run boundary p is found. */
  lemma {:induction false} FindAllFromComplete(t: string, p: nat, i: int, j: int)
    requires p <= |t| && AtRunBoundary(t, p)
    requires p <= i && IsMaximalRun(t, i, j) && j - i >= MIN_RUN
    ensures t[i..j] in FindAllFrom(t, p)
    decreases |t| - p
  {
    if !IsAsciiLetter(t[p]) {
      FindAllFromComplete(t, p + 1, i, j);
    } else {
      var e := RunEnd(t, p);
      if i == p {
        assert e == j;
      } else {
        assert e < i;
        FindAllFromComplete(t, e, i, j);
      }
    }
  }

  /** The matches of the pattern are exactly the maximal runs of at least three ASCII letters. */
  lemma MatchesAreLongMaximalRuns(t: string, s: string)
    ensures s in FindAll(t) <==> exists i, j :: IsMaximalRun(t, i, j) && j - i >= MIN_RUN && s == t[i..j]
  {
    if s in FindAll(t) {
      FindAllFromSound(t, 0, s);
    }
    if exists i, j :: IsMaximalRun(t, i, j) && j - i >= MIN_RUN && s == t[i..j] {
      var i, j :| IsMaximalRun(t, i, j) && j - i >= MIN_RUN && s == t[i..j];
      FindAllFromComplete(t, 0, i, j);
    }
  }

  /** The detector reports English exactly when some maximal run of three or more letters is not an exception. */
  lemma ContainsEnglishWithIff(t: string, exceptions: seq<string>)
    ensures ContainsEnglishWith(t, exceptions) <==> HasForeignRun(t, exceptions)
  {
    var kept := WithoutExceptions(FindAll(t), exceptions);
    if |kept| > 0 {
      MatchesAreLongMaximalRuns(t, kept[0]);
    }
    if HasForeignRun(t, exceptions) {
      var i, j :| IsMaximalRun(t, i, j) && j - i >= MIN_RUN && t[i..j] !in exceptions;
      MatchesAreLongMaximalRuns(t, t[i..j]);
      assert t[i..j] in kept;
    }
  }

  /** `_contains_english` against the reference, with the source's exception list. */
  lemma ContainsEnglishIff(t: string)
    ensures ContainsEnglish(t) <==> HasForeignRun(t, JAPANESE_EXCEPTIONS)
  {
    ContainsEnglishWithIff(t, JAPANESE_EXCEPTIONS);
  }

  /** 'au', 'DC' and 'auコマース' never decide anything: only pdf, PDF and API are ever filtered. */
  lemma OnlyThreeExceptionsMatter(t: string)
    ensures ContainsEnglish(t) == ContainsEnglishWith(t, EFFECTIVE_EXCEPTIONS)
  {
    var ms := FindAll(t);
    assert !AllAsciiLetters("auコマース") by {
      assert !IsAsciiLetter("auコマース"[2]);
    }
    forall s | s in ms
      ensures s in JAPANESE_EXCEPTIONS <==> s in EFFECTIVE_EXCEPTIONS
    {
    }
    var full := WithoutExceptions(ms, JAPANESE_EXCEPTIONS);
    var eff := WithoutExceptions(ms, EFFECTIVE_EXCEPTIONS);
    if |full| > 0 {
      assert full[0] in eff;
    }
    if |eff| > 0 {
      assert eff[0] in full;
    }
  }

  /** Text without three consecutive ASCII letters (pure Japanese, "au DC") is never flagged. */
  lemma NoThreeLettersNoEnglish(t: string)
    requires forall k :: 0 <= k < |t| - 2 ==> !(IsAsciiLetter(t[k]) && IsAsciiLetter(t[k + 1]) && IsAsciiLetter(t[k + 2]))
    ensures !ContainsEnglish(t)
  {
    ContainsEnglishIff(t);
    forall i, j | IsMaximalRun(t, i, j)
      ensures j - i < MIN_RUN
    {
      assert 0 <= i < |t| - 2 ==> !(IsAsciiLetter(t[i]) && IsAsciiLetter(t[i + 1]) && IsAsciiLetter(t[i + 2]));
    }
  }

  /** A maximal run of three or more letters that is not an exception makes the text English. */
  lemma {:induction false} ForeignRunIsEnglish(t: string, i: int, j: int)
    requires IsMaximalRun(t, i, j) && j - i >= MIN_RUN && t[i..j] !in JAPANESE_EXCEPTIONS
    ensures ContainsEnglish(t)
  {
    ContainsEnglishIff(t);
  }

  /** The match is exact and case-sensitive: a plural is English. */
  lemma PluralPdfIsEnglish()
    ensures ContainsEnglish("PDFs")
  {
    var t := "PDFs";
    assert t[0..4] == t;
    ForeignRunIsEnglish(t, 0, 4);
  }

  /** The match is exact and case-sensitive: another capitalisation of "pdf" is English. */
  lemma CapitalisedPdfIsEnglish()
    ensures ContainsEnglish("Pdf")
  {
    var t := "Pdf";
    assert t[0..3] == t;
    assert t[0] != "pdf"[0] && t[1] != "PDF"[1] && t[1] != "API"[1];
    ForeignRunIsEnglish(t, 0, 3);
  }

  /** A listed abbreviation alone is not English. */
  lemma PdfAloneIsNotEnglish()
    ensures !ContainsEnglish("PDF")
  {
    var t := "PDF";
    assert RunEnd(t, 3) == 3 && RunEnd(t, 2) == 3 && RunEnd(t, 1) == 3 && RunEnd(t, 0) == 3;
    assert FindAllFrom(t, 3) == [];
    assert FindAll(t) == [t[0..3]] && t[0..3] == "PDF";
  }

  /** "abc ABC" holds two runs of letters that are not exceptions. */
  lemma TwoRunsAreEnglish()
    ensures ContainsEnglish("abc ABC")
  {
    var t := "abc ABC";
    assert t[0..3] == "abc";
    assert t[0] != "pdf"[0] && t[0] != "PDF"[0] && t[0] != "API"[0];
    ForeignRunIsEnglish(t, 0, 3);
  }

  /** The two-letter exceptions are never even matched. */
  lemma ShortWordsAreNotEnglish()
    ensures !ContainsEnglish("au DC")
  {
    NoThreeLettersNoEnglish("au DC");
  }
}
