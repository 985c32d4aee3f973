/**
 * The answer check of the verb quiz (app.py lines 169-176): both typed forms
 * are stripped and lower-cased, then compared verbatim with the stored V2
 * and V3; the stored forms themselves are not normalised.
 */
module Grading {
  import opened Wrappers
  import opened Text
  import opened Verbs

  datatype Outcome = Correct | Wrong

  /** What the check accepts for a stored form, said without the
      normalisation: the stored form must itself be normal, and the attempt
      is that form up to letter case, with any whitespace around it. */
  ghost predicate Accepts(stored: string, attempt: string) {
    && IsNormal(stored)
    && exists i, j :: 0 <= i <= j <= |attempt|
         && AllSpace(attempt[..i]) && AllSpace(attempt[j..])
         && CaseVariant(attempt[i..j], stored)
  }

  /** The comparison the source makes equals the acceptance rule above. */
  lemma NormaliseMatchesIff(stored: string, attempt: string)
    ensures Normalise(attempt) == stored <==> Accepts(stored, attempt)
  {
    if Normalise(attempt) == stored {
      MatchAccepted(stored, attempt);
    }
    if Accepts(stored, attempt) {
      var i, j :| 0 <= i <= j <= |attempt|
        && AllSpace(attempt[..i]) && AllSpace(attempt[j..])
        && CaseVariant(attempt[i..j], stored);
      AcceptedMatches(stored, attempt, i, j);
    }
  }

  lemma MatchAccepted(stored: string, attempt: string)
    requires Normalise(attempt) == stored
    ensures Accepts(stored, attempt)
  {
    var i, j := StripStart(attempt), StripStop(attempt);
    var m := attempt[i..j];
    assert Lower(m) == stored;
    assert AllSpace(attempt[..i]) by { assert attempt[..i] == attempt[0..i]; }
    assert AllSpace(attempt[j..]) by { assert attempt[j..] == attempt[j..|attempt|]; }
    LowerFixedIff(stored);
    LowerEqIff(m, stored);
    assert CaseVariant(attempt[i..j], stored);
  }

  lemma AcceptedMatches(stored: string, attempt: string, i: nat, j: nat)
    requires IsNormal(stored)
    requires i <= j <= |attempt| && AllSpace(attempt[..i]) && AllSpace(attempt[j..])
    requires CaseVariant(attempt[i..j], stored)
    ensures Normalise(attempt) == stored
  {
    var m := attempt[i..j];
    assert Trimmed(m) by {
      if m != [] {
        assert IsSpace(m[0]) <==> IsSpace(stored[0]);
        assert IsSpace(m[|m| - 1]) <==> IsSpace(stored[|stored| - 1]);
      }
    }
    PadSplit([], attempt, [], i, j);
    assert [] + attempt[..i] == attempt[..i] && attempt[j..] + [] == attempt[j..];
    assert [] + attempt + [] == attempt;
    StripPadded(attempt[..i], m, attempt[j..]);
    LowerEqIff(m, stored);
    LowerFixedIff(stored);
  }

  /** The outcome of pressing "Check" with the two typed forms. */
  function Grade(verb: VerbRecord, v2Input: string, v3Input: string): (o: Outcome)
    ensures o == Correct <==> Accepts(verb.v2, v2Input) && Accepts(verb.v3, v3Input)
  {
    NormaliseMatchesIff(verb.v2, v2Input);
    NormaliseMatchesIff(verb.v3, v3Input);
    if Normalise(v2Input) == verb.v2 && Normalise(v3Input) == verb.v3 then Correct else Wrong
  }

  /** Whitespace typed around either form never changes the outcome. */
  lemma GradeIgnoresPadding(verb: VerbRecord, v2Input: string, v3Input: string, p2: string, q2: string, p3: string, q3: string)
    requires AllSpace(p2) && AllSpace(q2) && AllSpace(p3) && AllSpace(q3)
    ensures Grade(verb, p2 + v2Input + q2, p3 + v3Input + q3) == Grade(verb, v2Input, v3Input)
  {
    StripIgnoresPadding(p2, v2Input, q2);
    StripIgnoresPadding(p3, v3Input, q3);
  }

  /** The letter case of what is typed never changes the outcome. */
  lemma GradeIgnoresCase(verb: VerbRecord, v2Input: string, v3Input: string, v2Other: string, v3Other: string)
    requires CaseVariant(v2Input, v2Other) && CaseVariant(v3Input, v3Other)
    ensures Grade(verb, v2Other, v3Other) == Grade(verb, v2Input, v3Input)
  {
    NormaliseCaseBlind(v2Input, v2Other);
    NormaliseCaseBlind(v3Input, v3Other);
  }

  lemma NormaliseCaseBlind(a: string, b: string)
    requires CaseVariant(a, b)
    ensures Normalise(a) == Normalise(b)
  {
    LowerEqIff(a, b);
    StripLowerCommute(a);
    StripLowerCommute(b);
  }

  /** A stored form with an upper-case letter or surrounding whitespace can
      never be matched, whatever is typed. */
  lemma GradeWrongForUnnormalStoredForm(verb: VerbRecord, v2Input: string, v3Input: string)
    requires !IsNormal(verb.v2) || !IsNormal(verb.v3)
    ensures Grade(verb, v2Input, v3Input) == Wrong
  {
  }

  /** Typing the stored forms back is graded correct exactly when they are normal. */
  lemma GradeStoredForms(verb: VerbRecord)
    ensures Grade(verb, verb.v2, verb.v3) == Correct <==> IsNormal(verb.v2) && IsNormal(verb.v3)
  {
    NormaliseFixedIff(verb.v2);
    NormaliseFixedIff(verb.v3);
  }

  /** A wrong V3 is not rescued by a right V2: there is no partial credit. */
  lemma GradeNoPartialCredit(verb: VerbRecord, v2Input: string, v3Input: string)
    requires Normalise(v3Input) != verb.v3
    ensures Grade(verb, v2Input, v3Input) == Wrong
  {
  }

  /** The record for "go" used by the two examples below. */
  function Go(): VerbRecord {
    VerbRecord("go", "went", "gone", "to go", "I go to school.", "", None)
  }

  /** `" WENT "` and `"GONE"` are graded correct against "went"/"gone". */
  lemma GoShoutedIsCorrect()
    ensures Grade(Go(), " WENT ", "GONE") == Correct
  {
    var a, b, c, d := " WENT ", "went", "GONE", "gone";
    assert a[0] == ' ' && a[1] == 'W' && a[2] == 'E' && a[3] == 'N' && a[4] == 'T' && a[5] == ' ';
    assert b[0] == 'w' && b[1] == 'e' && b[2] == 'n' && b[3] == 't';
    assert c[0] == 'G' && c[1] == 'O' && c[2] == 'N' && c[3] == 'E';
    assert d[0] == 'g' && d[1] == 'o' && d[2] == 'n' && d[3] == 'e';
    assert IsNormal(b) && IsNormal(d);
    assert AllSpace(a[..1]) && AllSpace(a[5..]) && CaseVariant(a[1..5], b);
    assert AllSpace(c[..0]) && AllSpace(c[4..]) && CaseVariant(c[0..4], d);
    assert Accepts(b, a) && Accepts(d, c);
  }

  /** `"went"` typed twice is graded wrong: the V3 is wrong. */
  lemma GoWentWentIsWrong()
    ensures Grade(Go(), "went", "went") == Wrong
  {
    assert IsNormal("went");
    NormaliseFixedIff("went");
    GradeNoPartialCredit(Go(), "went", "went");
  }
}
