/**
 * The practice session the page keeps in `st.session_state`: the verb being
 * asked, the result of the last check (none, correct or wrong) and the form
 * counter whose change gives the next verb fresh, empty input boxes.
 * `random.choice(verbs)` is modelled by the index it picks, supplied by the caller.
 */
module Session {
  import opened Wrappers
  import opened Text
  import opened Verbs
  import opened Grading

  /** The three session keys: `verb`, `result` (`None`, "correct", "wrong") and `form_id`. */
  datatype State = State(verb: VerbRecord, result: Option<Outcome>, formId: nat)

  /** First run of the page (app.py lines 119-121 and 149-150). */
  function Start(verbs: seq<VerbRecord>, pick: nat): (s: State)
    requires pick < |verbs|
    ensures s.verb in verbs && s.result == None && s.formId == 0
  {
    State(verbs[pick], None, 0)
  }

  /** "Check" pressed with the two typed forms: only the result changes. */
  function Checked(s: State, v2Input: string, v3Input: string): (s': State)
    ensures s'.verb == s.verb && s'.formId == s.formId && s'.result.Some?
    ensures s'.result == Some(Correct) <==> Accepts(s.verb.v2, v2Input) && Accepts(s.verb.v3, v3Input)
  {
    s.(result := Some(Grade(s.verb, v2Input, v3Input)))
  }

  /** "Next verb" or "Let's try another verb" pressed: a new draw, no result,
      and a form counter one higher even when the same verb is drawn again. */
  function Advanced(s: State, verbs: seq<VerbRecord>, pick: nat): (s': State)
    requires pick < |verbs|
    ensures s'.verb in verbs && s'.result == None && s'.formId == s.formId + 1
  {
    State(verbs[pick], None, s.formId + 1)
  }

  /** The presses that change the session: "Check" and either advance
      button. "Save my sentence" leaves the session as it is. */
  datatype Event = Check(v2Input: string, v3Input: string) | Next(pick: nat)

  /** The check form is always on the page; the two advance buttons are
      drawn only once a result is shown, and a draw must land in the collection. */
  predicate Offered(s: State, verbs: seq<VerbRecord>, e: Event)
    ensures e.Check? ==> Offered(s, verbs, e)
    ensures e.Next? && Offered(s, verbs, e) ==> s.result.Some? && e.pick < |verbs|
  {
    match e
    case Check(_, _) => true
    case Next(pick) => s.result.Some? && pick < |verbs|
  }

  /** One offered button press. */
  function Step(s: State, verbs: seq<VerbRecord>, e: Event): (s': State)
    requires Offered(s, verbs, e)
    ensures s'.formId == s.formId + (if e.Next? then 1 else 0)
    ensures s'.result.None? <==> e.Next?
    ensures e.Check? ==> s'.verb == s.verb
    ensures s.verb in verbs ==> s'.verb in verbs
  {
    match e
    case Check(v2Input, v3Input) => Checked(s, v2Input, v3Input)
    case Next(pick) => Advanced(s, verbs, pick)
  }

  /** The session after the first run and then `events`, or `None` when the
      first draw or some event could not have happened. */
  function Replay(verbs: seq<VerbRecord>, pick: nat, events: seq<Event>): (r: Option<State>)
    ensures r.Some? ==> pick < |verbs| && r.value.verb in verbs
    ensures events == [] ==> (r.Some? <==> pick < |verbs|)
    ensures r.Some? && events != [] ==> Replay(verbs, pick, events[..|events| - 1]).Some?
    decreases |events|
  {
    if pick >= |verbs| then None
    else if events == [] then Some(Start(verbs, pick))
    else
      match Replay(verbs, pick, events[..|events| - 1])
      case None => None
      case Some(s) =>
        var e := events[|events| - 1];
        if Offered(s, verbs, e) then Some(Step(s, verbs, e)) else None
  }

  /** How many times the learner moved on to another verb. */
  function CountNext(events: seq<Event>): nat
    decreases |events|
  {
    if events == [] then 0
    else CountNext(events[..|events| - 1]) + (if events[|events| - 1].Next? then 1 else 0)
  }

  /** Along any run of the page: the form counter counts the advances, the
      verb is always one of the collection, and there is no result exactly
      at the start and right after an advance; otherwise the result is the
      grade of the last check against the current verb. */
  lemma {:induction false} ReplayInvariant(verbs: seq<VerbRecord>, pick: nat, events: seq<Event>, s: State)
    requires Replay(verbs, pick, events) == Some(s)
    ensures s.formId == CountNext(events)
    ensures s.verb in verbs
    ensures s.result.None? <==> events == [] || events[|events| - 1].Next?
    ensures s.result.Some? ==>
      var e := events[|events| - 1];
      e.Check? && s.result == Some(Grade(s.verb, e.v2Input, e.v3Input))
    decreases |events|
  {
    if events != [] {
      var prev :| Replay(verbs, pick, events[..|events| - 1]) == Some(prev);
      ReplayInvariant(verbs, pick, events[..|events| - 1], prev);
    }
  }

  /** The form counter never goes down along a run: every state reached on
      the way to `s` has a counter no larger than `s`'s. */
  lemma {:induction false} ReplayFormIdMonotone(verbs: seq<VerbRecord>, pick: nat, events: seq<Event>, k: nat, s: State)
    requires Replay(verbs, pick, events) == Some(s)
    requires k <= |events|
    ensures Replay(verbs, pick, events[..k]).Some?
    ensures Replay(verbs, pick, events[..k]).value.formId <= s.formId
    decreases |events|
  {
    ReplayInvariant(verbs, pick, events, s);
    if k < |events| {
      var prev :| Replay(verbs, pick, events[..|events| - 1]) == Some(prev);
      assert events[..|events| - 1][..k] == events[..k];
      ReplayFormIdMonotone(verbs, pick, events[..|events| - 1], k, prev);
      ReplayInvariant(verbs, pick, events[..|events| - 1], prev);
    } else {
      assert events[..k] == events;
    }
  }

  /** The session object the buttons update in place. */
  class PracticeSession {
    var verb: VerbRecord
    var result: Option<Outcome>
    var formId: nat

    function Current(): State
      reads this
    {
      State(verb, result, formId)
    }

    /** First run: `verb = random.choice(verbs)`, `result = None`, `form_id = 0`. */
    constructor (verbs: seq<VerbRecord>, pick: nat)
      requires pick < |verbs|
      ensures Current() == Start(verbs, pick)
    {
      verb := verbs[pick];
      result := None;
      formId := 0;
    }

    /** The check after "Check" is pressed (app.py lines 169-176). */
    method Check(v2Input: string, v3Input: string)
      modifies this
      ensures Current() == Checked(old(Current()), v2Input, v3Input)
    {
      if Normalise(v2Input) == verb.v2 && Normalise(v3Input) == verb.v3 {
        result := Some(Correct);
      } else {
        result := Some(Wrong);
      }
    }

    /** Either advance button; both are shown only while a result is on the page. */
    method Next(verbs: seq<VerbRecord>, pick: nat)
      requires result.Some?
      requires pick < |verbs|
      modifies this
      ensures Current() == Advanced(old(Current()), verbs, pick)
    {
      formId := formId + 1;
      verb := verbs[pick];
      result := None;
    }

    /** "Save my sentence", shown only after a correct answer: a sentence
        that is blank once stripped is refused; otherwise the stripped
        sentence is added to the current verb's record in the collection. */
    method SaveSentence(verbs: array<VerbRecord>, userSentence: string) returns (saved: bool)
      requires result == Some(Correct)
      modifies verbs
      ensures saved <==> Strip(userSentence) != []
      ensures saved ==> verbs[..] == AddExample(old(verbs[..]), verb.v1, Strip(userSentence))
      ensures !saved ==> verbs[..] == old(verbs[..])
    {
      if Strip(userSentence) == [] {
        saved := false;
      } else {
        SaveUserExample(verbs, verb, Strip(userSentence));
        saved := true;
      }
    }
  }

  /** A learner's visit: "go" is drawn, "went"/"gone" is checked, and a
      sentence typed with stray spaces around it is saved without them. */
  method GoVisit(sentence: string, pad: string)
    requires Trimmed(sentence) && sentence != [] && AllSpace(pad)
  {
    GoStoredFormsAreCorrect();
    var verbs := new VerbRecord[1] [Go()];
    var session := new PracticeSession(verbs[..], 0);
    session.Check("went", "gone");
    assert session.result == Some(Correct);
    StripPadded(pad, sentence, pad);
    ghost var before := verbs[..];
    assert FirstMatch(before, Go().v1) == Some(0);
    var saved := session.SaveSentence(verbs, pad + sentence + pad);
    AddExampleChangesOnlyFirstMatch(before, Go().v1, sentence, 0);
    assert saved && Examples(verbs[0]) == [sentence];
    session.Next(verbs[..], 0);
    assert session.result == None && session.formId == 1;
  }

  lemma GoStoredFormsAreCorrect()
    ensures Grade(Go(), "went", "gone") == Correct
  {
    var b, d := "went", "gone";
    assert b[0] == 'w' && b[1] == 'e' && b[2] == 'n' && b[3] == 't';
    assert d[0] == 'g' && d[1] == 'o' && d[2] == 'n' && d[3] == 'e';
    assert IsNormal(b) && IsNormal(d);
    GradeStoredForms(Go());
  }
}
