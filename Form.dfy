/**
 * The questionnaire's state and the handlers that change it: the current
 * step, the history of visited steps that the back button walks, and the
 * answer store.  Also the per-screen conditions that enable the "next"
 * button, and the progress bar.
 *
 * Transitions take effect at once; the short fade between screens is left out.
 */
module Form {
  import opened Answers
  import opened Steps
  import opened Validators

  // ---------------------------------------------------------------------------
  // Advance gates: when the "next" button of a screen is enabled
  // ---------------------------------------------------------------------------

  /** What a screen's "next" button waits for. */
  datatype Gate =
    | Always               // no condition
    | Needs(key: string)   // a truthy answer under key
    | ContactFields        // the composite contact check
    | NoButton             // the success screen offers only a restart

  /** The gate of each screen. */
  function GateOf(step: StepId): (g: Gate)
    ensures g == NoButton <==> step == Success
    ensures g == ContactFields <==> step == Contact
    ensures g == Always <==> step == Instruments || step == LocationEquipment || step == LivePractical
  {
    match step
    case Main => Needs("main-service")
    case LiveType => Needs("live-type")
    case LiveHireRole => Needs("hire-role")
    case LiveHireDetails => Needs("hire-details")
    case LiveEventType => Needs("event-type")
    case LiveMusicCheck => Needs("has-live-music")
    case SpeakersOnly => Needs("num-speakers")
    case Performers => Needs("performers")
    case Instruments => Always
    case LocationEquipment => Always
    case LocationName => Needs("location-name")
    case LivePractical => Always
    case StudioType => Needs(Tag(step))
    case StudioDetails => Needs(Tag(step))
    case NabewerkingType => Needs(Tag(step))
    case NabewerkingDetails => Needs(Tag(step))
    case AdviesWho => Needs("advies-who")
    case AdviesGoal => Needs("advies-goal")
    case AdviesRuimte => Needs("advies-ruimte")
    case AdviesDoel => Needs("advies-doel")
    case AdviesMethode => Needs("advies-methode")
    case AdviesGebruik => Needs("advies-gebruik")
    case AdviesKopenDetails => Needs("advies-kopen-details")
    case AdviesKopenType => Needs("advies-kopen-type")
    case AndersBeschrijving => Needs("anders-beschrijving")
    case Contact => ContactFields
    case Success => NoButton
  }

  /** The "next" button of `step` is enabled under answers `d`. */
  predicate CanAdvance(step: StepId, d: Store)
    ensures CanAdvance(step, d) ==> step != Success
    ensures step == Contact ==> (CanAdvance(step, d) <==> IsContactStepValid(d))
    ensures step == Instruments || step == LocationEquipment || step == LivePractical ==> CanAdvance(step, d)
  {
    match GateOf(step)
    case Always => true
    case Needs(key) => Truthy(d, key)
    case ContactFields => IsContactStepValid(d)
    case NoButton => false
  }

  /** The choice answers hold only values the screens offer. */
  predicate OfferedChoices(d: Store)
  {
    && (Truthy(d, "main-service") ==> KnownService(d))
    && (Truthy(d, "advies-goal") ==> KnownGoal(d))
  }

  /**
   * An enabled button never leads nowhere: when the choice answers are ones
   * the screens offer, every screen whose button is enabled has a successor.
   * Without that assumption only the first screen and the advice goal can
   * strand the user.
   */
  lemma EnabledButtonMoves(step: StepId, d: Store)
    ensures CanAdvance(step, d) && OfferedChoices(d) ==> NextStep(step, d).Some?
    ensures CanAdvance(step, d) && NextStep(step, d).None? ==> step == Main || step == AdviesGoal
  {
    NoSuccessorExactly(step, d);
  }

  /**
   * The send button of the contact screen is enabled exactly when name, e-mail
   * and telephone are text, the trimmed name holds more than one character and
   * the e-mail and telephone match their patterns.
   */
  lemma ContactGate(d: Store)
    ensures CanAdvance(Contact, d) <==>
      && TextAt(d, "contact-name") && |Trim(d["contact-name"].s)| > 1
      && TextAt(d, "contact-email") && EmailPattern(d["contact-email"].s)
      && TextAt(d, "contact-phone") && PhonePattern(d["contact-phone"].s)
  {
    ContactStepValidMeaning(d);
  }

  // ---------------------------------------------------------------------------
  // Progress bar
  // ---------------------------------------------------------------------------

  /** The progress bar in percent: full on success, 95 on the contact screen, else 10 plus 8 per visited step, at most 90. */
  function Progress(current: StepId, history: seq<StepId>): (p: int)
    ensures p == 100 <==> current == Success
    ensures p == 95 <==> current == Contact
    ensures |history| >= 1 ==> 18 <= p <= 100
    ensures current != Success && current != Contact ==> p <= 90
  {
    if current == Success then 100
    else if current == Contact then 95
    else
      var calculated := 10 + |history| * 8;
      if calculated < 90 then calculated else 90
  }

  /** Away from contact and success, a longer history never shows less progress. */
  lemma ProgressGrowsWithHistory(current: StepId, h: seq<StepId>, h': seq<StepId>)
    requires current != Success && current != Contact
    requires |h| <= |h'|
    ensures Progress(current, h) <= Progress(current, h')
    ensures |h| < |h'| && Progress(current, h) < 90 ==> Progress(current, h) < Progress(current, h')
  {
  }

  // ---------------------------------------------------------------------------
  // The form
  // ---------------------------------------------------------------------------

  /** A history as the form keeps it: non-empty, rooted at the first screen, and a path of the step graph. */
  ghost predicate WellFormedHistory(h: seq<StepId>)
  {
    |h| >= 1 && h[0] == Main && IsPath(h)
  }

  class Onboarding {
    var current: StepId
    var history: seq<StepId>
    var data: Store

    /** The current step is the last one in a well-formed history. */
    ghost predicate Valid()
      reads this
    {
      WellFormedHistory(history) && current == history[|history| - 1]
    }

    /** A fresh form: on the first screen, with only the default contact preference. */
    constructor ()
      ensures Valid()
      ensures current == Main && history == [Main] && data == Initial
    {
      current := Main;
      history := [Main];
      data := Initial;
    }

    /**
     * "Next": append the successor the decision table gives and make it
     * current; without a successor nothing changes.  The answers are kept.
     */
    method Next()
      requires Valid()
      modifies this
      ensures Valid()
      ensures data == old(data)
      ensures NextStep(old(current), old(data)).None? ==>
        history == old(history) && current == old(current)
      ensures NextStep(old(current), old(data)).Some? ==>
        && current == NextStep(old(current), old(data)).value
        && history == old(history) + [current]
      ensures |history| <= 12 && forall i, j | 0 <= i < j < |history| :: history[i] != history[j]
    {
      var next := NextStep(current, data);
      if next.Some? {
        NextStepInGraph(current, data);
        history := history + [next.value];
        current := next.value;
      }
      PathFromMain(history);
    }

    /**
     * "Back": on the first screen nothing happens; elsewhere drop the last
     * history entry and return to the one before.  The answers are kept.
     */
    method Back()
      requires Valid()
      modifies this
      ensures Valid()
      ensures data == old(data)
      ensures |old(history)| == 1 ==> history == old(history) && current == old(current) == Main
      ensures |old(history)| > 1 ==>
        && history == old(history)[..|old(history)| - 1]
        && current == old(history)[|old(history)| - 2]
    {
      if |history| > 1 {
        var shorter := history[..|history| - 1];
        assert IsPath(shorter) by {
          forall i | 0 < i < |shorter| ensures shorter[i] in Successors(shorter[i - 1]) {
            assert shorter[i] == history[i] && shorter[i - 1] == history[i - 1];
          }
        }
        history := shorter;
        current := shorter[|shorter| - 1];
      }
    }

    /** "Start a new request": back to the first screen with the initial answers. */
    method Restart()
      modifies this
      ensures Valid()
      ensures current == Main && history == [Main] && data == Initial
    {
      data := Initial;
      current := Main;
      history := [Main];
    }

    /** An input writes its answer; the screen and history stay as they are. */
    method Update(key: string, v: Val)
      requires Valid()
      modifies this
      ensures Valid()
      ensures data == Set(old(data), key, v)
      ensures history == old(history) && current == old(current)
    {
      data := Set(data, key, v);
    }

    /** A checkbox flips its answer; the screen and history stay as they are. */
    method Toggle(key: string)
      requires Valid()
      modifies this
      ensures Valid()
      ensures data == Toggled(old(data), key)
      ensures history == old(history) && current == old(current)
    {
      data := Toggled(data, key);
    }

    /**
     * A press on the screen's "next" button: it does nothing while the button
     * is disabled, and acts as Next otherwise.  An enabled button is stuck
     * only on the first screen or the advice goal, holding an answer those
     * screens do not offer.
     */
    method PressNext()
      requires Valid()
      modifies this
      ensures Valid()
      ensures data == old(data)
      ensures !CanAdvance(old(current), old(data)) ==>
        history == old(history) && current == old(current)
      ensures CanAdvance(old(current), old(data)) && NextStep(old(current), old(data)).Some? ==>
        && current == NextStep(old(current), old(data)).value
        && history == old(history) + [current]
      ensures CanAdvance(old(current), old(data)) && NextStep(old(current), old(data)).None? ==>
        && history == old(history) && current == old(current)
        && (old(current) == Main || old(current) == AdviesGoal)
      ensures CanAdvance(old(current), old(data)) && OfferedChoices(old(data)) ==>
        && current == NextStep(old(current), old(data)).value
        && history == old(history) + [current]
    {
      if CanAdvance(current, data) {
        EnabledButtonMoves(current, data);
        Next();
      }
    }
  }

  /** A client: choose live sound, go forward once, back twice, and start over. */
  method LiveSession()
  {
    var f := new Onboarding();
    f.Update("main-service", Str("live"));
    assert Holds(f.data, "main-service", "live");
    f.Next();
    assert f.current == LiveType && f.history == [Main, LiveType];
    f.Back();
    assert f.current == Main && f.history == [Main];
    f.Back();
    assert f.current == Main && f.history == [Main];
    f.Restart();
    assert f.data == Initial;
  }
}
