/**
 * The steps of the questionnaire and the decision table that picks the next
 * step from the current one and the answers given so far.
 *
 * Beside the table itself (NextStep) the module keeps a data-independent view
 * of the step graph (Successors: every step the table can ever return from a
 * given step) and a rank (Height: the length of the longest walk from a step
 * to the success screen).  Every transition lowers the rank, so the graph is
 * acyclic and no walk from `main` has more than twelve entries.
 */
module Steps {
  import opened Answers

  datatype Option<T> = None | Some(value: T)

  /** The 27 screens of the questionnaire. */
  datatype StepId =
    | Main
    | LiveType | LiveHireRole | LiveHireDetails
    | LiveEventType | LiveMusicCheck | SpeakersOnly
    | Performers | Instruments | LocationEquipment | LocationName | LivePractical
    | StudioType | StudioDetails
    | NabewerkingType | NabewerkingDetails
    | AdviesWho | AdviesGoal | AdviesRuimte | AdviesDoel | AdviesMethode
    | AdviesGebruik | AdviesKopenDetails | AdviesKopenType
    | AndersBeschrijving
    | Contact | Success

  /** The tag the form uses for a step; some screens also store their answer under it. */
  function Tag(s: StepId): (t: string)
    ensures t != ""
    ensures t == "main" <==> s == Main
    ensures t == "contact" <==> s == Contact
    ensures t == "success" <==> s == Success
  {
    match s
    case Main => "main"
    case LiveType => "live-type"
    case LiveHireRole => "live-hire-role"
    case LiveHireDetails => "live-hire-details"
    case LiveEventType => "live-event-type"
    case LiveMusicCheck => "live-music-check"
    case SpeakersOnly => "speakers-only"
    case Performers => "performers"
    case Instruments => "instruments"
    case LocationEquipment => "location-equipment"
    case LocationName => "location-name"
    case LivePractical => "live-practical"
    case StudioType => "studio-type"
    case StudioDetails => "studio-details"
    case NabewerkingType => "nabewerking-type"
    case NabewerkingDetails => "nabewerking-details"
    case AdviesWho => "advies-who"
    case AdviesGoal => "advies-goal"
    case AdviesRuimte => "advies-ruimte"
    case AdviesDoel => "advies-doel"
    case AdviesMethode => "advies-methode"
    case AdviesGebruik => "advies-gebruik"
    case AdviesKopenDetails => "advies-kopen-details"
    case AdviesKopenType => "advies-kopen-type"
    case AndersBeschrijving => "anders-beschrijving"
    case Contact => "contact"
    case Success => "success"
  }

  /** The service ids the first screen offers. */
  predicate KnownService(d: Store)
  {
    || Holds(d, "main-service", "live")
    || Holds(d, "main-service", "studio")
    || Holds(d, "main-service", "nabewerking")
    || Holds(d, "main-service", "advies")
    || Holds(d, "main-service", "anders")
  }

  /** The goals the advice branch offers. */
  predicate KnownGoal(d: Store)
  {
    || Holds(d, "advies-goal", "event")
    || Holds(d, "advies-goal", "verbeteren")
    || Holds(d, "advies-goal", "aanschaffen")
    || Holds(d, "advies-goal", "anders")
  }

  /** The performer answers that count as a band. */
  predicate IsBand(d: Store)
  {
    || Holds(d, "performers", "Band (2-5 personen)")
    || Holds(d, "performers", "Band (6+ personen)")
    || Holds(d, "performers", "band-small")
    || Holds(d, "performers", "band-large")
  }

  /**
   * The decision table: the step after `step` given the answers `d`, or None
   * when there is none (an unrecognised service or advice goal, or the
   * success screen).  Whatever the answers, it only takes edges of the step
   * graph `Successors`.
   */
  function NextStep(step: StepId, d: Store): (r: Option<StepId>)
    ensures r.Some? ==> r.value in Successors(step)
  {
    match step
    case Main =>
      if Holds(d, "main-service", "live") then Some(LiveType)
      else if Holds(d, "main-service", "studio") then Some(StudioType)
      else if Holds(d, "main-service", "nabewerking") then Some(NabewerkingType)
      else if Holds(d, "main-service", "advies") then Some(AdviesWho)
      else if Holds(d, "main-service", "anders") then Some(AndersBeschrijving)
      else None
    case LiveType =>
      if Holds(d, "live-type", "hire") then Some(LiveHireRole) else Some(LiveEventType)
    case LiveHireRole => Some(LiveHireDetails)
    case LiveHireDetails => Some(Contact)
    case LiveEventType =>
      if Holds(d, "event-type", "concert") || Holds(d, "event-type", "Concert / Festival")
      then Some(Performers) else Some(LiveMusicCheck)
    case LiveMusicCheck =>
      if Holds(d, "has-live-music", "ja") then Some(Performers) else Some(LocationEquipment)
    case SpeakersOnly => Some(LocationEquipment)
    case Performers =>
      if IsBand(d) then Some(Instruments) else Some(LocationEquipment)
    case Instruments => Some(LocationEquipment)
    case LocationEquipment =>
      if Truthy(d, "equip-weet-niet") || Truthy(d, "equip-Weet ik niet")
      then Some(LocationName) else Some(LivePractical)
    case LocationName => Some(LivePractical)
    case LivePractical => Some(Contact)
    case StudioType => Some(StudioDetails)
    case StudioDetails => Some(Contact)
    case NabewerkingType => Some(NabewerkingDetails)
    case NabewerkingDetails => Some(Contact)
    case AdviesWho => Some(AdviesGoal)
    case AdviesGoal =>
      if Holds(d, "advies-goal", "event") then Some(LiveEventType)
      else if Holds(d, "advies-goal", "verbeteren") then Some(AdviesRuimte)
      else if Holds(d, "advies-goal", "aanschaffen") then Some(AdviesGebruik)
      else if Holds(d, "advies-goal", "anders") then Some(AndersBeschrijving)
      else None
    case AdviesRuimte => Some(AdviesDoel)
    case AdviesDoel => Some(AdviesMethode)
    case AdviesMethode => Some(Contact)
    case AdviesGebruik => Some(AdviesKopenDetails)
    case AdviesKopenDetails => Some(AdviesKopenType)
    case AdviesKopenType => Some(Contact)
    case AndersBeschrijving => Some(Contact)
    case Contact => Some(Success)
    case Success => None
  }

  /** The step graph: every step the decision table can return from `step`, over all answers. */
  function Successors(step: StepId): (next: set<StepId>)
  {
    match step
    case Main => {LiveType, StudioType, NabewerkingType, AdviesWho, AndersBeschrijving}
    case LiveType => {LiveHireRole, LiveEventType}
    case LiveHireRole => {LiveHireDetails}
    case LiveHireDetails => {Contact}
    case LiveEventType => {Performers, LiveMusicCheck}
    case LiveMusicCheck => {Performers, LocationEquipment}
    case SpeakersOnly => {LocationEquipment}
    case Performers => {Instruments, LocationEquipment}
    case Instruments => {LocationEquipment}
    case LocationEquipment => {LocationName, LivePractical}
    case LocationName => {LivePractical}
    case LivePractical => {Contact}
    case StudioType => {StudioDetails}
    case StudioDetails => {Contact}
    case NabewerkingType => {NabewerkingDetails}
    case NabewerkingDetails => {Contact}
    case AdviesWho => {AdviesGoal}
    case AdviesGoal => {LiveEventType, AdviesRuimte, AdviesGebruik, AndersBeschrijving}
    case AdviesRuimte => {AdviesDoel}
    case AdviesDoel => {AdviesMethode}
    case AdviesMethode => {Contact}
    case AdviesGebruik => {AdviesKopenDetails}
    case AdviesKopenDetails => {AdviesKopenType}
    case AdviesKopenType => {Contact}
    case AndersBeschrijving => {Contact}
    case Contact => {Success}
    case Success => {}
  }

  /** The number of steps on the longest walk from `step` to the success screen. */
  function Height(step: StepId): (h: nat)
  {
    match step
    case Main => 11
    case AdviesWho => 10
    case LiveType => 9
    case AdviesGoal => 9
    case LiveEventType => 8
    case LiveMusicCheck => 7
    case Performers => 6
    case Instruments => 5
    case SpeakersOnly => 5
    case LocationEquipment => 4
    case AdviesRuimte => 4
    case AdviesGebruik => 4
    case LocationName => 3
    case LiveHireRole => 3
    case StudioType => 3
    case NabewerkingType => 3
    case AdviesDoel => 3
    case AdviesKopenDetails => 3
    case LivePractical => 2
    case LiveHireDetails => 2
    case StudioDetails => 2
    case NabewerkingDetails => 2
    case AdviesMethode => 2
    case AdviesKopenType => 2
    case AndersBeschrijving => 2
    case Contact => 1
    case Success => 0
  }

  /** Every step on `h` is a successor of the one before it in the step graph. */
  ghost predicate IsPath(h: seq<StepId>)
  {
    forall i | 0 < i < |h| :: h[i] in Successors(h[i - 1])
  }

  /** `h` is what following the decision table from h[0] under answers `d` visits. */
  ghost predicate IsRun(h: seq<StepId>, d: Store)
  {
    forall i | 0 < i < |h| :: NextStep(h[i - 1], d) == Some(h[i])
  }

  /**
   * The steps the decision table visits when it is followed repeatedly from
   * `step` until it gives no successor, with the answers left as they are.
   * The "next"-button gates are not consulted.
   */
  function Trace(step: StepId, d: Store): (t: seq<StepId>)
    ensures |t| >= 1 && t[0] == step
    ensures |t| <= Height(step) + 1
    decreases Height(step)
  {
    match NextStep(step, d)
    case None => [step]
    case Some(n) =>
      NextStepInGraph(step, d);
      [step] + Trace(n, d)
  }

  // ---------------------------------------------------------------------------
  // The branching rules, one decision step at a time
  // ---------------------------------------------------------------------------

  /** The first screen routes each of the five services to its own branch, and nothing else anywhere. */
  lemma MainBranches(d: Store)
    ensures NextStep(Main, d) == Some(LiveType) <==> Holds(d, "main-service", "live")
    ensures NextStep(Main, d) == Some(StudioType) <==> Holds(d, "main-service", "studio")
    ensures NextStep(Main, d) == Some(NabewerkingType) <==> Holds(d, "main-service", "nabewerking")
    ensures NextStep(Main, d) == Some(AdviesWho) <==> Holds(d, "main-service", "advies")
    ensures NextStep(Main, d) == Some(AndersBeschrijving) <==> Holds(d, "main-service", "anders")
    ensures NextStep(Main, d).None? <==> !KnownService(d)
  {
  }

  /** Only the answer "hire" leads to the hire branch; anything else, unset included, to the event type. */
  lemma LiveTypeBranches(d: Store)
    ensures NextStep(LiveType, d) == Some(LiveHireRole) <==> Holds(d, "live-type", "hire")
    ensures NextStep(LiveType, d) == Some(LiveEventType) <==> !Holds(d, "live-type", "hire")
    ensures "live-type" !in d ==> NextStep(LiveType, d) == Some(LiveEventType)
  {
  }

  /** Concerts go straight to the performers; other events are asked about live music first. */
  lemma EventTypeBranches(d: Store)
    ensures NextStep(LiveEventType, d) == Some(Performers)
        <==> Holds(d, "event-type", "concert") || Holds(d, "event-type", "Concert / Festival")
    ensures NextStep(LiveEventType, d) == Some(LiveMusicCheck)
        <==> !(Holds(d, "event-type", "concert") || Holds(d, "event-type", "Concert / Festival"))
  {
  }

  /** Live music leads to the performers, no live music skips to the equipment. */
  lemma MusicCheckBranches(d: Store)
    ensures NextStep(LiveMusicCheck, d) == Some(Performers) <==> Holds(d, "has-live-music", "ja")
    ensures NextStep(LiveMusicCheck, d) == Some(LocationEquipment) <==> !Holds(d, "has-live-music", "ja")
  {
  }

  /** Exactly the four band answers ask for the instruments. */
  lemma PerformersBranches(d: Store)
    ensures NextStep(Performers, d) == Some(Instruments) <==> IsBand(d)
    ensures NextStep(Performers, d) == Some(LocationEquipment) <==> !IsBand(d)
  {
  }

  /** A ticked "don't know" box asks for the venue name; otherwise on to the practical details. */
  lemma EquipmentBranches(d: Store)
    ensures NextStep(LocationEquipment, d) == Some(LocationName)
        <==> Truthy(d, "equip-weet-niet") || Truthy(d, "equip-Weet ik niet")
    ensures NextStep(LocationEquipment, d) == Some(LivePractical)
        <==> !(Truthy(d, "equip-weet-niet") || Truthy(d, "equip-Weet ik niet"))
  {
  }

  /** The four advice goals each have their own continuation, and nothing else anywhere. */
  lemma AdviesGoalBranches(d: Store)
    ensures NextStep(AdviesGoal, d) == Some(LiveEventType) <==> Holds(d, "advies-goal", "event")
    ensures NextStep(AdviesGoal, d) == Some(AdviesRuimte) <==> Holds(d, "advies-goal", "verbeteren")
    ensures NextStep(AdviesGoal, d) == Some(AdviesGebruik) <==> Holds(d, "advies-goal", "aanschaffen")
    ensures NextStep(AdviesGoal, d) == Some(AndersBeschrijving) <==> Holds(d, "advies-goal", "anders")
    ensures NextStep(AdviesGoal, d).None? <==> !KnownGoal(d)
  {
  }

  /** The table has no successor in exactly three situations. */
  lemma NoSuccessorExactly(step: StepId, d: Store)
    ensures NextStep(step, d).None? <==>
      || (step == Main && !KnownService(d))
      || (step == AdviesGoal && !KnownGoal(d))
      || step == Success
  {
  }

  /** The answer keys the decision table reads. */
  const DecisionKeys: set<string> :=
    {"main-service", "live-type", "event-type", "has-live-music", "performers",
     "equip-weet-niet", "equip-Weet ik niet", "advies-goal"}

  /** Two answer stores that agree on `keys`. */
  ghost predicate AgreeOn(d: Store, e: Store, keys: set<string>)
  {
    forall k | k in keys :: (k in d <==> k in e) && (k in d ==> d[k] == e[k])
  }

  /** The decision table looks at nothing but the decision keys: other answers never change the route. */
  lemma NextStepReadsOnlyDecisionKeys(step: StepId, d: Store, e: Store)
    requires AgreeOn(d, e, DecisionKeys)
    ensures NextStep(step, d) == NextStep(step, e)
  {
    assert "main-service" in DecisionKeys && "live-type" in DecisionKeys && "event-type" in DecisionKeys;
    assert "has-live-music" in DecisionKeys && "performers" in DecisionKeys && "advies-goal" in DecisionKeys;
    assert "equip-weet-niet" in DecisionKeys && "equip-Weet ik niet" in DecisionKeys;
  }

  // ---------------------------------------------------------------------------
  // The shape of the step graph
  // ---------------------------------------------------------------------------

  /** Only the contact screen leads to the success screen. */
  lemma SuccessOnlyAfterContact(step: StepId, d: Store)
    ensures NextStep(step, d) == Some(Success) <==> step == Contact
    ensures Success in Successors(step) <==> step == Contact
  {
  }

  /** The speakers-only screen is never the successor of any step. */
  lemma SpeakersOnlyUnreachable(step: StepId, d: Store)
    ensures NextStep(step, d) != Some(SpeakersOnly)
    ensures SpeakersOnly !in Successors(step)
  {
  }

  /** Answers under which the decision table takes the edge from `s` to `t`. */
  function EdgeAnswers(s: StepId, t: StepId): Store
  {
    match s
    case Main =>
      map["main-service" := Str(
        if t == LiveType then "live"
        else if t == StudioType then "studio"
        else if t == NabewerkingType then "nabewerking"
        else if t == AdviesWho then "advies"
        else "anders")]
    case LiveType => if t == LiveHireRole then map["live-type" := Str("hire")] else map[]
    case LiveEventType => if t == Performers then map["event-type" := Str("concert")] else map[]
    case LiveMusicCheck => if t == Performers then map["has-live-music" := Str("ja")] else map[]
    case Performers => if t == Instruments then map["performers" := Str("band-small")] else map[]
    case LocationEquipment => if t == LocationName then map["equip-Weet ik niet" := Bool(true)] else map[]
    case AdviesGoal =>
      map["advies-goal" := Str(
        if t == LiveEventType then "event"
        else if t == AdviesRuimte then "verbeteren"
        else if t == AdviesGebruik then "aanschaffen"
        else "anders")]
    case _ => map[]
  }

  /** Whatever the answers, each transition of the table lowers the rank. */
  lemma NextStepInGraph(step: StepId, d: Store)
    ensures NextStep(step, d).Some? ==> Height(NextStep(step, d).value) < Height(step)
  {
    if NextStep(step, d).Some? {
      EdgeDescends(step, NextStep(step, d).value);
    }
  }

  /** Every edge of the step graph lowers the rank. */
  lemma EdgeDescends(s: StepId, t: StepId)
    requires t in Successors(s)
    ensures Height(t) < Height(s)
  {
  }

  /** Each service on the first screen is reached by answering it. */
  lemma MainEdgesTaken(t: StepId)
    requires t in Successors(Main)
    ensures NextStep(Main, EdgeAnswers(Main, t)) == Some(t)
  {
  }

  /** Each advice goal is reached by answering it. */
  lemma AdviesGoalEdgesTaken(t: StepId)
    requires t in Successors(AdviesGoal)
    ensures NextStep(AdviesGoal, EdgeAnswers(AdviesGoal, t)) == Some(t)
  {
  }

  /** Each branch inside the live questions is reached by the answer it tests, or by leaving it unset. */
  lemma LiveEdgesTaken(s: StepId, t: StepId)
    requires s in {LiveType, LiveEventType, LiveMusicCheck, Performers, LocationEquipment}
    requires t in Successors(s)
    ensures NextStep(s, EdgeAnswers(s, t)) == Some(t)
  {
  }

  /** The steps whose successor does not depend on the answers. */
  predicate FixedStep(s: StepId)
  {
    !(s in {Main, AdviesGoal, LiveType, LiveEventType, LiveMusicCheck, Performers, LocationEquipment})
  }

  /** A step whose successor does not depend on the answers takes its only edge under any answers. */
  lemma FixedEdgesTaken(s: StepId, t: StepId, d: Store)
    requires FixedStep(s) && t in Successors(s)
    ensures NextStep(s, d) == Some(t)
  {
  }

  /** Every edge of the step graph is taken by the decision table under some answers. */
  lemma SuccessorsComplete(s: StepId, t: StepId)
    requires t in Successors(s)
    ensures NextStep(s, EdgeAnswers(s, t)) == Some(t)
  {
    if s == Main {
      MainEdgesTaken(t);
    } else if s == AdviesGoal {
      AdviesGoalEdgesTaken(t);
    } else if FixedStep(s) {
      FixedEdgesTaken(s, t, EdgeAnswers(s, t));
    } else {
      LiveEdgesTaken(s, t);
    }
  }

  /**
   * Height really is the longest walk to the success screen: it is zero exactly
   * at steps without successors, every edge lowers it (NextStep's contract),
   * and elsewhere some edge lowers it by exactly one.
   */
  lemma HeightIsLongestWalk(s: StepId)
    ensures Height(s) == 0 <==> Successors(s) == {}
    ensures forall t | t in Successors(s) :: Height(t) < Height(s)
    ensures Height(s) > 0 ==> exists t | t in Successors(s) :: Height(t) + 1 == Height(s)
  {
    match s
    case Main => assert Height(AdviesWho) + 1 == Height(s);
    case AdviesWho => assert Height(AdviesGoal) + 1 == Height(s);
    case LiveType => assert Height(LiveEventType) + 1 == Height(s);
    case AdviesGoal => assert Height(LiveEventType) + 1 == Height(s);
    case LiveEventType => assert Height(LiveMusicCheck) + 1 == Height(s);
    case LiveMusicCheck => assert Height(Performers) + 1 == Height(s);
    case Performers => assert Height(Instruments) + 1 == Height(s);
    case LocationEquipment => assert Height(LocationName) + 1 == Height(s);
    case _ =>
  }

  /** Dropping the first steps of a path leaves a path. */
  lemma PathSuffix(h: seq<StepId>, k: nat)
    requires IsPath(h) && k <= |h|
    ensures IsPath(h[k..])
  {
    var t := h[k..];
    forall i | 0 < i < |t| ensures t[i] in Successors(t[i - 1]) {
      assert t[i] == h[k + i] && t[i - 1] == h[k + i - 1];
    }
  }

  /** Along a path the rank lies below the rank of its start by at least the number of steps taken. */
  lemma {:induction false} PathBelowStart(h: seq<StepId>)
    requires IsPath(h)
    ensures forall j | 0 <= j < |h| :: Height(h[j]) + j <= Height(h[0])
    decreases |h|
  {
    if |h| > 1 {
      PathSuffix(h, 1);
      var tail := h[1..];
      PathBelowStart(tail);
      EdgeDescends(h[0], h[1]);
      forall j | 1 <= j < |h| ensures Height(h[j]) + j <= Height(h[0]) {
        assert h[j] == tail[j - 1];
      }
    }
  }

  /** Along a path of the step graph the rank drops by at least one per step. */
  lemma PathDescends(h: seq<StepId>)
    requires IsPath(h)
    ensures forall i, j | 0 <= i < j < |h| :: Height(h[j]) + (j - i) <= Height(h[i])
  {
    forall i, j | 0 <= i < j < |h| ensures Height(h[j]) + (j - i) <= Height(h[i]) {
      PathSuffix(h, i);
      PathBelowStart(h[i..]);
      assert h[i..][j - i] == h[j];
    }
  }

  /** A path of the step graph starting at `main` has no repeated step and at most twelve entries. */
  lemma PathFromMain(h: seq<StepId>)
    requires IsPath(h) && |h| > 0 && h[0] == Main
    ensures |h| <= 12
    ensures forall i, j | 0 <= i < j < |h| :: h[i] != h[j]
  {
    PathDescends(h);
    assert Height(h[|h| - 1]) + (|h| - 1) <= Height(h[0]);
  }

  /** A trace follows the decision table at every step, so it is also a path of the step graph. */
  lemma {:induction false} TraceIsRun(step: StepId, d: Store)
    ensures IsRun(Trace(step, d), d)
    ensures IsPath(Trace(step, d))
    decreases Height(step)
  {
    match NextStep(step, d)
    case None =>
    case Some(n) =>
      NextStepInGraph(step, d);
      TraceIsRun(n, d);
      var t, rest := Trace(step, d), Trace(n, d);
      assert t == [step] + rest;
      forall i | 0 < i < |t| ensures NextStep(t[i - 1], d) == Some(t[i]) && t[i] in Successors(t[i - 1]) {
        if i > 1 {
          assert t[i - 1] == rest[i - 2] && t[i] == rest[i - 1];
        }
      }
  }

  /** Following the decision table stops only where it gives no successor. */
  lemma {:induction false} TraceEnds(step: StepId, d: Store)
    ensures NextStep(Trace(step, d)[|Trace(step, d)| - 1], d).None?
    decreases Height(step)
  {
    match NextStep(step, d)
    case None =>
    case Some(n) =>
      NextStepInGraph(step, d);
      TraceEnds(n, d);
      var t, rest := Trace(step, d), Trace(n, d);
      assert t == [step] + rest;
      assert t[|t| - 1] == rest[|rest| - 1];
  }

  /** One step of the decision table: the trace from `s` is `s` followed by the trace from its successor. */
  lemma TraceUnfold(s: StepId, d: Store, n: StepId)
    requires NextStep(s, d) == Some(n)
    ensures Trace(s, d) == [s] + Trace(n, d)
  {
  }

  /** The trace of a step without successor is that step alone. */
  lemma TraceStops(s: StepId, d: Store)
    requires NextStep(s, d).None?
    ensures Trace(s, d) == [s]
  {
  }
}
