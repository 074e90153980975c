/**
 * Whole routes through the questionnaire: what following the decision table
 * repeatedly visits for given answers, worked out for the scenarios the form
 * is built for.  The answers stay fixed and the "next"-button gates are not
 * consulted.
 */
module Routes {
  import opened Answers
  import opened Steps

  // Routes are built from the end: each lemma adds one or two transitions
  // in front of a route already established.

  /** From the contact screen the table leads to the success screen, and no further. */
  lemma ContactTrace(d: Store)
    ensures Trace(Contact, d) == [Contact, Success]
  {
    TraceStops(Success, d);
    TraceUnfold(Contact, d, Success);
  }

  /** The practical questions of a live event lead straight to contact. */
  lemma PracticalTrace(d: Store)
    ensures Trace(LivePractical, d) == [LivePractical, Contact, Success]
  {
    ContactTrace(d);
    TraceUnfold(LivePractical, d, Contact);
  }

  /** When the equipment at the venue is unknown, the venue's name is asked before the practical questions. */
  lemma UnknownVenueTrace(d: Store)
    requires Truthy(d, "equip-weet-niet") || Truthy(d, "equip-Weet ik niet")
    ensures Trace(LocationEquipment, d) == [LocationEquipment, LocationName, LivePractical, Contact, Success]
  {
    PracticalTrace(d);
    TraceUnfold(LocationName, d, LivePractical);
    EquipmentBranches(d);
    TraceUnfold(LocationEquipment, d, LocationName);
  }

  /** With the equipment at the venue known, the practical questions come next. */
  lemma KnownVenueTrace(d: Store)
    requires !Truthy(d, "equip-weet-niet") && !Truthy(d, "equip-Weet ik niet")
    ensures Trace(LocationEquipment, d) == [LocationEquipment, LivePractical, Contact, Success]
  {
    PracticalTrace(d);
    EquipmentBranches(d);
    TraceUnfold(LocationEquipment, d, LivePractical);
  }

  /** Advice starts with who it is for and then the goal, whatever the other answers. */
  lemma AdviesStart(d: Store)
    requires Holds(d, "main-service", "advies")
    ensures Trace(Main, d) == [Main, AdviesWho] + Trace(AdviesGoal, d)
  {
    MainBranches(d);
    TraceUnfold(Main, d, AdviesWho);
    TraceUnfold(AdviesWho, d, AdviesGoal);
  }

  /** The purchase details are followed by the purchase type and contact. */
  lemma PurchaseDetailsTrace(d: Store)
    ensures Trace(AdviesKopenDetails, d) == [AdviesKopenDetails, AdviesKopenType, Contact, Success]
  {
    ContactTrace(d);
    TraceUnfold(AdviesKopenType, d, Contact);
    TraceUnfold(AdviesKopenDetails, d, AdviesKopenType);
  }

  /** From the usage question the purchase branch runs straight through to the end. */
  lemma PurchaseBranchTrace(d: Store)
    ensures Trace(AdviesGebruik, d) == [AdviesGebruik, AdviesKopenDetails, AdviesKopenType, Contact, Success]
  {
    PurchaseDetailsTrace(d);
    TraceUnfold(AdviesGebruik, d, AdviesKopenDetails);
  }

  /** Choosing to buy equipment leads from the goal question into the purchase branch. */
  lemma PurchaseGoalTrace(d: Store)
    requires Holds(d, "advies-goal", "aanschaffen")
    ensures Trace(AdviesGoal, d)
         == [AdviesGoal, AdviesGebruik, AdviesKopenDetails, AdviesKopenType, Contact, Success]
  {
    PurchaseBranchTrace(d);
    AdviesGoalBranches(d);
    TraceUnfold(AdviesGoal, d, AdviesGebruik);
  }

  /** Choosing live and then hire always reaches the hire role, organising always the event type. */
  lemma LiveHireRoute(d: Store)
    requires Holds(d, "main-service", "live")
    ensures Holds(d, "live-type", "hire") ==> Trace(Main, d)[..3] == [Main, LiveType, LiveHireRole]
    ensures Holds(d, "live-type", "organize") ==> Trace(Main, d)[..3] == [Main, LiveType, LiveEventType]
  {
    var t := Trace(Main, d);
    assert t == [Main] + Trace(LiveType, d);
  }
}
