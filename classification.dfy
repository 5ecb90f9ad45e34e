/**
 * The `update_edit_classification` command: the reviewers' votes on an edit
 * decide its status and, once enough votes agree, its final classification.
 * The vote threshold is a parameter; the command passes the accuracy
 * threshold of the settings.
 */
module UpdateEditClassification {
  import opened Wrappers
  import opened Models
  import opened Store
  import Settings

  /** The number of votes of each value on one edit. */
  datatype Tally = Tally(vandalism: nat, constructive: nat, skipped: nat)

  function Total(t: Tally): nat
  {
    t.vandalism + t.constructive + t.skipped
  }

  /** The three `Classification.objects.filter(edit=edit, classification=...).count()` queries. */
  function TallyOf(votes: seq<Vote>, edit: EditId): Tally
  {
    Tally(CountVotes(votes, edit, Vandalism), CountVotes(votes, edit, Constructive), CountVotes(votes, edit, Skipped))
  }

  /** Every vote on the edit is counted under exactly one of the three values. */
  lemma {:induction false} TallyCountsEveryVote(votes: seq<Vote>, edit: EditId)
    ensures Total(TallyOf(votes, edit)) == |VotesOn(votes, edit)|
    decreases |votes|
  {
    if votes != [] {
      TallyCountsEveryVote(votes[..|votes| - 1], edit);
    }
  }

  /** The finalising rule that fires, tried in the command's priority order. */
  function FinalLabel(t: Tally, threshold: int): Option<Label>
  {
    if Total(t) < threshold then None
    else if 2 * t.skipped > t.vandalism + t.constructive then Some(Skipped)
    else if t.constructive >= 3 * t.vandalism then Some(Constructive)
    else if t.vandalism >= 3 * t.constructive then Some(Vandalism)
    else None
  }

  /** The edit as `_handle_edit` leaves it for the given tally. */
  function Reclassified(e: Edit, t: Tally, threshold: int): Edit
  {
    match FinalLabel(t, threshold)
    case Some(l) => e.(status := Done, classification := Some(l))
    case None => e.(status := if Total(t) == 0 then Pending else Partial)
  }

  /**
   * The decision, stated rule by rule: the edit is Done exactly when the
   * threshold is met and one of the three majorities holds, the first that
   * holds names the classification, and otherwise the classification is kept
   * and the status says whether any vote exists. No other field changes.
   */
  lemma ReclassifiedDecision(e: Edit, t: Tally, threshold: int)
    ensures var r := Reclassified(e, t, threshold);
      && r == e.(status := r.status, classification := r.classification)
      && (r.status == Done <==>
            Total(t) >= threshold &&
            (2 * t.skipped > t.vandalism + t.constructive ||
             t.constructive >= 3 * t.vandalism ||
             t.vandalism >= 3 * t.constructive))
      && (r.status == Done && 2 * t.skipped > t.vandalism + t.constructive ==> r.classification == Some(Skipped))
      && (r.status == Done && 2 * t.skipped <= t.vandalism + t.constructive && t.constructive >= 3 * t.vandalism ==>
            r.classification == Some(Constructive))
      && (r.status == Done && 2 * t.skipped <= t.vandalism + t.constructive && t.constructive < 3 * t.vandalism ==>
            r.classification == Some(Vandalism) && t.vandalism >= 3 * t.constructive)
      && (r.status != Done ==> r.classification == e.classification)
      && (r.status == Pending <==> r.status != Done && Total(t) == 0)
  {
  }

  /** Below the threshold no classification is ever final. */
  lemma BelowThresholdNeverDone(e: Edit, t: Tally, threshold: int)
    requires Total(t) < threshold
    ensures Reclassified(e, t, threshold).status != Done
    ensures Reclassified(e, t, threshold).classification == e.classification
  {
  }

  /** With the command's threshold of 20, an edit without votes stays Pending. */
  lemma NoVotesStayPending(e: Edit)
    ensures Reclassified(e, Tally(0, 0, 0), Settings.MinimumEditsForUserAccuracy).status == Pending
  {
  }

  /** A unanimous tally that meets a positive threshold finalises with that value. */
  lemma UnanimousIsFinal(e: Edit, n: nat, threshold: int)
    requires 0 < threshold <= n
    ensures Reclassified(e, Tally(n, 0, 0), threshold).classification == Some(Vandalism)
    ensures Reclassified(e, Tally(0, n, 0), threshold).classification == Some(Constructive)
    ensures Reclassified(e, Tally(0, 0, n), threshold).classification == Some(Skipped)
    ensures Reclassified(e, Tally(n, 0, 0), threshold).status == Done
    ensures Reclassified(e, Tally(0, n, 0), threshold).status == Done
    ensures Reclassified(e, Tally(0, 0, n), threshold).status == Done
  {
  }

  /** Re-running with the same votes changes nothing, so no second save happens. */
  lemma ReclassifiedIdempotent(e: Edit, t: Tally, threshold: int)
    ensures Reclassified(Reclassified(e, t, threshold), t, threshold) == Reclassified(e, t, threshold)
  {
  }

  /**
   * The assignments of `_handle_edit`: status from whether any vote exists,
   * then the first finalising rule that holds, if the threshold is met.
   */
  method ApplyRules(e: Edit, vandalism: nat, constructive: nat, skipped: nat, threshold: int) returns (r: Edit)
    ensures r == Reclassified(e, Tally(vandalism, constructive, skipped), threshold)
  {
    var total := vandalism + constructive + skipped;
    r := e.(status := if total == 0 then Pending else Partial);
    if total >= threshold {
      if 2 * skipped > vandalism + constructive {
        r := r.(classification := Some(Skipped), status := Done);
      } else if constructive >= 3 * vandalism {
        r := r.(classification := Some(Constructive), status := Done);
      } else if vandalism >= 3 * constructive {
        r := r.(classification := Some(Vandalism), status := Done);
      }
    }
  }

  /**
   * `_handle_edit`: recount, recompute status and classification, and save
   * only when one of the two differs from what was stored.
   */
  method HandleEdit(store: Store, id: EditId, threshold: int) returns (saved: bool)
    requires store.Valid() && id in store.edits
    modifies store
    ensures store.Valid()
    ensures var r := Reclassified(old(store.edits[id]), TallyOf(old(store.votes), id), threshold);
      && store.edits == old(store.edits)[id := r]
      && (saved <==> r.status != old(store.edits[id]).status || r.classification != old(store.edits[id]).classification)
    ensures store.groups == old(store.groups) && store.votes == old(store.votes)
    ensures store.trainingData == old(store.trainingData) && store.currentRevisions == old(store.currentRevisions)
    ensures store.previousRevisions == old(store.previousRevisions) && store.revisions == old(store.revisions)
    ensures store.scores == old(store.scores) && store.notices == old(store.notices)
  {
    var original := store.edits[id];
    var vandalism := CountVotes(store.votes, id, Vandalism);
    var constructive := CountVotes(store.votes, id, Constructive);
    var skipped := CountVotes(store.votes, id, Skipped);
    var edit := ApplyRules(original, vandalism, constructive, skipped, threshold);
    ReclassifiedDecision(original, Tally(vandalism, constructive, skipped), threshold);

    if edit.status != original.status || edit.classification != original.classification {
      store.SaveEdit(edit);
      saved := true;
    } else {
      assert store.edits[id := edit] == store.edits;
      saved := false;
    }
  }

  /** The edits `handle` submits: every edit whose status is not Done. */
  function Population(edits: map<EditId, Edit>): (r: set<EditId>)
    ensures forall id :: id in r <==> id in edits && edits[id].status != Done
  {
    set id | id in edits && edits[id].status != Done
  }

  /**
   * `handle`: every edit that is not Done is reclassified from the votes,
   * in any order; Done edits and every other table are left as they were.
   */
  method Handle(store: Store)
    requires store.Valid()
    modifies store
    ensures store.Valid()
    ensures store.edits.Keys == old(store.edits).Keys
    ensures forall id | id in old(store.edits) ::
      store.edits[id] == (if old(store.edits)[id].status != Done
                          then Reclassified(old(store.edits)[id], TallyOf(old(store.votes), id),
                                            Settings.MinimumEditsForUserAccuracy)
                          else old(store.edits)[id])
    ensures store.groups == old(store.groups) && store.votes == old(store.votes)
    ensures store.trainingData == old(store.trainingData) && store.currentRevisions == old(store.currentRevisions)
    ensures store.previousRevisions == old(store.previousRevisions) && store.revisions == old(store.revisions)
    ensures store.scores == old(store.scores) && store.notices == old(store.notices)
  {
    var remaining := Population(store.edits);
    ghost var handled: set<EditId> := {};
    while remaining != {}
      invariant store.Valid()
      invariant remaining + handled == Population(old(store.edits)) && remaining !! handled
      invariant store.edits.Keys == old(store.edits).Keys
      invariant forall id | id in old(store.edits) ::
        store.edits[id] == (if id in handled
                            then Reclassified(old(store.edits)[id], TallyOf(old(store.votes), id),
                                              Settings.MinimumEditsForUserAccuracy)
                            else old(store.edits)[id])
      invariant store.groups == old(store.groups) && store.votes == old(store.votes)
      invariant store.trainingData == old(store.trainingData) && store.currentRevisions == old(store.currentRevisions)
      invariant store.previousRevisions == old(store.previousRevisions) && store.revisions == old(store.revisions)
      invariant store.scores == old(store.scores) && store.notices == old(store.notices)
      decreases remaining
    {
      var id :| id in remaining;
      var _ := HandleEdit(store, id, Settings.MinimumEditsForUserAccuracy);
      remaining := remaining - {id};
      handled := handled + {id};
    }
  }
}
