/**
 * The review database as one object whose tables are maps and sequences.
 * Each method is one ORM call of the source (a filtered delete, a save, a
 * cascading delete) and says what it changes and that nothing else changes.
 */
module Store {
  import opened Wrappers
  import opened Models

  /** A snapshot of every table, for stating what a sequence of operations does. */
  datatype Db = Db(
    edits: map<EditId, Edit>,
    groups: map<GroupId, EditGroup>,
    votes: seq<Vote>,
    trainingData: map<EditId, TrainingData>,
    currentRevisions: map<EditId, RevisionRow>,
    previousRevisions: map<EditId, RevisionRow>,
    revisions: map<(EditId, RevisionType), RevisionRow>,
    scores: map<EditId, ScoreData>,
    notices: seq<EditId>)

  /** Removing both revision rows of an edit leaves no row that points at it. */
  lemma RevisionKeysAfterRemoval(revisions: map<(EditId, RevisionType), RevisionRow>, edits: map<EditId, Edit>, id: EditId)
    requires forall k | k in revisions :: k.0 in edits
    ensures forall k | k in revisions - {(id, Current), (id, Previous)} :: k.0 in edits - {id}
  {
    forall k | k in revisions - {(id, Current), (id, Previous)} ensures k.0 in edits - {id} {
      assert k == (k.0, k.1) && (k.1 == Current || k.1 == Previous);
    }
  }

  class Store {
    var edits: map<EditId, Edit>
    var groups: map<GroupId, EditGroup>
    var votes: seq<Vote>
    var trainingData: map<EditId, TrainingData>
    var currentRevisions: map<EditId, RevisionRow>
    var previousRevisions: map<EditId, RevisionRow>
    /** The legacy Revision table, one row per (edit, type). */
    var revisions: map<(EditId, RevisionType), RevisionRow>
    var scores: map<EditId, ScoreData>
    /** Deletion notices relayed to IRC, oldest first. */
    var notices: seq<EditId>

    /**
     * The schema's constraints: rows are keyed by what they describe, one
     * vote per (edit, user), unique group names, and every row points at an
     * existing edit or group.
     */
    ghost predicate Valid()
      reads this
    {
      && (forall id | id in edits :: edits[id].id == id && edits[id].groups <= groups.Keys)
      && (forall g | g in groups :: groups[g].id == g)
      && UniqueGroupNames(groups)
      && OneVotePerUser(votes)
      && (forall v | v in votes :: v.edit in edits)
      && trainingData.Keys <= edits.Keys
      && currentRevisions.Keys <= edits.Keys
      && previousRevisions.Keys <= edits.Keys
      && (forall k | k in revisions :: k.0 in edits)
      && scores.Keys <= edits.Keys
    }

    ghost function State(): Db
      reads this
    {
      Db(edits, groups, votes, trainingData, currentRevisions, previousRevisions, revisions, scores, notices)
    }

    constructor ()
      ensures Valid()
      ensures edits == map[] && groups == map[] && votes == [] && notices == []
    {
      edits, groups, votes := map[], map[], [];
      trainingData, currentRevisions, previousRevisions := map[], map[], map[];
      revisions, scores, notices := map[], map[], [];
    }

    /** `edit.save()` of an existing edit whose groups are existing groups. */
    method SaveEdit(e: Edit)
      requires Valid() && e.id in edits && e.groups <= groups.Keys
      modifies this
      ensures Valid()
      ensures edits == old(edits)[e.id := e]
      ensures groups == old(groups) && votes == old(votes) && trainingData == old(trainingData)
      ensures currentRevisions == old(currentRevisions) && previousRevisions == old(previousRevisions)
      ensures revisions == old(revisions) && scores == old(scores) && notices == old(notices)
    {
      edits := edits[e.id := e];
    }

    /** `Edit.objects.create(...)` of an edit id not yet stored. */
    method CreateEdit(e: Edit)
      requires Valid() && e.id !in edits && e.groups <= groups.Keys
      modifies this
      ensures Valid()
      ensures edits == old(edits)[e.id := e]
      ensures groups == old(groups) && votes == old(votes) && trainingData == old(trainingData)
      ensures currentRevisions == old(currentRevisions) && previousRevisions == old(previousRevisions)
      ensures revisions == old(revisions) && scores == old(scores) && notices == old(notices)
    {
      edits := edits[e.id := e];
    }

    /**
     * `EditGroup.objects.get_or_create(name=name, related_to=parent)`, given a
     * fresh id to use. The lookup matches on both columns; when only the name
     * matches, the create breaks the unique name and raises.
     */
    method GetOrCreateGroup(name: string, parent: GroupId, freshId: GroupId) returns (g: Option<GroupId>)
      requires Valid() && freshId !in groups
      modifies this
      ensures Valid()
      ensures g.Some? ==> g.value in groups && groups[g.value].name == name && groups[g.value].relatedTo == Some(parent)
      ensures (exists h | h in old(groups) :: old(groups)[h].name == name) ==> groups == old(groups)
      ensures (exists h | h in old(groups) :: old(groups)[h].name == name) ==>
                (g.Some? <==> exists h | h in old(groups) :: old(groups)[h].name == name && old(groups)[h].relatedTo == Some(parent))
      ensures (forall h | h in old(groups) :: old(groups)[h].name != name) ==>
                g == Some(freshId) && groups == old(groups)[freshId := EditGroup(freshId, name, 0, 0, Some(parent))]
      ensures edits == old(edits) && votes == old(votes) && trainingData == old(trainingData)
      ensures currentRevisions == old(currentRevisions) && previousRevisions == old(previousRevisions)
      ensures revisions == old(revisions) && scores == old(scores) && notices == old(notices)
    {
      if h :| h in groups && groups[h].name == name {
        if groups[h].relatedTo == Some(parent) {
          g := Some(h);
        } else {
          g := None;
        }
      } else {
        g := Some(freshId);
        groups := groups[freshId := EditGroup(freshId, name, 0, 0, Some(parent))];
      }
    }

    /** `Classification.objects.filter(edit=edit).delete()` */
    method DeleteVotes(id: EditId)
      requires Valid()
      modifies this
      ensures Valid()
      ensures votes == VotesWithout(old(votes), id)
      ensures edits == old(edits) && groups == old(groups) && trainingData == old(trainingData)
      ensures currentRevisions == old(currentRevisions) && previousRevisions == old(previousRevisions)
      ensures revisions == old(revisions) && scores == old(scores) && notices == old(notices)
    {
      VotesWithoutKeepsOneVotePerUser(votes, id);
      votes := VotesWithout(votes, id);
    }

    /** `TrainingData.objects.filter(edit=edit).delete()` */
    method DeleteTrainingData(id: EditId)
      requires Valid()
      modifies this
      ensures Valid()
      ensures trainingData == old(trainingData) - {id}
      ensures edits == old(edits) && groups == old(groups) && votes == old(votes)
      ensures currentRevisions == old(currentRevisions) && previousRevisions == old(previousRevisions)
      ensures revisions == old(revisions) && scores == old(scores) && notices == old(notices)
    {
      trainingData := trainingData - {id};
    }

    /** `TrainingData.objects.create(edit=edit, ...)`; the one-to-one key must be free. */
    method CreateTrainingData(id: EditId, row: TrainingData)
      requires Valid() && id in edits && id !in trainingData
      modifies this
      ensures Valid()
      ensures trainingData == old(trainingData)[id := row]
      ensures edits == old(edits) && groups == old(groups) && votes == old(votes)
      ensures currentRevisions == old(currentRevisions) && previousRevisions == old(previousRevisions)
      ensures revisions == old(revisions) && scores == old(scores) && notices == old(notices)
    {
      trainingData := trainingData[id := row];
    }

    /** `CurrentRevision.objects.filter(edit=edit).delete()` */
    method DeleteCurrentRevision(id: EditId)
      requires Valid()
      modifies this
      ensures Valid()
      ensures currentRevisions == old(currentRevisions) - {id}
      ensures edits == old(edits) && groups == old(groups) && votes == old(votes)
      ensures trainingData == old(trainingData) && previousRevisions == old(previousRevisions)
      ensures revisions == old(revisions) && scores == old(scores) && notices == old(notices)
    {
      currentRevisions := currentRevisions - {id};
    }

    /** `PreviousRevision.objects.filter(edit=edit).delete()` */
    method DeletePreviousRevision(id: EditId)
      requires Valid()
      modifies this
      ensures Valid()
      ensures previousRevisions == old(previousRevisions) - {id}
      ensures edits == old(edits) && groups == old(groups) && votes == old(votes)
      ensures trainingData == old(trainingData) && currentRevisions == old(currentRevisions)
      ensures revisions == old(revisions) && scores == old(scores) && notices == old(notices)
    {
      previousRevisions := previousRevisions - {id};
    }

    /** `CurrentRevision.objects.create(edit=edit, ...)` */
    method CreateCurrentRevision(id: EditId, row: RevisionRow)
      requires Valid() && id in edits && id !in currentRevisions
      modifies this
      ensures Valid()
      ensures currentRevisions == old(currentRevisions)[id := row]
      ensures edits == old(edits) && groups == old(groups) && votes == old(votes)
      ensures trainingData == old(trainingData) && previousRevisions == old(previousRevisions)
      ensures revisions == old(revisions) && scores == old(scores) && notices == old(notices)
    {
      currentRevisions := currentRevisions[id := row];
    }

    /** `PreviousRevision.objects.create(edit=edit, ...)` */
    method CreatePreviousRevision(id: EditId, row: RevisionRow)
      requires Valid() && id in edits && id !in previousRevisions
      modifies this
      ensures Valid()
      ensures previousRevisions == old(previousRevisions)[id := row]
      ensures edits == old(edits) && groups == old(groups) && votes == old(votes)
      ensures trainingData == old(trainingData) && currentRevisions == old(currentRevisions)
      ensures revisions == old(revisions) && scores == old(scores) && notices == old(notices)
    {
      previousRevisions := previousRevisions[id := row];
    }

    /** `CurrentRevision.objects.filter(edit=edit).delete()` followed by `create(edit=edit, ...)`. */
    method ReplaceCurrentRevision(id: EditId, row: RevisionRow)
      requires Valid() && id in edits
      modifies this
      ensures Valid()
      ensures currentRevisions == old(currentRevisions)[id := row]
      ensures edits == old(edits) && groups == old(groups) && votes == old(votes)
      ensures trainingData == old(trainingData) && previousRevisions == old(previousRevisions)
      ensures revisions == old(revisions) && scores == old(scores) && notices == old(notices)
    {
      DeleteCurrentRevision(id);
      CreateCurrentRevision(id, row);
    }

    /** `PreviousRevision.objects.filter(edit=edit).delete()` followed by `create(edit=edit, ...)`. */
    method ReplacePreviousRevision(id: EditId, row: RevisionRow)
      requires Valid() && id in edits
      modifies this
      ensures Valid()
      ensures previousRevisions == old(previousRevisions)[id := row]
      ensures edits == old(edits) && groups == old(groups) && votes == old(votes)
      ensures trainingData == old(trainingData) && currentRevisions == old(currentRevisions)
      ensures revisions == old(revisions) && scores == old(scores) && notices == old(notices)
    {
      DeletePreviousRevision(id);
      CreatePreviousRevision(id, row);
    }

    /** `Revision.objects.filter(edit=edit).delete()` on the legacy table. */
    method DeleteRevisions(id: EditId)
      requires Valid()
      modifies this
      ensures Valid()
      ensures revisions == old(revisions) - {(id, Current), (id, Previous)}
      ensures edits == old(edits) && groups == old(groups) && votes == old(votes)
      ensures trainingData == old(trainingData) && currentRevisions == old(currentRevisions)
      ensures previousRevisions == old(previousRevisions) && scores == old(scores) && notices == old(notices)
    {
      revisions := revisions - {(id, Current), (id, Previous)};
    }

    /** `Revision.objects.create(edit=edit, type=..., ...)` on the legacy table. */
    method CreateRevision(id: EditId, t: RevisionType, row: RevisionRow)
      requires Valid() && id in edits && (id, t) !in revisions
      modifies this
      ensures Valid()
      ensures revisions == old(revisions)[(id, t) := row]
      ensures edits == old(edits) && groups == old(groups) && votes == old(votes)
      ensures trainingData == old(trainingData) && currentRevisions == old(currentRevisions)
      ensures previousRevisions == old(previousRevisions) && scores == old(scores) && notices == old(notices)
    {
      revisions := revisions[(id, t) := row];
    }

    /**
     * `edit.delete()`: votes protect the edit, so none may remain; the rows
     * that cascade from the edit go with it, and so do its group memberships.
     */
    method DeleteEdit(id: EditId)
      requires Valid() && id in edits
      requires forall v | v in votes :: v.edit != id
      modifies this
      ensures Valid()
      ensures edits == old(edits) - {id}
      ensures trainingData == old(trainingData) - {id}
      ensures currentRevisions == old(currentRevisions) - {id}
      ensures previousRevisions == old(previousRevisions) - {id}
      ensures revisions == old(revisions) - {(id, Current), (id, Previous)}
      ensures scores == old(scores) - {id}
      ensures groups == old(groups) && votes == old(votes) && notices == old(notices)
    {
      RevisionKeysAfterRemoval(revisions, edits, id);
      edits := edits - {id};
      trainingData := trainingData - {id};
      currentRevisions := currentRevisions - {id};
      previousRevisions := previousRevisions - {id};
      revisions := revisions - {(id, Current), (id, Previous)};
      scores := scores - {id};
    }

    /** Records one deletion notice relayed to IRC. */
    method Notify(id: EditId)
      requires Valid()
      modifies this
      ensures Valid()
      ensures notices == old(notices) + [id]
      ensures edits == old(edits) && groups == old(groups) && votes == old(votes)
      ensures trainingData == old(trainingData) && currentRevisions == old(currentRevisions)
      ensures previousRevisions == old(previousRevisions) && revisions == old(revisions)
      ensures scores == old(scores)
    {
      notices := notices + [id];
    }

    /** `Classification.objects.create(...)` of a vote by a user with none on that edit. */
    method AddVote(v: Vote)
      requires Valid() && v.edit in edits && !HasVote(votes, v.edit, v.user)
      modifies this
      ensures Valid()
      ensures votes == old(votes) + [v]
      ensures edits == old(edits) && groups == old(groups) && trainingData == old(trainingData)
      ensures currentRevisions == old(currentRevisions) && previousRevisions == old(previousRevisions)
      ensures revisions == old(revisions) && scores == old(scores) && notices == old(notices)
    {
      AppendVoteKeepsOneVotePerUser(votes, v);
      votes := votes + [v];
    }
  }
}
