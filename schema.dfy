/**
 * The meeting document schema: the required paths of a meeting and of an
 * embedded action point, the action-point status enum and its default.
 */
module Schema {

  /** Document and user identifiers, compared by equality only. */
  type Id = string

  datatype Option<T> = None | Some(value: T)

  const PENDING: string := "pending"
  const IN_PROGRESS: string := "in-progress"
  const COMPLETED: string := "completed"
  const OPEN: string := "open"

  /** The enum of an action point's `status` path. */
  const ACTION_STATUSES: seq<string> := [PENDING, IN_PROGRESS, COMPLETED]

  /** An embedded action point; a path that was never set is None. */
  datatype ActionPoint = ActionPoint(
    id: Id,
    description: Option<string>,
    assignedTo: Option<string>,
    dueDate: Option<int>,
    status: Option<string>)

  /** An embedded pain point; the schema declares no such path, only the controller uses it. */
  datatype PainPoint = PainPoint(
    id: Id,
    description: Option<string>,
    addedBy: Id,
    addedAt: int,
    status: Option<string>)

  /**
   * A meeting document. `participants` holds user ids, as the controller
   * pushes them; dates are integers on one clock.
   */
  datatype Meeting = Meeting(
    id: Id,
    title: Option<string>,
    date: Option<int>,
    venue: Option<string>,
    summary: Option<string>,
    createdBy: Option<Id>,
    participants: seq<Id>,
    actionPoints: seq<ActionPoint>,
    painPoints: seq<PainPoint>)

  /** A required string path: set and not the empty string. */
  predicate Present(s: Option<string>)
  {
    s.Some? && s.value != ""
  }

  /** The enum validator: an unset status passes, a set one must be listed. */
  predicate ValidStatus(s: Option<string>)
  {
    s.None? || s.value in ACTION_STATUSES
  }

  predicate ValidActionPoint(a: ActionPoint)
  {
    Present(a.description) && Present(a.assignedTo) && a.dueDate.Some? && ValidStatus(a.status)
  }

  /** A meeting passes validation: its required paths are set and every embedded action point is valid. */
  predicate ValidMeeting(m: Meeting)
  {
    && Present(m.title)
    && m.date.Some?
    && Present(m.venue)
    && Present(m.summary)
    && m.createdBy.Some?
    && forall i :: 0 <= i < |m.actionPoints| ==> ValidActionPoint(m.actionPoints[i])
  }

  /** Every embedded action point carries a status: the default has been applied to each. */
  predicate StatusesSet(m: Meeting)
  {
    forall i :: 0 <= i < |m.actionPoints| ==> m.actionPoints[i].status.Some?
  }

  /** The status default `pending`, applied when an action point is built. */
  function WithDefaults(a: ActionPoint): (r: ActionPoint)
    ensures r.status.Some?
    ensures a.status.None? ==> r.status == Some(PENDING)
    ensures a.status.Some? ==> r == a
    ensures r == a.(status := r.status)
    ensures ValidStatus(a.status) ==> r.status.value in ACTION_STATUSES
    ensures ValidActionPoint(r) <==> ValidActionPoint(a)
  {
    if a.status.None? then a.(status := Some(PENDING)) else a
  }

  lemma WithDefaultsIdempotent(a: ActionPoint)
    ensures WithDefaults(WithDefaults(a)) == WithDefaults(a)
  {
  }

  /** Saving a valid meeting with one more action point fails exactly when that point is invalid. */
  lemma ValidAppendAction(m: Meeting, a: ActionPoint)
    requires ValidMeeting(m)
    ensures ValidMeeting(m.(actionPoints := m.actionPoints + [a])) <==> ValidActionPoint(a)
  {
    var aps := m.actionPoints + [a];
    assert aps[|m.actionPoints|] == a;
    assert forall i :: 0 <= i < |m.actionPoints| ==> aps[i] == m.actionPoints[i];
  }

  /** Saving a valid meeting with one action point replaced fails exactly when the replacement is invalid. */
  lemma ValidReplaceAction(m: Meeting, i: nat, a: ActionPoint)
    requires ValidMeeting(m) && i < |m.actionPoints|
    ensures ValidMeeting(m.(actionPoints := m.actionPoints[i := a])) <==> ValidActionPoint(a)
  {
    assert m.actionPoints[i := a][i] == a;
  }
}
