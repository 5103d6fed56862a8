/**
 * The meeting handlers over an in-memory store: a map from meeting id to
 * meeting document and a user table from email to user id. Each handler
 * loads one meeting, checks it, changes one embedded list or the document,
 * and saves; the store changes only when the handler succeeds.
 */
module MeetingController {
  import opened Schema
  import opened Sequences

  const OK: int := 200
  const CREATED: int := 201
  const BAD_REQUEST: int := 400
  const UNAUTHORIZED: int := 401
  const NOT_FOUND: int := 404

  /** The meeting paths a request body may carry; None is a path the body leaves out. */
  datatype MeetingFields = MeetingFields(
    title: Option<string>,
    date: Option<int>,
    venue: Option<string>,
    summary: Option<string>,
    createdBy: Option<Id>,
    participants: Option<seq<Id>>,
    actionPoints: Option<seq<ActionPoint>>)

  /** The action-point paths a request body may carry. */
  datatype ActionFields = ActionFields(
    description: Option<string>,
    assignedTo: Option<string>,
    dueDate: Option<int>,
    status: Option<string>)

  // ---------------------------------------------------------------------------
  // Building and changing documents

  /** The status default applied to every point of an embedded array, as a save does. */
  function DefaultAll(aps: seq<ActionPoint>): (r: seq<ActionPoint>)
    ensures |r| == |aps|
    ensures forall i :: 0 <= i < |r| ==> r[i] == WithDefaults(aps[i])
    ensures forall i :: 0 <= i < |r| ==> r[i].status.Some? && r[i].id == aps[i].id
    ensures AllValid(r) <==> AllValid(aps)
  {
    seq(|aps|, i requires 0 <= i < |aps| => WithDefaults(aps[i]))
  }

  predicate AllValid(aps: seq<ActionPoint>)
  {
    forall i :: 0 <= i < |aps| ==> ValidActionPoint(aps[i])
  }

  /** What `Meeting.create` demands of a request body: the required paths and valid action points. */
  predicate CreatableFrom(b: MeetingFields)
  {
    && Present(b.title)
    && b.date.Some?
    && Present(b.venue)
    && Present(b.summary)
    && (b.actionPoints.Some? ==> AllValid(b.actionPoints.value))
  }

  /**
   * The document `createMeeting` builds: the body spread first and the
   * caller written over `createdBy` after it, so the body's own `createdBy`
   * never survives.
   */
  function NewMeeting(id: Id, b: MeetingFields, caller: Id): (m: Meeting)
    ensures m.id == id && m.createdBy == Some(caller)
    ensures m.title == b.title && m.date == b.date && m.venue == b.venue && m.summary == b.summary
    ensures m.actionPoints == DefaultAll(if b.actionPoints.Some? then b.actionPoints.value else [])
    ensures StatusesSet(m)
    ensures m.participants == (if b.participants.Some? then b.participants.value else [])
    ensures m.painPoints == []
    ensures ValidMeeting(m) <==> CreatableFrom(b)
  {
    Meeting(id, b.title, b.date, b.venue, b.summary, Some(caller),
            if b.participants.Some? then b.participants.value else [],
            DefaultAll(if b.actionPoints.Some? then b.actionPoints.value else []),
            [])
  }

  /** The body's `createdBy` has no effect on the created meeting. */
  lemma CreatorIgnoresBody(id: Id, b: MeetingFields, caller: Id, other: Option<Id>)
    ensures NewMeeting(id, b.(createdBy := other), caller) == NewMeeting(id, b, caller)
  {
  }

  /** What the update validators demand of the paths a body sets. */
  predicate UpdatableBy(p: MeetingFields)
  {
    && (p.title.Some? ==> Present(p.title))
    && (p.venue.Some? ==> Present(p.venue))
    && (p.summary.Some? ==> Present(p.summary))
    && (p.actionPoints.Some? ==> AllValid(p.actionPoints.value))
  }

  /** The value of a path after a body that may set it. */
  function Override<T>(patch: Option<T>, current: Option<T>): Option<T>
  {
    if patch.Some? then patch else current
  }

  /**
   * The update of a stored meeting by a body: every path the body sets replaces the
   * stored one, `createdBy` included; the other paths keep their values.
   */
  function Merge(m: Meeting, p: MeetingFields): (r: Meeting)
    ensures r.id == m.id && r.painPoints == m.painPoints
    ensures p.title.Some? ==> r.title == p.title
    ensures p.title.None? ==> r.title == m.title
    ensures p.date.Some? ==> r.date == p.date
    ensures p.date.None? ==> r.date == m.date
    ensures p.venue.Some? ==> r.venue == p.venue
    ensures p.venue.None? ==> r.venue == m.venue
    ensures p.summary.Some? ==> r.summary == p.summary
    ensures p.summary.None? ==> r.summary == m.summary
    ensures p.createdBy.Some? ==> r.createdBy == p.createdBy
    ensures p.createdBy.None? ==> r.createdBy == m.createdBy
    ensures p.participants.Some? ==> r.participants == p.participants.value
    ensures p.participants.None? ==> r.participants == m.participants
    ensures p.actionPoints.Some? ==> r.actionPoints == DefaultAll(p.actionPoints.value)
    ensures p.actionPoints.None? ==> r.actionPoints == m.actionPoints
    ensures StatusesSet(m) ==> StatusesSet(r)
    ensures p == MeetingFields(None, None, None, None, None, None, None) ==> r == m
    ensures ValidMeeting(m) ==> (ValidMeeting(r) <==> UpdatableBy(p))
  {
    m.(title := Override(p.title, m.title),
       date := Override(p.date, m.date),
       venue := Override(p.venue, m.venue),
       summary := Override(p.summary, m.summary),
       createdBy := Override(p.createdBy, m.createdBy),
       participants := if p.participants.Some? then p.participants.value else m.participants,
       actionPoints := if p.actionPoints.Some? then DefaultAll(p.actionPoints.value) else m.actionPoints)
  }

  /** Applying the same update twice is applying it once. */
  lemma MergeIdempotent(m: Meeting, p: MeetingFields)
    ensures Merge(Merge(m, p), p) == Merge(m, p)
  {
    if p.actionPoints.Some? {
      var d := DefaultAll(p.actionPoints.value);
      assert DefaultAll(p.actionPoints.value) == d;
    }
  }

  /** The action point built from a request body, with its generated id and the status default. */
  function NewActionPoint(id: Id, f: ActionFields): (a: ActionPoint)
    ensures a.id == id && a.status.Some?
    ensures a.description == f.description && a.assignedTo == f.assignedTo && a.dueDate == f.dueDate
    ensures f.status.Some? ==> a.status == f.status
    ensures f.status.None? ==> a.status == Some(PENDING)
    ensures ValidActionPoint(a) <==>
      Present(f.description) && Present(f.assignedTo) && f.dueDate.Some? && ValidStatus(f.status)
  {
    WithDefaults(ActionPoint(id, f.description, f.assignedTo, f.dueDate, f.status))
  }

  /** Copying a body onto an action point: each path the body sets is overwritten, the id never is. */
  function PatchAction(a: ActionPoint, f: ActionFields): (r: ActionPoint)
    ensures r.id == a.id
    ensures f == ActionFields(None, None, None, None) ==> r == a
    ensures f.description.Some? ==> r.description == f.description
    ensures f.description.None? ==> r.description == a.description
    ensures f.assignedTo.Some? ==> r.assignedTo == f.assignedTo
    ensures f.assignedTo.None? ==> r.assignedTo == a.assignedTo
    ensures f.dueDate.Some? ==> r.dueDate == f.dueDate
    ensures f.dueDate.None? ==> r.dueDate == a.dueDate
    ensures f.status.Some? ==> r.status == f.status
    ensures f.status.None? ==> r.status == a.status
  {
    a.(description := Override(f.description, a.description),
       assignedTo := Override(f.assignedTo, a.assignedTo),
       dueDate := Override(f.dueDate, a.dueDate),
       status := Override(f.status, a.status))
  }

  lemma PatchActionIdempotent(a: ActionPoint, f: ActionFields)
    ensures PatchAction(PatchAction(a, f), f) == PatchAction(a, f)
  {
  }

  /** The lookup of an embedded subdocument by id: the index of the first element whose id is `x`. */
  function FindById<T>(s: seq<T>, idOf: T -> Id, x: Id): (r: Option<nat>)
    ensures r.Some? ==> r.value < |s| && idOf(s[r.value]) == x
    ensures r.Some? ==> forall j :: 0 <= j < r.value ==> idOf(s[j]) != x
    ensures r.None? <==> forall j :: 0 <= j < |s| ==> idOf(s[j]) != x
    decreases |s|
  {
    if s == [] then None
    else if idOf(s[0]) == x then Some(0)
    else match FindById(s[1..], idOf, x)
      case None => None
      case Some(i) => Some(i + 1)
  }

  /** The lookup of an action point by its id within a meeting. */
  function ActionIndex(m: Meeting, actionId: Id): (r: Option<nat>)
    ensures r.Some? ==> r.value < |m.actionPoints| && m.actionPoints[r.value].id == actionId
    ensures r.Some? ==> forall j :: 0 <= j < r.value ==> m.actionPoints[j].id != actionId
    ensures r.None? <==> forall j :: 0 <= j < |m.actionPoints| ==> m.actionPoints[j].id != actionId
  {
    FindById(m.actionPoints, (a: ActionPoint) => a.id, actionId)
  }

  /** The lookup of a pain point by its id within a meeting. */
  function PainPointIndex(m: Meeting, pointId: Id): (r: Option<nat>)
    ensures r.Some? ==> r.value < |m.painPoints| && m.painPoints[r.value].id == pointId
    ensures r.Some? ==> forall j :: 0 <= j < r.value ==> m.painPoints[j].id != pointId
    ensures r.None? <==> forall j :: 0 <= j < |m.painPoints| ==> m.painPoints[j].id != pointId
  {
    FindById(m.painPoints, (p: PainPoint) => p.id, pointId)
  }

  /** An action point appended under a fresh id is the one a later lookup of that id finds. */
  lemma {:induction false} AppendedActionIsFound(m: Meeting, a: ActionPoint)
    requires forall j :: 0 <= j < |m.actionPoints| ==> m.actionPoints[j].id != a.id
    ensures ActionIndex(m.(actionPoints := m.actionPoints + [a]), a.id) == Some(|m.actionPoints|)
  {
    var aps := m.actionPoints + [a];
    var r := ActionIndex(m.(actionPoints := aps), a.id);
    assert aps[|m.actionPoints|].id == a.id;
    assert forall j :: 0 <= j < |m.actionPoints| ==> aps[j].id != a.id;
    assert r.Some?;
  }

  /** The participant list with every occurrence of `x` dropped. */
  function Without(s: seq<Id>, x: Id): (r: seq<Id>)
    ensures x !in r
    ensures forall y :: y != x ==> multiset(r)[y] == multiset(s)[y]
    ensures IsSubsequence(r, s)
  {
    var r := Filter(s, (y: Id) => y != x);
    assert multiset(r)[x] == 0;
    r
  }

  /** Removing a participant twice leaves what removing once leaves. */
  lemma WithoutIdempotent(s: seq<Id>, x: Id)
    ensures Without(Without(s, x), x) == Without(s, x)
  {
    FilterIdempotent(s, (y: Id) => y != x);
  }

  // ---------------------------------------------------------------------------
  // The listing query: the caller's meetings, latest date first

  /** `a` may come before `b` in a date-descending listing; a missing date sorts last. */
  predicate NotEarlier(a: Meeting, b: Meeting)
  {
    b.date.None? || (a.date.Some? && a.date.value >= b.date.value)
  }

  predicate SortedByDateDesc(s: seq<Meeting>)
  {
    forall i, j :: 0 <= i < j < |s| ==> NotEarlier(s[i], s[j])
  }

  /** Inserting one meeting into a date-descending sequence keeps it date-descending. */
  function InsertByDate(m: Meeting, s: seq<Meeting>): (r: seq<Meeting>)
    requires SortedByDateDesc(s)
    ensures SortedByDateDesc(r)
    ensures multiset(r) == multiset(s) + multiset{m}
    decreases |s|
  {
    if s == [] || NotEarlier(m, s[0]) then [m] + s
    else
      var rest := InsertByDate(m, s[1..]);
      assert s == [s[0]] + s[1..];
      assert forall x :: x in rest ==> x in multiset(rest);
      assert forall x :: x in rest ==> NotEarlier(s[0], x) by {
        forall x | x in rest ensures NotEarlier(s[0], x) {
          assert x in multiset(s[1..]) + multiset{m};
          if x != m {
            assert x in s[1..];
          }
        }
      }
      [s[0]] + rest
  }

  /** The meetings stored under `keys` that `caller` created. */
  ghost function OwnedAmong(ms: map<Id, Meeting>, keys: set<Id>, caller: Id): set<Meeting>
  {
    set k | k in keys && k in ms && ms[k].createdBy == Some(caller) :: ms[k]
  }

  ghost function Owned(ms: map<Id, Meeting>, caller: Id): set<Meeting>
  {
    OwnedAmong(ms, ms.Keys, caller)
  }

  /** `r` is the answer to the listing query: the caller's meetings, each once, latest first. */
  ghost predicate Listing(ms: map<Id, Meeting>, caller: Id, r: seq<Meeting>)
  {
    SortedByDateDesc(r) && multiset(r) == multiset(Owned(ms, caller))
  }

  ghost predicate KeyedById(ms: map<Id, Meeting>)
  {
    forall k :: k in ms ==> ms[k].id == k
  }

  lemma OwnedAmongInsert(ms: map<Id, Meeting>, keys: set<Id>, k: Id, caller: Id)
    requires KeyedById(ms) && k in ms && k !in keys
    ensures ms[k] !in OwnedAmong(ms, keys, caller)
    ensures OwnedAmong(ms, keys + {k}, caller) ==
      if ms[k].createdBy == Some(caller) then OwnedAmong(ms, keys, caller) + {ms[k]}
      else OwnedAmong(ms, keys, caller)
  {
  }

  lemma {:induction false} MultisetOfSetInsert(s: set<Meeting>, x: Meeting)
    requires x !in s
    ensures multiset(s + {x}) == multiset(s) + multiset{x}
  {
  }

  /** Every meeting of a listing is a stored meeting of the caller. */
  lemma ListingMembers(ms: map<Id, Meeting>, caller: Id, r: seq<Meeting>, m: Meeting)
    requires Listing(ms, caller, r) && m in r
    ensures m in ms.Values
    ensures KeyedById(ms) ==> m.id in ms && ms[m.id] == m
    ensures m in Owned(ms, caller) && m.createdBy == Some(caller)
  {
    assert m in multiset(r);
  }

  // ---------------------------------------------------------------------------
  // The store

  class MeetingStore {
    var meetings: map<Id, Meeting>
    const users: map<string, Id>

    /**
     * Every meeting is stored under its own id, passed validation when it was
     * saved, and carries a status on each of its action points.
     */
    ghost predicate Valid()
      reads this
    {
      forall k :: k in meetings ==> meetings[k].id == k && ValidMeeting(meetings[k]) && StatusesSet(meetings[k])
    }

    constructor (users: map<string, Id>)
      ensures Valid() && meetings == map[] && this.users == users
    {
      this.users := users;
      meetings := map[];
    }

    /** POST /meetings. */
    method CreateMeeting(caller: Id, body: MeetingFields, newId: Id) returns (code: int)
      requires Valid()
      modifies this
      ensures Valid()
      ensures code == (if newId !in old(meetings) && CreatableFrom(body) then CREATED else BAD_REQUEST)
      ensures code == CREATED ==> meetings == old(meetings)[newId := NewMeeting(newId, body, caller)]
      ensures code == CREATED ==> meetings[newId].createdBy == Some(caller)
      ensures code != CREATED ==> meetings == old(meetings)
    {
      var m := NewMeeting(newId, body, caller);
      if newId in meetings || !ValidMeeting(m) {
        return BAD_REQUEST;
      }
      meetings := meetings[newId := m];
      code := CREATED;
    }

    /** GET /meetings: the caller's meetings, the latest first, and their count. */
    method GetMeetings(caller: Id) returns (count: nat, r: seq<Meeting>)
      requires Valid()
      ensures Listing(meetings, caller, r)
      ensures count == |r|
    {
      r := [];
      var rest := meetings.Keys;
      while rest != {}
        invariant rest <= meetings.Keys
        invariant SortedByDateDesc(r)
        invariant multiset(r) == multiset(OwnedAmong(meetings, meetings.Keys - rest, caller))
        decreases rest
      {
        var k :| k in rest;
        var done := meetings.Keys - rest;
        OwnedAmongInsert(meetings, done, k, caller);
        assert done + {k} == meetings.Keys - (rest - {k});
        rest := rest - {k};
        if meetings[k].createdBy == Some(caller) {
          MultisetOfSetInsert(OwnedAmong(meetings, done, caller), meetings[k]);
          r := InsertByDate(meetings[k], r);
        }
      }
      assert meetings.Keys - rest == meetings.Keys;
      count := |r|;
    }

    /** GET /meetings/:id: found only among the caller's own meetings. */
    method GetMeeting(id: Id, caller: Id) returns (code: int, found: Option<Meeting>)
      ensures code == OK <==> id in meetings && meetings[id].createdBy == Some(caller)
      ensures code == OK ==> found == Some(meetings[id])
      ensures code != OK ==> code == NOT_FOUND && found == None
    {
      if id in meetings && meetings[id].createdBy == Some(caller) {
        code, found := OK, Some(meetings[id]);
      } else {
        code, found := NOT_FOUND, None;
      }
    }

    /** PUT /meetings/:id. */
    method UpdateMeeting(id: Id, caller: Id, body: MeetingFields) returns (code: int)
      requires Valid()
      modifies this
      ensures Valid()
      ensures code == (if id !in old(meetings) then NOT_FOUND
                       else if old(meetings)[id].createdBy != Some(caller) then UNAUTHORIZED
                       else if !UpdatableBy(body) then BAD_REQUEST
                       else OK)
      ensures code == OK ==> meetings == old(meetings)[id := Merge(old(meetings)[id], body)]
      ensures code != OK ==> meetings == old(meetings)
    {
      if id !in meetings {
        return NOT_FOUND;
      }
      var m := meetings[id];
      if m.createdBy != Some(caller) {
        return UNAUTHORIZED;
      }
      var updated := Merge(m, body);
      if !ValidMeeting(updated) {
        return BAD_REQUEST;
      }
      meetings := meetings[id := updated];
      code := OK;
    }

    /** DELETE /meetings/:id. */
    method DeleteMeeting(id: Id, caller: Id) returns (code: int)
      requires Valid()
      modifies this
      ensures Valid()
      ensures code == (if id !in old(meetings) then NOT_FOUND
                       else if old(meetings)[id].createdBy != Some(caller) then UNAUTHORIZED
                       else OK)
      ensures code == OK ==> meetings == old(meetings) - {id}
      ensures code == OK ==> id !in meetings
      ensures code == OK ==>
        forall k :: k in old(meetings) && k != id ==> k in meetings && meetings[k] == old(meetings)[k]
      ensures code != OK ==> meetings == old(meetings)
    {
      if id !in meetings {
        return NOT_FOUND;
      }
      if meetings[id].createdBy != Some(caller) {
        return UNAUTHORIZED;
      }
      meetings := meetings - {id};
      code := OK;
    }

    /** POST /meetings/:id/action-points: the owner appends one action point under a generated id. */
    method AddActionPoint(id: Id, caller: Id, body: ActionFields, newSubId: Id) returns (code: int)
      requires Valid()
      modifies this
      ensures Valid()
      ensures code == (if id !in old(meetings) then NOT_FOUND
                       else if old(meetings)[id].createdBy != Some(caller) then UNAUTHORIZED
                       else if !ValidActionPoint(NewActionPoint(newSubId, body)) then BAD_REQUEST
                       else CREATED)
      ensures code == CREATED ==>
        var m := old(meetings)[id];
        meetings == old(meetings)[id := m.(actionPoints := m.actionPoints + [NewActionPoint(newSubId, body)])]
      ensures code != CREATED ==> meetings == old(meetings)
    {
      if id !in meetings {
        return NOT_FOUND;
      }
      var m := meetings[id];
      if m.createdBy != Some(caller) {
        return UNAUTHORIZED;
      }
      var a := NewActionPoint(newSubId, body);
      var updated := m.(actionPoints := m.actionPoints + [a]);
      ValidAppendAction(m, a);
      if !ValidMeeting(updated) {
        return BAD_REQUEST;
      }
      meetings := meetings[id := updated];
      code := CREATED;
    }

    /** PUT /meetings/:id/action-points/:actionId: the owner patches one action point. */
    method UpdateActionPoint(id: Id, caller: Id, actionId: Id, body: ActionFields) returns (code: int)
      requires Valid()
      modifies this
      ensures Valid()
      ensures id !in old(meetings) ==> code == NOT_FOUND
      ensures id in old(meetings) && old(meetings)[id].createdBy != Some(caller) ==> code == UNAUTHORIZED
      ensures id in old(meetings) && old(meetings)[id].createdBy == Some(caller) ==>
        var m := old(meetings)[id];
        match ActionIndex(m, actionId)
        case None => code == NOT_FOUND
        case Some(i) =>
          var a := PatchAction(m.actionPoints[i], body);
          && code == (if ValidActionPoint(a) then OK else BAD_REQUEST)
          && (code == OK ==> meetings == old(meetings)[id := m.(actionPoints := m.actionPoints[i := a])])
      ensures code == OK ==>
        var old_aps := old(meetings)[id].actionPoints;
        var aps := meetings[id].actionPoints;
        && meetings.Keys == old(meetings).Keys
        && |aps| == |old_aps|
        && exists i :: 0 <= i < |aps| && aps[i].id == actionId && old_aps[i].id == actionId
      ensures code != OK ==> meetings == old(meetings)
    {
      if id !in meetings {
        return NOT_FOUND;
      }
      var m := meetings[id];
      if m.createdBy != Some(caller) {
        return UNAUTHORIZED;
      }
      var found := ActionIndex(m, actionId);
      if found.None? {
        return NOT_FOUND;
      }
      var i := found.value;
      var a := PatchAction(m.actionPoints[i], body);
      var updated := m.(actionPoints := m.actionPoints[i := a]);
      ValidReplaceAction(m, i, a);
      if !ValidMeeting(updated) {
        return BAD_REQUEST;
      }
      meetings := meetings[id := updated];
      code := OK;
      assert meetings[id].actionPoints[i].id == actionId;
    }

    /** POST /meetings/:id/painpoints: appends an open pain point; no ownership check. */
    method AddPainPoint(id: Id, caller: Id, description: Option<string>, newSubId: Id, now: int)
      returns (code: int)
      requires Valid()
      modifies this
      ensures Valid()
      ensures code == (if id in old(meetings) then OK else NOT_FOUND)
      ensures code == OK ==>
        var m := old(meetings)[id];
        meetings == old(meetings)[id := m.(painPoints := m.painPoints + [PainPoint(newSubId, description, caller, now, Some(OPEN))])]
      ensures code != OK ==> meetings == old(meetings)
    {
      if id !in meetings {
        return NOT_FOUND;
      }
      var m := meetings[id];
      meetings := meetings[id := m.(painPoints := m.painPoints + [PainPoint(newSubId, description, caller, now, Some(OPEN))])];
      code := OK;
    }

    /** PUT /meetings/:id/painpoints/:pointId: sets the status of one pain point; no ownership check. */
    method UpdatePainPoint(id: Id, pointId: Id, status: Option<string>) returns (code: int)
      requires Valid()
      modifies this
      ensures Valid()
      ensures code == (if id in old(meetings) && PainPointIndex(old(meetings)[id], pointId).Some? then OK else NOT_FOUND)
      ensures code == OK ==>
        var m := old(meetings)[id];
        var i := PainPointIndex(m, pointId).value;
        meetings == old(meetings)[id := m.(painPoints := m.painPoints[i := m.painPoints[i].(status := status)])]
      ensures code != OK ==> meetings == old(meetings)
    {
      if id !in meetings {
        return NOT_FOUND;
      }
      var m := meetings[id];
      var found := PainPointIndex(m, pointId);
      if found.None? {
        return NOT_FOUND;
      }
      var i := found.value;
      meetings := meetings[id := m.(painPoints := m.painPoints[i := m.painPoints[i].(status := status)])];
      code := OK;
    }

    /** GET /meetings/:id/painpoints: the pain points and their count. */
    method GetPainPoints(id: Id) returns (code: int, count: nat, points: seq<PainPoint>)
      ensures code == (if id in meetings then OK else NOT_FOUND)
      ensures code == OK ==> points == meetings[id].painPoints && count == |points|
      ensures code != OK ==> points == [] && count == 0
    {
      if id !in meetings {
        return NOT_FOUND, 0, [];
      }
      points := meetings[id].painPoints;
      code, count := OK, |points|;
    }

    /** POST /meetings/:id/participants: adds the user registered under `email`, once. */
    method AddParticipant(id: Id, email: string) returns (code: int)
      requires Valid()
      modifies this
      ensures Valid()
      ensures code == (if id !in old(meetings) then NOT_FOUND
                       else if email !in users then NOT_FOUND
                       else if users[email] in old(meetings)[id].participants then BAD_REQUEST
                       else OK)
      ensures code == OK ==>
        var m := old(meetings)[id];
        && meetings == old(meetings)[id := m.(participants := m.participants + [users[email]])]
        && |meetings[id].participants| == |m.participants| + 1
        && meetings[id].participants[|m.participants|] == users[email]
      ensures code != OK ==> meetings == old(meetings)
    {
      if id !in meetings {
        return NOT_FOUND;
      }
      if email !in users {
        return NOT_FOUND;
      }
      var m := meetings[id];
      var user := users[email];
      if user in m.participants {
        return BAD_REQUEST;
      }
      meetings := meetings[id := m.(participants := m.participants + [user])];
      code := OK;
    }

    /** DELETE /meetings/:id/participants/:userId: drops every occurrence of the user; no ownership check. */
    method RemoveParticipant(id: Id, userId: Id) returns (code: int)
      requires Valid()
      modifies this
      ensures Valid()
      ensures code == (if id in old(meetings) then OK else NOT_FOUND)
      ensures code == OK ==>
        var m := old(meetings)[id];
        meetings == old(meetings)[id := m.(participants := Without(m.participants, userId))]
      ensures code == OK ==> userId !in meetings[id].participants
      ensures code != OK ==> meetings == old(meetings)
    {
      if id !in meetings {
        return NOT_FOUND;
      }
      var m := meetings[id];
      meetings := meetings[id := m.(participants := Without(m.participants, userId))];
      code := OK;
    }
  }
}
