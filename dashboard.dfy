/**
 * The three dashboards: counts, filters, sums and first-five slices over
 * the fetched meetings and tasks. "Now" is a parameter; nothing is changed.
 */
module Dashboard {
  import opened Schema
  import opened Sequences
  import opened MeetingController

  const FORBIDDEN: int := 403
  const ADMIN: string := "admin"

  /** How many entries of each list the personal dashboard shows. */
  const SLICE: nat := 5

  // ---------------------------------------------------------------------------
  // Filters over meetings and action points

  /** A meeting is upcoming when its date is later than now; an unset date never is. */
  predicate IsUpcoming(m: Meeting, now: int)
  {
    m.date.Some? && m.date.value > now
  }

  /** The meetings dated after now, each as often as in `ms`, in their order. */
  function Upcoming(ms: seq<Meeting>, now: int): (r: seq<Meeting>)
    ensures forall i :: 0 <= i < |r| ==> IsUpcoming(r[i], now)
    ensures forall m :: m in r <==> m in ms && IsUpcoming(m, now)
    ensures forall m :: multiset(r)[m] == if IsUpcoming(m, now) then multiset(ms)[m] else 0
    ensures IsSubsequence(r, ms)
  {
    var p := (m: Meeting) => IsUpcoming(m, now);
    var r := Filter(ms, p);
    assert forall m :: m in r <==> m in ms && IsUpcoming(m, now) by {
      forall m ensures m in r <==> m in ms && IsUpcoming(m, now) {
        FilterMembership(ms, p, m);
      }
    }
    r
  }

  /** The action points with the given status, each as often as in `aps`, in their order. */
  function WithStatus(aps: seq<ActionPoint>, status: string): (r: seq<ActionPoint>)
    ensures forall i :: 0 <= i < |r| ==> r[i].status == Some(status)
    ensures forall a :: a in r <==> a in aps && a.status == Some(status)
    ensures forall a :: multiset(r)[a] == if a.status == Some(status) then multiset(aps)[a] else 0
    ensures IsSubsequence(r, aps)
  {
    var p := (a: ActionPoint) => a.status == Some(status);
    var r := Filter(aps, p);
    assert forall a :: a in r <==> a in aps && a.status == Some(status) by {
      forall a ensures a in r <==> a in aps && a.status == Some(status) {
        FilterMembership(aps, p, a);
      }
    }
    r
  }

  /** The number of action points over all meetings. */
  function TotalActions(ms: seq<Meeting>): nat
    decreases |ms|
  {
    if ms == [] then 0 else |ms[0].actionPoints| + TotalActions(ms[1..])
  }

  /** Every meeting's action points, concatenated in meeting order. */
  function AllActions(ms: seq<Meeting>): (r: seq<ActionPoint>)
    ensures |r| == TotalActions(ms)
    ensures forall m, a :: m in ms && a in m.actionPoints ==> a in r
    decreases |ms|
  {
    if ms == [] then [] else ms[0].actionPoints + AllActions(ms[1..])
  }

  /** The number of action points with the given status, summed meeting by meeting. */
  function CountStatus(ms: seq<Meeting>, status: string): (r: nat)
    ensures r <= TotalActions(ms)
    decreases |ms|
  {
    if ms == [] then 0 else |WithStatus(ms[0].actionPoints, status)| + CountStatus(ms[1..], status)
  }

  /** Filtering by status distributes over concatenation. */
  lemma WithStatusAppend(a: seq<ActionPoint>, b: seq<ActionPoint>, status: string)
    ensures WithStatus(a + b, status) == WithStatus(a, status) + WithStatus(b, status)
  {
    FilterAppend(a, b, (x: ActionPoint) => x.status == Some(status));
  }

  /**
   * The per-meeting sum is the number of action points with the status
   * among all action points of all meetings.
   */
  lemma {:induction false} CountStatusFlat(ms: seq<Meeting>, status: string)
    ensures CountStatus(ms, status) == |WithStatus(AllActions(ms), status)|
    decreases |ms|
  {
    if ms != [] {
      CountStatusFlat(ms[1..], status);
      WithStatusAppend(ms[0].actionPoints, AllActions(ms[1..]), status);
    }
  }

  /** A pending action point annotated with its meeting's title and id. */
  datatype PendingAction = PendingAction(action: ActionPoint, meetingTitle: Option<string>, meetingId: Id)

  function Annotate(m: Meeting, aps: seq<ActionPoint>): (r: seq<PendingAction>)
    ensures |r| == |aps|
    ensures forall i :: 0 <= i < |r| ==> r[i] == PendingAction(aps[i], m.title, m.id)
  {
    seq(|aps|, i requires 0 <= i < |aps| => PendingAction(aps[i], m.title, m.id))
  }

  /** Each meeting's pending action points, annotated, concatenated in meeting order. */
  function PendingActions(ms: seq<Meeting>): (r: seq<PendingAction>)
    ensures |r| == CountStatus(ms, PENDING)
    ensures forall i :: 0 <= i < |r| ==> r[i].action.status == Some(PENDING)
    decreases |ms|
  {
    if ms == [] then []
    else Annotate(ms[0], WithStatus(ms[0].actionPoints, PENDING)) + PendingActions(ms[1..])
  }

  // ---------------------------------------------------------------------------
  // Lemmas about the aggregates

  /** Pending and completed action points together are at most all action points. */
  lemma {:induction false} PendingCompletedBounded(ms: seq<Meeting>)
    ensures CountStatus(ms, PENDING) + CountStatus(ms, COMPLETED) <= TotalActions(ms)
    decreases |ms|
  {
    if ms != [] {
      PendingCompletedBounded(ms[1..]);
      var aps := ms[0].actionPoints;
      FilterDisjoint(aps, (a: ActionPoint) => a.status == Some(PENDING), (a: ActionPoint) => a.status == Some(COMPLETED));
      assert |WithStatus(aps, PENDING)| + |WithStatus(aps, COMPLETED)| <= |aps|;
    }
  }

  /** Flattening is done meeting by meeting: the entries keep meeting order. */
  lemma {:induction false} PendingActionsAppend(a: seq<Meeting>, b: seq<Meeting>)
    ensures PendingActions(a + b) == PendingActions(a) + PendingActions(b)
    decreases |a|
  {
    if a == [] {
      assert a + b == b;
    } else {
      assert (a + b)[0] == a[0];
      assert (a + b)[1..] == a[1..] + b;
      PendingActionsAppend(a[1..], b);
    }
  }

  /** Within one meeting the entries are its pending action points in their list order. */
  lemma PendingActionsOfOne(m: Meeting)
    ensures PendingActions([m]) == Annotate(m, WithStatus(m.actionPoints, PENDING))
  {
    assert [m][1..] == [];
  }

  /** Every entry is pending and carries the title and id of a meeting that holds it. */
  lemma {:induction false} PendingActionsAnnotated(ms: seq<Meeting>, e: PendingAction)
    requires e in PendingActions(ms)
    ensures e.action.status == Some(PENDING)
    ensures exists m :: m in ms && e.meetingId == m.id && e.meetingTitle == m.title && e.action in m.actionPoints
    decreases |ms|
  {
    var head := Annotate(ms[0], WithStatus(ms[0].actionPoints, PENDING));
    if e in head {
      var i :| 0 <= i < |head| && head[i] == e;
      assert WithStatus(ms[0].actionPoints, PENDING)[i] in WithStatus(ms[0].actionPoints, PENDING);
      assert ms[0] in ms;
    } else {
      PendingActionsAnnotated(ms[1..], e);
      var m :| m in ms[1..] && e.meetingId == m.id && e.meetingTitle == m.title && e.action in m.actionPoints;
      assert m in ms;
    }
  }

  // ---------------------------------------------------------------------------
  // GET /dashboard

  datatype Stats = Stats(totalMeetings: nat, upcomingMeetings: nat, pendingActions: nat, completedActions: nat)

  datatype DashboardData = DashboardData(
    stats: Stats,
    recentMeetings: seq<Meeting>,
    upcomingMeetings: seq<Meeting>,
    pendingActions: seq<PendingAction>)

  /** The personal dashboard over the caller's meetings as the listing query returns them. */
  function GetDashboard(ms: seq<Meeting>, now: int): (d: DashboardData)
    ensures d.stats.totalMeetings == |ms|
    ensures d.stats.upcomingMeetings == |Upcoming(ms, now)| <= d.stats.totalMeetings
    ensures d.stats.pendingActions == |WithStatus(AllActions(ms), PENDING)| == |PendingActions(ms)|
    ensures d.stats.completedActions == |WithStatus(AllActions(ms), COMPLETED)|
    ensures d.stats.pendingActions + d.stats.completedActions <= TotalActions(ms)
    ensures |d.recentMeetings| == Min(SLICE, |ms|) && d.recentMeetings <= ms
    ensures |d.upcomingMeetings| == Min(SLICE, d.stats.upcomingMeetings)
    ensures forall i :: 0 <= i < |d.upcomingMeetings| ==> IsUpcoming(d.upcomingMeetings[i], now)
    ensures d.upcomingMeetings <= Upcoming(ms, now)
    ensures |d.pendingActions| == Min(SLICE, d.stats.pendingActions)
    ensures d.pendingActions <= PendingActions(ms)
  {
    var upcoming := Upcoming(ms, now);
    var pending := PendingActions(ms);
    PendingCompletedBounded(ms);
    CountStatusFlat(ms, PENDING);
    CountStatusFlat(ms, COMPLETED);
    DashboardData(
      Stats(|ms|, |upcoming|, CountStatus(ms, PENDING), CountStatus(ms, COMPLETED)),
      Take(ms, SLICE),
      Take(upcoming, SLICE),
      Take(pending, SLICE))
  }

  /** Every pending entry the dashboard shows is pending and names the meeting it comes from. */
  lemma DashboardPendingAnnotated(ms: seq<Meeting>, now: int, e: PendingAction)
    requires e in GetDashboard(ms, now).pendingActions
    ensures e.action.status == Some(PENDING)
    ensures exists m :: m in ms && e.meetingId == m.id && e.meetingTitle == m.title && e.action in m.actionPoints
  {
    var d := GetDashboard(ms, now);
    var i :| 0 <= i < |d.pendingActions| && d.pendingActions[i] == e;
    assert PendingActions(ms)[i] == e;
    PendingActionsAnnotated(ms, e);
  }

  /**
   * Over the listing query's answer the dashboard counts exactly the
   * caller's meetings, and every meeting it shows is the caller's.
   */
  lemma DashboardOfListing(store: map<Id, Meeting>, caller: Id, ms: seq<Meeting>, now: int)
    requires Listing(store, caller, ms)
    ensures GetDashboard(ms, now).stats.totalMeetings == |Owned(store, caller)|
    ensures forall m :: m in GetDashboard(ms, now).recentMeetings ==> m.createdBy == Some(caller)
    ensures forall m :: m in GetDashboard(ms, now).upcomingMeetings ==> m.createdBy == Some(caller)
    ensures GetDashboard(ms, now).recentMeetings == ms[..Min(SLICE, |ms|)]
  {
    var d := GetDashboard(ms, now);
    assert |multiset(ms)| == |ms|;
    assert |multiset(Owned(store, caller))| == |Owned(store, caller)|;
    forall m | m in d.recentMeetings ensures m.createdBy == Some(caller) {
      ListingMembers(store, caller, ms, m);
    }
    forall m | m in d.upcomingMeetings ensures m.createdBy == Some(caller) {
      assert m in Upcoming(ms, now);
      ListingMembers(store, caller, ms, m);
    }
  }

  // ---------------------------------------------------------------------------
  // GET /dashboard/admin

  /** A task record; only the two paths the dashboards read. */
  datatype Task = Task(assignedTo: Id, status: Option<string>)

  predicate IsCompleted(t: Task)
  {
    t.status == Some(COMPLETED)
  }

  /** The completed tasks, each as often as in `ts`, in their order. */
  function CompletedTasks(ts: seq<Task>): (r: seq<Task>)
    ensures forall i :: 0 <= i < |r| ==> IsCompleted(r[i])
    ensures forall t :: multiset(r)[t] == if IsCompleted(t) then multiset(ts)[t] else 0
  {
    Filter(ts, (t: Task) => IsCompleted(t))
  }

  /** The tasks not completed, each as often as in `ts`, in their order. */
  function OpenTasks(ts: seq<Task>): (r: seq<Task>)
    ensures forall i :: 0 <= i < |r| ==> !IsCompleted(r[i])
    ensures forall t :: multiset(r)[t] == if IsCompleted(t) then 0 else multiset(ts)[t]
  {
    Filter(ts, (t: Task) => !IsCompleted(t))
  }

  /** Every task is either completed or open, so the two filters split the task list. */
  lemma TasksSplit(ts: seq<Task>)
    ensures |CompletedTasks(ts)| + |OpenTasks(ts)| == |ts|
  {
    FilterComplement(ts, (t: Task) => IsCompleted(t), (t: Task) => !IsCompleted(t));
  }

  datatype AdminStats = AdminStats(totalMeetings: nat, totalParticipants: nat, totalTasks: nat, completedTasks: nat)

  datatype AdminResponse = AdminResponse(code: int, stats: Option<AdminStats>, meetings: seq<Meeting>)

  /**
   * The admin dashboard: refused with 403 unless the caller's role is
   * `admin`; otherwise totals over every meeting and every task. The number
   * of participant users is counted by the user table and passed in.
   */
  function GetAdminDashboard(role: string, allMeetings: seq<Meeting>, participantUsers: nat, allTasks: seq<Task>)
    : (r: AdminResponse)
    ensures role != ADMIN ==> r == AdminResponse(FORBIDDEN, None, [])
    ensures role == ADMIN ==> r.code == OK && r.stats.Some? && r.meetings == allMeetings
    ensures role == ADMIN ==> r.stats.value.totalMeetings == |allMeetings|
    ensures role == ADMIN ==> r.stats.value.totalTasks == |allTasks|
    ensures role == ADMIN ==> r.stats.value.completedTasks == |CompletedTasks(allTasks)|
    ensures role == ADMIN ==> r.stats.value.completedTasks + |OpenTasks(allTasks)| == r.stats.value.totalTasks
    ensures role == ADMIN ==> r.stats.value.totalParticipants == participantUsers
  {
    TasksSplit(allTasks);
    if role != ADMIN then AdminResponse(FORBIDDEN, None, [])
    else
      AdminResponse(OK,
        Some(AdminStats(|allMeetings|, participantUsers, |allTasks|, |CompletedTasks(allTasks)|)),
        allMeetings)
  }

  // ---------------------------------------------------------------------------
  // GET /dashboard/participant

  datatype ParticipantStats = ParticipantStats(upcomingMeetings: nat, pendingTasks: nat, completedTasks: nat)

  datatype ParticipantData = ParticipantData(stats: ParticipantStats, meetings: seq<Meeting>, tasks: seq<Task>)

  /** The meetings whose participant list holds the caller. */
  function MeetingsOf(caller: Id, ms: seq<Meeting>): (r: seq<Meeting>)
    ensures forall m :: m in r <==> m in ms && caller in m.participants
    ensures forall m :: multiset(r)[m] == if caller in m.participants then multiset(ms)[m] else 0
  {
    var p := (m: Meeting) => caller in m.participants;
    var r := Filter(ms, p);
    assert forall m :: m in r <==> m in ms && caller in m.participants by {
      forall m ensures m in r <==> m in ms && caller in m.participants {
        FilterMembership(ms, p, m);
      }
    }
    r
  }

  /** The tasks assigned to the caller. */
  function TasksOf(caller: Id, ts: seq<Task>): (r: seq<Task>)
    ensures forall t :: t in r <==> t in ts && t.assignedTo == caller
    ensures forall t :: multiset(r)[t] == if t.assignedTo == caller then multiset(ts)[t] else 0
  {
    var p := (t: Task) => t.assignedTo == caller;
    var r := Filter(ts, p);
    assert forall t :: t in r <==> t in ts && t.assignedTo == caller by {
      forall t ensures t in r <==> t in ts && t.assignedTo == caller {
        FilterMembership(ts, p, t);
      }
    }
    r
  }

  /** The participant dashboard over every meeting and task, restricted to the caller. */
  function GetParticipantDashboard(caller: Id, allMeetings: seq<Meeting>, allTasks: seq<Task>, now: int)
    : (d: ParticipantData)
    ensures forall m :: multiset(d.meetings)[m] == if caller in m.participants then multiset(allMeetings)[m] else 0
    ensures forall t :: multiset(d.tasks)[t] == if t.assignedTo == caller then multiset(allTasks)[t] else 0
    ensures d.stats.upcomingMeetings == |Upcoming(d.meetings, now)| <= |d.meetings|
    ensures d.stats.pendingTasks == |OpenTasks(d.tasks)|
    ensures d.stats.completedTasks == |CompletedTasks(d.tasks)|
    ensures d.stats.pendingTasks + d.stats.completedTasks == |d.tasks|
  {
    var meetings := MeetingsOf(caller, allMeetings);
    var tasks := TasksOf(caller, allTasks);
    TasksSplit(tasks);
    ParticipantData(
      ParticipantStats(|Upcoming(meetings, now)|, |OpenTasks(tasks)|, |CompletedTasks(tasks)|),
      meetings,
      tasks)
  }

  /** The participant's upcoming count covers only upcoming meetings that list the caller. */
  lemma ParticipantUpcomingOnlyOwn(caller: Id, allMeetings: seq<Meeting>, allTasks: seq<Task>, now: int)
    ensures GetParticipantDashboard(caller, allMeetings, allTasks, now).stats.upcomingMeetings
         == |Upcoming(MeetingsOf(caller, allMeetings), now)|
    ensures forall m :: m in Upcoming(MeetingsOf(caller, allMeetings), now) ==>
      m in allMeetings && caller in m.participants && IsUpcoming(m, now)
  {
  }

  // ---------------------------------------------------------------------------
  // A client of the store and the dashboard

  /**
   * A user creates one meeting dated after `now` in an empty store; the
   * listing then holds exactly that meeting and the dashboard counts it as
   * the one upcoming meeting.
   */
  method StandupScenario(user: Id, newId: Id, now: int)
  {
    var store := new MeetingStore(map[]);
    var body := MeetingFields(Some("Standup"), Some(now + 1), Some("Room A"), Some("daily"), None, None, None);
    var code := store.CreateMeeting(user, body, newId);
    assert code == CREATED;
    var m := NewMeeting(newId, body, user);
    assert store.meetings == map[newId := m];
    var count, listed := store.GetMeetings(user);
    assert Owned(store.meetings, user) == {m};
    assert multiset(listed) == multiset{m};
    assert |listed| == 1 && listed[0] in multiset(listed);
    assert listed == [m];
    var d := GetDashboard(listed, now);
    assert Upcoming(listed, now) == [m];
    assert count == 1 && d.stats.totalMeetings == 1 && d.stats.upcomingMeetings == 1;
  }
}
