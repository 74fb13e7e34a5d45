/** Saved workout plans, scoped to the session's email:
    `POST /api/workouts/save` adds one, `GET /api/workouts/saved` lists the
    caller's plans, most recent first. */
module Workouts {
  import opened Wrappers
  import opened Http

  /** A row of the `savedWorkout` table; `createdAt` in milliseconds. */
  datatype SavedWorkout = SavedWorkout(id: string, title: string, content: string, userEmail: string, createdAt: int)

  /** The parsed body of a save request; a field is None when it is missing. */
  datatype SaveRequest = SaveRequest(title: Option<string>, content: Option<string>)

  /** `!title || !content` is false. */
  predicate FieldsPresent(request: SaveRequest)
  {
    Present(request.title) && Present(request.content)
  }

  const Unauthorized := "Unauthorized"
  const FieldsRequired := "Title and content are required"
  const SaveFailed := "Failed to save workout"
  const FetchFailed := "Failed to fetch saved workouts"

  /** The rows whose `userEmail` is `email`, each as often as it is stored. */
  function OwnedBy(workouts: seq<SavedWorkout>, email: string): (r: seq<SavedWorkout>)
    ensures forall w :: multiset(r)[w] == if w.userEmail == email then multiset(workouts)[w] else 0
  {
    if workouts == [] then []
    else
      assert workouts == [workouts[0]] + workouts[1..];
      (if workouts[0].userEmail == email then [workouts[0]] else []) + OwnedBy(workouts[1..], email)
  }

  /** Ordered by `createdAt`, most recent first. */
  predicate NewestFirst(s: seq<SavedWorkout>)
  {
    forall i, j :: 0 <= i < j < |s| ==> s[i].createdAt >= s[j].createdAt
  }

  /** A row no older than every row of a newest-first list may lead it. */
  lemma PrependNewest(head: SavedWorkout, tail: seq<SavedWorkout>)
    requires NewestFirst(tail)
    requires forall x :: x in tail ==> x.createdAt <= head.createdAt
    ensures NewestFirst([head] + tail)
  {
  }

  /** Inserting an older row into the tail keeps the head the newest. */
  lemma InsertedNoNewer(w: SavedWorkout, s: seq<SavedWorkout>, rest: seq<SavedWorkout>)
    requires NewestFirst(s) && s != [] && w.createdAt < s[0].createdAt
    requires multiset(rest) == multiset(s[1..]) + multiset{w}
    ensures forall x :: x in rest ==> x.createdAt <= s[0].createdAt
  {
    forall x | x in rest ensures x.createdAt <= s[0].createdAt {
      assert x in multiset(rest);
      if x != w {
        assert x in multiset(s[1..]);
        var k :| 0 <= k < |s[1..]| && s[1..][k] == x;
        assert s[k + 1] == x;
      }
    }
  }

  function InsertByDate(w: SavedWorkout, s: seq<SavedWorkout>): (r: seq<SavedWorkout>)
    requires NewestFirst(s)
    ensures NewestFirst(r)
    ensures multiset(r) == multiset(s) + multiset{w}
  {
    if s == [] || s[0].createdAt <= w.createdAt then
      PrependNewest(w, s);
      [w] + s
    else
      var rest := InsertByDate(w, s[1..]);
      assert s == [s[0]] + s[1..];
      InsertedNoNewer(w, s, rest);
      PrependNewest(s[0], rest);
      [s[0]] + rest
  }

  /** `orderBy: { createdAt: 'desc' }`: the rows rearranged most recent first. */
  function SortNewestFirst(s: seq<SavedWorkout>): (r: seq<SavedWorkout>)
    ensures NewestFirst(r)
    ensures multiset(r) == multiset(s)
  {
    if s == [] then []
    else
      assert s == [s[0]] + s[1..];
      InsertByDate(s[0], SortNewestFirst(s[1..]))
  }

  /** `GET /api/workouts/saved`, which only reads the table. `session` is the
      session's `user.email`; `queried` says whether the query returned normally. */
  function ListSaved(workouts: seq<SavedWorkout>, session: Option<string>, queried: bool): (r: Reply<seq<SavedWorkout>>)
    ensures !Present(session) ==> r == Fail(401, Unauthorized)
    ensures Present(session) && !queried ==> r == Fail(500, FetchFailed)
    ensures r.Ok? <==> Present(session) && queried
    ensures r.Ok? ==> NewestFirst(r.body)
    ensures r.Ok? ==> forall i :: 0 <= i < |r.body| ==> r.body[i].userEmail == session.value
    ensures r.Ok? ==> forall w: SavedWorkout :: w.userEmail == session.value ==> multiset(r.body)[w] == multiset(workouts)[w]
  {
    if !Present(session) then Fail(401, Unauthorized)
    else if !queried then Fail(500, FetchFailed)
    else
      var listed := SortNewestFirst(OwnedBy(workouts, session.value));
      assert forall i :: 0 <= i < |listed| ==> multiset(listed)[listed[i]] > 0;
      Ok(listed)
  }

  /** A plan saved later than every stored plan is listed first to its owner. */
  lemma SavedPlanListedFirst(workouts: seq<SavedWorkout>, w: SavedWorkout)
    requires w.userEmail != ""
    requires forall i :: 0 <= i < |workouts| ==> workouts[i].createdAt < w.createdAt
    ensures var r := ListSaved(workouts + [w], Some(w.userEmail), true);
      r.Ok? && |r.body| > 0 && r.body[0] == w
  {
  }

  /** The `savedWorkout` table. */
  class WorkoutStore {
    var workouts: seq<SavedWorkout>

    /** Ids are unique. */
    ghost predicate Valid()
      reads this
    {
      forall i, j :: 0 <= i < j < |workouts| ==> workouts[i].id != workouts[j].id
    }

    constructor ()
      ensures Valid() && workouts == []
    {
      workouts := [];
    }

    /** `POST /api/workouts/save`. `session` is the session's `user.email`;
        `request` is None when the body is not JSON; `id` and `now` are the
        id and creation time the database assigns (the database guarantees
        the id is fresh, which is what keeps ids unique); `created` says whether
        the insert returned normally. */
    method Save(session: Option<string>, request: Option<SaveRequest>, id: string, now: int, created: bool)
      returns (r: Reply<SavedWorkout>)
      requires Valid()
      requires forall i :: 0 <= i < |workouts| ==> workouts[i].id != id
      modifies this
      ensures Valid()
      ensures !Present(session) ==> r == Fail(401, Unauthorized)
      ensures Present(session) && request.None? ==> r == Fail(500, SaveFailed)
      ensures Present(session) && request.Some? && !FieldsPresent(request.value) ==> r == Fail(400, FieldsRequired)
      ensures r.Ok? <==> Present(session) && request.Some? && FieldsPresent(request.value) && created
      ensures Present(session) && request.Some? && FieldsPresent(request.value) && !created ==> r == Fail(500, SaveFailed)
      ensures r.Ok? ==> r.body == SavedWorkout(id, request.value.title.value, request.value.content.value, session.value, now)
      ensures workouts == if r.Ok? then old(workouts) + [r.body] else old(workouts)
    {
      if !Present(session) {
        return Fail(401, Unauthorized);
      }
      if request.None? {
        return Fail(500, SaveFailed);
      }
      var title, content := request.value.title, request.value.content;
      if !FieldsPresent(request.value) {
        return Fail(400, FieldsRequired);
      }
      if !created {
        return Fail(500, SaveFailed);
      }
      var saved := SavedWorkout(id, title.value, content.value, session.value, now);
      workouts := workouts + [saved];
      r := Ok(saved);
    }
  }
}
