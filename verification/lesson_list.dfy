/** The signed-in user's lessons, newest first: `GET /api/lesson`. */
module LessonList {
  import opened Optional
  import opened Http
  import opened Models
  import opened Store
  import opened Routing
  import opened Auth

  /** Ordered by creation time, newest first. */
  predicate NewestFirst(ls: seq<Lesson>) {
    forall i, j :: 0 <= i < j < |ls| ==> ls[i].createdAt >= ls[j].createdAt
  }

  /** The lessons `Lesson.find({ userId })` selects, in stored order. An
      absent id leaves the filter empty, which every lesson matches. */
  function Owned(ls: seq<Lesson>, userId: Option<string>): (r: seq<Lesson>)
    ensures forall l :: l in r <==> l in ls && (userId.None? || l.userId == userId.value)
    ensures multiset(r) <= multiset(ls)
    ensures userId.None? ==> r == ls
  {
    if |ls| == 0 then []
    else
      var rest := Owned(ls[1..], userId);
      assert ls == [ls[0]] + ls[1..];
      if userId.None? || ls[0].userId == userId.value then [ls[0]] + rest else rest
  }

  /** One lesson put into place in a list already newest first. */
  function Insert(l: Lesson, ls: seq<Lesson>): (r: seq<Lesson>)
    requires NewestFirst(ls)
    ensures NewestFirst(r)
    ensures multiset(r) == multiset(ls) + multiset{l}
    ensures forall x :: x in r ==> x == l || x in ls
  {
    if |ls| == 0 then [l]
    else if l.createdAt >= ls[0].createdAt then [l] + ls
    else
      var rest := Insert(l, ls[1..]);
      assert ls == [ls[0]] + ls[1..];
      assert forall x :: x in rest ==> ls[0].createdAt >= x.createdAt;
      ConsNewest(ls[0], rest);
      [ls[0]] + rest
  }

  /** A lesson no older than any of a newest-first list goes in front. */
  lemma ConsNewest(h: Lesson, ls: seq<Lesson>)
    requires NewestFirst(ls)
    requires forall x :: x in ls ==> h.createdAt >= x.createdAt
    ensures NewestFirst([h] + ls)
  {
    var r := [h] + ls;
    forall i, j | 0 <= i < j < |r| ensures r[i].createdAt >= r[j].createdAt {
      if i > 0 {
        assert r[i] == ls[i - 1] && r[j] == ls[j - 1];
      } else {
        assert r[j] == ls[j - 1] && r[j] in ls;
      }
    }
  }

  /** `.sort({ createdAt: -1 })`: the same lessons, newest first. */
  function SortNewestFirst(ls: seq<Lesson>): (r: seq<Lesson>)
    ensures NewestFirst(r)
    ensures multiset(r) == multiset(ls)
  {
    if |ls| == 0 then []
    else
      assert ls == [ls[0]] + ls[1..];
      Insert(ls[0], SortNewestFirst(ls[1..]))
  }

  /** The handler: 401 without a session, 500 when the session has no user,
      otherwise the user's lessons newest first. Nothing is stored. */
  function Get(session: Option<Session>, db: Db): (out: Handled<seq<Lesson>>)
    ensures out.db == db && out.asked.None?
    ensures session.None? ==> out.response == Refuse(401, "Unauthorized")
    ensures session.Some? && session.value.user.None? ==> out.response == ServerError(TypeError)
    ensures session.Some? && session.value.user.Some? ==>
      && out.response.status == 200 && out.response.body.Payload?
      && NewestFirst(out.response.body.value)
      && multiset(out.response.body.value) == multiset(Owned(db.lessons, session.value.user.value.id))
  {
    if session.None? then Handled(Refuse(401, "Unauthorized"), db, None)
    else if session.value.user.None? then Handled(ServerError(TypeError), db, None)
    else Handled(Response(200, Payload(SortNewestFirst(Owned(db.lessons, session.value.user.value.id)))), db, None)
  }

  /** The reply lists exactly the stored lessons of the signed-in user. */
  lemma ListsExactlyOwnLessons(session: Session, db: Db, l: Lesson)
    requires session.user.Some? && session.user.value.id.Some?
    ensures var r := Get(Some(session), db).response.body.value;
      l in r <==> l in db.lessons && l.userId == session.user.value.id.value
  {
    var r := Get(Some(session), db).response.body.value;
    var owned := Owned(db.lessons, session.user.value.id);
    assert l in r <==> l in multiset(r);
    assert l in owned <==> l in multiset(owned);
  }
}
