/** The shared quiz cache of the current frontend: fetched once per login unless a
    refresh is forced, kept newest first, and patched in place after edits. */
module QuizContext {
  import opened Wrappers
  import opened Sorting
  import opened Lists

  /** A quiz as the list endpoint returns it. `createdAt` is `created_at` as the
      milliseconds `new Date(...).getTime()` reads. */
  datatype Quiz = Quiz(id: int, title: string, description: string, durationMinutes: int,
                       questionsCount: int, status: string, score: Option<int>, createdAt: int,
                       deadline: Option<int>, difficulty: string, topic: string, isExpired: bool)

  function QuizId(q: Quiz): int { q.id }

  /** The default order, `b.created_at - a.created_at`: newest first. */
  function NewestFirst(q: Quiz): Rank { Rank(-q.createdAt, 0) }

  /** The fetched list is a reordering of the reply with newer quizzes first, and
      quizzes created at the same instant keep the reply's order. */
  lemma NewestFirstOrder(data: seq<Quiz>)
    ensures multiset(SortBy(data, NewestFirst)) == multiset(data)
    ensures forall i, j :: 0 <= i < j < |data| ==>
              SortBy(data, NewestFirst)[i].createdAt >= SortBy(data, NewestFirst)[j].createdAt
    ensures forall k :: WithRank(SortBy(data, NewestFirst), NewestFirst, k) == WithRank(data, NewestFirst, k)
  {
    var r := SortBy(data, NewestFirst);
    forall i, j | 0 <= i < j < |data|
      ensures r[i].createdAt >= r[j].createdAt
    {
      assert Le(NewestFirst(r[i]), NewestFirst(r[j]));
    }
    forall k {
      SortStable(data, NewestFirst, k);
    }
  }

  /** `updateQuizState` replaces exactly the quizzes with the edited quiz's id, in
      place; `removeQuiz` keeps exactly the quizzes with another id, in order. */
  lemma EditsByIdOnly(quizzes: seq<Quiz>, u: Quiz, key: int, k: nat)
    requires k < |quizzes|
    ensures ReplaceById(quizzes, QuizId, u)[k] == (if quizzes[k].id == u.id then u else quizzes[k])
    ensures Ids(ReplaceById(quizzes, QuizId, u), QuizId) == Ids(quizzes, QuizId)
    ensures quizzes[k] in RemoveById(quizzes, QuizId, key) <==> quizzes[k].id != key
  {
    ReplaceByIdAt(quizzes, QuizId, u, k);
    ReplaceByIdKeepsIds(quizzes, QuizId, u);
    RemoveByIdMember(quizzes, QuizId, key, quizzes[k]);
  }

  class QuizStore {
    var quizzes: seq<Quiz>
    var loading: bool
    var hasFetched: bool

    constructor ()
      ensures quizzes == [] && !loading && !hasFetched
    {
      quizzes := [];
      loading := false;
      hasFetched := false;
    }

    /** `fetchQuizzes`. `reply` is the list the server returned, or None when the
        request failed. Returns whether a request was made. */
    method FetchQuizzes(force: bool, reply: Option<seq<Quiz>>) returns (requested: bool)
      modifies this
      ensures requested <==> !old(hasFetched) || force
      ensures !requested ==> quizzes == old(quizzes) && loading == old(loading) && hasFetched
      ensures requested && reply.Some? ==> quizzes == SortBy(reply.value, NewestFirst) && hasFetched
      ensures requested && reply.None? ==> quizzes == old(quizzes) && hasFetched == old(hasFetched)
      ensures requested ==> !loading
    {
      if hasFetched && !force {
        return false;
      }
      loading := true;
      if reply.Some? {
        quizzes := SortBy(reply.value, NewestFirst);
        hasFetched := true;
      }
      loading := false;
      return true;
    }

    /** `updateQuizState`. */
    method UpdateQuizState(updated: Quiz)
      modifies this
      ensures quizzes == ReplaceById(old(quizzes), QuizId, updated)
      ensures loading == old(loading) && hasFetched == old(hasFetched)
    {
      quizzes := ReplaceById(quizzes, QuizId, updated);
    }

    /** `removeQuiz`. */
    method RemoveQuiz(id: int)
      modifies this
      ensures quizzes == RemoveById(old(quizzes), QuizId, id)
      ensures forall q :: q in quizzes <==> q in old(quizzes) && q.id != id
      ensures loading == old(loading) && hasFetched == old(hasFetched)
    {
      forall q | true
        ensures q in RemoveById(quizzes, QuizId, id) <==> q in quizzes && q.id != id
      {
        RemoveByIdMember(quizzes, QuizId, id, q);
      }
      quizzes := RemoveById(quizzes, QuizId, id);
    }

    /** The effect run when the user becomes null: the cache is emptied, so the next
        fetch goes to the server. */
    method Logout()
      modifies this
      ensures quizzes == [] && !hasFetched && loading == old(loading)
    {
      quizzes := [];
      hasFetched := false;
    }
  }
}
