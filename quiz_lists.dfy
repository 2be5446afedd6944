/** The student's quiz list, in the page's two versions: the order quizzes are
    shown in, the progress count, the search, the status badge and the start
    button. */
module QuizLists {
  import opened Wrappers
  import opened Text
  import opened Sorting
  import opened Lists
  import opened QuizContext

  predicate IsAttempted(q: Quiz) { q.status == "attempted" }

  /** The comparator of both pages: quizzes not yet attempted first, then newer
      `created_at` first. */
  function StudentOrder(q: Quiz): Rank {
    Rank(if IsAttempted(q) then 1 else 0, -q.createdAt)
  }

  /** The shown list is a reordering of the quizzes in which no attempted quiz comes
      before an unattempted one, and within each group newer quizzes come first. */
  lemma StudentOrderShown(quizzes: seq<Quiz>)
    ensures multiset(SortBy(quizzes, StudentOrder)) == multiset(quizzes)
    ensures forall i, j :: 0 <= i < j < |quizzes| && IsAttempted(SortBy(quizzes, StudentOrder)[i]) ==>
              IsAttempted(SortBy(quizzes, StudentOrder)[j])
    ensures forall i, j ::
              (0 <= i < j < |quizzes|
               && IsAttempted(SortBy(quizzes, StudentOrder)[i]) == IsAttempted(SortBy(quizzes, StudentOrder)[j])) ==>
              SortBy(quizzes, StudentOrder)[i].createdAt >= SortBy(quizzes, StudentOrder)[j].createdAt
  {
    var r := SortBy(quizzes, StudentOrder);
    forall i, j | 0 <= i < j < |quizzes|
      ensures IsAttempted(r[i]) ==> IsAttempted(r[j])
      ensures IsAttempted(r[i]) == IsAttempted(r[j]) ==> r[i].createdAt >= r[j].createdAt
    {
      assert Le(StudentOrder(r[i]), StudentOrder(r[j]));
    }
  }

  /** The "completed" figure: the quizzes whose status is 'attempted'. */
  function CompletedCount(quizzes: seq<Quiz>): (n: nat)
    ensures n <= |quizzes|
  {
    |Filter(quizzes, IsAttempted)|
  }

  /** The count is exact: it counts attempted quizzes and nothing else. */
  lemma {:induction false} CompletedCountExact(quizzes: seq<Quiz>)
    ensures CompletedCount(quizzes) == |quizzes| <==> forall k :: 0 <= k < |quizzes| ==> IsAttempted(quizzes[k])
    ensures CompletedCount(quizzes) == 0 <==> forall k :: 0 <= k < |quizzes| ==> !IsAttempted(quizzes[k])
    decreases |quizzes|
  {
    if quizzes != [] {
      CompletedCountExact(quizzes[1..]);
      assert forall k :: 1 <= k < |quizzes| ==> quizzes[k] == quizzes[1..][k - 1];
    }
  }

  /** The search: the lower-cased query occurs in the lower-cased title or
      description. */
  predicate Matches(q: Quiz, query: string) {
    Contains(Lower(q.title), Lower(query)) || Contains(Lower(q.description), Lower(query))
  }

  function Search(quizzes: seq<Quiz>, query: string): seq<Quiz> {
    Filter(quizzes, q => Matches(q, query))
  }

  /** A quiz is listed exactly when it matches; an empty query lists everything in
      the same order. */
  lemma SearchKeeps(quizzes: seq<Quiz>, query: string, q: Quiz)
    ensures q in Search(quizzes, query) <==> q in quizzes && Matches(q, query)
    ensures query == "" ==> Search(quizzes, query) == quizzes
  {
    FilterMember(quizzes, q => Matches(q, query), q);
    if query == "" {
      forall k | 0 <= k < |quizzes|
        ensures Matches(quizzes[k], query)
      {
        ContainsEmpty(Lower(quizzes[k].title));
      }
      FilterAllPass(quizzes, q => Matches(q, query));
    }
  }

  datatype UiStatus = Expired | Completed | Available

  /** The badge: an expired quiz shows as expired whatever its status, then an
      attempted one as completed. */
  function Badge(q: Quiz): UiStatus {
    if q.isExpired then Expired else if IsAttempted(q) then Completed else Available
  }

  datatype Action = ViewResult | Start

  function ActionOf(q: Quiz): Action {
    if IsAttempted(q) then ViewResult else Start
  }

  predicate ButtonDisabled(q: Quiz) {
    Badge(q) == Expired && !IsAttempted(q)
  }

  /** The button is dead exactly for an expired quiz not attempted; an attempted
      quiz always leads to its result, even when expired; a quiz that can be
      started is available. */
  lemma ButtonRule(q: Quiz)
    ensures ButtonDisabled(q) <==> q.isExpired && !IsAttempted(q)
    ensures IsAttempted(q) ==> !ButtonDisabled(q) && ActionOf(q) == ViewResult
    ensures ActionOf(q) == Start && !ButtonDisabled(q) <==> Badge(q) == Available
  {
  }

  /** The full-page loader shows only while loading with nothing to show. */
  predicate ShowFullLoader(loading: bool, quizzes: seq<Quiz>) {
    loading && |quizzes| == 0
  }

  // ---------------------------------------------------------------------------
  // The older page, which asks for each quiz's status itself

  /** What `/api/quiz/{id}/status` returns; absent fields leave the quiz's own. */
  datatype StatusReply = StatusReply(status: Option<string>, score: Option<int>)

  /** `{ ...q, ...statusRes.data }`, or status 'not_started' when the request failed. */
  function MergeStatus(q: Quiz, reply: Option<StatusReply>): (r: Quiz)
    ensures r.id == q.id && r.createdAt == q.createdAt && r.title == q.title
    ensures reply.None? ==> r == q.(status := "not_started")
    ensures reply.Some? && reply.value.status.Some? ==> r.status == reply.value.status.value
    ensures reply.Some? && reply.value.status.None? ==> r.status == q.status
  {
    match reply
    case None => q.(status := "not_started")
    case Some(s) =>
      q.(status := if s.status.Some? then s.status.value else q.status,
         score := if s.score.Some? then s.score else q.score)
  }

  function MergeAll(data: seq<Quiz>, replies: seq<Option<StatusReply>>): (r: seq<Quiz>)
    requires |replies| == |data|
    ensures |r| == |data| && forall k :: 0 <= k < |data| ==> r[k] == MergeStatus(data[k], replies[k])
  {
    seq(|data|, k requires 0 <= k < |data| => MergeStatus(data[k], replies[k]))
  }

  /** The older page's start button is dead exactly for an attempted quiz. */
  predicate StartDisabled(q: Quiz) { IsAttempted(q) }

  /** A quiz whose status request failed can still be started. */
  lemma FailedStatusStartable(q: Quiz)
    ensures !StartDisabled(MergeStatus(q, None))
  {
  }

  class OlderQuizList {
    var quizzes: seq<Quiz>
    var loading: bool

    constructor ()
      ensures quizzes == [] && loading
    {
      quizzes := [];
      loading := true;
    }

    /** `fetchQuizzes` of the older page. `reply` is the list, or None when it
        failed; `statuses` holds one status reply per quiz of the list. */
    method FetchQuizzes(reply: Option<seq<Quiz>>, statuses: seq<Option<StatusReply>>)
      requires reply.Some? ==> |statuses| == |reply.value|
      modifies this
      ensures reply.Some? ==> quizzes == SortBy(MergeAll(reply.value, statuses), StudentOrder)
      ensures reply.Some? ==> |quizzes| == |reply.value|
      ensures reply.None? ==> quizzes == old(quizzes)
      ensures !loading
    {
      if reply.Some? {
        var merged := MergeAll(reply.value, statuses);
        quizzes := SortBy(merged, StudentOrder);
      }
      loading := false;
    }
  }
}
