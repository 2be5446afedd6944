/** The teacher's quiz management page: the expiry badge, the list fetch with its
    two loading indicators, the optimistic delete with its revert, and, in the
    analytics window, the rows skipped from the attempt table and the colour of a
    question's accuracy. */
module QuizManagement {
  import opened Wrappers
  import opened Lists

  /** A quiz as this page reads it; dates are the server's strings. */
  datatype Quiz = Quiz(id: int, title: string, description: string, durationMinutes: int,
                       questionsCount: int, createdAt: string, deadline: Option<string>)

  function QuizId(q: Quiz): int { q.id }

  // ---------------------------------------------------------------------------
  // Expiry

  /** `isExpired`: with no deadline (or an empty one) never; otherwise when now is
      past the deadline. `parse` stands for `new Date(...)`, None for an invalid
      date, which compares false with everything. */
  predicate IsExpired(deadline: Option<string>, now: int, parse: string -> Option<int>) {
    deadline.Some? && deadline.value != "" && parse(deadline.value).Some? && now > parse(deadline.value).value
  }

  /** Expiry is exactly "the deadline was read and has passed", and once expired a
      quiz stays expired as time goes on. */
  lemma ExpiryRule(deadline: Option<string>, now: int, later: int, parse: string -> Option<int>)
    requires now <= later
    ensures deadline == None || deadline == Some("") ==> !IsExpired(deadline, now, parse)
    ensures deadline.Some? && deadline.value != "" && parse(deadline.value).Some? ==>
              (IsExpired(deadline, now, parse) <==> now > parse(deadline.value).value)
    ensures IsExpired(deadline, now, parse) ==> IsExpired(deadline, later, parse)
  {
  }

  // ---------------------------------------------------------------------------
  // Attempt rows and accuracy colours of the analytics window

  datatype Attempt = Attempt(id: int, studentName: string, submittedAt: Option<string>,
                             attemptedCount: int, score: int, warningsCount: int)

  const Epoch := "1970-01-01T00:00:00"

  /** The safety check: a row without a submission time (missing or empty), with
      the epoch as its time, or with nothing attempted and nothing scored is not
      drawn. */
  predicate Skipped(a: Attempt) {
    a.submittedAt == None || a.submittedAt == Some("") || a.submittedAt == Some(Epoch)
    || (a.attemptedCount == 0 && a.score == 0)
  }

  function ShownRows(attempts: seq<Attempt>): seq<Attempt> {
    Filter(attempts, a => !Skipped(a))
  }

  /** Every drawn row was submitted at a real time and attempted or scored
      something, every such attempt is drawn, and rows keep the server's order. */
  lemma ShownRowsExact(attempts: seq<Attempt>, a: Attempt, more: seq<Attempt>)
    ensures a in ShownRows(attempts) <==>
              a in attempts && a.submittedAt.Some? && a.submittedAt.value != ""
              && a.submittedAt.value != Epoch && (a.attemptedCount != 0 || a.score != 0)
    ensures ShownRows(attempts + more) == ShownRows(attempts) + ShownRows(more)
  {
    FilterMember(attempts, a => !Skipped(a), a);
    FilterAppend(attempts, more, a => !Skipped(a));
  }

  datatype Band = Red | Yellow | Green

  /** The colour of a question's accuracy (a percentage). */
  function AccuracyBand(accuracy: real): Band {
    if accuracy >= 70.0 then Green else if accuracy >= 40.0 then Yellow else Red
  }

  function BandRank(b: Band): nat {
    match b
    case Red => 0
    case Yellow => 1
    case Green => 2
  }

  /** The bands are the intervals [70, ..), [40, 70) and (.., 40), and a higher
      accuracy never gets a worse colour. */
  lemma AccuracyBands(x: real, y: real)
    requires x <= y
    ensures AccuracyBand(x) == Green <==> x >= 70.0
    ensures AccuracyBand(x) == Yellow <==> 40.0 <= x < 70.0
    ensures AccuracyBand(x) == Red <==> x < 40.0
    ensures BandRank(AccuracyBand(x)) <= BandRank(AccuracyBand(y))
  {
  }

  // ---------------------------------------------------------------------------
  // The page

  datatype ToastKind = Success | Failure
  datatype Toast = Toast(message: string, kind: ToastKind)

  const Deleted := Toast("Quiz deleted successfully", Success)
  const DeleteFailed := Toast("Failed to delete quiz. Please try again", Failure)

  /** A selection the delete guard accepts: present and not the falsy id 0. */
  predicate Selected(quizToDelete: Option<int>) {
    quizToDelete.Some? && quizToDelete.value != 0
  }

  /** The optimistic removal keeps exactly the quizzes with another id, in order,
      and drops nothing when no quiz has the id. */
  lemma RemovalExact(quizzes: seq<Quiz>, id: int, q: Quiz)
    ensures q in RemoveById(quizzes, QuizId, id) <==> q in quizzes && q.id != id
    ensures (forall k :: 0 <= k < |quizzes| ==> quizzes[k].id != id) ==> RemoveById(quizzes, QuizId, id) == quizzes
  {
    RemoveByIdMember(quizzes, QuizId, id, q);
    if forall k :: 0 <= k < |quizzes| ==> quizzes[k].id != id {
      RemoveByIdAbsent(quizzes, QuizId, id);
    }
  }

  class QuizManagementPage {
    var quizzes: seq<Quiz>
    var loading: bool
    var isRefreshing: bool
    var showDeleteModal: bool
    var quizToDelete: Option<int>
    var toast: Option<Toast>

    constructor ()
      ensures quizzes == [] && loading && !isRefreshing
      ensures !showDeleteModal && quizToDelete == None && toast == None
    {
      quizzes := [];
      loading := true;
      isRefreshing := false;
      showDeleteModal := false;
      quizToDelete := None;
      toast := None;
    }

    /** The start of `fetchQuizzes(bg)`: the full loader for a first, foreground
        fetch with nothing to show, the refresh indicator otherwise. */
    method StartFetch(bg: bool)
      modifies this
      ensures !bg && |quizzes| == 0 ==> loading && isRefreshing == old(isRefreshing)
      ensures !(!bg && |quizzes| == 0) ==> isRefreshing && loading == old(loading)
      ensures quizzes == old(quizzes) && toast == old(toast)
      ensures showDeleteModal == old(showDeleteModal) && quizToDelete == old(quizToDelete)
    {
      if !bg && |quizzes| == 0 {
        loading := true;
      } else {
        isRefreshing := true;
      }
    }

    /** The end of `fetchQuizzes`: the list on success, the old list on failure,
        and both indicators off. */
    method FinishFetch(reply: Option<seq<Quiz>>)
      modifies this
      ensures reply.Some? ==> quizzes == reply.value
      ensures reply.None? ==> quizzes == old(quizzes)
      ensures !loading && !isRefreshing
      ensures toast == old(toast) && showDeleteModal == old(showDeleteModal) && quizToDelete == old(quizToDelete)
    {
      if reply.Some? {
        quizzes := reply.value;
      }
      loading := false;
      isRefreshing := false;
    }

    /** The trash button. */
    method HandleDeleteClick(id: int)
      modifies this
      ensures quizToDelete == Some(id) && showDeleteModal
      ensures quizzes == old(quizzes) && toast == old(toast)
      ensures loading == old(loading) && isRefreshing == old(isRefreshing)
    {
      quizToDelete := Some(id);
      showDeleteModal := true;
    }

    /** `confirmDelete` up to the request: without a selection nothing happens;
        otherwise the quiz leaves the list at once and the modal closes. Returns the
        list as it was and the id to delete, for the answer. */
    method ConfirmDelete() returns (started: bool, previous: seq<Quiz>, id: int)
      modifies this
      ensures started <==> Selected(old(quizToDelete))
      ensures !started ==> quizzes == old(quizzes) && showDeleteModal == old(showDeleteModal)
                           && quizToDelete == old(quizToDelete)
      ensures started ==> id == old(quizToDelete).value && previous == old(quizzes)
                          && quizzes == RemoveById(old(quizzes), QuizId, id)
                          && !showDeleteModal && quizToDelete == None
      ensures toast == old(toast) && loading == old(loading) && isRefreshing == old(isRefreshing)
    {
      if quizToDelete.None? || quizToDelete.value == 0 {
        return false, quizzes, 0;
      }
      previous := quizzes;
      id := quizToDelete.value;
      quizzes := RemoveById(quizzes, QuizId, id);
      showDeleteModal := false;
      quizToDelete := None;
      started := true;
    }

    /** The delete request's answer: a success toast, or the list exactly as it was
        before the click and an error toast. */
    method DeleteSettled(previous: seq<Quiz>, succeeded: bool)
      modifies this
      ensures succeeded ==> quizzes == old(quizzes) && toast == Some(Deleted)
      ensures !succeeded ==> quizzes == previous && toast == Some(DeleteFailed)
      ensures showDeleteModal == old(showDeleteModal) && quizToDelete == old(quizToDelete)
      ensures loading == old(loading) && isRefreshing == old(isRefreshing)
    {
      if succeeded {
        toast := Some(Deleted);
      } else {
        quizzes := previous;
        toast := Some(DeleteFailed);
      }
    }
  }
}
