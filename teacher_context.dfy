/** The shared teacher list: fetched once per login unless a refresh is forced, and
    patched in place when a follow changes. */
module TeacherContext {
  import opened Wrappers
  import opened Lists

  datatype Teacher = Teacher(id: int, fullName: string, avatarUrl: Option<string>,
                             subjects: Option<string>, isFollowing: bool)

  function TeacherId(t: Teacher): int { t.id }

  /** `updateTeacherState` replaces exactly the teachers with the updated id and
      keeps every position and id; replacing twice changes nothing more. */
  lemma UpdateTeacherOnly(teachers: seq<Teacher>, u: Teacher, k: nat)
    requires k < |teachers|
    ensures ReplaceById(teachers, TeacherId, u)[k] == (if teachers[k].id == u.id then u else teachers[k])
    ensures Ids(ReplaceById(teachers, TeacherId, u), TeacherId) == Ids(teachers, TeacherId)
    ensures ReplaceById(ReplaceById(teachers, TeacherId, u), TeacherId, u) == ReplaceById(teachers, TeacherId, u)
  {
    ReplaceByIdAt(teachers, TeacherId, u, k);
    ReplaceByIdKeepsIds(teachers, TeacherId, u);
    ReplaceByIdIdempotent(teachers, TeacherId, u);
  }

  class TeacherStore {
    var teachers: seq<Teacher>
    var loading: bool
    var hasFetched: bool

    constructor ()
      ensures teachers == [] && !loading && !hasFetched
    {
      teachers := [];
      loading := false;
      hasFetched := false;
    }

    /** `fetchTeachers`. `reply` is the server's list, or None when the request
        failed. Returns whether a request was made. */
    method FetchTeachers(force: bool, reply: Option<seq<Teacher>>) returns (requested: bool)
      modifies this
      ensures requested <==> !old(hasFetched) || force
      ensures !requested ==> teachers == old(teachers) && loading == old(loading) && hasFetched
      ensures requested && reply.Some? ==> teachers == reply.value && hasFetched
      ensures requested && reply.None? ==> teachers == old(teachers) && hasFetched == old(hasFetched)
      ensures requested ==> !loading
    {
      if hasFetched && !force {
        return false;
      }
      loading := true;
      if reply.Some? {
        teachers := reply.value;
        hasFetched := true;
      }
      loading := false;
      return true;
    }

    /** `updateTeacherState`. */
    method UpdateTeacherState(updated: Teacher)
      modifies this
      ensures teachers == ReplaceById(old(teachers), TeacherId, updated)
      ensures loading == old(loading) && hasFetched == old(hasFetched)
    {
      teachers := ReplaceById(teachers, TeacherId, updated);
    }

    /** The effect run when the user becomes null. */
    method Logout()
      modifies this
      ensures teachers == [] && !hasFetched && loading == old(loading)
    {
      teachers := [];
      hasFetched := false;
    }
  }
}
