/** The student's teacher directory: the avatar shown for a teacher, the search,
    and the follow button with its per-teacher in-flight guard, optimistic flip
    and revert on failure. */
module TeachersPage {
  import opened Wrappers
  import opened Text
  import opened Lists
  import opened TeacherContext

  // ---------------------------------------------------------------------------
  // Avatar

  datatype Avatar = Initial(letter: string) | Image(src: string)

  /** `s.charAt(0)`: the first character, or "" for an empty string. */
  function CharAt0(s: string): (r: string)
    ensures |r| == (if s == "" then 0 else 1)
    ensures s != "" ==> r == s[..1]
  {
    if s == "" then "" else [s[0]]
  }

  /** The image address: a URL starting with "http" as it is, any other path
      after the API base URL. */
  function AvatarSrc(url: string, base: string): string {
    if IsPrefix("http", url) then url else base + url
  }

  /** `TeacherAvatar`: the name's first character when there is no URL (or an
      empty one) or the image failed to load, the image otherwise. */
  function AvatarOf(t: Teacher, base: string, imgError: bool): (a: Avatar)
    ensures a.Initial? <==> t.avatarUrl == None || t.avatarUrl == Some("") || imgError
    ensures a.Initial? ==> a.letter == CharAt0(t.fullName)
  {
    if t.avatarUrl == None || t.avatarUrl == Some("") || imgError then Initial(CharAt0(t.fullName))
    else Image(AvatarSrc(t.avatarUrl.value, base))
  }

  /** An image is always fetched from the teacher's own URL: as given when it is
      absolute, else as the path under the base. With an http base every image
      address is absolute. */
  lemma AvatarImage(t: Teacher, base: string, imgError: bool)
    requires AvatarOf(t, base, imgError).Image?
    ensures t.avatarUrl.Some? && !imgError
    ensures IsPrefix("http", t.avatarUrl.value) ==> AvatarOf(t, base, imgError).src == t.avatarUrl.value
    ensures !IsPrefix("http", t.avatarUrl.value) ==> AvatarOf(t, base, imgError).src == base + t.avatarUrl.value
    ensures IsPrefix("http", base) ==> IsPrefix("http", AvatarOf(t, base, imgError).src)
  {
    var src := AvatarOf(t, base, imgError).src;
    if IsPrefix("http", base) && !IsPrefix("http", t.avatarUrl.value) {
      assert src[..4] == (base + t.avatarUrl.value)[..4] == base[..4];
    }
  }

  // ---------------------------------------------------------------------------
  // Search

  /** The lower-cased query occurs in the lower-cased name, or in the subjects
      when the teacher lists any. */
  predicate Matches(t: Teacher, query: string) {
    Contains(Lower(t.fullName), Lower(query))
    || (t.subjects.Some? && t.subjects.value != "" && Contains(Lower(t.subjects.value), Lower(query)))
  }

  function FilteredTeachers(teachers: seq<Teacher>, query: string): seq<Teacher> {
    Filter(teachers, t => Matches(t, query))
  }

  /** A teacher is listed exactly when they match, and an empty query lists every
      teacher in the same order. */
  lemma FilteredTeachersKeeps(teachers: seq<Teacher>, query: string, t: Teacher)
    ensures t in FilteredTeachers(teachers, query) <==> t in teachers && Matches(t, query)
    ensures query == "" ==> FilteredTeachers(teachers, query) == teachers
  {
    FilterMember(teachers, t => Matches(t, query), t);
    if query == "" {
      forall k | 0 <= k < |teachers|
        ensures Matches(teachers[k], query)
      {
        ContainsEmpty(Lower(teachers[k].fullName));
      }
      FilterAllPass(teachers, t => Matches(t, query));
    }
  }

  // ---------------------------------------------------------------------------
  // Follow toggle

  function Flipped(t: Teacher): Teacher { t.(isFollowing := !t.isFollowing) }

  /** The request made for a teacher in the state shown before the click. */
  function Endpoint(t: Teacher): string {
    (if t.isFollowing then "/api/users/unfollow/" else "/api/users/follow/") + IntToString(t.id)
  }

  function IntKey(x: int): int { x }

  datatype ToastKind = Success | Failure
  datatype Toast = Toast(message: string, kind: ToastKind)

  function SuccessToast(t: Teacher): Toast {
    Toast((if t.isFollowing then "Unfollowed " else "Followed ") + t.fullName, Success)
  }

  const FailureToast := Toast("Action failed. Please try again.", Failure)

  /** The teacher list holds `t` wherever t's id occurs: the teacher the button
      was rendered from. */
  predicate Holds(teachers: seq<Teacher>, t: Teacher) {
    forall k :: 0 <= k < |teachers| && teachers[k].id == t.id ==> teachers[k] == t
  }

  /** A failed toggle restores the list exactly: flipping the teacher and then
      putting back the copy taken before the flip changes nothing, and the
      in-flight ids are as before the click. */
  lemma FailedToggleRestores(teachers: seq<Teacher>, ids: seq<int>, t: Teacher)
    requires Holds(teachers, t) && t.id !in ids
    ensures ReplaceById(ReplaceById(teachers, TeacherId, Flipped(t)), TeacherId, t) == teachers
    ensures RemoveById(ids + [t.id], IntKey, t.id) == ids
  {
    ReplaceByIdRevert(teachers, TeacherId, Flipped(t), t);
    AddThenRemove(ids, t.id, IntKey);
    RemoveByIdAbsent(ids, IntKey, t.id);
  }

  /** A successful toggle leaves every copy of the teacher flipped and changes no
      other teacher. */
  lemma SucceededToggleFlips(teachers: seq<Teacher>, t: Teacher, k: nat)
    requires Holds(teachers, t) && k < |teachers|
    ensures teachers[k].id == t.id ==>
              ReplaceById(teachers, TeacherId, Flipped(t))[k] == teachers[k].(isFollowing := !teachers[k].isFollowing)
    ensures teachers[k].id != t.id ==> ReplaceById(teachers, TeacherId, Flipped(t))[k] == teachers[k]
  {
    ReplaceByIdAt(teachers, TeacherId, Flipped(t), k);
  }

  class TeachersPage {
    const store: TeacherStore
    var processingIds: seq<int>
    var searchQuery: string
    var toast: Option<Toast>

    constructor (store: TeacherStore)
      ensures this.store == store && processingIds == [] && searchQuery == "" && toast == None
    {
      this.store := store;
      processingIds := [];
      searchQuery := "";
      toast := None;
    }

    /** The click on a follow button, up to the request. Returns whether the click
        was taken and the endpoint then called. */
    method BeginToggle(teacher: Teacher) returns (started: bool, endpoint: string)
      modifies this, store
      ensures started <==> teacher.id !in old(processingIds)
      ensures !started ==> processingIds == old(processingIds) && store.teachers == old(store.teachers)
      ensures started ==> processingIds == old(processingIds) + [teacher.id]
      ensures started ==> store.teachers == ReplaceById(old(store.teachers), TeacherId, Flipped(teacher))
      ensures started ==> endpoint == Endpoint(teacher)
      ensures store.loading == old(store.loading) && store.hasFetched == old(store.hasFetched)
      ensures toast == old(toast) && searchQuery == old(searchQuery)
    {
      if teacher.id in processingIds {
        return false, "";
      }
      processingIds := processingIds + [teacher.id];
      store.UpdateTeacherState(Flipped(teacher));
      endpoint := if teacher.isFollowing then "/api/users/unfollow/" else "/api/users/follow/";
      endpoint := endpoint + IntToString(teacher.id);
      started := true;
    }

    /** The request's answer for the teacher as it was before the click: a toast,
        the revert on failure, and the id leaves the in-flight list either way. */
    method FinishToggle(previous: Teacher, succeeded: bool)
      modifies this, store
      ensures processingIds == RemoveById(old(processingIds), IntKey, previous.id)
      ensures previous.id !in processingIds
      ensures succeeded ==> toast == Some(SuccessToast(previous)) && store.teachers == old(store.teachers)
      ensures !succeeded ==> toast == Some(FailureToast)
      ensures !succeeded ==> store.teachers == ReplaceById(old(store.teachers), TeacherId, previous)
      ensures store.loading == old(store.loading) && store.hasFetched == old(store.hasFetched)
      ensures searchQuery == old(searchQuery)
    {
      if succeeded {
        toast := Some(SuccessToast(previous));
      } else {
        toast := Some(FailureToast);
        store.UpdateTeacherState(previous);
      }
      RemoveByIdMember(processingIds, IntKey, previous.id, previous.id);
      processingIds := RemoveById(processingIds, IntKey, previous.id);
    }
  }
}
