/** The authenticated user as the backend endpoints see it: the `users` row with
    its role and the optional student and teacher profiles linked to it. */
module Accounts {
  import opened Wrappers

  datatype User = User(
    id: int,
    role: string,
    studentProfileId: Option<int>,
    teacherProfileId: Option<int>)
}
