/** Rows of the relational store, as the data-access layer and the pages
    read and write them. Creation and update timestamps, which the store
    fills in itself, are left out. */
module Schema {
  import opened Wrappers

  /** A row of `profiles`. `role` is kept as the raw string the store holds,
      so that a role outside 'admin' | 'teacher' | 'student' can be modelled. */
  datatype Profile = Profile(
    id: string,
    email: string,
    fullName: Option<string>,
    role: string,
    avatarUrl: Option<string>,
    isApproved: bool)
}
