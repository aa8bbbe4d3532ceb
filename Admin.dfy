/** The admin page of `src/app/admin/page.tsx`: approving or rejecting a
    teacher updates the local list once the store accepts the change, and
    the list is shown split into pending and approved teachers. */
module Admin {
  import opened Wrappers
  import opened Lists
  import opened Schema

  /** The test `teacher.id === teacherId`. */
  function HasId(id: string): Profile -> bool {
    (t: Profile) => t.id == id
  }

  /** `{ ...teacher, is_approved: isApproved }`. */
  function WithApproval(approved: bool): Profile -> Profile {
    (t: Profile) => t.(isApproved := approved)
  }

  /** The local update of `updateTeacherApproval`. */
  function UpdateApproval(teachers: seq<Profile>, id: string, approved: bool): (r: seq<Profile>)
    ensures |r| == |teachers|
    ensures forall i :: 0 <= i < |teachers| && teachers[i].id != id ==> r[i] == teachers[i]
    ensures forall i :: 0 <= i < |teachers| && teachers[i].id == id ==>
      r[i].isApproved == approved && r[i] == teachers[i].(isApproved := approved)
  {
    MapWhere(teachers, HasId(id), WithApproval(approved))
  }

  /** The page's state: the teachers listed, and the id being updated. */
  datatype AdminState = AdminState(teachers: seq<Profile>, updating: Option<string>)

  /** `updateTeacherApproval` once the store has answered: the list changes
      only when the store accepted the update, and `updating` is cleared
      either way. */
  function ApprovalAttempt(state: AdminState, id: string, approved: bool, storeAccepted: bool): (r: AdminState)
    ensures r.updating == None
    ensures !storeAccepted ==> r.teachers == state.teachers
    ensures storeAccepted ==> r.teachers == UpdateApproval(state.teachers, id, approved)
  {
    AdminState(if storeAccepted then UpdateApproval(state.teachers, id, approved) else state.teachers, None)
  }

  /** The test `t.is_approved`. */
  function IsApproved(): Profile -> bool {
    (t: Profile) => t.isApproved
  }

  function PendingTeachers(teachers: seq<Profile>): seq<Profile> {
    Filter(teachers, Not(IsApproved()))
  }

  function ApprovedTeachers(teachers: seq<Profile>): seq<Profile> {
    Filter(teachers, IsApproved())
  }

  /** The two lists split the teachers: each keeps the list's order, no
      teacher is in both, and together they hold every teacher once. */
  lemma PartitionSplitsTeachers(teachers: seq<Profile>)
    ensures IsSubsequence(PendingTeachers(teachers), teachers)
    ensures IsSubsequence(ApprovedTeachers(teachers), teachers)
    ensures forall i :: 0 <= i < |PendingTeachers(teachers)| ==> !PendingTeachers(teachers)[i].isApproved
    ensures forall i :: 0 <= i < |ApprovedTeachers(teachers)| ==> ApprovedTeachers(teachers)[i].isApproved
    ensures multiset(PendingTeachers(teachers)) + multiset(ApprovedTeachers(teachers)) == multiset(teachers)
    ensures |PendingTeachers(teachers)| + |ApprovedTeachers(teachers)| == |teachers|
  {
    FilterPartition(teachers, IsApproved());
  }

  /** After an approval the teacher is listed as approved, and after a
      rejection as pending; every other teacher stays where it was. */
  lemma ApprovalMovesOnlyThatTeacher(teachers: seq<Profile>, id: string, approved: bool, i: nat)
    requires i < |teachers|
    ensures var t := UpdateApproval(teachers, id, approved)[i];
      && (teachers[i].id == id ==> (t in ApprovedTeachers(UpdateApproval(teachers, id, approved)) <==> approved))
      && (teachers[i].id != id ==> (t in ApprovedTeachers(UpdateApproval(teachers, id, approved)) <==> teachers[i].isApproved))
  {
    var r := UpdateApproval(teachers, id, approved);
    if r[i] in ApprovedTeachers(r) {
      var k :| 0 <= k < |ApprovedTeachers(r)| && ApprovedTeachers(r)[k] == r[i];
    }
  }

  /** Applying the same decision twice is the same as applying it once. */
  lemma ApprovalIdempotent(teachers: seq<Profile>, id: string, approved: bool)
    ensures UpdateApproval(UpdateApproval(teachers, id, approved), id, approved) == UpdateApproval(teachers, id, approved)
  {
  }
}
