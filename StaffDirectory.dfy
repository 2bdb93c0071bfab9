/** The staff handlers that change state: `createStaff`, which adds a user
    to the owner's salon and promotes a customer to the staff role, and
    `updateStaffWorkingHours`, which merges weekday schedules into a staff
    record. */
module StaffDirectory {
  import opened Common
  import opened Dates
  import opened Failures
  import opened Entities

  /** `{ ...current, ...patch }`: every weekday the patch names is replaced
      whole; the others keep their schedule. */
  function MergeWorkingHours(current: WorkingHours, patch: WorkingHours): (r: WorkingHours)
    ensures r.Keys == current.Keys + patch.Keys
    ensures forall d :: d in patch ==> r[d] == patch[d]
    ensures forall d :: d in current && d !in patch ==> r[d] == current[d]
  {
    current + patch
  }

  /** Merging the same patch twice changes nothing more; an empty patch
      changes nothing. */
  lemma MergeIdempotent(current: WorkingHours, patch: WorkingHours)
    ensures MergeWorkingHours(MergeWorkingHours(current, patch), patch) == MergeWorkingHours(current, patch)
    ensures MergeWorkingHours(current, map[]) == current
  {
  }

  /** The role a user has after being added as staff: a customer becomes
      staff, every other role is kept. */
  function PromotedRole(role: Role): (r: Role)
    ensures role == Customer ==> r == StaffRole
    ensures role != Customer ==> r == role
  {
    if role == Customer then StaffRole else role
  }

  /** Promotion never removes a salon owner's role and is idempotent. */
  lemma PromotionKeepsOwners(role: Role)
    ensures PromotedRole(PromotedRole(role)) == PromotedRole(role)
    ensures PromotedRole(role) != Customer
  {
  }

  /** The user already has a staff record in the salon. */
  predicate IsStaffOf(staff: map<Id, Staff>, userId: Id, salonId: Id) {
    exists k :: k in staff && staff[k].userId == userId && staff[k].salonId == salonId
  }

  /** The guards of `createStaff`, in order, for the owner's salon: a
      `userId` is required, the user must exist, must not be a super-admin
      and must not already be staff of this salon. */
  function AdmitStaff(staff: map<Id, Staff>, users: map<Id, User>, salonId: Id, userId: Option<Id>): (r: Option<Failure>)
    ensures r.None? <==>
      userId.Some? && userId.value in users && users[userId.value].role != SuperAdmin
      && !IsStaffOf(staff, userId.value, salonId)
    ensures userId.None? ==> r == Some(MissingFields)
    ensures r == Some(AlreadyStaffHere) <==>
      userId.Some? && userId.value in users && users[userId.value].role != SuperAdmin
      && IsStaffOf(staff, userId.value, salonId)
  {
    if userId.None? then Some(MissingFields)
    else if userId.value !in users then Some(UserNotFound)
    else if users[userId.value].role == SuperAdmin then Some(SuperAdminAsStaff)
    else if IsStaffOf(staff, userId.value, salonId) then Some(AlreadyStaffHere)
    else None
  }

  /** Membership is checked per salon: a user who is staff elsewhere can
      still be added here. */
  lemma StaffElsewhereIsAdmitted(staff: map<Id, Staff>, users: map<Id, User>, salonId: Id, u: Id)
    requires u in users && users[u].role != SuperAdmin
    requires forall k :: k in staff && staff[k].userId == u ==> staff[k].salonId != salonId
    ensures AdmitStaff(staff, users, salonId, Some(u)).None?
  {
  }

  class StaffDirectory {
    var staff: map<Id, Staff>
    var users: map<Id, User>
    /** The id the next staff record receives. */
    var nextId: nat

    /** Record ids are below `nextId`, and no user has two records in one
        salon. */
    predicate Valid()
      reads this
    {
      && (forall k :: k in staff ==> k < nextId)
      && (forall a, b :: a in staff && b in staff && a != b
            ==> !(staff[a].userId == staff[b].userId && staff[a].salonId == staff[b].salonId))
    }

    constructor (users: map<Id, User>)
      ensures this.staff == map[] && this.users == users && nextId == 0
      ensures Valid()
    {
      this.staff := map[];
      this.users := users;
      nextId := 0;
    }

    /** `createStaff` by the owner of salon `salonId`: on success a new
        record with the given schedule over the defaults, and the user
        promoted if a customer. */
    method CreateStaff(salonId: Id, userId: Option<Id>, hours: WorkingHours) returns (r: Result<Id>)
      requires Valid()
      modifies this
      ensures Valid()
      ensures var f := AdmitStaff(old(staff), old(users), salonId, userId);
        if f.Some? then
          r == Err(f.value) && staff == old(staff) && users == old(users) && nextId == old(nextId)
        else
          && r == Ok(old(nextId))
          && staff == old(staff)[old(nextId) := Staff(userId.value, salonId, MergeWorkingHours(DefaultWorkingHours(), hours))]
          && users == old(users)[userId.value := User(PromotedRole(old(users)[userId.value].role))]
          && nextId == old(nextId) + 1
    {
      var f := AdmitStaff(staff, users, salonId, userId);
      if f.Some? {
        return Err(f.value);
      }
      var u := userId.value;
      var id := nextId;
      staff := staff[id := Staff(u, salonId, MergeWorkingHours(DefaultWorkingHours(), hours))];
      nextId := nextId + 1;
      if users[u].role == Customer {
        users := users[u := User(StaffRole)];
      }
      r := Ok(id);
    }

    /** `updateStaffWorkingHours` for record `id`. */
    method UpdateWorkingHours(id: Id, patch: WorkingHours) returns (r: Result<Staff>)
      requires Valid()
      modifies this
      ensures Valid()
      ensures users == old(users) && nextId == old(nextId)
      ensures id !in old(staff) ==> r == Err(StaffNotFound) && staff == old(staff)
      ensures id in old(staff) ==>
        && r == Ok(old(staff)[id].(workingHours := MergeWorkingHours(old(staff)[id].workingHours, patch)))
        && staff == old(staff)[id := r.value]
    {
      if id !in staff {
        return Err(StaffNotFound);
      }
      var s := staff[id].(workingHours := MergeWorkingHours(staff[id].workingHours, patch));
      staff := staff[id := s];
      r := Ok(s);
    }
  }
}
