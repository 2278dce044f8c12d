/**
 * The staff clean-up script (delete_staff.py): for every staff profile, taken from one
 * read of the table before the loop starts, the profile's user is deleted, and the
 * deletions are counted. Deleting the user cascades to the profile and to everything
 * else the on-delete rules reach. The progress lines it prints are not modelled.
 */
module DeleteStaff {
  import opened Ordering
  import opened Directory
  import opened Schema
  import opened Store

  /** The users of `profiles`, in order. */
  function ProfileUsers(profiles: seq<StaffProfile>): (r: seq<UserId>)
    ensures |r| == |profiles| && forall k :: 0 <= k < |r| ==> r[k] == profiles[k].user
  {
    if profiles == [] then [] else ProfileUsers(profiles[..|profiles| - 1]) + [profiles[|profiles| - 1].user]
  }

  function UserNotAmong(uids: seq<UserId>): User -> bool
  {
    (u: User) => u.id !in uids
  }

  function ProfileNotAmong(uids: seq<UserId>): StaffProfile -> bool
  {
    (p: StaffProfile) => p.user !in uids
  }

  /** Deleting users one by one removes exactly the user rows with those ids, keeping the order. */
  lemma {:induction false} DeletedUsers(t: Tables, uids: seq<UserId>)
    ensures AfterDeleteUsers(t, uids).users == Filter(t.users, UserNotAmong(uids))
  {
    if uids == [] {
      FilterAll(t.users, UserNotAmong(uids));
    } else {
      var front, last := uids[..|uids| - 1], uids[|uids| - 1];
      DeletedUsers(t, front);
      assert uids == front + [last];
      assert AfterDeleteUsers(t, uids).users == Filter(AfterDeleteUsers(t, front).users, OtherUser(last));
      FilterFilter(t.users, UserNotAmong(front), OtherUser(last), UserNotAmong(uids));
    }
  }

  /** Likewise the profile rows of those users go, and no other. */
  lemma {:induction false} DeletedProfiles(t: Tables, uids: seq<UserId>)
    ensures AfterDeleteUsers(t, uids).staffProfiles == Filter(t.staffProfiles, ProfileNotAmong(uids))
  {
    if uids == [] {
      FilterAll(t.staffProfiles, ProfileNotAmong(uids));
    } else {
      var front, last := uids[..|uids| - 1], uids[|uids| - 1];
      DeletedProfiles(t, front);
      assert uids == front + [last];
      assert AfterDeleteUsers(t, uids).staffProfiles == Filter(AfterDeleteUsers(t, front).staffProfiles, NotProfileOf(last));
      FilterFilter(t.staffProfiles, ProfileNotAmong(front), NotProfileOf(last), ProfileNotAmong(uids));
    }
  }

  /**
   * Once the users of every profile are deleted, the profile table is empty, and the
   * users left are exactly those that had no profile.
   */
  lemma AllStaffGone(t: Tables)
    ensures var after := AfterDeleteUsers(t, ProfileUsers(t.staffProfiles));
      after.staffProfiles == [] &&
      forall u :: u in after.users <==>
        u in t.users && forall k :: 0 <= k < |t.staffProfiles| ==> t.staffProfiles[k].user != u.id
  {
    var uids := ProfileUsers(t.staffProfiles);
    var after := AfterDeleteUsers(t, uids);
    DeletedProfiles(t, uids);
    DeletedUsers(t, uids);
    forall k | 0 <= k < |t.staffProfiles|
      ensures !ProfileNotAmong(uids)(t.staffProfiles[k])
    {
      assert uids[k] == t.staffProfiles[k].user;
    }
    FilterNone(t.staffProfiles, ProfileNotAmong(uids));
    forall u
      ensures u in after.users <==>
        u in t.users && forall k :: 0 <= k < |t.staffProfiles| ==> t.staffProfiles[k].user != u.id
    {
      FilterMember(t.users, UserNotAmong(uids), u);
      if u.id in uids {
        var k :| 0 <= k < |uids| && uids[k] == u.id;
        assert t.staffProfiles[k].user == u.id;
      }
    }
  }

  lemma ProfileUsersPrefix(profiles: seq<StaffProfile>, i: nat)
    requires i < |profiles|
    ensures ProfileUsers(profiles[..i + 1]) == ProfileUsers(profiles[..i]) + [profiles[i].user]
  {
    assert profiles[..i + 1][..i] == profiles[..i];
  }

  /** One pass of the loop: the profile's user is deleted. */
  method DeleteProfileUser(db: Database, profile: StaffProfile, ghost t: Tables, ghost done: seq<UserId>)
    requires db.Valid() && db.Snapshot() == AfterDeleteUsers(t, done)
    modifies db`users, db`staffProfiles, db`tickets, db`notifications, db`history
    ensures db.Valid() && db.Snapshot() == AfterDeleteUsers(t, done + [profile.user])
  {
    db.DeleteUser(profile.user);
    assert (done + [profile.user])[..|done|] == done;
  }

  /** The script: returns the number of profiles whose user it deleted. */
  method DeleteStaffAccounts(db: Database) returns (count: nat)
    requires db.Valid()
    modifies db`users, db`staffProfiles, db`tickets, db`notifications, db`history
    ensures db.Valid()
    ensures count == |old(db.staffProfiles)|
    ensures db.Snapshot() == AfterDeleteUsers(old(db.Snapshot()), ProfileUsers(old(db.staffProfiles)))
  {
    var profiles := db.staffProfiles;
    ghost var t := db.Snapshot();
    count := 0;
    var i := 0;
    while i < |profiles|
      invariant 0 <= i <= |profiles| && count == i
      invariant db.Valid()
      invariant db.Snapshot() == AfterDeleteUsers(t, ProfileUsers(profiles[..i]))
    {
      ProfileUsersPrefix(profiles, i);
      DeleteProfileUser(db, profiles[i], t, ProfileUsers(profiles[..i]));
      count := count + 1;
      i := i + 1;
    }
    assert profiles[..i] == profiles;
  }

  /** After the script no staff profile is left, and exactly the users without one remain. */
  method ClearStaff(db: Database) returns (count: nat)
    requires db.Valid()
    modifies db`users, db`staffProfiles, db`tickets, db`notifications, db`history
    ensures db.Valid() && count == |old(db.staffProfiles)| && db.staffProfiles == []
    ensures forall u :: u in db.users <==>
      u in old(db.users) && forall k :: 0 <= k < |old(db.staffProfiles)| ==> old(db.staffProfiles)[k].user != u.id
  {
    ghost var t := db.Snapshot();
    count := DeleteStaffAccounts(db);
    AllStaffGone(t);
  }
}
