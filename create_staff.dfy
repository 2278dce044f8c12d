/**
 * The staff seeding script (create_staff.py). For each seed it gets or creates the
 * office by name, takes the part of the e-mail before the first `@` as user name,
 * deletes any user of that name (with everything that cascades from it), creates the
 * user with the seed's password, marks it staff and links it to the office by a new
 * staff profile. Progress messages are not modelled.
 */
module CreateStaff {
  import opened Wrappers
  import opened Text
  import opened Ordering
  import opened Directory
  import opened Schema
  import opened Store
  import opened Routing

  datatype OfficeSeed = OfficeSeed(name: string, email: string, password: string)

  /** The domain every seed address is on. */
  const SeedDomain: string := "ust-legazpi.edu.ph"

  /** A seed whose address is `local@ust-legazpi.edu.ph`. */
  function Seed(name: string, local: string, password: string): OfficeSeed
  {
    OfficeSeed(name, local + "@" + SeedDomain, password)
  }

  /** The seed list as written, column by column; the registrar's name uses a straight apostrophe. */
  const SeedOfficeNames: seq<string> := [
    "Registrar's Office", "ETC", "Physical Plant and Facilities Management Office", "Principal Office",
    "Office of Student Services", "Guidance Office", "Office of Media, Alumni, and Public Affairs"]
  /** The local parts of the seed addresses, which become the user names. */
  const SeedUsernameList: seq<string> := ["registrar", "etc", "ppfmo", "principal", "studentservices", "guidance", "mapa"]
  const SeedPasswords: seq<string> := [
    "registrar123", "etc123", "ppfmo123", "principal123", "student_services123", "guidance123", "mapa123"]

  /** The seed list, one seed per row of the three columns. */
  function SeedRows(n: nat): (r: seq<OfficeSeed>)
    requires n <= |SeedOfficeNames| == |SeedUsernameList| == |SeedPasswords|
    ensures |r| == n
    ensures forall j :: 0 <= j < n ==> r[j] == Seed(SeedOfficeNames[j], SeedUsernameList[j], SeedPasswords[j])
  {
    if n == 0 then [] else SeedRows(n - 1) + [Seed(SeedOfficeNames[n - 1], SeedUsernameList[n - 1], SeedPasswords[n - 1])]
  }

  const Seeds: seq<OfficeSeed> := SeedRows(7)

  /** The same list with the registrar spelled as the routing table spells it (U+2019). */
  const IntendedSeeds: seq<OfficeSeed> := Seeds[0 := Seeds[0].(name := "Registrar\U{2019}s Office")]

  /** `email.split("@")[0]`: the text before the first `@`, or all of it when there is none. */
  function Username(email: string): (r: string)
    ensures r <= email && '@' !in r
    ensures '@' in email ==> |r| < |email| && email[|r|] == '@'
    ensures '@' !in email ==> r == email
  {
    BeforeFirst(email, '@')
  }

  predicate DistinctUsernames(seeds: seq<OfficeSeed>)
  {
    forall i, j :: 0 <= i < j < |seeds| ==> Username(seeds[i].email) != Username(seeds[j].email)
  }

  /** A seed's user name is the local part of its address. */
  lemma {:induction false} SeedUsername(name: string, local: string, password: string)
    requires '@' !in local
    ensures Username(Seed(name, local, password).email) == local
  {
    assert local + "@" + SeedDomain == local + ['@'] + SeedDomain;
    BeforeFirstOfJoin(local, '@', SeedDomain);
  }

  lemma UsernameListDistinct()
    ensures forall i, j :: 0 <= i < j < |SeedUsernameList| ==> SeedUsernameList[i] != SeedUsernameList[j]
    ensures forall j :: 0 <= j < |SeedUsernameList| ==> '@' !in SeedUsernameList[j]
  {
    var names := SeedUsernameList;
    // the names differ in length, except "registrar" and "principal", which differ in their first letter
    forall i, j | 0 <= i < j < |names|
      ensures names[i] != names[j]
    {
      if i == 0 && j == 3 {
        assert names[i][0] != names[j][0];
      } else {
        assert |names[i]| != |names[j]|;
      }
    }
  }

  /** Each seed's user name is its address's local part. */
  lemma SeedUsernames()
    ensures forall j :: 0 <= j < |Seeds| ==> Username(Seeds[j].email) == SeedUsernameList[j]
  {
    UsernameListDistinct();
    forall j | 0 <= j < |Seeds|
      ensures Username(Seeds[j].email) == SeedUsernameList[j]
    {
      SeedUsername(SeedOfficeNames[j], SeedUsernameList[j], SeedPasswords[j]);
    }
  }

  /** No two seeds share a user name, so no iteration deletes an account an earlier one made. */
  lemma SeedsDistinct()
    ensures DistinctUsernames(Seeds)
  {
    SeedUsernames();
    UsernameListDistinct();
  }

  lemma IntendedSeedsDistinct()
    ensures DistinctUsernames(IntendedSeeds)
  {
    SeedsDistinct();
    assert forall j :: 0 <= j < |Seeds| ==> IntendedSeeds[j].email == Seeds[j].email;
  }

  /** What one seed leaves in the tables: its office, its staff account and the profile joining them. */
  predicate Seeded(users: seq<User>, offices: seq<Office>, profiles: seq<StaffProfile>, seed: OfficeSeed,
                   office: Office, account: User, profile: StaffProfile)
  {
    office in offices && office.name == seed.name &&
    account in users && account.username == Username(seed.email) && account.email == NormalizeEmail(seed.email) &&
    account.isStaff && CheckPassword(seed.password, account.password) &&
    profile in profiles && profile.user == account.id && profile.office == office.id
  }

  /** After deleting the user found under `name`, no user of that name is left. */
  lemma {:induction false} NameFreeAfterDelete(users: seq<User>, existing: User, name: string)
    requires UniqueUsernames(users) && existing in users && existing.username == name
    ensures forall i :: 0 <= i < |Filter(users, OtherUser(existing.id))| ==> Filter(users, OtherUser(existing.id))[i].username != name
  {
    var r := Filter(users, OtherUser(existing.id));
    FilterElements(users, OtherUser(existing.id));
    forall i | 0 <= i < |r| ensures r[i].username != name {
      var a :| 0 <= a < |users| && users[a] == r[i];
      var b :| 0 <= b < |users| && users[b] == existing;
      assert a != b;
    }
  }

  /**
   * `User.objects.filter(username=name).first()` and, when found, `delete()`. Returns the
   * deleted user's id; afterwards nobody has that name, and every table is as deleting
   * that user leaves it.
   */
  method RemoveNamedUser(db: Database, name: string) returns (removed: Option<UserId>)
    requires db.Valid()
    modifies db`users, db`staffProfiles, db`tickets, db`notifications, db`history
    ensures db.Valid()
    ensures removed.Some? <==> FindByUsername(old(db.users), name).Some?
    ensures removed.Some? ==> removed.value == FindByUsername(old(db.users), name).value.id
    ensures removed.None? ==> db.Snapshot() == old(db.Snapshot())
    ensures removed.Some? ==> db.Snapshot() == AfterDeleteUser(old(db.Snapshot()), removed.value)
    ensures forall i :: 0 <= i < |db.users| ==> db.users[i].username != name
    ensures forall u :: u in old(db.users) && u.username != name ==> Some(u.id) != removed && u in db.users
    ensures forall u :: u in db.users ==> u in old(db.users)
    ensures forall p :: p in old(db.staffProfiles) && Some(p.user) != removed ==> p in db.staffProfiles
    ensures forall p :: p in db.staffProfiles ==> p in old(db.staffProfiles)
  {
    ghost var users0 := db.users;
    ghost var profiles0 := db.staffProfiles;
    var existing := FindByUsername(db.users, name);
    if existing.None? {
      return None;
    }
    var uid := existing.value.id;
    NameFreeAfterDelete(db.users, existing.value, name);
    db.DeleteUser(uid);
    removed := Some(uid);
    forall u | u in users0 && u.username != name
      ensures u.id != uid && u in db.users
    {
      if u.id == uid { SameIdSameUser(users0, u, existing.value); }
      FilterMember(users0, OtherUser(uid), u);
    }
    forall u | u in db.users
      ensures u in users0
    {
      FilterMember(users0, OtherUser(uid), u);
    }
    forall p | p in profiles0 && p.user != uid
      ensures p in db.staffProfiles
    {
      FilterMember(profiles0, NotProfileOf(uid), p);
    }
    forall p | p in db.staffProfiles
      ensures p in profiles0
    {
      FilterMember(profiles0, NotProfileOf(uid), p);
    }
  }

  /** `create_user(...)`, `is_staff = True; save()`, `StaffProfile.objects.create(...)`. */
  method AddStaffAccount(db: Database, name: string, email: string, password: string, office: Office)
    returns (account: User, profile: StaffProfile)
    requires db.Valid() && office in db.offices
    requires forall i :: 0 <= i < |db.users| ==> db.users[i].username != name
    modifies db`users, db`staffProfiles, db`nextUserId, db`nextProfileId
    ensures db.Valid()
    ensures account == User(old(db.nextUserId), name, NormalizeEmail(email), "", "", true, MakePassword(password))
    ensures account.id !in UserIds(old(db.users))
    ensures db.users == MarkStaff(old(db.users) + [account.(isStaff := false)], account.id)
    ensures db.users == old(db.users) + [account]
    ensures profile == StaffProfile(old(db.nextProfileId), account.id, office.id)
    ensures db.staffProfiles == old(db.staffProfiles) + [profile]
  {
    ghost var users1 := db.users;
    FreshUserId(db.Snapshot());
    var uid := db.CreateUser(name, email, password);
    var newRow := User(uid, name, NormalizeEmail(email), "", "", false, MakePassword(password));
    db.SetStaff(uid);
    MarkStaffFresh(users1, newRow);
    account := newRow.(isStaff := true);
    profile := db.CreateStaffProfile(uid, office.id);
  }

  /**
   * The account half of one pass: the user named `name` is deleted if there is one, and a
   * staff account of that name is created and linked to `office`.
   */
  method ReplaceAccount(db: Database, name: string, email: string, password: string, office: Office)
    returns (account: User, profile: StaffProfile, removed: Option<UserId>)
    requires db.Valid() && office in db.offices
    modifies db`users, db`staffProfiles, db`tickets, db`notifications, db`history, db`nextUserId, db`nextProfileId
    ensures db.Valid()
    ensures removed.Some? <==> FindByUsername(old(db.users), name).Some?
    ensures removed.Some? ==> removed.value == FindByUsername(old(db.users), name).value.id
    ensures account == User(old(db.nextUserId), name, NormalizeEmail(email), "", "", true, MakePassword(password))
    ensures profile == StaffProfile(old(db.nextProfileId), account.id, office.id)
    ensures var kept := if removed.Some? then AfterDeleteUser(old(db.Snapshot()), removed.value) else old(db.Snapshot());
      db.users == kept.users + [account] && db.staffProfiles == kept.staffProfiles + [profile] &&
      db.tickets == kept.tickets && db.notifications == kept.notifications && db.history == kept.history
    ensures forall u :: u in old(db.users) && u.username != name ==> Some(u.id) != removed && u in db.users
    ensures forall u :: u in db.users ==> u in old(db.users) || u == account
    ensures forall p :: p in old(db.staffProfiles) && Some(p.user) != removed ==> p in db.staffProfiles
    ensures forall p :: p in db.staffProfiles ==> p in old(db.staffProfiles) || p == profile
  {
    removed := RemoveNamedUser(db, name);
    account, profile := AddStaffAccount(db, name, email, password, office);
  }

  /** Creating an office first changes nothing about what deleting a user leaves in the other tables. */
  lemma {:induction false} DeletionIgnoresOffices(t0: Tables, t1: Tables, removed: Option<UserId>)
    requires t1 == t0.(offices := t1.offices, nextOfficeId := t1.nextOfficeId)
    ensures var k0 := if removed.Some? then AfterDeleteUser(t0, removed.value) else t0;
      var k1 := if removed.Some? then AfterDeleteUser(t1, removed.value) else t1;
      k1.users == k0.users && k1.staffProfiles == k0.staffProfiles &&
      k1.tickets == k0.tickets && k1.notifications == k0.notifications && k1.history == k0.history
  {
  }

  /**
   * One pass of the loop body. `removed` is the id of the same-named user it deleted, if
   * any; the tables are as that deletion leaves them, plus the seed's office (when none of
   * that name existed), its account and its profile.
   */
  method SeedOffice(db: Database, seed: OfficeSeed) returns (office: Office, account: User, profile: StaffProfile, removed: Option<UserId>)
    requires db.Valid()
    modifies db`users, db`offices, db`staffProfiles, db`tickets, db`notifications, db`history
    modifies db`nextUserId, db`nextOfficeId, db`nextProfileId
    ensures db.Valid()
    ensures Seeded(db.users, db.offices, db.staffProfiles, seed, office, account, profile)
    ensures FindOfficeNamed(old(db.offices), seed.name).Some? ==> db.offices == old(db.offices)
    ensures FindOfficeNamed(old(db.offices), seed.name).None? ==> db.offices == old(db.offices) + [office]
    ensures forall o :: o in old(db.offices) ==> o in db.offices
    ensures forall o :: o in db.offices ==> o in old(db.offices) || o == office
    ensures removed.Some? <==> FindByUsername(old(db.users), Username(seed.email)).Some?
    ensures removed.Some? ==> removed.value == FindByUsername(old(db.users), Username(seed.email)).value.id
    ensures account == User(old(db.nextUserId), Username(seed.email), NormalizeEmail(seed.email), "", "", true, MakePassword(seed.password))
    ensures profile == StaffProfile(old(db.nextProfileId), account.id, office.id)
    ensures var kept := if removed.Some? then AfterDeleteUser(old(db.Snapshot()), removed.value) else old(db.Snapshot());
      db.users == kept.users + [account] && db.staffProfiles == kept.staffProfiles + [profile] &&
      db.tickets == kept.tickets && db.notifications == kept.notifications && db.history == kept.history
    ensures forall u :: u in old(db.users) && u.username != Username(seed.email) ==> Some(u.id) != removed && u in db.users
    ensures forall u :: u in db.users ==> u in old(db.users) || u == account
    ensures forall p :: p in old(db.staffProfiles) && Some(p.user) != removed ==> p in db.staffProfiles
    ensures forall p :: p in db.staffProfiles ==> p in old(db.staffProfiles) || p == profile
  {
    ghost var t0 := db.Snapshot();
    var created;
    office, created := db.GetOrCreateOffice(seed.name);
    ghost var t1 := db.Snapshot();
    assert t1 == t0.(offices := t1.offices, nextOfficeId := t1.nextOfficeId);
    account, profile, removed := ReplaceAccount(db, Username(seed.email), seed.email, seed.password, office);
    DeletionIgnoresOffices(t0, t1, removed);
    CheckPasswordExact(seed.password, seed.password);
    assert account in db.users && profile in db.staffProfiles;
  }

  function SeedNames(seeds: seq<OfficeSeed>): set<string>
  {
    set j | 0 <= j < |seeds| :: seeds[j].name
  }

  /** The user names the seeds take. */
  function SeedUsernameSet(seeds: seq<OfficeSeed>): (r: set<string>)
    ensures forall j :: 0 <= j < |seeds| ==> Username(seeds[j].email) in r
  {
    if seeds == [] then {} else SeedUsernameSet(seeds[..|seeds| - 1]) + {Username(seeds[|seeds| - 1].email)}
  }

  /** The ids of the users in `users` whose name one of the seeds takes. */
  function NamedUserIds(users: seq<User>, seeds: seq<OfficeSeed>): set<UserId>
  {
    set u | u in users && u.username in SeedUsernameSet(seeds) :: u.id
  }

  lemma {:induction false} SeedUsernameSetGrows(seeds: seq<OfficeSeed>, i: nat)
    requires i < |seeds|
    ensures SeedUsernameSet(seeds[..i + 1]) == SeedUsernameSet(seeds[..i]) + {Username(seeds[i].email)}
  {
    assert seeds[..i + 1][..i] == seeds[..i];
  }

  // ---- what the first `i` seeds have left in the tables `t0` ---------------------------

  /** Each of the first `i` seeds has its office, account and profile in `t`. */
  ghost predicate RowsSeeded(t: Tables, seeds: seq<OfficeSeed>, i: nat,
                             offices: seq<Office>, accounts: seq<User>, profiles: seq<StaffProfile>)
    requires i <= |seeds|
  {
    |offices| == |accounts| == |profiles| == i &&
    forall j :: 0 <= j < i ==> Seeded(t.users, t.offices, t.staffProfiles, seeds[j], offices[j], accounts[j], profiles[j])
  }

  /** The old offices are kept, and every new one bears a seed's name. */
  ghost predicate OfficesFrom(t0: Tables, t: Tables, seeds: seq<OfficeSeed>)
  {
    (forall o :: o in t0.offices ==> o in t.offices) &&
    (forall o :: o in t.offices ==> o in t0.offices || o.name in SeedNames(seeds))
  }

  /** Every user is an old one or a seed's account, and old users no seed names are kept. */
  ghost predicate UsersFrom(t0: Tables, t: Tables, names: set<string>, accounts: seq<User>)
  {
    (forall u :: u in t.users ==> u in t0.users || u in accounts) &&
    (forall u :: u in t0.users && u.username !in names ==> u in t.users)
  }

  /** Every profile is an old one or a seed's, and the old profiles of unnamed users are kept. */
  ghost predicate ProfilesFrom(t0: Tables, t: Tables, named: set<UserId>, profiles: seq<StaffProfile>)
  {
    (forall p :: p in t.staffProfiles ==> p in t0.staffProfiles || p in profiles) &&
    (forall p :: p in t0.staffProfiles && p.user !in named ==> p in t.staffProfiles)
  }

  /** Tickets, notifications and history are as deleting `gone`, exactly the users `named`, leaves them. */
  ghost predicate DeletedFrom(t0: Tables, t: Tables, named: set<UserId>, gone: seq<UserId>)
  {
    (forall id :: id in gone <==> id in named) &&
    var after := AfterDeleteUsers(t0, gone);
    t.tickets == after.tickets && t.notifications == after.notifications && t.history == after.history
  }

  ghost predicate SeededSoFar(t0: Tables, t: Tables, seeds: seq<OfficeSeed>, i: nat, offices: seq<Office>,
                              accounts: seq<User>, profiles: seq<StaffProfile>, gone: seq<UserId>)
    requires i <= |seeds|
  {
    RowsSeeded(t, seeds, i, offices, accounts, profiles) &&
    OfficesFrom(t0, t, seeds) &&
    UsersFrom(t0, t, SeedUsernameSet(seeds[..i]), accounts) &&
    ProfilesFrom(t0, t, NamedUserIds(t0.users, seeds[..i]), profiles) &&
    DeletedFrom(t0, t, NamedUserIds(t0.users, seeds[..i]), gone)
  }

  /**
   * The user one seed deletes is an old user that this seed names, and every old user
   * this seed names, and no earlier one did, is the one it deletes.
   */
  lemma {:induction false} SeedRemovesNamed(t0: Tables, t: Tables, seeds: seq<OfficeSeed>, i: nat,
                                            accounts: seq<User>, removed: Option<UserId>)
    requires i < |seeds| && DistinctUsernames(seeds) && Consistent(t)
    requires |accounts| == i && forall j :: 0 <= j < i ==> accounts[j].username == Username(seeds[j].email)
    requires UsersFrom(t0, t, SeedUsernameSet(seeds[..i]), accounts)
    requires removed.Some? <==> FindByUsername(t.users, Username(seeds[i].email)).Some?
    requires removed.Some? ==> removed.value == FindByUsername(t.users, Username(seeds[i].email)).value.id
    ensures removed.Some? ==> removed.value in NamedUserIds(t0.users, seeds[..i + 1])
    ensures forall id :: id in NamedUserIds(t0.users, seeds[..i + 1]) <==> id in NamedUserIds(t0.users, seeds[..i]) || Some(id) == removed
  {
    var name := Username(seeds[i].email);
    SeedUsernameSetGrows(seeds, i);
    if removed.Some? {
      var v := FindByUsername(t.users, name).value;
      forall j | 0 <= j < i
        ensures accounts[j] != v
      {
        assert Username(seeds[j].email) != name;
      }
      assert v in t0.users;
    }
    forall id | id in NamedUserIds(t0.users, seeds[..i + 1]) && id !in NamedUserIds(t0.users, seeds[..i])
      ensures Some(id) == removed
    {
      var u :| u in t0.users && u.username in SeedUsernameSet(seeds[..i + 1]) && u.id == id;
      assert u in t.users;
      var k :| 0 <= k < |t.users| && t.users[k] == u;
      FindByUsernameUnique(t.users, k);
    }
  }

  /** The earlier seeds' rows survive a pass that deletes only a user named by this seed. */
  lemma {:induction false} RowsStep(t: Tables, t2: Tables, seeds: seq<OfficeSeed>, i: nat, offices: seq<Office>,
                                    accounts: seq<User>, profiles: seq<StaffProfile>,
                                    office: Office, account: User, profile: StaffProfile, removed: Option<UserId>)
    requires i < |seeds| && DistinctUsernames(seeds)
    requires RowsSeeded(t, seeds, i, offices, accounts, profiles)
    requires Seeded(t2.users, t2.offices, t2.staffProfiles, seeds[i], office, account, profile)
    requires forall o :: o in t.offices ==> o in t2.offices
    requires forall u :: u in t.users && u.username != Username(seeds[i].email) ==> Some(u.id) != removed && u in t2.users
    requires forall p :: p in t.staffProfiles && Some(p.user) != removed ==> p in t2.staffProfiles
    ensures RowsSeeded(t2, seeds, i + 1, offices + [office], accounts + [account], profiles + [profile])
  {
    forall j | 0 <= j < i + 1
      ensures Seeded(t2.users, t2.offices, t2.staffProfiles, seeds[j], (offices + [office])[j], (accounts + [account])[j], (profiles + [profile])[j])
    {
      if j < i {
        assert Username(seeds[j].email) != Username(seeds[i].email);
        assert accounts[j] in t.users && profiles[j] in t.staffProfiles;
      }
    }
  }

  lemma {:induction false} UsersStep(t0: Tables, t: Tables, t2: Tables, names: set<string>, name: string,
                                     accounts: seq<User>, account: User, removed: Option<UserId>)
    requires UsersFrom(t0, t, names, accounts)
    requires forall u :: u in t.users && u.username != name ==> Some(u.id) != removed && u in t2.users
    requires forall u :: u in t2.users ==> u in t.users || u == account
    ensures UsersFrom(t0, t2, names + {name}, accounts + [account])
  {
  }

  lemma {:induction false} ProfilesStep(t0: Tables, t: Tables, t2: Tables, named: set<UserId>, named': set<UserId>,
                                        profiles: seq<StaffProfile>, profile: StaffProfile, removed: Option<UserId>)
    requires ProfilesFrom(t0, t, named, profiles)
    requires named <= named' && (removed.Some? ==> removed.value in named')
    requires forall p :: p in t.staffProfiles && Some(p.user) != removed ==> p in t2.staffProfiles
    requires forall p :: p in t2.staffProfiles ==> p in t.staffProfiles || p == profile
    ensures ProfilesFrom(t0, t2, named', profiles + [profile])
  {
  }

  lemma {:induction false} DeletedStep(t0: Tables, t: Tables, t2: Tables, named: set<UserId>, named': set<UserId>,
                                       gone: seq<UserId>, removed: Option<UserId>)
    requires DeletedFrom(t0, t, named, gone)
    requires forall id :: id in named' <==> id in named || Some(id) == removed
    requires var kept := if removed.Some? then AfterDeleteUser(t, removed.value) else t;
      t2.tickets == kept.tickets && t2.notifications == kept.notifications && t2.history == kept.history
    ensures DeletedFrom(t0, t2, named', if removed.Some? then gone + [removed.value] else gone)
  {
    if removed.Some? {
      var gone' := gone + [removed.value];
      assert gone'[..|gone|] == gone;
      assert AfterDeleteUsers(t0, gone') == AfterDeleteUser(AfterDeleteUsers(t0, gone), removed.value);
    }
  }

  /** One seed's pass keeps `SeededSoFar` with its own office, account and profile added. */
  lemma {:induction false} SeedStep(t0: Tables, t: Tables, t2: Tables, seeds: seq<OfficeSeed>, i: nat, offices: seq<Office>,
                                    accounts: seq<User>, profiles: seq<StaffProfile>, gone: seq<UserId>,
                                    office: Office, account: User, profile: StaffProfile, removed: Option<UserId>)
    requires i < |seeds| && DistinctUsernames(seeds) && Consistent(t)
    requires SeededSoFar(t0, t, seeds, i, offices, accounts, profiles, gone)
    requires Seeded(t2.users, t2.offices, t2.staffProfiles, seeds[i], office, account, profile)
    requires forall o :: o in t.offices ==> o in t2.offices
    requires forall o :: o in t2.offices ==> o in t.offices || o == office
    requires removed.Some? <==> FindByUsername(t.users, Username(seeds[i].email)).Some?
    requires removed.Some? ==> removed.value == FindByUsername(t.users, Username(seeds[i].email)).value.id
    requires var kept := if removed.Some? then AfterDeleteUser(t, removed.value) else t;
      t2.tickets == kept.tickets && t2.notifications == kept.notifications && t2.history == kept.history
    requires forall u :: u in t.users && u.username != Username(seeds[i].email) ==> Some(u.id) != removed && u in t2.users
    requires forall u :: u in t2.users ==> u in t.users || u == account
    requires forall p :: p in t.staffProfiles && Some(p.user) != removed ==> p in t2.staffProfiles
    requires forall p :: p in t2.staffProfiles ==> p in t.staffProfiles || p == profile
    ensures SeededSoFar(t0, t2, seeds, i + 1, offices + [office], accounts + [account], profiles + [profile],
                        if removed.Some? then gone + [removed.value] else gone)
  {
    var name := Username(seeds[i].email);
    var named, named' := NamedUserIds(t0.users, seeds[..i]), NamedUserIds(t0.users, seeds[..i + 1]);
    SeedUsernameSetGrows(seeds, i);
    assert forall j :: 0 <= j < i ==> accounts[j].username == Username(seeds[j].email);
    SeedRemovesNamed(t0, t, seeds, i, accounts, removed);
    RowsStep(t, t2, seeds, i, offices, accounts, profiles, office, account, profile, removed);
    assert seeds[i].name in SeedNames(seeds);
    UsersStep(t0, t, t2, SeedUsernameSet(seeds[..i]), name, accounts, account, removed);
    ProfilesStep(t0, t, t2, named, named', profiles, profile, removed);
    DeletedStep(t0, t, t2, named, named', gone, removed);
  }

  /** One iteration of the script's loop: seed `i` runs, and its rows join what the earlier seeds left. */
  method SeedNext(db: Database, seeds: seq<OfficeSeed>, i: nat, ghost t0: Tables, offices: seq<Office>,
                  accounts: seq<User>, profiles: seq<StaffProfile>, ghost gone: seq<UserId>)
    returns (offices': seq<Office>, accounts': seq<User>, profiles': seq<StaffProfile>, ghost gone': seq<UserId>)
    requires i < |seeds| && DistinctUsernames(seeds) && db.Valid()
    requires SeededSoFar(t0, db.Snapshot(), seeds, i, offices, accounts, profiles, gone)
    modifies db`users, db`offices, db`staffProfiles, db`tickets, db`notifications, db`history
    modifies db`nextUserId, db`nextOfficeId, db`nextProfileId
    ensures db.Valid()
    ensures SeededSoFar(t0, db.Snapshot(), seeds, i + 1, offices', accounts', profiles', gone')
  {
    ghost var t := db.Snapshot();
    var office, account, profile, removed := SeedOffice(db, seeds[i]);
    SeedStep(t0, t, db.Snapshot(), seeds, i, offices, accounts, profiles, gone, office, account, profile, removed);
    offices', accounts', profiles' := offices + [office], accounts + [account], profiles + [profile];
    gone' := if removed.Some? then gone + [removed.value] else gone;
  }

  /**
   * The whole script over `seeds`, in order. Returns, per seed, the office, the account
   * and the profile it made, and (as `gone`) the old users it deleted because a seed
   * takes their name. No other office, user or profile appears; the users and profiles of
   * users no seed names are kept; and tickets, notifications and history are as deleting
   * `gone` leaves them.
   */
  method CreateStaffAccounts(db: Database, seeds: seq<OfficeSeed>)
    returns (offices: seq<Office>, accounts: seq<User>, profiles: seq<StaffProfile>, ghost gone: seq<UserId>)
    requires db.Valid() && DistinctUsernames(seeds)
    modifies db`users, db`offices, db`staffProfiles, db`tickets, db`notifications, db`history
    modifies db`nextUserId, db`nextOfficeId, db`nextProfileId
    ensures db.Valid()
    ensures |offices| == |accounts| == |profiles| == |seeds|
    ensures forall j :: 0 <= j < |seeds| ==>
      Seeded(db.users, db.offices, db.staffProfiles, seeds[j], offices[j], accounts[j], profiles[j])
    ensures forall o :: o in old(db.offices) ==> o in db.offices
    ensures forall o :: o in db.offices ==> o in old(db.offices) || o.name in SeedNames(seeds)
    ensures forall u :: u in db.users ==> u in old(db.users) || u in accounts
    ensures forall u :: u in old(db.users) && u.username !in SeedUsernameSet(seeds) ==> u in db.users
    ensures forall p :: p in db.staffProfiles ==> p in old(db.staffProfiles) || p in profiles
    ensures forall p :: p in old(db.staffProfiles) && p.user !in NamedUserIds(old(db.users), seeds) ==> p in db.staffProfiles
    ensures forall id :: id in gone <==> id in NamedUserIds(old(db.users), seeds)
    ensures var after := AfterDeleteUsers(old(db.Snapshot()), gone);
      db.tickets == after.tickets && db.notifications == after.notifications && db.history == after.history
  {
    ghost var t0 := db.Snapshot();
    offices, accounts, profiles, gone := [], [], [], [];
    var i := 0;
    while i < |seeds|
      invariant 0 <= i <= |seeds|
      invariant db.Valid()
      invariant SeededSoFar(t0, db.Snapshot(), seeds, i, offices, accounts, profiles, gone)
    {
      offices, accounts, profiles, gone := SeedNext(db, seeds, i, t0, offices, accounts, profiles, gone);
      i := i + 1;
    }
    assert seeds[..i] == seeds;
  }

  /**
   * With only the script's offices, an academic ticket finds no office: the routing table
   * names the registrar with U+2019 and the script with an ASCII apostrophe.
   */
  lemma SeededRegistrarUnrouted(offices: seq<Office>, profiles: seq<StaffProfile>)
    requires forall k :: 0 <= k < |offices| ==> offices[k].name in SeedNames(Seeds)
    ensures Route(CategoryMap, offices, profiles, "academic") == NoSuchOffice
  {
    forall k | 0 <= k < |offices|
      ensures offices[k].name != CategoryMap["academic"]
    {
      var j :| 0 <= j < |Seeds| && offices[k].name == Seeds[j].name;
      if j == 0 {
        assert Seeds[j].name[9] != CategoryMap["academic"][9];
      } else {
        assert |Seeds[j].name| != |CategoryMap["academic"]|;
      }
    }
  }

  /** Which seed staffs the office each intended category is routed to. */
  function SeedFor(category: string): (j: nat)
    requires category in IntendedCategoryMap
    ensures j < |IntendedSeeds| && IntendedSeeds[j].name == IntendedCategoryMap[category]
  {
    if category == "academic" then 0
    else if category == "technical" then 1
    else if category == "facilities" then 2
    else if category == "lostfound" then 3
    else 5
  }

  /**
   * Once the corrected seeds have run, every category of the corrected routing table
   * reaches a staff member.
   */
  lemma IntendedSeedsStaffEveryCategory(offices: seq<Office>, profiles: seq<StaffProfile>,
                                        seeded: seq<Office>, links: seq<StaffProfile>)
    requires DistinctBy(offices, OfficeNameKey)
    requires |seeded| == |links| == |IntendedSeeds|
    requires forall j :: 0 <= j < |IntendedSeeds| ==>
      seeded[j] in offices && seeded[j].name == IntendedSeeds[j].name && links[j] in profiles && links[j].office == seeded[j].id
    ensures forall c :: c in IntendedCategoryMap ==>
      Route(IntendedCategoryMap, offices, profiles, c).Assigned? && Route(IntendedCategoryMap, offices, profiles, c).staff.Some?
  {
    forall c | c in IntendedCategoryMap
      ensures Route(IntendedCategoryMap, offices, profiles, c).Assigned? && Route(IntendedCategoryMap, offices, profiles, c).staff.Some?
    {
      var j := SeedFor(c);
      var k :| 0 <= k < |offices| && offices[k] == seeded[j];
      var i :| 0 <= i < |profiles| && profiles[i] == links[j];
      StaffedOfficeRoutes(IntendedCategoryMap, offices, profiles, c, k, i);
    }
  }

  /** The script as written, run on an empty database: academic tickets then find no office. */
  method SeedAsWritten() returns (db: Database)
    ensures db.Valid()
    ensures Route(CategoryMap, db.offices, db.staffProfiles, "academic") == NoSuchOffice
  {
    db := new Database();
    SeedsDistinct();
    var offices, accounts, profiles, gone := CreateStaffAccounts(db, Seeds);
    forall k | 0 <= k < |db.offices|
      ensures db.offices[k].name in SeedNames(Seeds)
    {
      assert db.offices[k] in db.offices;
    }
    SeededRegistrarUnrouted(db.offices, db.staffProfiles);
  }

  /** The corrected script on an empty database: every corrected category reaches a staff member. */
  method SeedIntended() returns (db: Database)
    ensures db.Valid()
    ensures forall c :: c in IntendedCategoryMap ==>
      Route(IntendedCategoryMap, db.offices, db.staffProfiles, c).Assigned? &&
      Route(IntendedCategoryMap, db.offices, db.staffProfiles, c).staff.Some?
  {
    db := new Database();
    IntendedSeedsDistinct();
    var offices, accounts, profiles, gone := CreateStaffAccounts(db, IntendedSeeds);
    OfficeNamesDistinct(db.Snapshot());
    IntendedSeedsStaffEveryCategory(db.offices, db.staffProfiles, offices, profiles);
  }
}
