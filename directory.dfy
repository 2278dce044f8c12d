/**
 * The staff directory and user accounts the ticket core reads: Django's `User`, and the
 * `Office` and `StaffProfile` rows that `user.models` defines (their declarations are not
 * part of this model; the fields below are the ones the modelled code reads and writes).
 * Password hashing is abstract: `MakePassword` is an injective encoding that is never the
 * identity, standing for Django's `make_password`.
 */
module Directory {
  import opened Wrappers
  import opened Text

  /** Timestamps in microseconds, the resolution of Python's `datetime`. */
  type Time = int

  type UserId = nat
  type OfficeId = nat

  datatype User = User(
    id: UserId,
    username: string,
    email: string,
    firstName: string,
    lastName: string,
    isStaff: bool,
    password: string)   // the encoded (hashed) password

  datatype Office = Office(id: OfficeId, name: string)

  /** Links one staff user to the office they work for. */
  datatype StaffProfile = StaffProfile(id: nat, user: UserId, office: OfficeId)

  const HashPrefix: string := "pbkdf2_sha256$"

  /** Django's `make_password`, as an injective encoding. */
  function MakePassword(raw: string): (encoded: string)
    ensures encoded != raw
    ensures |encoded| > |raw|
  {
    HashPrefix + raw
  }

  /** Django's `check_password(raw, encoded)`. */
  predicate CheckPassword(raw: string, encoded: string)
  {
    encoded == MakePassword(raw)
  }

  /** An encoded password accepts exactly the raw password it was made from. */
  lemma {:induction false} CheckPasswordExact(raw: string, original: string)
    ensures CheckPassword(raw, MakePassword(original)) <==> raw == original
  {
    if CheckPassword(raw, MakePassword(original)) {
      assert raw == MakePassword(raw)[|HashPrefix|..];
    }
  }

  /**
   * Django's `User.get_full_name()`: first and last name joined by a space, stripped.
   * With one name missing it is the other one stripped; with two unpadded names it is
   * both with one space between.
   */
  function FullName(u: User): (r: string)
    ensures Unpadded(r)
    ensures u.lastName == "" ==> r == Strip(u.firstName)
    ensures u.firstName == "" ==> r == Strip(u.lastName)
    ensures u.firstName != "" && u.lastName != "" && Unpadded(u.firstName) && Unpadded(u.lastName) ==>
              r == u.firstName + " " + u.lastName
  {
    var joined := u.firstName + " " + u.lastName;
    if u.lastName == "" then
      FirstNameOnly(u.firstName);
      Strip(joined)
    else if u.firstName == "" then
      LastNameOnly(u.lastName);
      Strip(joined)
    else
      assert joined[0] == u.firstName[0] && joined[|joined| - 1] == u.lastName[|u.lastName| - 1];
      Strip(joined)
  }

  /** A trailing space does not change what Strip keeps. */
  lemma {:induction false} FirstNameOnly(first: string)
    ensures Strip(first + " " + "") == Strip(first)
  {
    var a, r := LeadingSpace(first), Strip(first);
    StripParts(first);
    var tail := first[a + |r|..];
    AllSpaceAppend(tail, " ");
    assert first + " " + "" == first[..a] + r + (tail + " ");
    StripSplit(first[..a], r, tail + " ");
  }

  /** A leading space does not change what Strip keeps. */
  lemma {:induction false} LastNameOnly(last: string)
    ensures Strip("" + " " + last) == Strip(last)
  {
    var a, r := LeadingSpace(last), Strip(last);
    StripParts(last);
    var head := last[..a];
    AllSpaceAppend(" ", head);
    assert "" + " " + last == (" " + head) + r + last[a + |r|..];
    StripSplit(" " + head, r, last[a + |r|..]);
  }

  function FindUser(users: seq<User>, id: UserId): (r: Option<User>)
    ensures r.Some? ==> r.value in users && r.value.id == id
    ensures r.None? ==> forall i :: 0 <= i < |users| ==> users[i].id != id
  {
    if users == [] then None
    else if users[0].id == id then Some(users[0])
    else FindUser(users[1..], id)
  }

  /** `User.objects.filter(username=name).first()` on a table with unique user names. */
  function FindByUsername(users: seq<User>, name: string): (r: Option<User>)
    ensures r.Some? ==> r.value in users && r.value.username == name
    ensures r.None? ==> forall i :: 0 <= i < |users| ==> users[i].username != name
  {
    if users == [] then None
    else if users[0].username == name then Some(users[0])
    else FindByUsername(users[1..], name)
  }

  /** The `unique=True` constraint on `User.username`. */
  predicate UniqueUsernames(users: seq<User>)
  {
    forall i, j :: 0 <= i < j < |users| ==> users[i].username != users[j].username
  }

  /** Under the uniqueness constraint the lookup finds the one user with that name. */
  lemma {:induction false} FindByUsernameUnique(users: seq<User>, i: nat)
    requires UniqueUsernames(users) && i < |users|
    ensures FindByUsername(users, users[i].username) == Some(users[i])
  {
    if i > 0 {
      assert users[0].username != users[i].username;
      assert UniqueUsernames(users[1..]) by {
        forall a, b | 0 <= a < b < |users[1..]|
          ensures users[1..][a].username != users[1..][b].username
        {
          assert users[1..][a] == users[a + 1] && users[1..][b] == users[b + 1];
        }
      }
      FindByUsernameUnique(users[1..], i - 1);
      assert users[1..][i - 1] == users[i];
    }
  }

  /** The full name of a user referenced by id; empty when the id is unknown. */
  function FullNameOf(users: seq<User>, id: UserId): string
  {
    match FindUser(users, id)
    case Some(u) => FullName(u)
    case None => ""
  }

  /** Index of the last `@`, as Python's `str.rpartition('@')` finds it. */
  function LastAt(s: string): (r: Option<nat>)
    ensures r.Some? ==> r.value < |s| && s[r.value] == '@' && '@' !in s[r.value + 1..]
    ensures r.None? ==> '@' !in s
  {
    if s == [] then None
    else if s[|s| - 1] == '@' then Some(|s| - 1)
    else
      var r := LastAt(s[..|s| - 1]);
      assert r.Some? ==> s[r.value + 1..] == s[..|s| - 1][r.value + 1..] + [s[|s| - 1]];
      assert r.None? ==> s == s[..|s| - 1] + [s[|s| - 1]];
      r
  }

  /**
   * `BaseUserManager.normalize_email`: an address with an `@` is stripped, then its
   * domain part (after the last `@`) is lower-cased and its local part kept; an address
   * without one is returned as it is.
   */
  function NormalizeEmail(email: string): (r: string)
    ensures '@' !in email ==> r == email
    ensures var t := Strip(email); LastAt(t).Some? ==>
              var i := LastAt(t).value;
              |r| == |t| && r[..i + 1] == t[..i + 1] && r[i + 1..] == Lower(t[i + 1..])
    ensures LastAt(Strip(email)).None? ==> r == email
  {
    var t := Strip(email);
    match LastAt(t)
    case None => email
    case Some(i) => t[..i + 1] + Lower(t[i + 1..])
  }

  /** For an address with no surrounding white space, the local part through the last `@` is kept and the domain lower-cased. */
  lemma NormalizeUnpadded(email: string)
    requires Unpadded(email) && LastAt(email).Some?
    ensures var i, r := LastAt(email).value, NormalizeEmail(email);
      |r| == |email| && r[..i + 1] == email[..i + 1] && r[i + 1..] == Lower(email[i + 1..])
  {
    var t := Strip(email);
    assert t == email;
    assert LastAt(t) == LastAt(email);
  }
}
