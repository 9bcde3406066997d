/** The account controller (backend/src/controllers/authController.js):
    registration and login, profile and password edits, and the linking of
    Google and GitHub identities, which keeps every account reachable by at
    least one login method. A stored password stands for its bcrypt hash,
    and comparing a candidate with it is equality. */
module Auth {
  import opened Common
  import opened Rows
  import opened Db

  /** The shortest password register, changePassword and setPassword accept. */
  const MinPasswordLength: nat := 8

  /** A password the controllers accept: present, non-empty, and at least 8
      long as JavaScript's `length` counts, in UTF-16 code units. */
  predicate StrongEnough(p: Option<string>) {
    IsSet(p) && Utf16Length(p.value) >= MinPasswordLength
  }

  /** The length rule counts code units, not characters: four characters
      outside the Basic Multilingual Plane make a long enough password, and
      seven inside it do not. */
  lemma LengthInCodeUnits()
    ensures StrongEnough(Some("\U{1F511}\U{1F511}\U{1F511}\U{1F511}"))
    ensures !StrongEnough(Some("passwrd"))
  {
    var c := '\U{1F511}';
    assert c as int > 0xFFFF;
    assert [c, c, c, c][..3] == [c, c, c] && [c, c, c][..2] == [c, c] && [c, c][..1] == [c] && [c][..0] == [];
    assert Utf16Length([c, c]) == 4;
    assert Utf16Length([c, c, c, c]) == 8;
  }

  /** The user can sign in some way: a password, Google or GitHub. */
  predicate HasLogin(u: User) {
    IsSet(u.password) || IsSet(u.googleId) || IsSet(u.githubId)
  }

  predicate EmailTaken(U: map<Id, User>, email: string) {
    exists k :: k in U && U[k].email == email
  }

  // ---------------------------------------------------------------- register and login

  /** The row `User.create` inserts: nothing used, the default quota, no
      linked provider, the email not yet verified. */
  function NewUser(email: string, password: string, firstName: Option<string>, lastName: Option<string>): (u: User)
    ensures u.storageUsed == 0 && u.storageQuota == DefaultQuota
    ensures u.googleId.None? && u.githubId.None? && !u.isEmailVerified
  {
    User(email, Some(password), firstName, lastName, 0, DefaultQuota, None, None, None, false)
  }

  /** register: email and password are required, the password needs eight
      characters, and an email already in use is a conflict. */
  method Register(st: Store, email: Option<string>, password: Option<string>,
                  firstName: Option<string>, lastName: Option<string>)
    returns (status: Status, id: Id)
    requires st.Valid()
    modifies st
    ensures st.Valid()
    ensures status in {Ok, BadRequest, Conflict}
    ensures status == BadRequest <==> !IsSet(email) || !StrongEnough(password)
    ensures status == Conflict <==> status != BadRequest && EmailTaken(old(st.users), email.value)
    ensures status != Ok ==> st.Snapshot() == old(st.Snapshot())
    ensures status == Ok ==>
      && id == old(st.nextId) && id !in old(st.users)
      && st.Snapshot() == old(st.Snapshot()).(
           users := old(st.users)[id := NewUser(email.value, password.value, firstName, lastName)],
           nextId := old(st.nextId) + 1)
      && HasLogin(st.users[id])
  {
    id := 0;
    if !IsSet(email) || !IsSet(password) {
      return BadRequest, id;
    }
    if Utf16Length(password.value) < MinPasswordLength {
      return BadRequest, id;
    }
    if EmailTaken(st.users, email.value) {
      return Conflict, id;
    }
    var u := NewUser(email.value, password.value, firstName, lastName);
    ghost var T := st.Snapshot();
    AddUserKeeps(T, u);
    id := st.nextId;
    st.users, st.nextId := st.users[id := u], st.nextId + 1;
    assert st.Snapshot() == T.(users := T.users[id := u], nextId := T.nextId + 1);
    status := Ok;
  }

  /** login: email and password are required; an unknown email and a wrong
      password are refused alike. */
  method Login(st: Store, email: Option<string>, password: Option<string>) returns (status: Status, id: Id)
    requires st.Valid()
    ensures status in {Ok, BadRequest, Unauthorized}
    ensures status == BadRequest <==> !IsSet(email) || !IsSet(password)
    ensures status == Ok <==> status != BadRequest && exists k :: k in st.users && st.users[k].email == email.value && st.users[k].password == password
    ensures status == Ok ==> id in st.users && st.users[id].email == email.value && st.users[id].password == password
  {
    id := 0;
    if !IsSet(email) || !IsSet(password) {
      return BadRequest, id;
    }
    if !EmailTaken(st.users, email.value) {
      return Unauthorized, id;
    }
    var k :| k in st.users && st.users[k].email == email.value;
    assert AccountsDistinct(st.users);
    if st.users[k].password != password {
      return Unauthorized, id;
    }
    return Ok, k;
  }

  // ---------------------------------------------------------------- profile and password

  /** The row updateProfile saves: a new email (truthy and different)
      replaces the old one and clears the verification flag; an empty first
      or last name leaves the stored one. */
  function UpdatedProfile(u: User, firstName: Option<string>, lastName: Option<string>, email: Option<string>): (v: User)
    ensures v.email == (if IsSet(email) then email.value else u.email)
    ensures v.isEmailVerified == (u.isEmailVerified && !(IsSet(email) && email.value != u.email))
    ensures v.firstName == (if IsSet(firstName) then firstName else u.firstName)
    ensures v.lastName == (if IsSet(lastName) then lastName else u.lastName)
    ensures v.(email := u.email, isEmailVerified := u.isEmailVerified, firstName := u.firstName, lastName := u.lastName) == u
  {
    var u1 := if IsSet(email) && email.value != u.email then u.(email := email.value, isEmailVerified := false) else u;
    var u2 := if IsSet(firstName) then u1.(firstName := firstName) else u1;
    if IsSet(lastName) then u2.(lastName := lastName) else u2
  }

  /** updateProfile: an email held by another account is a conflict and
      nothing changes. */
  method UpdateProfile(st: Store, userId: Id, firstName: Option<string>, lastName: Option<string>, email: Option<string>)
    returns (status: Status)
    requires st.Valid() && userId in st.users
    modifies st
    ensures st.Valid()
    ensures status in {Ok, Conflict}
    ensures status == Conflict <==>
      IsSet(email) && email.value != old(st.users)[userId].email && EmailTaken(old(st.users), email.value)
    ensures status != Ok ==> st.Snapshot() == old(st.Snapshot())
    ensures status == Ok ==>
      st.Snapshot() == old(st.Snapshot()).(users := old(st.users)[userId := UpdatedProfile(old(st.users)[userId], firstName, lastName, email)])
  {
    var u := st.users[userId];
    if IsSet(email) && email.value != u.email && EmailTaken(st.users, email.value) {
      return Conflict;
    }
    var v := UpdatedProfile(u, firstName, lastName, email);
    ghost var T := st.Snapshot();
    assert AccountsDistinct(T.users);
    AccountEditKeeps(T, userId, v);
    st.users := st.users[userId := v];
    assert st.Snapshot() == T.(users := T.users[userId := v]);
    status := Ok;
  }

  /** changePassword: both passwords are required and the new one needs eight
      characters; an account without a password must set one first; the
      current password must match. */
  method ChangePassword(st: Store, userId: Id, currentPassword: Option<string>, newPassword: Option<string>)
    returns (status: Status)
    requires st.Valid() && userId in st.users
    modifies st
    ensures st.Valid()
    ensures status in {Ok, BadRequest, Unauthorized}
    ensures status == BadRequest <==>
      !IsSet(currentPassword) || !StrongEnough(newPassword) || !IsSet(old(st.users)[userId].password)
    ensures status == Unauthorized <==> status != BadRequest && old(st.users)[userId].password != currentPassword
    ensures status != Ok ==> st.Snapshot() == old(st.Snapshot())
    ensures status == Ok ==>
      st.Snapshot() == old(st.Snapshot()).(users := old(st.users)[userId := old(st.users)[userId].(password := newPassword)])
  {
    if !IsSet(currentPassword) || !IsSet(newPassword) {
      return BadRequest;
    }
    if Utf16Length(newPassword.value) < MinPasswordLength {
      return BadRequest;
    }
    var u := st.users[userId];
    if !IsSet(u.password) {
      return BadRequest;
    }
    if u.password != currentPassword {
      return Unauthorized;
    }
    SavePassword(st, userId, newPassword);
    status := Ok;
  }

  /** setPassword: for an account that has no password yet. */
  method SetPassword(st: Store, userId: Id, newPassword: Option<string>) returns (status: Status)
    requires st.Valid() && userId in st.users
    modifies st
    ensures st.Valid()
    ensures status in {Ok, BadRequest}
    ensures status == BadRequest <==> !StrongEnough(newPassword) || IsSet(old(st.users)[userId].password)
    ensures status != Ok ==> st.Snapshot() == old(st.Snapshot())
    ensures status == Ok ==>
      st.Snapshot() == old(st.Snapshot()).(users := old(st.users)[userId := old(st.users)[userId].(password := newPassword)])
  {
    if !IsSet(newPassword) || Utf16Length(newPassword.value) < MinPasswordLength {
      return BadRequest;
    }
    if IsSet(st.users[userId].password) {
      return BadRequest;
    }
    SavePassword(st, userId, newPassword);
    status := Ok;
  }

  /** `user.password = newPassword; await user.save()`. */
  method SavePassword(st: Store, userId: Id, password: Option<string>)
    requires st.Valid() && userId in st.users
    modifies st
    ensures st.Valid()
    ensures st.Snapshot() == old(st.Snapshot()).(users := old(st.users)[userId := old(st.users)[userId].(password := password)])
  {
    ghost var T := st.Snapshot();
    var u := st.users[userId].(password := password);
    UserEditKeeps(T, userId, u);
    st.users := st.users[userId := u];
    assert st.Snapshot() == T.(users := T.users[userId := u]);
  }

  // ---------------------------------------------------------------- linked accounts

  datatype Provider = Google | GitHub

  function Other(p: Provider): Provider {
    if p == Google then GitHub else Google
  }

  /** The provider's id column. */
  function ProviderId(u: User, p: Provider): Option<string> {
    if p == Google then u.googleId else u.githubId
  }

  /** The row after the provider's column is set to `v`. */
  function WithProviderId(u: User, p: Provider, v: Option<string>): (w: User)
    ensures ProviderId(w, p) == v && ProviderId(w, Other(p)) == ProviderId(u, Other(p))
    ensures w.email == u.email && w.password == u.password && w.profilePicture == u.profilePicture
  {
    if p == Google then u.(googleId := v) else u.(githubId := v)
  }

  /** Another account already holds this provider id. */
  predicate HeldElsewhere(U: map<Id, User>, userId: Id, p: Provider, accountId: string) {
    exists k :: k in U && k != userId && ProviderId(U[k], p) == Some(accountId)
  }

  /** The row linkGoogle and linkGitHub save: the provider id, and the
      provider's first photo when it sent one. */
  function Linked(u: User, p: Provider, accountId: string, photo: Option<string>): User {
    WithProviderId(u, p, Some(accountId)).(profilePicture := if photo.Some? then photo else u.profilePicture)
  }

  /** linkGoogle (`Google`) and linkGitHub (`GitHub`): a provider id held by
      another account is a conflict; linking it again to the same account
      is allowed. */
  method LinkAccount(st: Store, userId: Id, p: Provider, accountId: string, photo: Option<string>)
    returns (status: Status)
    requires st.Valid() && userId in st.users
    modifies st
    ensures st.Valid()
    ensures status in {Ok, Conflict}
    ensures status == Conflict <==> HeldElsewhere(old(st.users), userId, p, accountId)
    ensures status != Ok ==> st.Snapshot() == old(st.Snapshot())
    ensures status == Ok ==>
      && st.Snapshot() == old(st.Snapshot()).(users := old(st.users)[userId := Linked(old(st.users)[userId], p, accountId, photo)])
      && forall k :: k in st.users && ProviderId(st.users[k], p) == Some(accountId) ==> k == userId
  {
    if HeldElsewhere(st.users, userId, p, accountId) {
      return Conflict;
    }
    var u := Linked(st.users[userId], p, accountId, photo);
    ghost var T := st.Snapshot();
    assert AccountsDistinct(T.users);
    AccountEditKeeps(T, userId, u);
    st.users := st.users[userId := u];
    assert st.Snapshot() == T.(users := T.users[userId := u]);
    status := Ok;
  }

  /** What unlinking needs: the provider is linked, and a password or the
      other provider remains. */
  predicate CanUnlink(u: User, p: Provider) {
    IsSet(ProviderId(u, p)) && (IsSet(u.password) || IsSet(ProviderId(u, Other(p))))
  }

  /** unlinkGoogle (`Google`) and unlinkGitHub (`GitHub`): refused when the
      provider is not linked or when it is the account's only login method. */
  method UnlinkAccount(st: Store, userId: Id, p: Provider) returns (status: Status)
    requires st.Valid() && userId in st.users
    modifies st
    ensures st.Valid()
    ensures status in {Ok, BadRequest}
    ensures status == BadRequest <==> !CanUnlink(old(st.users)[userId], p)
    ensures status != Ok ==> st.Snapshot() == old(st.Snapshot())
    ensures status == Ok ==>
      && st.Snapshot() == old(st.Snapshot()).(users := old(st.users)[userId := WithProviderId(old(st.users)[userId], p, None)])
      && HasLogin(st.users[userId])
  {
    var u := st.users[userId];
    if !IsSet(ProviderId(u, p)) {
      return BadRequest;
    }
    if !IsSet(u.password) && !IsSet(ProviderId(u, Other(p))) {
      return BadRequest;
    }
    var v := WithProviderId(u, p, None);
    ghost var T := st.Snapshot();
    assert AccountsDistinct(T.users);
    AccountEditKeeps(T, userId, v);
    st.users := st.users[userId := v];
    assert st.Snapshot() == T.(users := T.users[userId := v]);
    UnlinkKeepsLogin(u, p);
    status := Ok;
  }

  /** Unlinking only when allowed leaves a way to sign in; linking,
      unlinking and saving a strong password never take the last one away. */
  lemma UnlinkKeepsLogin(u: User, p: Provider)
    requires CanUnlink(u, p)
    ensures HasLogin(WithProviderId(u, p, None))
    ensures HasLogin(u)
  {
    var w := WithProviderId(u, p, None);
    if !IsSet(u.password) {
      assert IsSet(ProviderId(w, Other(p)));
      if p == Google {
        assert IsSet(w.githubId);
      } else {
        assert IsSet(w.googleId);
      }
    }
  }

  /** The three flags getLinkedAccounts reports, with the provider ids. */
  datatype LinkedAccounts = LinkedAccounts(
    hasPassword: bool, googleLinked: bool, googleId: Option<string>, githubLinked: bool, githubId: Option<string>)

  function GetLinkedAccounts(u: User): (r: LinkedAccounts)
    ensures r.hasPassword == IsSet(u.password)
    ensures r.googleLinked == IsSet(u.googleId) && r.githubLinked == IsSet(u.githubId)
    ensures r.googleId == u.googleId && r.githubId == u.githubId
  {
    LinkedAccounts(IsSet(u.password), IsSet(u.googleId), u.googleId, IsSet(u.githubId), u.githubId)
  }

  /** The report and the unlink guard agree: a provider can be unlinked
      exactly when the report shows it linked and shows another method. */
  lemma LinkedAccountsGuard(u: User)
    ensures CanUnlink(u, Google) <==> GetLinkedAccounts(u).googleLinked && (GetLinkedAccounts(u).hasPassword || GetLinkedAccounts(u).githubLinked)
    ensures CanUnlink(u, GitHub) <==> GetLinkedAccounts(u).githubLinked && (GetLinkedAccounts(u).hasPassword || GetLinkedAccounts(u).googleLinked)
    ensures HasLogin(u) <==> GetLinkedAccounts(u).hasPassword || GetLinkedAccounts(u).googleLinked || GetLinkedAccounts(u).githubLinked
  {
  }
}
