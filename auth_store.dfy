/**
 * The auth store (store/useAuthStore.ts): logged out, logged in as a member,
 * or logged in as admin, decided by two fixed credential checks.  The
 * `async` login actions are modelled as plain methods; nothing they do waits.
 */
module Auth {
  import opened Options

  datatype User = User(id: string, name: string, email: string, isAdmin: bool, avatar: Option<string>)

  /** A `Partial<User>`: `None` is a key the patch does not carry. */
  datatype UserPatch = UserPatch(
    id: Option<string>,
    name: Option<string>,
    email: Option<string>,
    isAdmin: Option<bool>,
    avatar: Option<string>)

  const NoUserChange := UserPatch(None, None, None, None, None)

  /** `{...u, ...d}` */
  function MergeUser(u: User, d: UserPatch): (r: User)
    ensures d.isAdmin.None? ==> r.isAdmin == u.isAdmin
    ensures d == NoUserChange ==> r == u
  {
    User(
      d.id.GetOr(u.id),
      d.name.GetOr(u.name),
      d.email.GetOr(u.email),
      d.isAdmin.GetOr(u.isAdmin),
      if d.avatar.Some? then d.avatar else u.avatar)
  }

  const MinPasswordLength := 6
  const AdminMarker := "admin"
  const AdminPassword := "admin123"
  const MemberId := "1"
  const AdminId := "admin1"
  const AdminName := "Администратор"

  /** `sub` occurs in `s` starting at position `i`. */
  predicate OccursAt(s: string, sub: string, i: int) {
    0 <= i <= |s| - |sub| && s[i..i + |sub|] == sub
  }

  /** `s.includes(sub)`. */
  function HasSubstring(s: string, sub: string): (b: bool)
    ensures b <==> exists i :: OccursAt(s, sub, i)
    decreases |s|
  {
    if |s| < |sub| then false
    else if s[..|sub|] == sub then assert OccursAt(s, sub, 0); true
    else OccursAfterHead(s, sub); HasSubstring(s[1..], sub)
  }

  /** When `sub` is not a prefix of `s`, it occurs in `s` exactly when it occurs in `s` without its first character. */
  lemma OccursAfterHead(s: string, sub: string)
    requires 0 < |sub| <= |s| && !OccursAt(s, sub, 0)
    ensures (exists i :: OccursAt(s, sub, i)) <==> exists i :: OccursAt(s[1..], sub, i)
  {
    forall i | OccursAt(s[1..], sub, i) ensures OccursAt(s, sub, i + 1) {
      assert s[1..][i..i + |sub|] == s[i + 1..i + 1 + |sub|];
    }
    forall i | OccursAt(s, sub, i) ensures OccursAt(s[1..], sub, i - 1) {
      assert s[1..][i - 1..i - 1 + |sub|] == s[i..i + |sub|];
    }
  }

  /** `email.split('@')[0]`: the part of the address before its first '@', or all of it. */
  function NameFromEmail(email: string): (name: string)
    ensures name <= email
    ensures '@' !in name
    ensures |name| < |email| ==> email[|name|] == '@'
  {
    if email == [] || email[0] == '@' then []
    else [email[0]] + NameFromEmail(email[1..])
  }

  /** The member check of `login`: a non-empty address and a password of at least six characters. */
  predicate LoginAccepted(email: string, password: string): (b: bool)
    ensures b <==> email != [] && |password| >= MinPasswordLength
  {
    |email| > 0 && |password| >= MinPasswordLength
  }

  /** The check of `adminLogin`: the address contains "admin" and the password is the fixed one. */
  predicate AdminLoginAccepted(email: string, password: string): (b: bool)
    ensures b <==> (exists i :: OccursAt(email, AdminMarker, i)) && password == AdminPassword
    ensures b ==> |email| >= |AdminMarker|
  {
    HasSubstring(email, AdminMarker) && password == AdminPassword
  }

  /** Sample admin credentials: an accepted pair and a rejected one. */
  lemma AdminLoginExamples()
    ensures AdminLoginAccepted("user@admin.com", "admin123")
    ensures !AdminLoginAccepted("user@admin.com", "wrong")
  {
    assert OccursAt("user@admin.com", AdminMarker, 5);
  }

  /** Sample member credentials: a rejected pair, an accepted one, and the name derived from the address. */
  lemma MemberLoginExamples()
    ensures !LoginAccepted("a@b.com", "12345")
    ensures LoginAccepted("a@b.com", "123456")
    ensures NameFromEmail("a@b.com") == "a"
  {
    var e := "a@b.com";
    assert e[1..] == "@b.com";
    assert NameFromEmail(e[1..]) == [];
  }

  class AuthStore {
    var user: Option<User>
    var isAuthenticated: bool
    var isAdmin: bool

    /** The two flags agree with the user record. */
    ghost predicate Consistent()
      reads this
    {
      isAuthenticated == user.Some? && isAdmin == (user.Some? && user.value.isAdmin)
    }

    /** The logged-out state the store starts in. */
    constructor ()
      ensures user == None && !isAuthenticated && !isAdmin
      ensures Consistent()
    {
      user := None;
      isAuthenticated := false;
      isAdmin := false;
    }

    method Login(email: string, password: string) returns (ok: bool)
      modifies this
      ensures ok == LoginAccepted(email, password)
      ensures ok ==> user == Some(User(MemberId, NameFromEmail(email), email, false, None))
                     && isAuthenticated && !isAdmin
      ensures !ok ==> user == old(user) && isAuthenticated == old(isAuthenticated) && isAdmin == old(isAdmin)
      ensures ok || old(Consistent()) ==> Consistent()
    {
      if LoginAccepted(email, password) {
        user := Some(User(MemberId, NameFromEmail(email), email, false, None));
        isAuthenticated := true;
        isAdmin := false;
        return true;
      }
      return false;
    }

    method AdminLogin(email: string, password: string) returns (ok: bool)
      modifies this
      ensures ok == AdminLoginAccepted(email, password)
      ensures ok ==> user == Some(User(AdminId, AdminName, email, true, None))
                     && isAuthenticated && isAdmin
      ensures !ok ==> user == old(user) && isAuthenticated == old(isAuthenticated) && isAdmin == old(isAdmin)
      ensures ok || old(Consistent()) ==> Consistent()
    {
      if AdminLoginAccepted(email, password) {
        user := Some(User(AdminId, AdminName, email, true, None));
        isAuthenticated := true;
        isAdmin := true;
        return true;
      }
      return false;
    }

    /** Whatever the state before, and however often it is called. */
    method Logout()
      modifies this
      ensures user == None && !isAuthenticated && !isAdmin
      ensures Consistent()
    {
      user := None;
      isAuthenticated := false;
      isAdmin := false;
    }

    /** Merges into a present user only; the store-level flags are left as they are. */
    method UpdateUser(d: UserPatch)
      modifies this
      ensures user == if old(user).Some? then Some(MergeUser(old(user).value, d)) else None
      ensures isAuthenticated == old(isAuthenticated) && isAdmin == old(isAdmin)
      ensures old(Consistent()) && d.isAdmin.None? ==> Consistent()
    {
      user := if user.Some? then Some(MergeUser(user.value, d)) else None;
    }
  }

  /** A member who patches its own record with `isAdmin: true` is an admin in the record but not in the store flag. */
  method UpdateUserCanBreakAdminFlag() returns (store: AuthStore)
    ensures store.isAuthenticated && !store.isAdmin
    ensures store.user.Some? && store.user.value.isAdmin
    ensures !store.Consistent()
  {
    store := new AuthStore();
    var ok := store.Login("a@b.com", "123456");
    store.UpdateUser(NoUserChange.(isAdmin := Some(true)));
  }
}
