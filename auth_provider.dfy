/** The session: who is signed in, how sign-in picks an account, how a stored
    session is resumed when the page loads, and how the role switcher rewrites
    the signed-in account. The decisions are pure functions of the stored
    users list; the provider class applies them to its session state and to
    local storage. */
module Auth {
  import opened JsBuiltins
  import opened Types
  import opened SeedData
  import opened BrowserStorage

  // ---------------------------------------------------------------------------
  // Reading the users list

  /** The users list as every session operation reads it: the stored list when
      the users key holds one (an empty list included), and the seed users when
      the key is missing or holds the empty text. */
  function LoadUsers(entries: map<string, StoredValue>): (users: seq<User>)
    requires WellTyped(entries)
    ensures UsersStorageKey !in entries || entries[UsersStorageKey].EmptyText? ==> users == AllMockUsers
    ensures UsersStorageKey in entries && !entries[UsersStorageKey].EmptyText? ==>
      entries[UsersStorageKey] == UserList(users)
  {
    if UsersStorageKey in entries && entries[UsersStorageKey].UserList? then entries[UsersStorageKey].users
    else AllMockUsers
  }

  /** A users list written under the users key reads back unchanged, even when
      it is empty; only a missing key or the empty text falls back to the seed
      users, which are not empty. */
  lemma UsersListRoundTrip(entries: map<string, StoredValue>, users: seq<User>)
    requires WellTyped(entries)
    ensures WellTyped(entries[UsersStorageKey := UserList(users)])
    ensures LoadUsers(entries[UsersStorageKey := UserList(users)]) == users
    ensures LoadUsers(entries[UsersStorageKey := UserList([])]) == []
    ensures LoadUsers(entries - {UsersStorageKey}) == AllMockUsers != []
    ensures LoadUsers(entries[UsersStorageKey := EmptyText]) == AllMockUsers
  {
  }

  // ---------------------------------------------------------------------------
  // Sign-in decisions

  /** Whether a user's email equals `email` once both are lower-cased. */
  predicate EmailMatches(u: User, email: string)
  {
    ToLowerCase(u.email) == ToLowerCase(email)
  }

  function EmailIs(email: string): User -> bool
  {
    (u: User) => EmailMatches(u, email)
  }

  function IdIs(id: string): User -> bool
  {
    (u: User) => u.id == id
  }

  predicate IsDonor(u: User)
  {
    u.role == Donor
  }

  /** What a sign-in attempt reports: the account signed into, or which of the
      three failure messages is shown. */
  datatype AuthOutcome =
    | SignedIn(account: User)
    | InactiveAccount
    | InvalidCredentials
    | NoDonorAccount

  /** The decision of `handleAuth`: an account is refused only when its status
      is Inactive, so an account with no status at all is admitted. */
  function Admit(u: User): (r: AuthOutcome)
    ensures r.SignedIn? <==> u.status == None || u.status == Some(Active)
    ensures r.SignedIn? ==> r.account == u
    ensures !r.SignedIn? ==> r == InactiveAccount
  {
    match u.status
    case Some(Inactive) => InactiveAccount
    case Some(Active) => SignedIn(u)
    case None => SignedIn(u)
  }

  /** The outcome of `login(email, password)` over a users list: the first user
      whose email matches ignoring case goes through `Admit`. The password is
      not an input: it is never read. */
  function LoginOutcome(users: seq<User>, email: string): (r: AuthOutcome)
    ensures r == InvalidCredentials <==> forall i :: 0 <= i < |users| ==> !EmailMatches(users[i], email)
    ensures r.SignedIn? ==>
      r.account in users && EmailMatches(r.account, email) && r.account.status != Some(Inactive)
    ensures r != NoDonorAccount
  {
    match Find(users, EmailIs(email))
    case None => InvalidCredentials
    case Some(u) => Admit(u)
  }

  /** `login` decides on the first user whose email matches, whatever the
      later users are. */
  lemma LoginPicksFirstMatch(users: seq<User>, email: string, i: nat)
    requires i < |users| && EmailMatches(users[i], email)
    requires forall j :: 0 <= j < i ==> !EmailMatches(users[j], email)
    ensures LoginOutcome(users, email) == Admit(users[i])
  {
    FindFirst(users, EmailIs(email), i);
  }

  /** Over the seed users an email matches at most one account, and signing in
      with it always succeeds: the seeds carry no status. */
  lemma SeedLoginSignsIntoTheMatchingUser(email: string, i: nat)
    requires i < |AllMockUsers| && EmailMatches(AllMockUsers[i], email)
    ensures LoginOutcome(AllMockUsers, email) == SignedIn(AllMockUsers[i])
    ensures forall j :: 0 <= j < |AllMockUsers| && j != i ==> !EmailMatches(AllMockUsers[j], email)
  {
    SeedEmailsDistinctIgnoringCase();
    SeedUsersShape();
    LoginPicksFirstMatch(AllMockUsers, email, i);
  }

  /** The outcome of `googleLogin` over a users list: the first Donor goes
      through `Admit`. */
  function GoogleOutcome(users: seq<User>): (r: AuthOutcome)
    ensures r == NoDonorAccount <==> forall i :: 0 <= i < |users| ==> !IsDonor(users[i])
    ensures r.SignedIn? ==> r.account in users && r.account.role == Donor && r.account.status != Some(Inactive)
    ensures r != InvalidCredentials
  {
    match Find(users, IsDonor)
    case None => NoDonorAccount
    case Some(u) => Admit(u)
  }

  /** Google sign-in decides on the first Donor alone: it signs into that
      account when it is not Inactive, and fails with the inactive-account
      message when it is, whatever Donors come later. */
  lemma GooglePicksFirstDonor(users: seq<User>, i: nat)
    requires i < |users| && IsDonor(users[i])
    requires forall j :: 0 <= j < i ==> !IsDonor(users[j])
    ensures GoogleOutcome(users) == Admit(users[i])
    ensures users[i].status == Some(Inactive) ==> GoogleOutcome(users) == InactiveAccount
  {
    FindFirst(users, IsDonor, i);
  }

  /** Over the seed users, Google sign-in signs into `user-donor-01`. */
  lemma SeedGoogleLoginSelectsTheDonor()
    ensures GoogleOutcome(AllMockUsers) == SignedIn(MockUser(Donor))
    ensures MockUser(Donor).id == "user-donor-01"
  {
    SeedHasOneDonor();
    FindFirst(AllMockUsers, IsDonor, 4);
  }

  // ---------------------------------------------------------------------------
  // Resuming a stored session

  /** What the page-load effect does with the stored session. */
  datatype Restore =
    | NothingStored    // no stored record (or the empty text): nothing happens
    | Resume(live: User) // the session becomes the live record from the users list
    | Evict            // the stored record is removed

  /** The page-load decision: look the stored record's id up in the users list
      and resume with the live record only when its status is exactly Active. */
  function Restoration(entries: map<string, StoredValue>): (r: Restore)
    requires WellTyped(entries)
    ensures r == NothingStored <==>
      CurrentUserStorageKey !in entries || entries[CurrentUserStorageKey].EmptyText?
    ensures r.Resume? ==>
      && r.live in LoadUsers(entries)
      && r.live.id == entries[CurrentUserStorageKey].user.id
      && r.live.status == Some(Active)
  {
    if CurrentUserStorageKey !in entries || entries[CurrentUserStorageKey].EmptyText? then NothingStored
    else
      var stored := entries[CurrentUserStorageKey].user;
      match Find(LoadUsers(entries), IdIs(stored.id))
      case Some(live) => if live.status == Some(Active) then Resume(live) else Evict
      case None => Evict
  }

  /** When ids in the users list are unique, a stored session is resumed
      exactly when some user with its id is Active. */
  lemma RestoreResumesExactlyActiveUsers(entries: map<string, StoredValue>)
    requires WellTyped(entries)
    requires CurrentUserStorageKey in entries && entries[CurrentUserStorageKey].UserRecord?
    requires var users := LoadUsers(entries);
      forall i, j :: 0 <= i < j < |users| ==> users[i].id != users[j].id
    ensures var users := LoadUsers(entries);
      var id := entries[CurrentUserStorageKey].user.id;
      Restoration(entries).Resume? <==>
        exists i :: 0 <= i < |users| && users[i].id == id && users[i].status == Some(Active)
  {
    var users := LoadUsers(entries);
    var id := entries[CurrentUserStorageKey].user.id;
    if i :| 0 <= i < |users| && users[i].id == id && users[i].status == Some(Active) {
      FindFirst(users, IdIs(id), i);
    }
  }

  /** The page-load decision rests on the first user with the stored id: the
      session is resumed with that user when it is Active and evicted when it
      is not, whatever users with the same id come later. */
  lemma RestorePicksFirstWithId(entries: map<string, StoredValue>, i: nat)
    requires WellTyped(entries)
    requires CurrentUserStorageKey in entries && entries[CurrentUserStorageKey].UserRecord?
    requires i < |LoadUsers(entries)|
    requires LoadUsers(entries)[i].id == entries[CurrentUserStorageKey].user.id
    requires forall j :: 0 <= j < i ==> LoadUsers(entries)[j].id != entries[CurrentUserStorageKey].user.id
    ensures Restoration(entries) ==
      if LoadUsers(entries)[i].status == Some(Active) then Resume(LoadUsers(entries)[i]) else Evict
  {
    FindFirst(LoadUsers(entries), IdIs(entries[CurrentUserStorageKey].user.id), i);
  }

  /** The asymmetry of the seed accounts: a seed user is admitted at sign-in,
      yet a session stored for it is evicted on the next page load while the
      users list is still the seed list, because it has no status at all. */
  lemma SeedSessionIsAdmittedThenEvicted(entries: map<string, StoredValue>, u: User)
    requires WellTyped(entries)
    requires u in AllMockUsers
    requires CurrentUserStorageKey in entries && entries[CurrentUserStorageKey] == UserRecord(u)
    requires UsersStorageKey !in entries || entries[UsersStorageKey] == EmptyText
    ensures Admit(u) == SignedIn(u)
    ensures Restoration(entries) == Evict
  {
    SeedUsersShape();
    assert LoadUsers(entries) == AllMockUsers;
    var idx := FindIndex(AllMockUsers, IdIs(u.id));
    if idx.Some? {
      assert AllMockUsers[idx.value].status == None;
    }
  }

  // ---------------------------------------------------------------------------
  // Switching role

  /** `allUsers.map(u => u.id === switched.id ? switched : u)`. */
  function ReplaceById(users: seq<User>, switched: User): (r: seq<User>)
    ensures |r| == |users|
    ensures forall i :: 0 <= i < |users| ==>
      r[i] == (if users[i].id == switched.id then switched else users[i])
  {
    if users == [] then []
    else [if users[0].id == switched.id then switched else users[0]] + ReplaceById(users[1..], switched)
  }

  /** Replacing is idempotent, leaves a list without the id as it was, and
      puts the switched record in the list whenever some entry had its id. */
  lemma ReplaceByIdSettles(users: seq<User>, switched: User)
    ensures ReplaceById(ReplaceById(users, switched), switched) == ReplaceById(users, switched)
    ensures (forall i :: 0 <= i < |users| ==> users[i].id != switched.id) ==> ReplaceById(users, switched) == users
    ensures (exists i :: 0 <= i < |users| && users[i].id == switched.id) ==> switched in ReplaceById(users, switched)
  {
    var once := ReplaceById(users, switched);
    if exists i :: 0 <= i < |users| && users[i].id == switched.id {
      var i :| 0 <= i < |users| && users[i].id == switched.id;
      assert once[i] == switched;
    }
  }

  // ---------------------------------------------------------------------------
  // The provider

  /** The session provider: the signed-in user (or none), the loading flag,
      and the local storage it reads and writes. */
  class AuthProvider {
    var user: Option<User>
    var loading: bool
    const storage: LocalStorage

    ghost predicate Valid()
      reads this, storage
    {
      WellTyped(storage.entries)
    }

    constructor (storage: LocalStorage)
      requires WellTyped(storage.entries)
      ensures Valid()
      ensures this.storage == storage && user == None && loading
    {
      this.storage := storage;
      user := None;
      loading := true;
    }

    /** The page-load effect. */
    method RestoreSession()
      requires Valid()
      modifies this, storage
      ensures Valid() && !loading
      ensures match Restoration(old(storage.entries))
        case NothingStored => user == old(user) && storage.entries == old(storage.entries)
        case Resume(live) => user == Some(live) && storage.entries == old(storage.entries)
        case Evict => user == old(user) && storage.entries == old(storage.entries) - {CurrentUserStorageKey}
    {
      var stored := storage.GetItem(CurrentUserStorageKey);
      if stored.Some? && !stored.value.EmptyText? {
        var parsedUser := stored.value.user;
        var allUsers := LoadUsers(storage.entries);
        var liveUser := Find(allUsers, IdIs(parsedUser.id));
        if liveUser.Some? && liveUser.value.status == Some(Active) {
          user := liveUser;
        } else {
          storage.RemoveItem(CurrentUserStorageKey);
        }
      }
      loading := false;
    }

    /** `handleAuth`: admit the account into the session and store its record,
        or refuse an Inactive account and change nothing. */
    method HandleAuth(newUser: User) returns (outcome: AuthOutcome)
      requires Valid()
      modifies this, storage
      ensures Valid() && !loading
      ensures outcome == Admit(newUser)
      ensures outcome.SignedIn? ==>
        user == Some(newUser) &&
        storage.entries == old(storage.entries)[CurrentUserStorageKey := UserRecord(newUser)]
      ensures !outcome.SignedIn? ==> user == old(user) && storage.entries == old(storage.entries)
    {
      if newUser.status == Some(Inactive) {
        outcome := InactiveAccount;
        loading := false;
        return;
      }
      user := Some(newUser);
      storage.SetItem(CurrentUserStorageKey, UserRecord(newUser));
      outcome := SignedIn(newUser);
      loading := false;
    }

    /** `login(email, password)`. */
    method Login(email: string, password: string) returns (outcome: AuthOutcome)
      requires Valid()
      modifies this, storage
      ensures Valid() && !loading
      ensures outcome == LoginOutcome(LoadUsers(old(storage.entries)), email)
      ensures outcome.SignedIn? ==>
        user == Some(outcome.account) &&
        storage.entries == old(storage.entries)[CurrentUserStorageKey := UserRecord(outcome.account)]
      ensures !outcome.SignedIn? ==> user == old(user) && storage.entries == old(storage.entries)
    {
      loading := true;
      var allUsers := LoadUsers(storage.entries);
      var foundUser := Find(allUsers, EmailIs(email));
      if foundUser.Some? {
        outcome := HandleAuth(foundUser.value);
      } else {
        outcome := InvalidCredentials;
        loading := false;
      }
    }

    /** `googleLogin()`: sign into the first Donor of the users list. */
    method GoogleLogin() returns (outcome: AuthOutcome)
      requires Valid()
      modifies this, storage
      ensures Valid() && !loading
      ensures outcome == GoogleOutcome(LoadUsers(old(storage.entries)))
      ensures outcome.SignedIn? ==>
        user == Some(outcome.account) &&
        storage.entries == old(storage.entries)[CurrentUserStorageKey := UserRecord(outcome.account)]
      ensures !outcome.SignedIn? ==> user == old(user) && storage.entries == old(storage.entries)
    {
      loading := true;
      var allUsers := LoadUsers(storage.entries);
      var donorUser := Find(allUsers, IsDonor);
      if donorUser.Some? {
        outcome := HandleAuth(donorUser.value);
      } else {
        outcome := NoDonorAccount;
        loading := false;
      }
    }

    /** `logout()`: clear the session and its stored record. */
    method Logout()
      requires Valid()
      modifies this, storage
      ensures Valid() && loading == old(loading)
      ensures user == None
      ensures storage.entries == old(storage.entries) - {CurrentUserStorageKey}
    {
      user := None;
      storage.RemoveItem(CurrentUserStorageKey);
    }

    /** `setRole(role)`: with a session, give the session's record the new
        role, store it as the current user, and replace every entry of the
        users list that has its id; without a session, do nothing. */
    method SetRole(role: Role)
      requires Valid()
      modifies this, storage
      ensures Valid() && loading == old(loading)
      ensures old(user).None? ==> user == None && storage.entries == old(storage.entries)
      ensures old(user).Some? ==>
        var switched := old(user).value.(role := role);
        && user == Some(switched)
        && storage.entries == old(storage.entries)
             [CurrentUserStorageKey := UserRecord(switched)]
             [UsersStorageKey := UserList(ReplaceById(LoadUsers(old(storage.entries)), switched))]
    {
      if user.Some? {
        var switchedUser := user.value.(role := role);
        user := Some(switchedUser);
        storage.SetItem(CurrentUserStorageKey, UserRecord(switchedUser));
        var allUsers := LoadUsers(storage.entries);
        allUsers := ReplaceById(allUsers, switchedUser);
        storage.SetItem(UsersStorageKey, UserList(allUsers));
      }
    }
  }

  /** A seed user signs in on a fresh browser, then the page is loaded again
      in a new provider over the same storage: the session is not resumed and
      the stored record is gone. */
  method SeedSessionDoesNotSurviveReload() returns (first: AuthOutcome, afterReload: Option<User>, stillStored: bool)
    ensures first == SignedIn(MockUser(Admin))
    ensures afterReload == None
    ensures !stillStored
  {
    var storage := new LocalStorage();
    var tab := new AuthProvider(storage);
    first := tab.Login("alex.ray@example.com", "any password");
    SeedLoginSignsIntoTheMatchingUser("alex.ray@example.com", 0);
    var reloaded := new AuthProvider(storage);
    SeedSessionIsAdmittedThenEvicted(storage.entries, MockUser(Admin));
    reloaded.RestoreSession();
    afterReload := reloaded.user;
    stillStored := storage.GetItem(CurrentUserStorageKey).Some?;
  }
}
