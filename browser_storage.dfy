/** The browser's local storage as the dashboard uses it: a table from key to
    stored value, with the keys under which the users list, the signed-in
    user, the projects and the donations are kept. Values are held already
    typed; serialisation is not modelled. */
module BrowserStorage {
  import opened JsBuiltins
  import opened Types

  /** The key of the users list. */
  const UsersStorageKey: string := "aim-foundation-users"
  /** The key of the signed-in user's record. */
  const CurrentUserStorageKey: string := "aim-foundation-user"
  /** The key of the projects list. */
  const ProjectsStorageKey: string := "aim-foundation-projects"
  /** The key of the donations list. */
  const DonationsStorageKey: string := "aim-foundation-donations"

  /** A stored value. `EmptyText` is the empty string, which every reader in
      the core tests as false and so treats like a missing key; a stored empty
      list is a non-empty text and is read as the empty list. */
  datatype StoredValue =
    | EmptyText
    | UserRecord(user: User)
    | UserList(users: seq<User>)
    | ProjectList(projects: seq<Project>)
    | DonationList(donations: seq<Donation>)

  /** Each of the four keys, when present, holds the empty text or a value of
      its own kind; anything else would not parse to what its reader expects. */
  predicate WellTyped(entries: map<string, StoredValue>)
  {
    && (UsersStorageKey in entries ==>
         entries[UsersStorageKey].EmptyText? || entries[UsersStorageKey].UserList?)
    && (CurrentUserStorageKey in entries ==>
         entries[CurrentUserStorageKey].EmptyText? || entries[CurrentUserStorageKey].UserRecord?)
    && (ProjectsStorageKey in entries ==>
         entries[ProjectsStorageKey].EmptyText? || entries[ProjectsStorageKey].ProjectList?)
    && (DonationsStorageKey in entries ==>
         entries[DonationsStorageKey].EmptyText? || entries[DonationsStorageKey].DonationList?)
  }

  /** `localStorage`: one table shared by every view of the page. */
  class LocalStorage {
    var entries: map<string, StoredValue>

    constructor ()
      ensures entries == map[]
    {
      entries := map[];
    }

    /** `getItem(key)`: the stored value, or None when the key is absent. */
    function GetItem(key: string): (r: Option<StoredValue>)
      reads this
      ensures r.None? <==> key !in entries
      ensures r.Some? ==> entries[key] == r.value
    {
      if key in entries then Some(entries[key]) else None
    }

    /** `setItem(key, value)`. */
    method SetItem(key: string, value: StoredValue)
      modifies this
      ensures entries == old(entries)[key := value]
      ensures GetItem(key) == Some(value)
    {
      entries := entries[key := value];
    }

    /** `removeItem(key)`. */
    method RemoveItem(key: string)
      modifies this
      ensures entries == old(entries) - {key}
      ensures GetItem(key) == None
    {
      entries := entries - {key};
    }
  }
}
