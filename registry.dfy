/**
 * The in-memory user registry of src/logic/state.js: the `users` list that `registerUser`
 * maintains and the display names `vote` and `logWildcard` look up in it.
 */
module Registry {
  import opened Wrappers
  import opened Text

  datatype User = User(id: string, name: string)

  const Anonymous: string := "Anonymous"

  /** A name `registerUser` stores as given: not empty and not a "user_" placeholder. */
  predicate AcceptableName(name: string) {
    name != "" && !StartsWith(name, "user_")
  }

  /** An empty name, or one that starts with "user_", is stored as "Anonymous". */
  function NormaliseName(name: string): (r: string)
    ensures AcceptableName(r)
    ensures AcceptableName(name) ==> r == name
    ensures !AcceptableName(name) ==> r == Anonymous
  {
    DifferentFirstChar(Anonymous, "user_");
    if AcceptableName(name) then name else Anonymous
  }

  /** Normalising twice is normalising once. */
  lemma NormaliseNameIdempotent(name: string)
    ensures NormaliseName(NormaliseName(name)) == NormaliseName(name)
  {
  }

  /** `users.find(u => u.id === id)`: the first user with that id. */
  function FindUser(users: seq<User>, id: string): (k: Option<nat>)
    ensures k.Some? ==> k.value < |users| && users[k.value].id == id
    ensures k.Some? ==> forall j :: 0 <= j < k.value ==> users[j].id != id
    ensures k.None? ==> forall j :: 0 <= j < |users| ==> users[j].id != id
  {
    if users == [] then None
    else if users[0].id == id then Some(0)
    else match FindUser(users[1..], id)
      case None => None
      case Some(k) => Some(k + 1)
  }

  /** `user?.name || "Anonymous"`: the registered name when there is a non-empty one. */
  function DisplayName(users: seq<User>, id: string): (r: string)
    ensures r != ""
    ensures FindUser(users, id).None? ==> r == Anonymous
    ensures FindUser(users, id).Some? && users[FindUser(users, id).value].name != "" ==>
              r == users[FindUser(users, id).value].name
    ensures FindUser(users, id).Some? && users[FindUser(users, id).value].name == "" ==> r == Anonymous
  {
    match FindUser(users, id)
    case None => Anonymous
    case Some(k) => if users[k].name != "" then users[k].name else Anonymous
  }

  /** No two users share an id. */
  predicate UniqueIds(users: seq<User>) {
    forall i, j :: 0 <= i < j < |users| ==> users[i].id != users[j].id
  }

  /**
   * The registry part of `registerUser`: the first user with the id is renamed in place, and a
   * user is appended only when no user has the id.
   */
  function Upsert(users: seq<User>, id: string, name: string): (r: seq<User>)
    ensures FindUser(users, id).Some? ==> |r| == |users| && r[FindUser(users, id).value] == User(id, name)
    ensures FindUser(users, id).None? ==> |r| == |users| + 1 && r[|users|] == User(id, name)
    ensures forall i :: 0 <= i < |users| && users[i].id != id ==> r[i] == users[i]
  {
    match FindUser(users, id)
    case Some(k) => users[k := users[k].(name := name)]
    case None => users + [User(id, name)]
  }

  /** Registering keeps ids unique. */
  lemma UpsertKeepsIdsUnique(users: seq<User>, id: string, name: string)
    requires UniqueIds(users)
    ensures UniqueIds(Upsert(users, id, name))
  {
  }

  /** After registering, the user's votes and wildcards carry the normalised name. */
  lemma RegisteredNameIsDisplayed(users: seq<User>, id: string, name: string)
    ensures DisplayName(Upsert(users, id, NormaliseName(name)), id) == NormaliseName(name)
  {
    var r := Upsert(users, id, NormaliseName(name));
    match FindUser(users, id)
    case Some(k) =>
      assert r[k] == User(id, NormaliseName(name));
      assert FindUser(r, id) == Some(k);
    case None =>
      assert FindUser(r, id) == Some(|users|);
  }
}
