/**
 * `UserService`: the profile converters (four fields each way), the guarded create/update/delete,
 * the sorted listing, and the authenticated user's own profile, found by username.
 */
module UserService {
  import opened Wrappers
  import opened Entities
  import opened Database
  import opened SortOrder
  import opened Text

  /** A stored user. */
  function LoadUser(t: Tables, k: int): User
    requires k in t.users
  {
    var row := t.users[k];
    User(Some(k), row.username, row.name, row.surname, row.address, row.email, row.roles)
  }

  function RowOf(u: User): UserRow
  {
    UserRow(u.username, u.name, u.surname, u.address, u.email, u.roles)
  }

  /** `convertToDTO`: name, surname, address and email. */
  function ConvertToDTO(u: User): (r: UserDTO)
    ensures r.name == u.name && r.surname == u.surname && r.address == u.address && r.email == u.email
  {
    UserDTO(u.name, u.surname, u.address, u.email)
  }

  /** `convertFromDTO`: a new user holding the four profile fields and nothing else. */
  function ConvertFromDTO(dto: UserDTO): (r: User)
    ensures r.id.None? && r.username.None? && r.roles == {}
    ensures r.name == dto.name && r.surname == dto.surname && r.address == dto.address && r.email == dto.email
  {
    User(None, None, dto.name, dto.surname, dto.address, dto.email, {})
  }

  /** A profile survives the round trip through a user. */
  lemma DTORoundTrip(dto: UserDTO)
    ensures ConvertToDTO(ConvertFromDTO(dto)) == dto
  {
  }

  /** A user survives the round trip through its profile in exactly the four profile fields. */
  lemma EntityRoundTrip(u: User)
    ensures ConvertFromDTO(ConvertToDTO(u)) == u.(id := None, username := None, roles := {})
  {
  }

  /** `findById`: the stored user; a missing id throws NotFoundException. */
  function FindById(t: Tables, id: Option<int>): (r: Result<User>)
    ensures r.Ok? <==> id.Some? && id.value in t.users
    ensures r.Ok? ==> r.value == LoadUser(t, id.value) && r.value.id == id
    ensures id.Some? && id.value !in t.users ==> r == Err(NotFound)
  {
    var _ :- FindRow(t.users, id);
    Ok(LoadUser(t, id.value))
  }

  /** The ids of the users with this username, ascending. */
  function UsernameIds(t: Tables, username: string): (r: seq<int>)
    ensures forall x :: x in r <==> x in t.users && t.users[x].username == Some(username)
    ensures Increasing(r)
  {
    IdsWhere(t.users, (row: UserRow) => row.username == Some(username))
  }

  /**
   * `findByUsername`, the repository's single-result query followed by `orElseThrow(NotFound)`:
   * the one user with that username; none is NotFound, several cannot be returned as one.
   */
  function FindByUsername(t: Tables, username: string): (r: Result<int>)
    ensures r.Ok? ==> r.value in t.users && t.users[r.value].username == Some(username)
    ensures r.Ok? ==> forall x :: x in t.users && t.users[x].username == Some(username) ==> x == r.value
    ensures r == Err(NotFound) <==> forall x :: x in t.users ==> t.users[x].username != Some(username)
    ensures r.Err? ==> r.error == NotFound || r.error == IncorrectResultSize
  {
    var ids := UsernameIds(t, username);
    if |ids| == 0 then Err(NotFound)
    else if |ids| == 1 then Ok(ids[0])
    else
      assert ids[0] in ids && ids[1] in ids && ids[0] < ids[1];
      Err(IncorrectResultSize)
  }

  /** `findMyProfile`: the authenticated user's profile (`principal.getName()` is the username). */
  function FindMyProfile(t: Tables, username: string): (r: Result<UserDTO>)
    ensures r.Ok? <==> FindByUsername(t, username).Ok?
    ensures r.Ok? ==> r.value == ConvertToDTO(LoadUser(t, FindByUsername(t, username).value))
  {
    var k :- FindByUsername(t, username);
    Ok(ConvertToDTO(LoadUser(t, k)))
  }

  /**
   * `editProfile`: the authenticated user's name, surname, address and email are overwritten with
   * the DTO's, the user is saved, and the saved profile is returned. An unknown username throws
   * NotFound and writes nothing.
   */
  method EditProfile(db: Database, dto: UserDTO, username: string) returns (r: Result<UserDTO>)
    requires db.Valid()
    modifies db`tables
    ensures db.Valid()
    ensures FindByUsername(old(db.tables), username).Err? ==>
      r == Err(FindByUsername(old(db.tables), username).error) && db.tables == old(db.tables)
    ensures FindByUsername(old(db.tables), username).Ok? ==>
      var k := FindByUsername(old(db.tables), username).value;
      var before := old(db.tables).users[k];
      db.tables == old(db.tables).(users := old(db.tables).users[k :=
        before.(name := dto.name, surname := dto.surname, address := dto.address, email := dto.email)])
      && r == Ok(dto)
  {
    var found := FindByUsername(db.tables, username);
    if found.Err? {
      return Err(found.error);
    }
    var user := LoadUser(db.tables, found.value);
    user := user.(name := dto.name, surname := dto.surname, address := dto.address, email := dto.email);
    db.tables := db.tables.(users := db.tables.users[found.value := RowOf(user)]);
    r := Ok(ConvertToDTO(user));
  }

  /**
   * Editing one's profile keeps one's identity: afterwards the same username still finds the same
   * user, under the same id and with the same roles, and its profile is the DTO.
   */
  lemma EditProfileKeepsIdentity(t: Tables, dto: UserDTO, username: string)
    requires FindByUsername(t, username).Ok?
    ensures var k := FindByUsername(t, username).value;
      var row := t.users[k];
      var t' := t.(users := t.users[k := row.(name := dto.name, surname := dto.surname,
                                               address := dto.address, email := dto.email)]);
      FindByUsername(t', username) == Ok(k) && t'.users[k].roles == row.roles
      && FindMyProfile(t', username) == Ok(dto)
  {
    var k := FindByUsername(t, username).value;
    var row := t.users[k];
    var t' := t.(users := t.users[k := row.(name := dto.name, surname := dto.surname,
                                             address := dto.address, email := dto.email)]);
    SoleUserIsFound(t', username, k);
  }

  /** A user who alone carries a username is the one `findByUsername` finds. */
  lemma SoleUserIsFound(t: Tables, username: string, k: int)
    requires k in t.users && t.users[k].username == Some(username)
    requires forall x :: x in t.users && t.users[x].username == Some(username) ==> x == k
    ensures FindByUsername(t, username) == Ok(k)
  {
    var ids := UsernameIds(t, username);
    assert k in ids;
    forall j | 0 <= j < |ids|
      ensures ids[j] == k
    {
      assert ids[j] in ids;
    }
    FirstTwoIncrease(ids);
  }

  lemma FirstTwoIncrease(s: seq<int>)
    requires Increasing(s)
    ensures |s| >= 2 ==> s[0] < s[1]
  {
  }

  /**
   * `findAllWithSortingDirection`: a null or empty direction means "asc"; an unparseable one is a
   * BadRequest; the users are sorted by name.
   */
  function FindAllWithSortingDirection(sortingDirection: Option<string>): (r: Result<Sort>)
    ensures r.Ok? ==> r.value.property == "name"
    ensures sortingDirection.None? || sortingDirection.value == [] ==> r == Ok(Sort(ASC, "name"))
    ensures sortingDirection.Some? && sortingDirection.value != [] ==>
      (r.Err? <==> DirectionFromString(sortingDirection.value).Err?)
      && (r.Ok? ==> Ok(r.value.direction) == DirectionFromString(sortingDirection.value))
    ensures r.Err? ==> r.error == BadRequest
  {
    var direction := if sortingDirection.None? || sortingDirection.value == [] then "asc" else sortingDirection.value;
    AscParses();
    var parsed := DirectionFromString(direction);
    if parsed.Err? then Err(BadRequest) else Ok(Sort(parsed.value, "name"))
  }

  /** `create`: id 0 is refused; otherwise the user is saved and returned with its id. */
  method Create(db: Database, u: User) returns (r: Result<User>)
    requires db.Valid()
    modifies db`tables, db`nextId
    ensures db.Valid()
    ensures !CreateAllowed(u.id) ==>
      r == Err(IllegalArgument(NewIdZero)) && db.tables == old(db.tables) && db.nextId == old(db.nextId)
    ensures CreateAllowed(u.id) ==>
      var k := NewKey(u.id, old(db.tables).users.Keys, old(db.nextId));
      db.tables == old(db.tables).(users := old(db.tables).users[k := RowOf(u)]) && r == Ok(u.(id := Some(k)))
  {
    if !CreateAllowed(u.id) {
      return Err(IllegalArgument(NewIdZero));
    }
    var k := db.SaveKey(u.id, db.tables.users.Keys);
    db.tables := db.tables.(users := db.tables.users[k := RowOf(u)]);
    r := Ok(u.(id := Some(k)));
  }

  /** `update`: the id must pass `idValidation`; the user then overwrites its row and is returned. */
  method Update(db: Database, u: User) returns (r: Result<User>)
    requires db.Valid()
    modifies db`tables
    ensures db.Valid()
    ensures IdValidation(u.id, old(db.tables).users.Keys).Fail? ==>
      r == Err(IdValidation(u.id, old(db.tables).users.Keys).error) && db.tables == old(db.tables)
    ensures IdValidation(u.id, old(db.tables).users.Keys).Pass? ==>
      db.tables == old(db.tables).(users := old(db.tables).users[u.id.value := RowOf(u)]) && r == Ok(u)
  {
    var check := IdValidation(u.id, db.tables.users.Keys);
    if check.Fail? {
      return Err(check.error);
    }
    db.tables := db.tables.(users := db.tables.users[u.id.value := RowOf(u)]);
    r := Ok(u);
  }

  /** `deleteById`: the id must pass `idValidation`; then the row is removed. */
  method DeleteById(db: Database, id: Option<int>) returns (r: Outcome)
    requires db.Valid()
    modifies db`tables
    ensures db.Valid()
    ensures r == IdValidation(id, old(db.tables).users.Keys)
    ensures r.Fail? ==> db.tables == old(db.tables)
    ensures r.Pass? ==> db.tables == old(db.tables).(users := old(db.tables).users - {id.value})
  {
    r := IdValidation(id, db.tables.users.Keys);
    if r.Pass? {
      db.tables := db.tables.(users := db.tables.users - {id.value});
    }
  }
}
