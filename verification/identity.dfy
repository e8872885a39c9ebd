/** Identity handlers: login, profile read and update, and registration. */
module Identity {
  import opened Results
  import opened Seqs
  import opened JsValues
  import opened Storage

  /** What the API sends about a user: every field except the secret code. */
  datatype UserView = UserView(id: int, nickname: string, avatar: string, role: string, color: string)

  function ViewOf(u: User): UserView {
    UserView(u.id, u.nickname, u.avatar, u.role, u.color)
  }

  /** POST /api/login: the first user holding the secret code. */
  function Login(s: Store, secretCode: Option<string>): (r: Result<UserView>)
    ensures !Truthy(secretCode) ==> r == Err(MissingField)
    ensures Truthy(secretCode) && NoMatch(s.users, UserWithCode(secretCode.value)) ==>
      r == Err(InvalidSecretCode)
    ensures Truthy(secretCode) ==>
      forall i | FirstMatch(s.users, UserWithCode(secretCode.value), i) :: r == Ok(ViewOf(s.users[i]))
  {
    if !Truthy(secretCode) then Err(MissingField)
    else match FindIndex(s.users, UserWithCode(secretCode.value))
      case None => Err(InvalidSecretCode)
      case Some(i) => Ok(ViewOf(s.users[i]))
  }

  /** In a valid store a secret code identifies at most one user, so a
      successful login names the only user with that code. */
  lemma LoginIdentifiesUser(s: Store, code: string, v: UserView)
    requires Valid(s)
    requires Login(s, Some(code)) == Ok(v)
    ensures forall i :: 0 <= i < |s.users| && s.users[i].secretCode == code ==> ViewOf(s.users[i]) == v
    ensures exists i :: 0 <= i < |s.users| && s.users[i].secretCode == code
  {
    var k := FindIndex(s.users, UserWithCode(code)).value;
    forall i | 0 <= i < |s.users| && s.users[i].secretCode == code
      ensures ViewOf(s.users[i]) == v
    {
      assert UserWithCode(code)(s.users[i]);
    }
  }

  /** GET /api/profile: the caller's own user record. */
  function GetProfile(s: Store, caller: int): (r: Result<UserView>)
    ensures NoMatch(s.users, UserWithId(caller)) ==> r == Err(UserNotFound)
    ensures forall i | FirstMatch(s.users, UserWithId(caller), i) :: r == Ok(ViewOf(s.users[i]))
  {
    match FindIndex(s.users, UserWithId(caller))
    case None => Err(UserNotFound)
    case Some(i) => Ok(ViewOf(s.users[i]))
  }

  function ApplyProfile(u: User, nickname: Option<string>, avatar: Option<string>, color: Option<string>): User {
    u.(nickname := IfTruthy(nickname, u.nickname),
       avatar := IfTruthy(avatar, u.avatar),
       color := IfTruthy(color, u.color))
  }

  /** PUT /api/profile: overwrites the truthy ones of nickname, avatar and
      colour on the caller's record. Id, role and secret code never change. */
  function UpdateProfile(s: Store, caller: int, nickname: Option<string>, avatar: Option<string>,
                         color: Option<string>): (r: Result<Reply<UserView>>)
    ensures NoMatch(s.users, UserWithId(caller)) ==> r == Err(UserNotFound)
    ensures r.Ok? ==> r.value.store == s.(users := r.value.store.users)
    ensures forall i | FirstMatch(s.users, UserWithId(caller), i) ::
      && r.Ok?
      && |r.value.store.users| == |s.users|
      && (forall j :: 0 <= j < |s.users| && j != i ==> r.value.store.users[j] == s.users[j])
      && r.value.store.users[i].id == s.users[i].id
      && r.value.store.users[i].role == s.users[i].role
      && r.value.store.users[i].secretCode == s.users[i].secretCode
      && (Truthy(nickname) ==> r.value.store.users[i].nickname == nickname.value)
      && (!Truthy(nickname) ==> r.value.store.users[i].nickname == s.users[i].nickname)
      && (Truthy(avatar) ==> r.value.store.users[i].avatar == avatar.value)
      && (!Truthy(avatar) ==> r.value.store.users[i].avatar == s.users[i].avatar)
      && (Truthy(color) ==> r.value.store.users[i].color == color.value)
      && (!Truthy(color) ==> r.value.store.users[i].color == s.users[i].color)
      && r.value.body == ViewOf(r.value.store.users[i])
  {
    match FindIndex(s.users, UserWithId(caller))
    case None => Err(UserNotFound)
    case Some(i) =>
      var u := ApplyProfile(s.users[i], nickname, avatar, color);
      Ok(Reply(s.(users := s.users[i := u]), ViewOf(u)))
  }

  /** A profile update keeps the store invariants: ids and secret codes are untouched. */
  lemma UpdateProfilePreservesValid(s: Store, caller: int, nickname: Option<string>,
                                    avatar: Option<string>, color: Option<string>)
    requires Valid(s)
    requires UpdateProfile(s, caller, nickname, avatar, color).Ok?
    ensures Valid(UpdateProfile(s, caller, nickname, avatar, color).value.store)
  {
    var i := FindIndex(s.users, UserWithId(caller)).value;
    var t := UpdateProfile(s, caller, nickname, avatar, color).value.store;
    assert forall j :: 0 <= j < |s.users| ==>
      t.users[j].id == s.users[j].id && t.users[j].secretCode == s.users[j].secretCode;
  }

  /** Reading the profile after an update returns what the update answered. */
  lemma UpdateThenGetProfile(s: Store, caller: int, nickname: Option<string>,
                             avatar: Option<string>, color: Option<string>)
    requires UpdateProfile(s, caller, nickname, avatar, color).Ok?
    ensures var rep := UpdateProfile(s, caller, nickname, avatar, color).value;
      GetProfile(rep.store, caller) == Ok(rep.body)
  {
    var i := FindIndex(s.users, UserWithId(caller)).value;
    var rep := UpdateProfile(s, caller, nickname, avatar, color).value;
    assert FirstMatch(rep.store.users, UserWithId(caller), i) by {
      forall j | 0 <= j < i ensures !UserWithId(caller)(rep.store.users[j]) {
        assert rep.store.users[j] == s.users[j];
        assert !UserWithId(caller)(s.users[j]);
      }
    }
  }

  /** Repeating the same profile update changes nothing further. */
  lemma UpdateProfileIdempotent(s: Store, caller: int, nickname: Option<string>,
                                avatar: Option<string>, color: Option<string>)
    requires UpdateProfile(s, caller, nickname, avatar, color).Ok?
    ensures var rep := UpdateProfile(s, caller, nickname, avatar, color).value;
      UpdateProfile(rep.store, caller, nickname, avatar, color) == Ok(rep)
  {
    var i := FindIndex(s.users, UserWithId(caller)).value;
    var rep := UpdateProfile(s, caller, nickname, avatar, color).value;
    assert FirstMatch(rep.store.users, UserWithId(caller), i) by {
      forall j | 0 <= j < i ensures !UserWithId(caller)(rep.store.users[j]) {
        assert rep.store.users[j] == s.users[j];
        assert !UserWithId(caller)(s.users[j]);
      }
    }
    assert rep.store.users[i := rep.store.users[i]] == rep.store.users;
  }

  /** POST /api/register: open to every client; the role comes from the body. */
  function Register(s: Store, nickname: Option<string>, secretCode: Option<string>,
                    avatar: Option<string>, color: Option<string>, role: Option<string>): (r: Result<Reply<UserView>>)
    ensures !Truthy(nickname) || !Truthy(secretCode) ==> r == Err(MissingField)
    ensures Truthy(nickname) && Truthy(secretCode) ==>
      (r == Err(AlreadyExists) <==>
        exists i :: 0 <= i < |s.users| &&
          (s.users[i].nickname == nickname.value || s.users[i].secretCode == secretCode.value))
    ensures r.Err? ==> r.error == MissingField || r.error == AlreadyExists
    ensures Truthy(nickname) && Truthy(secretCode) && NoMatch(s.users, UserClashing(nickname.value, secretCode.value)) ==> r.Ok?
    ensures r.Ok? ==>
      var u := User(s.nextUserId, nickname.value, OrDefault(avatar, "fas fa-user"), secretCode.value,
                    OrDefault(role, "user"), OrDefault(color, DefaultColor));
      r.value == Reply(s.(users := s.users + [u], nextUserId := s.nextUserId + 1), ViewOf(u))
  {
    if !Truthy(nickname) || !Truthy(secretCode) then Err(MissingField)
    else if FindIndex(s.users, UserClashing(nickname.value, secretCode.value)).Some? then Err(AlreadyExists)
    else
      var u := User(s.nextUserId, nickname.value, OrDefault(avatar, "fas fa-user"), secretCode.value,
                    OrDefault(role, "user"), OrDefault(color, DefaultColor));
      Ok(Reply(s.(users := s.users + [u], nextUserId := s.nextUserId + 1), ViewOf(u)))
  }

  /** Registration keeps user ids fresh and secret codes unique. */
  lemma RegisterPreservesValid(s: Store, nickname: Option<string>, secretCode: Option<string>,
                               avatar: Option<string>, color: Option<string>, role: Option<string>)
    requires Valid(s)
    requires Register(s, nickname, secretCode, avatar, color, role).Ok?
    ensures Valid(Register(s, nickname, secretCode, avatar, color, role).value.store)
  {
    var t := Register(s, nickname, secretCode, avatar, color, role).value.store;
    var n := |s.users|;
    assert forall i :: 0 <= i < n ==> s.users[i].secretCode != secretCode.value by {
      forall i | 0 <= i < n ensures s.users[i].secretCode != secretCode.value {
        assert !UserClashing(nickname.value, secretCode.value)(s.users[i]);
      }
    }
    assert forall i :: 0 <= i < n ==> t.users[i] == s.users[i];
    assert t.users[n].secretCode == secretCode.value && t.users[n].id == s.nextUserId;
  }

  /** Logging in with a freshly registered code reaches the new user. */
  lemma RegisterThenLogin(s: Store, nickname: Option<string>, secretCode: Option<string>,
                          avatar: Option<string>, color: Option<string>, role: Option<string>)
    requires Register(s, nickname, secretCode, avatar, color, role).Ok?
    ensures var rep := Register(s, nickname, secretCode, avatar, color, role).value;
      Login(rep.store, secretCode) == Ok(rep.body)
  {
    var rep := Register(s, nickname, secretCode, avatar, color, role).value;
    var n := |s.users|;
    assert FirstMatch(rep.store.users, UserWithCode(secretCode.value), n) by {
      forall j | 0 <= j < n ensures !UserWithCode(secretCode.value)(rep.store.users[j]) {
        assert rep.store.users[j] == s.users[j];
        assert !UserClashing(nickname.value, secretCode.value)(s.users[j]);
      }
    }
  }

  /** Registering the same nickname or code twice fails the second time. */
  lemma RegisterTwiceFails(s: Store, nickname: Option<string>, secretCode: Option<string>,
                           avatar: Option<string>, color: Option<string>, role: Option<string>,
                           avatar': Option<string>, color': Option<string>, role': Option<string>)
    requires Register(s, nickname, secretCode, avatar, color, role).Ok?
    ensures var t := Register(s, nickname, secretCode, avatar, color, role).value.store;
      Register(t, nickname, secretCode, avatar', color', role') == Err(AlreadyExists)
  {
    var t := Register(s, nickname, secretCode, avatar, color, role).value.store;
    assert t.users[|s.users|].nickname == nickname.value;
  }

  /** Unlike registration, a profile update does not check that the new
      nickname is free: the guest can take the administrator's nickname. */
  lemma UpdateProfileAllowsNicknameClash()
    ensures var s := Seed();
      && Register(s, Some("Принцеса"), Some("new"), None, None, None) == Err(AlreadyExists)
      && var t := UpdateProfile(s, 2, Some("Принцеса"), None, None).value.store;
         t.users[0].nickname == t.users[1].nickname
  {
    var s := Seed();
    assert FirstMatch(s.users, UserWithId(2), 1);
    assert UserClashing("Принцеса", "new")(s.users[0]);
  }
}
