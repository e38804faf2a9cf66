/** The routes of `app/routes/auth.py`: `login` answers from the users
    table without writing to it; `/me` and `logout` only read the payload
    the guard admitted. */
module Session {
  import opened Common
  import opened Schema
  import opened Access

  /** The members of a `POST /api/auth/login` body. */
  datatype LoginInput = LoginInput(username: Field<string>, password: Field<string>)

  /** A successful login: the token and the stored user's id and name. */
  datatype LoginReply = LoginReply(token: string, userId: Uuid, username: string)

  /** `SELECT ... FROM users WHERE username = %s`, first row. */
  function FindUser(users: seq<User>, name: string): (r: Option<User>)
    ensures r.Some? ==> r.value in users && r.value.username == name
    ensures r.None? <==> forall i :: 0 <= i < |users| ==> users[i].username != name
  {
    if users == [] then None
    else if users[0].username == name then Some(users[0])
    else
      var r := FindUser(users[1..], name);
      assert forall i :: 1 <= i < |users| ==> users[i] == users[1..][i - 1];
      r
  }

  /** `login`. */
  function Login(cfg: Config, users: seq<User>, input: LoginInput, now: int): (r: Result<LoginReply>)
    ensures !(Nonempty(input.username) && Nonempty(input.password)) ==> r == Err(CredentialsRequired)
    ensures Nonempty(input.username) && Nonempty(input.password) ==>
              var u := FindUser(users, input.username.value);
              && (r.Ok? <==> u.Some? && VerifyPassword(cfg.crypto, input.password.value, u.value.passwordHash))
              && (r.Err? ==> r == Err(InvalidCredentials))
    ensures r.Ok? ==>
              var u := FindUser(users, input.username.value);
              && u.Some?
              && VerifyPassword(cfg.crypto, input.password.value, u.value.passwordHash)
              && r.value == LoginReply(GenerateToken(cfg, u.value.id, u.value.username, now),
                                       u.value.id, u.value.username)
  {
    if !Nonempty(input.username) || !Nonempty(input.password) then Err(CredentialsRequired)
    else
      match FindUser(users, input.username.value)
      case None => Err(InvalidCredentials)
      case Some(user) =>
        if !VerifyPassword(cfg.crypto, input.password.value, user.passwordHash) then Err(InvalidCredentials)
        else Ok(LoginReply(GenerateToken(cfg, user.id, user.username, now), user.id, user.username))
  }

  /** An unknown username and a wrong password give the same answer, so a
      caller cannot tell which names exist; and these are the only two ways
      a complete request fails. */
  lemma RejectionsLookAlike(cfg: Config, users: seq<User>, name: string, password: string, now: int)
    requires name != "" && password != ""
    ensures var r := Login(cfg, users, LoginInput(Present(name), Present(password)), now);
      && (FindUser(users, name).None? ==> r == Err(InvalidCredentials))
      && (var u := FindUser(users, name);
          u.Some? && !VerifyPassword(cfg.crypto, password, u.value.passwordHash) ==>
            r == Err(InvalidCredentials))
      && (r.Err? ==> r == Err(InvalidCredentials))
  {
  }

  /** A login's token admits requests as the stored user for seven days. */
  lemma LoginTokenAdmits(cfg: Config, users: seq<User>, input: LoginInput, now: int, later: int)
    requires Sound(cfg.crypto)
    requires Login(cfg, users, input, now).Ok?
    requires later < now + TokenLifetime
    ensures var reply := Login(cfg, users, input, now).value;
      Guard(cfg, Some("Bearer " + reply.token), later)
        == Admit(Claims(reply.userId, reply.username, now + TokenLifetime))
  {
    var reply := Login(cfg, users, input, now).value;
    assert ' ' !in "Bearer";
    assert "Bearer " + reply.token == "Bearer" + " " + reply.token;
    IssuedTokenAdmits(cfg, "Bearer", reply.userId, reply.username, now, later);
  }

  /** The default administrator of `init_db` can log in with its seeded
      password once the seeding has added it to a table without one. */
  lemma SeededAdminLogsIn(cfg: Config, users: seq<User>, id: Uuid, salt: Salt, now: int)
    requires Sound(cfg.crypto)
    requires forall i :: 0 <= i < |users| ==> users[i].username != AdminName
    ensures var seeded := users + [User(id, AdminName, HashPassword(cfg.crypto, AdminPassword, salt))];
      Login(cfg, seeded, LoginInput(Present(AdminName), Present(AdminPassword)), now)
        == Ok(LoginReply(GenerateToken(cfg, id, AdminName, now), id, AdminName))
  {
    var admin := User(id, AdminName, HashPassword(cfg.crypto, AdminPassword, salt));
    FindUserAppend(users, admin);
  }

  lemma {:induction false} FindUserAppend(users: seq<User>, u: User)
    requires forall i :: 0 <= i < |users| ==> users[i].username != u.username
    ensures FindUser(users + [u], u.username) == Some(u)
  {
    if users != [] {
      assert (users + [u])[1..] == users[1..] + [u];
      FindUserAppend(users[1..], u);
    }
  }

  /** `/me`: the identity in the admitted payload. */
  function Me(user: Claims): (Uuid, string)
  {
    (user.userId, user.username)
  }

  /** `logout`: a message only; nothing on the server changes, so the token
      stays valid until it expires. */
  const LogoutMessage: string := "Logout realizado com sucesso"
}
