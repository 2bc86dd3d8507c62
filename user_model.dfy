/** The user record: its defaults, display name, avatar URL and dictionary
    form. */
module UserModel {
  import opened Wrappers
  import opened Text
  import opened Values

  datatype User = User(
    id: int,
    discordId: string,
    discordUsername: string,
    discordAvatar: Option<string>,
    email: Option<string>,
    isAdmin: bool,
    isActive: bool,
    isBanned: bool,
    createdAt: Option<Timestamp>,
    updatedAt: Option<Timestamp>,
    lastLogin: Option<Timestamp>)

  /** A record saved with only its required fields. */
  function NewUser(id: int, discordId: string, discordUsername: string, now: Timestamp): (u: User)
    ensures !u.isAdmin && u.isActive && !u.isBanned
    ensures u.discordAvatar.None? && u.email.None? && u.lastLogin.None?
    ensures u.createdAt == Some(now) && u.updatedAt == Some(now)
  {
    User(id, discordId, discordUsername, None, None, false, true, false, Some(now), Some(now), None)
  }

  /** `display_name`, and also `__str__`. */
  function DisplayName(u: User): (r: string)
    ensures r == u.discordUsername
  {
    u.discordUsername
  }

  const AvatarPrefix := "https://cdn.discordapp.com/avatars/"

  /** `avatar_url`: no URL for a missing or empty avatar hash. */
  function AvatarUrl(u: User): (r: Option<string>)
    ensures r.None? <==> u.discordAvatar.None? || u.discordAvatar.value == ""
    ensures r.Some? ==> StartsWith(r.value, AvatarPrefix) && r.value[|r.value| - 4..] == ".png"
    ensures r.Some? ==> |r.value| >= |AvatarPrefix| + 4 &&
                        r.value[|AvatarPrefix|..|r.value| - 4] == u.discordId + "/" + u.discordAvatar.value
  {
    if u.discordAvatar.Some? && u.discordAvatar.value != "" then
      var path := u.discordId + "/" + u.discordAvatar.value;
      var url := AvatarPrefix + path + ".png";
      assert url[..|AvatarPrefix|] == AvatarPrefix;
      assert url[|AvatarPrefix|..|url| - 4] == path;
      Some(url)
    else
      None
  }

  lemma SlashAfter(a: string, b: string)
    ensures (a + "/" + b)[|a|] == '/'
  {
  }

  lemma {:induction false} SlashSplit(a1: string, b1: string, a2: string, b2: string)
    requires '/' !in a1 && '/' !in a2
    requires a1 + "/" + b1 == a2 + "/" + b2
    ensures a1 == a2 && b1 == b2
  {
    var s := a1 + "/" + b1;
    if |a1| < |a2| {
      SlashAfter(a1, b1);
      assert false;
    } else if |a2| < |a1| {
      SlashAfter(a2, b2);
      assert false;
    }
    assert a1 == s[..|a1|] == a2;
    assert b1 == s[|a1| + 1..] == b2;
  }

  /** Discord ids never contain '/', so the URL determines both the user's
      id and the avatar hash. */
  lemma AvatarUrlInjective(u1: User, u2: User)
    requires '/' !in u1.discordId && '/' !in u2.discordId
    requires AvatarUrl(u1).Some? && AvatarUrl(u1) == AvatarUrl(u2)
    ensures u1.discordId == u2.discordId && u1.discordAvatar == u2.discordAvatar
  {
    var s1 := u1.discordId + "/" + u1.discordAvatar.value;
    var s2 := u2.discordId + "/" + u2.discordAvatar.value;
    assert s1 == s2;
    SlashSplit(u1.discordId, u1.discordAvatar.value, u2.discordId, u2.discordAvatar.value);
  }

  // ---------------------------------------------------------------------
  // `to_dict`

  const UserKeys: set<string> := {"id", "discord_id", "username", "avatar_url", "email",
                                  "is_admin", "is_active", "created_at", "last_login"}

  datatype DictError = AttributeError(message: string)

  /** `to_dict` as written: `last_login` is formatted when `created_at` is
      set, so a user who never logged in cannot be serialised once saved. */
  function ToDictAsWritten(u: User): (r: Result<Doc, DictError>)
    ensures r.Failure? <==> u.createdAt.Some? && u.lastLogin.None?
    ensures r.Success? ==> r.value.Keys == UserKeys
    ensures r.Success? && u.createdAt.None? ==> r.value["last_login"] == Null
  {
    if u.createdAt.Some? && u.lastLogin.None? then
      Failure(AttributeError("'NoneType' object has no attribute 'isoformat'"))
    else
      Success(map[
        "id" := Int(u.id),
        "discord_id" := Str(u.discordId),
        "username" := Str(u.discordUsername),
        "avatar_url" := OptStr(AvatarUrl(u)),
        "email" := OptStr(u.email),
        "is_admin" := Bool(u.isAdmin),
        "is_active" := Bool(u.isActive),
        "created_at" := OptIso(u.createdAt),
        "last_login" := if u.createdAt.Some? then IsoTime(u.lastLogin.value) else Null
      ])
  }

  /** A user saved with only its required fields, `last_login` left at its
      null default, makes `to_dict` raise. */
  lemma ToDictAsWrittenFailsForNewUser(id: int, discordId: string, name: string, now: Timestamp)
    ensures ToDictAsWritten(NewUser(id, discordId, name, now)).Failure?
  {
  }

  /** `to_dict` with `last_login` guarded by its own presence, as every other
      timestamp in the record models is. */
  function ToDict(u: User): (d: Doc)
    ensures d.Keys == UserKeys
    ensures d["username"] == Str(DisplayName(u))
    ensures d["avatar_url"] == OptStr(AvatarUrl(u))
    ensures d["created_at"] == Null <==> u.createdAt.None?
    ensures d["last_login"] == Null <==> u.lastLogin.None?
  {
    map[
      "id" := Int(u.id),
      "discord_id" := Str(u.discordId),
      "username" := Str(u.discordUsername),
      "avatar_url" := OptStr(AvatarUrl(u)),
      "email" := OptStr(u.email),
      "is_admin" := Bool(u.isAdmin),
      "is_active" := Bool(u.isActive),
      "created_at" := OptIso(u.createdAt),
      "last_login" := OptIso(u.lastLogin)
    ]
  }

  /** The corrected form never fails and agrees with the written one on
      every user for which the written one does not raise, except that it
      keeps `last_login` of a user whose `created_at` is missing. */
  lemma ToDictAgrees(u: User)
    ensures ToDictAsWritten(u).Success? && (u.createdAt.Some? || u.lastLogin.None?) ==>
              ToDictAsWritten(u).value == ToDict(u)
    ensures ToDictAsWritten(u).Success? && u.createdAt.None? && u.lastLogin.Some? ==>
              ToDictAsWritten(u).value == ToDict(u)["last_login" := Null]
  {
  }
}
