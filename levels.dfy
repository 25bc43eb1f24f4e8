/** Level arithmetic of the users route (backend/src/routes/users.ts):
    `calculateLevel` and the profile reported by `/me`. */
module Levels {
  import opened Wrappers

  const XpPerLevel := 100

  datatype LevelInfo = LevelInfo(level: int, nextLevelXp: int)

  /** `Math.max(1, Math.floor(totalXp / 100) + 1)` and `level * 100`. The
      division is floor division, which Dafny's `/` is for a positive divisor. */
  function CalculateLevel(totalXp: int): (r: LevelInfo)
    ensures r.level >= 1
    ensures r.nextLevelXp == r.level * XpPerLevel
    ensures totalXp >= 0 ==> (r.level - 1) * XpPerLevel <= totalXp < r.nextLevelXp
    ensures totalXp < 0 ==> r.level == 1
  {
    var computed := totalXp / XpPerLevel + 1;
    var level := if computed > 1 then computed else 1;
    LevelInfo(level, level * XpPerLevel)
  }

  /** More XP never means a lower level. */
  lemma {:induction false} LevelMonotone(a: int, b: int)
    requires a <= b
    ensures CalculateLevel(a).level <= CalculateLevel(b).level
  {
    DivMonotone(a, b);
  }

  lemma DivMonotone(a: int, b: int)
    requires a <= b
    ensures a / XpPerLevel <= b / XpPerLevel
  {
    var qa, qb := a / XpPerLevel, b / XpPerLevel;
    assert a == qa * XpPerLevel + a % XpPerLevel;
    assert b == qb * XpPerLevel + b % XpPerLevel;
  }

  /** For non-negative XP the level is the only one whose bracket
      `[(level - 1) * 100, level * 100)` holds the XP. */
  lemma LevelUnique(totalXp: int, level: int)
    requires totalXp >= 0 && level >= 1
    requires (level - 1) * XpPerLevel <= totalXp < level * XpPerLevel
    ensures CalculateLevel(totalXp).level == level
  {
  }

  /** Reaching the next level's threshold moves up exactly one level. */
  lemma NextLevelStep(totalXp: int)
    requires totalXp >= 0
    ensures CalculateLevel(CalculateLevel(totalXp).nextLevelXp).level == CalculateLevel(totalXp).level + 1
  {
    var l := CalculateLevel(totalXp).level;
    LevelUnique(l * XpPerLevel, l + 1);
  }

  /** The stored user row `/me` reads. */
  datatype StoredUser = StoredUser(id: int, email: string, name: Option<string>, role: string,
                                   totalXp: int, level: Option<int>)

  datatype Profile = Profile(id: int, email: string, name: Option<string>, role: string,
                             totalXp: int, level: int, nextLevelXp: int)

  datatype MeReply = MeOk(profile: Profile) | MeFail(status: int, message: string)

  /** `user.level ?? calculateLevel(user.totalXp).level`. */
  function ReportedLevel(u: StoredUser): (level: int)
    ensures u.level.Some? ==> level == u.level.value
    ensures u.level.None? ==> level == CalculateLevel(u.totalXp).level && level >= 1
  {
    u.level.GetOr(CalculateLevel(u.totalXp).level)
  }

  /** GET /me. `signedIn` is whether `req.user` is set; `found` is the row the
      lookup by the user's id returned. `nextLevelXp` always comes from the
      XP, even when the stored level is reported. */
  function Me(signedIn: bool, found: Option<StoredUser>): (r: MeReply)
    ensures !signedIn ==> r == MeFail(401, "Unauthorized")
    ensures signedIn && found.None? ==> r == MeFail(404, "User not found")
    ensures r.MeOk? <==> signedIn && found.Some?
    ensures r.MeOk? ==> found.Some? && r.profile.level == ReportedLevel(found.value)
                        && r.profile.nextLevelXp == CalculateLevel(found.value.totalXp).nextLevelXp
                        && r.profile.totalXp == found.value.totalXp && r.profile.id == found.value.id
                        && r.profile.email == found.value.email && r.profile.name == found.value.name
                        && r.profile.role == found.value.role
  {
    if !signedIn then MeFail(401, "Unauthorized")
    else match found
      case None => MeFail(404, "User not found")
      case Some(u) =>
        var info := CalculateLevel(u.totalXp);
        MeOk(Profile(u.id, u.email, u.name, u.role, u.totalXp, u.level.GetOr(info.level), info.nextLevelXp))
  }

  /** When no level is stored, the reported level and next threshold are
      consistent: the XP lies in the reported level's bracket. */
  lemma ComputedProfileConsistent(u: StoredUser)
    requires u.level.None? && u.totalXp >= 0
    ensures Me(true, Some(u)).MeOk?
    ensures var p := Me(true, Some(u)).profile;
      (p.level - 1) * XpPerLevel <= p.totalXp < p.nextLevelXp == p.level * XpPerLevel
  {
  }
}
