/** The badge and achievement routes of the admin router
    (backend/src/routes/admin.ts): payload validation, the renaming of request
    fields to stored columns, create, update, and the delete guards that
    refuse while user rows still refer to the record. Badges and achievements
    are global (looked up by id alone); the tenant id is only required to be
    present. */
module AdminCatalog {
  import opened Wrappers
  import opened AdminQuery

  // ---------------------------------------------------------------------
  // Stored records
  // ---------------------------------------------------------------------

  datatype Badge = Badge(
    id: int,
    code: string,
    name: string,
    description: string,
    rarity: string,
    xpReward: int,
    icon: Option<string>,
    unlockType: string,
    /** The JSON object `unlockCondition`: each key with its value's JSON text. */
    unlockCondition: map<string, string>)

  /** `trackingField` and `kind` (the column `type`) are both filled from the
      request's `trackingType`. */
  datatype Achievement = Achievement(
    id: int,
    code: string,
    name: string,
    description: string,
    targetValue: int,
    trackingField: string,
    kind: string)

  /** A `userBadge` row (badge held by a user) or a `userAchievement` row
      (progress of a user on an achievement). */
  datatype Link = Link(userId: int, targetId: int)

  // ---------------------------------------------------------------------
  // Payloads
  // ---------------------------------------------------------------------

  /** A badge request body after JSON decoding; None is an absent key. The
      icon is absent, `null` (Some(None)) or a string. */
  datatype BadgePayload = BadgePayload(
    code: Option<string>,
    name: Option<string>,
    description: Option<string>,
    rarity: Option<string>,
    xpBonus: Option<JsNumber>,
    iconUrl: Option<Option<string>>)

  predicate NonEmptyIfGiven(s: Option<string>) {
    s.Some? ==> s.value != ""
  }

  /** `badgeUpdateSchema`: every given field meets `badgeCreateSchema`. */
  predicate ValidBadgePatch(p: BadgePayload) {
    && NonEmptyIfGiven(p.code) && NonEmptyIfGiven(p.name)
    && NonEmptyIfGiven(p.description) && NonEmptyIfGiven(p.rarity)
    && (p.xpBonus.Some? ==> IsInteger(p.xpBonus.value) && p.xpBonus.value.value >= 0.0)
    && (p.iconUrl.Some? && p.iconUrl.value.Some? ==> p.iconUrl.value.value != "")
  }

  /** `badgeCreateSchema`: the patch rules, and every field but the icon given. */
  predicate ValidBadgeCreate(p: BadgePayload) {
    && ValidBadgePatch(p)
    && p.code.Some? && p.name.Some? && p.description.Some? && p.rarity.Some? && p.xpBonus.Some?
  }

  /** The `data` of a badge update: stored column names, None for a column
      left as it is. */
  datatype BadgeChanges = BadgeChanges(
    code: Option<string>,
    name: Option<string>,
    description: Option<string>,
    rarity: Option<string>,
    xpReward: Option<int>,
    icon: Option<Option<string>>)

  /** `{ ...rest, xpReward: xpBonus, icon: iconUrl }`, each renamed key only
      when it was given. */
  function BadgeUpdateData(p: BadgePayload): (d: BadgeChanges)
    requires ValidBadgePatch(p)
    ensures d.code == p.code && d.name == p.name && d.description == p.description && d.rarity == p.rarity
    ensures d.xpReward.Some? <==> p.xpBonus.Some?
    ensures d.xpReward.Some? ==> d.xpReward.value as real == p.xpBonus.value.value && d.xpReward.value >= 0
    ensures d.icon == p.iconUrl
  {
    BadgeChanges(p.code, p.name, p.description, p.rarity,
                 if p.xpBonus.Some? then Some(p.xpBonus.value.value.Floor) else None,
                 p.iconUrl)
  }

  /** `prisma.badge.update`: the given columns take the new values. */
  function ApplyBadgeChanges(b: Badge, d: BadgeChanges): Badge {
    b.(code := d.code.GetOr(b.code),
       name := d.name.GetOr(b.name),
       description := d.description.GetOr(b.description),
       rarity := d.rarity.GetOr(b.rarity),
       xpReward := d.xpReward.GetOr(b.xpReward),
       icon := d.icon.GetOr(b.icon))
  }

  /** An update touches exactly the fields present in the request: a given
      field takes its (renamed) value, an absent one keeps the stored value,
      and the id and the unlock type and condition never change. */
  lemma BadgeUpdateFields(b: Badge, p: BadgePayload)
    requires ValidBadgePatch(p)
    ensures var u := ApplyBadgeChanges(b, BadgeUpdateData(p));
      && u.id == b.id && u.unlockType == b.unlockType && u.unlockCondition == b.unlockCondition
      && u.code == (if p.code.Some? then p.code.value else b.code)
      && u.name == (if p.name.Some? then p.name.value else b.name)
      && u.description == (if p.description.Some? then p.description.value else b.description)
      && u.rarity == (if p.rarity.Some? then p.rarity.value else b.rarity)
      && (p.xpBonus.None? ==> u.xpReward == b.xpReward)
      && (p.xpBonus.Some? ==> u.xpReward as real == p.xpBonus.value.value)
      && u.icon == (if p.iconUrl.Some? then p.iconUrl.value else b.icon)
  {
  }

  /** `{}` is a valid patch and leaves the badge as it was. */
  lemma EmptyBadgePatch(b: Badge)
    ensures var p := BadgePayload(None, None, None, None, None, None);
      ValidBadgePatch(p) && ApplyBadgeChanges(b, BadgeUpdateData(p)) == b
  {
  }

  /** The row `prisma.badge.create` stores: xpBonus becomes xpReward, a
      missing or null icon becomes null, and the unlock type is "manual". */
  function NewBadge(id: int, p: BadgePayload): (b: Badge)
    requires ValidBadgeCreate(p)
    ensures b.id == id && b.code == p.code.value && b.name == p.name.value
    ensures b.description == p.description.value && b.rarity == p.rarity.value
    ensures b.xpReward >= 0 && b.xpReward as real == p.xpBonus.value.value
    ensures b.icon.Some? <==> p.iconUrl.Some? && p.iconUrl.value.Some?
    ensures b.icon.Some? ==> b.icon == p.iconUrl.value
    ensures b.unlockType == "manual" && b.unlockCondition == map[]
  {
    Badge(id, p.code.value, p.name.value, p.description.value, p.rarity.value,
          p.xpBonus.value.value.Floor, p.iconUrl.GetOr(None), "manual", map[])
  }

  /** An achievement request body after JSON decoding. */
  datatype AchievementPayload = AchievementPayload(
    code: Option<string>,
    name: Option<string>,
    description: Option<string>,
    targetValue: Option<JsNumber>,
    trackingType: Option<string>)

  /** `achievementUpdateSchema`. */
  predicate ValidAchievementPatch(p: AchievementPayload) {
    && NonEmptyIfGiven(p.code) && NonEmptyIfGiven(p.name)
    && NonEmptyIfGiven(p.description) && NonEmptyIfGiven(p.trackingType)
    && (p.targetValue.Some? ==> IsInteger(p.targetValue.value) && p.targetValue.value.value >= 1.0)
  }

  /** `achievementCreateSchema`. */
  predicate ValidAchievementCreate(p: AchievementPayload) {
    && ValidAchievementPatch(p)
    && p.code.Some? && p.name.Some? && p.description.Some? && p.targetValue.Some? && p.trackingType.Some?
  }

  datatype AchievementChanges = AchievementChanges(
    code: Option<string>,
    name: Option<string>,
    description: Option<string>,
    targetValue: Option<int>,
    trackingField: Option<string>,
    kind: Option<string>)

  /** `{ ...rest, trackingField: trackingType, type: trackingType }`, the two
      columns only when `trackingType` was given. */
  function AchievementUpdateData(p: AchievementPayload): (d: AchievementChanges)
    requires ValidAchievementPatch(p)
    ensures d.code == p.code && d.name == p.name && d.description == p.description
    ensures d.targetValue.Some? <==> p.targetValue.Some?
    ensures d.targetValue.Some? ==> d.targetValue.value as real == p.targetValue.value.value && d.targetValue.value >= 1
    ensures d.trackingField == p.trackingType && d.kind == p.trackingType
  {
    AchievementChanges(p.code, p.name, p.description,
                       if p.targetValue.Some? then Some(p.targetValue.value.value.Floor) else None,
                       p.trackingType, p.trackingType)
  }

  function ApplyAchievementChanges(a: Achievement, d: AchievementChanges): Achievement {
    a.(code := d.code.GetOr(a.code),
       name := d.name.GetOr(a.name),
       description := d.description.GetOr(a.description),
       targetValue := d.targetValue.GetOr(a.targetValue),
       trackingField := d.trackingField.GetOr(a.trackingField),
       kind := d.kind.GetOr(a.kind))
  }

  /** An achievement update touches exactly the given fields, and keeps the
      tracking field and the type equal whenever it sets either. */
  lemma AchievementUpdateFields(a: Achievement, p: AchievementPayload)
    requires ValidAchievementPatch(p)
    ensures var u := ApplyAchievementChanges(a, AchievementUpdateData(p));
      && u.id == a.id
      && u.code == (if p.code.Some? then p.code.value else a.code)
      && u.name == (if p.name.Some? then p.name.value else a.name)
      && u.description == (if p.description.Some? then p.description.value else a.description)
      && (p.targetValue.None? ==> u.targetValue == a.targetValue)
      && (p.targetValue.Some? ==> u.targetValue as real == p.targetValue.value.value)
      && (p.trackingType.Some? ==> u.trackingField == p.trackingType.value == u.kind)
      && (p.trackingType.None? ==> u.trackingField == a.trackingField && u.kind == a.kind)
  {
  }

  /** The row `prisma.achievement.create` stores. */
  function NewAchievement(id: int, p: AchievementPayload): (a: Achievement)
    requires ValidAchievementCreate(p)
    ensures a.id == id && a.code == p.code.value && a.name == p.name.value && a.description == p.description.value
    ensures a.targetValue >= 1 && a.targetValue as real == p.targetValue.value.value
    ensures a.trackingField == p.trackingType.value && a.kind == p.trackingType.value
  {
    Achievement(id, p.code.value, p.name.value, p.description.value,
                p.targetValue.value.value.Floor, p.trackingType.value, p.trackingType.value)
  }

  // ---------------------------------------------------------------------
  // References and the delete guards
  // ---------------------------------------------------------------------

  /** `count({ where: { badgeId } })` / `count({ where: { achievementId } })`:
      the number of rows referring to the id, zero exactly when none does. */
  function CountRefs(links: seq<Link>, id: int): (n: nat)
    ensures n <= |links|
    ensures n == 0 <==> forall l :: l in links ==> l.targetId != id
  {
    if |links| == 0 then 0
    else
      assert links == [links[0]] + links[1..];
      (if links[0].targetId == id then 1 else 0) + CountRefs(links[1..], id)
  }

  /** Every link points at a stored record (the foreign key). */
  ghost predicate RefsValid<T>(table: map<int, T>, links: seq<Link>) {
    forall l :: l in links ==> l.targetId in table
  }

  /** A route's reply and the table it leaves behind. */
  datatype Effect<R, T> = Effect(reply: Reply<R>, table: map<int, T>)

  /** DELETE /badges/:id and DELETE /achievements/:id share this shape; only
      the messages differ. The reply data is `{ deleted: true }`. */
  function DeleteOutcome<T>(table: map<int, T>, links: seq<Link>, rawId: JsNumber, tenantId: Option<string>,
                            badId: string, notFound: string, inUse: string): Effect<bool, T>
  {
    match ParseNumericId(rawId)
    case None => Effect(Fail(400, badId), table)
    case Some(id) =>
      if TenantMissing(tenantId) then Effect(Fail(500, TenantMissingError), table)
      else if id !in table then Effect(Fail(404, notFound), table)
      else if CountRefs(links, id) > 0 then Effect(Fail(400, inUse), table)
      else Effect(Ok(true), table - {id})
  }

  /** A delete either refuses and changes nothing, or removes exactly the
      requested record, and then no row referred to it; so a delete never
      leaves a dangling reference. */
  lemma DeleteGuarded<T>(table: map<int, T>, links: seq<Link>, rawId: JsNumber, tenantId: Option<string>,
                         badId: string, notFound: string, inUse: string)
    requires RefsValid(table, links)
    ensures var e := DeleteOutcome(table, links, rawId, tenantId, badId, notFound, inUse);
      && RefsValid(e.table, links)
      && (e.reply.Fail? ==> e.table == table)
      && (e.reply.Ok? ==>
            var id := ParseNumericId(rawId).value;
            && id in table && e.table == table - {id}
            && forall l :: l in links ==> l.targetId != id)
      && (e.reply == Fail(400, inUse) && inUse != badId ==>
            exists l :: l in links && l.targetId == ParseNumericId(rawId).value)
  {
    var e := DeleteOutcome(table, links, rawId, tenantId, badId, notFound, inUse);
    match ParseNumericId(rawId)
    case None =>
    case Some(id) =>
      if e.reply.Ok? {
        forall l | l in links ensures l.targetId in e.table {
          assert l.targetId in table && l.targetId != id;
        }
      }
  }

  /** Removing a record no row refers to keeps every reference valid. */
  lemma RemoveUnreferenced<T>(table: map<int, T>, links: seq<Link>, id: int)
    requires RefsValid(table, links) && CountRefs(links, id) == 0
    ensures RefsValid(table - {id}, links)
  {
  }

  /** Without the count guard, deleting a referenced record would break the
      foreign key: the guard is needed. */
  lemma UnguardedDeleteDangles<T>(table: map<int, T>, links: seq<Link>, id: int)
    requires id in table && CountRefs(links, id) > 0
    ensures !RefsValid(table - {id}, links)
  {
    var l :| l in links && l.targetId == id;
    assert l.targetId !in table - {id};
  }

  /** PUT /badges/:id. */
  function UpdateBadgeOutcome(badges: map<int, Badge>, p: BadgePayload, rawId: JsNumber,
                              tenantId: Option<string>): Effect<Badge, Badge>
  {
    if !ValidBadgePatch(p) then Effect(Fail(400, "Invalid badge payload"), badges)
    else match ParseNumericId(rawId)
      case None => Effect(Fail(400, "Invalid badge id"), badges)
      case Some(id) =>
        if TenantMissing(tenantId) then Effect(Fail(500, TenantMissingError), badges)
        else if id !in badges then Effect(Fail(404, "Badge not found"), badges)
        else
          var updated := ApplyBadgeChanges(badges[id], BadgeUpdateData(p));
          Effect(Ok(updated), badges[id := updated])
  }

  /** PUT /achievements/:id. */
  function UpdateAchievementOutcome(achievements: map<int, Achievement>, p: AchievementPayload, rawId: JsNumber,
                                    tenantId: Option<string>): Effect<Achievement, Achievement>
  {
    if !ValidAchievementPatch(p) then Effect(Fail(400, "Invalid achievement payload"), achievements)
    else match ParseNumericId(rawId)
      case None => Effect(Fail(400, "Invalid achievement id"), achievements)
      case Some(id) =>
        if TenantMissing(tenantId) then Effect(Fail(500, TenantMissingError), achievements)
        else if id !in achievements then Effect(Fail(404, "Achievement not found"), achievements)
        else
          var updated := ApplyAchievementChanges(achievements[id], AchievementUpdateData(p));
          Effect(Ok(updated), achievements[id := updated])
  }

  /** An update keeps the set of records and every other record, and a
      refused update changes nothing. */
  lemma UpdateBadgeScoped(badges: map<int, Badge>, p: BadgePayload, rawId: JsNumber, tenantId: Option<string>)
    ensures var e := UpdateBadgeOutcome(badges, p, rawId, tenantId);
      && e.table.Keys == badges.Keys
      && (e.reply.Fail? ==> e.table == badges)
      && (e.reply == Fail(404, "Badge not found") <==>
            ValidBadgePatch(p) && ParseNumericId(rawId).Some? && !TenantMissing(tenantId)
            && ParseNumericId(rawId).value !in badges)
      && (e.reply.Ok? ==>
            var id := ParseNumericId(rawId).value;
            && e.reply.data.id == badges[id].id
            && forall k :: k in badges && k != id ==> e.table[k] == badges[k])
  {
  }

  /** The same for achievements. */
  lemma UpdateAchievementScoped(achievements: map<int, Achievement>, p: AchievementPayload, rawId: JsNumber,
                                tenantId: Option<string>)
    ensures var e := UpdateAchievementOutcome(achievements, p, rawId, tenantId);
      && e.table.Keys == achievements.Keys
      && (e.reply.Fail? ==> e.table == achievements)
      && (e.reply == Fail(404, "Achievement not found") <==>
            ValidAchievementPatch(p) && ParseNumericId(rawId).Some? && !TenantMissing(tenantId)
            && ParseNumericId(rawId).value !in achievements)
      && (e.reply.Ok? ==>
            var id := ParseNumericId(rawId).value;
            && e.reply.data.id == achievements[id].id
            && forall k :: k in achievements && k != id ==> e.table[k] == achievements[k])
  {
  }

  // ---------------------------------------------------------------------
  // The tables
  // ---------------------------------------------------------------------

  const BadgeBadId := "Invalid badge id"
  const BadgeNotFound := "Badge not found"
  const BadgeInUse := "Badge is assigned to users"
  const AchievementBadId := "Invalid achievement id"
  const AchievementNotFound := "Achievement not found"
  const AchievementInUse := "Achievement has progress records"

  class Catalog {
    var badges: map<int, Badge>
    var achievements: map<int, Achievement>
    /** `userBadge` rows; `targetId` is the badge id. */
    var userBadges: seq<Link>
    /** `userAchievement` rows; `targetId` is the achievement id. */
    var progress: seq<Link>
    /** The next id the database's sequence hands out for each table. */
    var nextBadgeId: int
    var nextAchievementId: int

    ghost predicate Valid()
      reads this
    {
      && (forall id :: id in badges ==> badges[id].id == id && id < nextBadgeId)
      && (forall id :: id in achievements ==> achievements[id].id == id && id < nextAchievementId)
      && RefsValid(badges, userBadges)
      && RefsValid(achievements, progress)
    }

    /** The tables as the database holds them: every record stored under its
        own id below the next id of its sequence, and every award or progress
        row pointing at a stored record. */
    constructor (badges: map<int, Badge>, achievements: map<int, Achievement>,
                 userBadges: seq<Link>, progress: seq<Link>, nextBadgeId: int, nextAchievementId: int)
      requires forall id :: id in badges ==> badges[id].id == id && id < nextBadgeId
      requires forall id :: id in achievements ==> achievements[id].id == id && id < nextAchievementId
      requires forall l :: l in userBadges ==> l.targetId in badges
      requires forall l :: l in progress ==> l.targetId in achievements
      ensures Valid()
      ensures this.badges == badges && this.achievements == achievements
      ensures this.userBadges == userBadges && this.progress == progress
      ensures this.nextBadgeId == nextBadgeId && this.nextAchievementId == nextAchievementId
    {
      this.badges := badges;
      this.achievements := achievements;
      this.userBadges := userBadges;
      this.progress := progress;
      this.nextBadgeId := nextBadgeId;
      this.nextAchievementId := nextAchievementId;
    }

    /** POST /badges: the new badge, with status 201. */
    method CreateBadge(p: BadgePayload, tenantId: Option<string>) returns (reply: Reply<Badge>)
      requires Valid()
      modifies this
      ensures Valid()
      ensures !ValidBadgeCreate(p) ==> reply == Fail(400, "Invalid badge payload") && badges == old(badges)
      ensures ValidBadgeCreate(p) && TenantMissing(tenantId) ==>
                reply == Fail(500, TenantMissingError) && badges == old(badges)
      ensures ValidBadgeCreate(p) && !TenantMissing(tenantId) ==>
                reply == Ok(NewBadge(old(nextBadgeId), p)) && nextBadgeId == old(nextBadgeId) + 1
      ensures reply.Ok? ==> ValidBadgeCreate(p) && old(nextBadgeId) !in old(badges)
                            && reply.data == NewBadge(old(nextBadgeId), p)
                            && badges == old(badges)[old(nextBadgeId) := reply.data]
      ensures achievements == old(achievements) && userBadges == old(userBadges) && progress == old(progress)
    {
      if !ValidBadgeCreate(p) {
        return Fail(400, "Invalid badge payload");
      }
      if TenantMissing(tenantId) {
        return Fail(500, TenantMissingError);
      }
      var badge := NewBadge(nextBadgeId, p);
      badges := badges[nextBadgeId := badge];
      nextBadgeId := nextBadgeId + 1;
      reply := Ok(badge);
    }

    /** POST /achievements: the new achievement, with status 201. */
    method CreateAchievement(p: AchievementPayload, tenantId: Option<string>) returns (reply: Reply<Achievement>)
      requires Valid()
      modifies this
      ensures Valid()
      ensures !ValidAchievementCreate(p) ==>
                reply == Fail(400, "Invalid achievement payload") && achievements == old(achievements)
      ensures ValidAchievementCreate(p) && TenantMissing(tenantId) ==>
                reply == Fail(500, TenantMissingError) && achievements == old(achievements)
      ensures ValidAchievementCreate(p) && !TenantMissing(tenantId) ==>
                reply == Ok(NewAchievement(old(nextAchievementId), p)) && nextAchievementId == old(nextAchievementId) + 1
      ensures reply.Ok? ==> ValidAchievementCreate(p) && old(nextAchievementId) !in old(achievements)
                            && reply.data == NewAchievement(old(nextAchievementId), p)
                            && achievements == old(achievements)[old(nextAchievementId) := reply.data]
      ensures badges == old(badges) && userBadges == old(userBadges) && progress == old(progress)
    {
      if !ValidAchievementCreate(p) {
        return Fail(400, "Invalid achievement payload");
      }
      if TenantMissing(tenantId) {
        return Fail(500, TenantMissingError);
      }
      var achievement := NewAchievement(nextAchievementId, p);
      achievements := achievements[nextAchievementId := achievement];
      nextAchievementId := nextAchievementId + 1;
      reply := Ok(achievement);
    }

    /** PUT /badges/:id. */
    method UpdateBadge(p: BadgePayload, rawId: JsNumber, tenantId: Option<string>) returns (reply: Reply<Badge>)
      requires Valid()
      modifies this
      ensures Valid()
      ensures Effect(reply, badges) == UpdateBadgeOutcome(old(badges), p, rawId, tenantId)
      ensures achievements == old(achievements) && userBadges == old(userBadges) && progress == old(progress)
    {
      if !ValidBadgePatch(p) {
        return Fail(400, "Invalid badge payload");
      }
      var badgeId := ParseNumericId(rawId);
      if badgeId.None? {
        return Fail(400, "Invalid badge id");
      }
      if TenantMissing(tenantId) {
        return Fail(500, TenantMissingError);
      }
      var id := badgeId.value;
      if id !in badges {
        return Fail(404, BadgeNotFound);
      }
      var updated := ApplyBadgeChanges(badges[id], BadgeUpdateData(p));
      badges := badges[id := updated];
      reply := Ok(updated);
    }

    /** PUT /achievements/:id. */
    method UpdateAchievement(p: AchievementPayload, rawId: JsNumber, tenantId: Option<string>)
      returns (reply: Reply<Achievement>)
      requires Valid()
      modifies this
      ensures Valid()
      ensures Effect(reply, achievements) == UpdateAchievementOutcome(old(achievements), p, rawId, tenantId)
      ensures badges == old(badges) && userBadges == old(userBadges) && progress == old(progress)
    {
      if !ValidAchievementPatch(p) {
        return Fail(400, "Invalid achievement payload");
      }
      var achievementId := ParseNumericId(rawId);
      if achievementId.None? {
        return Fail(400, "Invalid achievement id");
      }
      if TenantMissing(tenantId) {
        return Fail(500, TenantMissingError);
      }
      var id := achievementId.value;
      if id !in achievements {
        return Fail(404, AchievementNotFound);
      }
      var updated := ApplyAchievementChanges(achievements[id], AchievementUpdateData(p));
      achievements := achievements[id := updated];
      reply := Ok(updated);
    }

    /** DELETE /badges/:id. */
    method DeleteBadge(rawId: JsNumber, tenantId: Option<string>) returns (reply: Reply<bool>)
      requires Valid()
      modifies this
      ensures Valid()
      ensures Effect(reply, badges) == DeleteOutcome(old(badges), userBadges, rawId, tenantId, BadgeBadId, BadgeNotFound, BadgeInUse)
      ensures achievements == old(achievements) && userBadges == old(userBadges) && progress == old(progress)
    {
      var badgeId := ParseNumericId(rawId);
      if badgeId.None? {
        return Fail(400, BadgeBadId);
      }
      if TenantMissing(tenantId) {
        return Fail(500, TenantMissingError);
      }
      var id := badgeId.value;
      if id !in badges {
        return Fail(404, BadgeNotFound);
      }
      var assignedCount := CountRefs(userBadges, id);
      if assignedCount > 0 {
        return Fail(400, BadgeInUse);
      }
      RemoveUnreferenced(badges, userBadges, id);
      badges := badges - {id};
      reply := Ok(true);
    }

    /** DELETE /achievements/:id. */
    method DeleteAchievement(rawId: JsNumber, tenantId: Option<string>) returns (reply: Reply<bool>)
      requires Valid()
      modifies this
      ensures Valid()
      ensures Effect(reply, achievements)
           == DeleteOutcome(old(achievements), progress, rawId, tenantId, AchievementBadId, AchievementNotFound, AchievementInUse)
      ensures badges == old(badges) && userBadges == old(userBadges) && progress == old(progress)
    {
      var achievementId := ParseNumericId(rawId);
      if achievementId.None? {
        return Fail(400, AchievementBadId);
      }
      if TenantMissing(tenantId) {
        return Fail(500, TenantMissingError);
      }
      var id := achievementId.value;
      if id !in achievements {
        return Fail(404, AchievementNotFound);
      }
      var progressCount := CountRefs(progress, id);
      if progressCount > 0 {
        return Fail(400, AchievementInUse);
      }
      RemoveUnreferenced(achievements, progress, id);
      achievements := achievements - {id};
      reply := Ok(true);
    }
  }

  /** A badge that has been awarded cannot be deleted, and stays; once the
      award row is gone (another route's business) the same delete succeeds. */
  method AwardedBadgeStays(b: Badge, tenantId: string)
    requires b.id >= 1 && tenantId != ""
  {
    var catalog := new Catalog(map[b.id := b], map[], [Link(7, b.id)], [], b.id + 1, 1);
    var reply := catalog.DeleteBadge(Finite(b.id as real), Some(tenantId));
    assert (b.id as real).Floor == b.id;
    assert CountRefs([Link(7, b.id)], b.id) == 1;
    assert reply == Fail(400, BadgeInUse) && b.id in catalog.badges;
    var cleared := new Catalog(map[b.id := b], map[], [], [], b.id + 1, 1);
    reply := cleared.DeleteBadge(Finite(b.id as real), Some(tenantId));
    assert reply == Ok(true) && cleared.badges == map[];
  }
}
