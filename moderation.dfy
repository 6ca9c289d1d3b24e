/**
 * The moderation cog: the warn, warnings, clearwarn, mute and unmute commands
 * over the three stored documents.
 *
 * The class holds the three documents as they are on disk; a command that
 * writes a document replaces the field whole. Platform calls are not made
 * here: their answers come in as parameters (the guild's role ids, the
 * member's role ids, what `create_role` returned, whether `member.edit`
 * succeeded). When `create_role` or `member.edit` raises, the command ends
 * where it stands, so whatever was written before it stays written; the model
 * returns that as an outcome. Message sends are taken to succeed. `effects` is the ordered log of document writes, successful
 * platform calls and public-log posts, so that ordering can be stated.
 */
module Moderation {
  import opened Store

  /** What a command did, in the order it did it. */
  datatype Effect =
    | WroteWarns
    | WroteMutes
    | WroteOptions
    | CreatedRole(role: RoleId)
    | EditedRoles(member: Key, roles: seq<RoleId>)
    | PostedPublicLog(action: Action)

  datatype Action = Warned | Muted | Unmuted

  /** One field of the `warnings` embed: 'Warning #number' with the reason. */
  datatype WarningField = WarningField(number: nat, reason: Reason)

  /** What `warnings` shows: '<member> has <count> <noun>!' and one field per entry. */
  datatype WarningsReport = WarningsReport(count: nat, noun: string, fields: seq<WarningField>)

  datatype ClearOutcome = Cleared | InvalidId | NoWarns

  datatype MuteOutcome =
    | MuteDone(role: RoleId)              // record written after the role swap
    | AlreadyMuted(role: RoleId)          // options written, mutes untouched
    | RoleCreationFailed                  // `create_role` raised: nothing written
    | MuteEditFailed(role: RoleId)        // `member.edit` raised: options written, no record

  datatype UnmuteOutcome =
    | NoOneMuted                          // guild key missing from mutes
    | NotMuted                            // member key missing
    | UnmuteDone(roles: seq<RoleId>)      // record removed, roles restored
    | UnmuteEditFailed(roles: seq<RoleId>) // record removed, `member.edit` raised

  /** 'warning' for exactly one entry, 'warnings' otherwise (zero included). */
  function WarningNoun(count: nat): (noun: string)
    ensures noun == "warning" <==> count == 1
    ensures noun == "warnings" <==> count != 1
  {
    if count == 1 then "warning" else "warnings"
  }

  /** The log post a command makes after it succeeded, if the gate is open. */
  function LogPost(options: OptionsDoc, g: Key, action: Action): (post: seq<Effect>)
    ensures post == [] || post == [PostedPublicLog(action)]
    ensures post != [] <==> PublicLogConfigured(options, g)
  {
    if PublicLogConfigured(options, g) then [PostedPublicLog(action)] else []
  }

  class ModerationCog {
    var warns: WarnsDoc
    var mutes: MutesDoc
    var options: OptionsDoc
    var effects: seq<Effect>

    constructor (warns: WarnsDoc, mutes: MutesDoc, options: OptionsDoc)
      ensures this.warns == warns && this.mutes == mutes && this.options == options
      ensures effects == []
    {
      this.warns := warns;
      this.mutes := mutes;
      this.options := options;
      effects := [];
    }

    /** `warn`: append the reason to the member's list and write the document. */
    method Warn(g: Key, m: Key, reason: Option<Reason>)
      modifies this
      ensures warns == WithWarning(old(warns), g, m, ReasonOrDefault(reason))
      ensures Entries(warns, g, m) == Entries(old(warns), g, m) + [ReasonOrDefault(reason)]
      ensures mutes == old(mutes) && options == old(options)
      ensures effects == old(effects) + [WroteWarns] + LogPost(options, g, Warned)
    {
      warns := WithWarning(warns, g, m, ReasonOrDefault(reason));
      effects := effects + [WroteWarns];
      effects := effects + LogPost(options, g, Warned);
    }

    /** `warnings`: the count, the plural choice and the numbered entries. */
    method Warnings(g: Key, m: Key) returns (report: WarningsReport)
      ensures report.count == |Entries(warns, g, m)|
      ensures (g !in warns || m !in warns[g]) ==> report.count == 0
      ensures report.noun == WarningNoun(report.count)
      ensures |report.fields| == report.count
      ensures forall i :: 0 <= i < report.count ==>
                report.fields[i] == WarningField(i + 1, Entries(warns, g, m)[i])
    {
      var count := 0;
      var noun := "warnings";
      if g in warns && m in warns[g] {
        count := |warns[g][m]|;
        if count == 1 {
          noun := "warning";
        }
      }
      var fields: seq<WarningField> := [];
      var i := 0;
      while i < count
        invariant 0 <= i <= count
        invariant |fields| == i
        invariant forall k :: 0 <= k < i ==> fields[k] == WarningField(k + 1, warns[g][m][k])
      {
        fields := fields + [WarningField(i + 1, warns[g][m][i])];
        i := i + 1;
      }
      report := WarningsReport(count, noun, fields);
    }

    /** `clearwarn`: remove the entry with 1-based number `id`, with a bounds check. */
    method ClearWarn(g: Key, m: Key, id: int) returns (outcome: ClearOutcome)
      modifies this
      ensures outcome == (if g in old(warns) && m in old(warns)[g] then
                            if ValidWarnId(|old(warns)[g][m]|, id) then Cleared else InvalidId
                          else NoWarns)
      ensures outcome == Cleared ==> warns == WithoutWarning(old(warns), g, m, id)
      ensures outcome == Cleared ==> effects == old(effects) + [WroteWarns]
      ensures outcome != Cleared ==> warns == old(warns) && effects == old(effects)
      ensures mutes == old(mutes) && options == old(options)
    {
      if g in warns && m in warns[g] {
        if ValidWarnId(|warns[g][m]|, id) {
          warns := WithoutWarning(warns, g, m, id);
          effects := effects + [WroteWarns];
          outcome := Cleared;
        } else {
          outcome := InvalidId;
        }
      } else {
        outcome := NoWarns;
      }
    }

    /** `create_muted_role`: ask the platform for a new role; `created` is its answer. */
    method CreateMutedRole(created: Option<RoleId>) returns (role: Option<RoleId>)
      modifies this`effects
      ensures role == created
      ensures effects == old(effects) + (if created.Some? then [CreatedRole(created.value)] else [])
    {
      role := created;
      if created.Some? {
        effects := effects + [CreatedRole(created.value)];
      }
    }

    /**
     * `mute`. Finds or creates the muted role, caches its id in the options
     * document and writes it; then refuses a member who already has a record;
     * then swaps the member's roles for the muted role; only after that swap
     * writes the member's other roles into the mutes document.
     */
    method Mute(g: Key, m: Key, guildRoles: set<RoleId>, defaultRole: RoleId,
                memberRoles: seq<RoleId>, created: Option<RoleId>, editSucceeds: bool)
      returns (outcome: MuteOutcome)
      requires defaultRole in memberRoles
      modifies this
      ensures var configured := ConfiguredMutedRole(old(options), g, guildRoles);
              outcome == (if configured.None? && created.None? then RoleCreationFailed
                          else
                            var role := if configured.Some? then configured.value else created.value;
                            if IsMuted(old(mutes), g, m) then AlreadyMuted(role)
                            else if !editSucceeds then MuteEditFailed(role)
                            else MuteDone(role))
      ensures outcome.RoleCreationFailed? ==> options == old(options) && effects == old(effects)
      ensures !outcome.RoleCreationFailed? ==> options == WithMutedRole(old(options), g, outcome.role)
      ensures mutes == if outcome.MuteDone? then WithMute(old(mutes), g, m, RemoveFirst(memberRoles, defaultRole))
                       else old(mutes)
      ensures warns == old(warns)
      ensures !outcome.RoleCreationFailed? ==>
                var creation := if ConfiguredMutedRole(old(options), g, guildRoles).None?
                                then [CreatedRole(outcome.role)] else [];
                effects == old(effects) + creation + [WroteOptions] +
                           (if outcome.MuteDone?
                            then [EditedRoles(m, [outcome.role]), WroteMutes] + LogPost(options, g, Muted)
                            else [])
    {
      var role: RoleId;
      var configured := ConfiguredMutedRole(options, g, guildRoles);
      if configured.Some? {
        role := configured.value;
      } else {
        var made := CreateMutedRole(created);
        if made.None? {
          outcome := RoleCreationFailed;
          return;
        }
        role := made.value;
      }
      options := WithMutedRole(options, g, role);
      effects := effects + [WroteOptions];

      var saved := RemoveFirst(memberRoles, defaultRole);
      if IsMuted(mutes, g, m) {
        outcome := AlreadyMuted(role);
        return;
      }
      if !editSucceeds {
        outcome := MuteEditFailed(role);
        return;
      }
      effects := effects + [EditedRoles(m, [role])];
      mutes := WithMute(mutes, g, m, saved);
      effects := effects + [WroteMutes];
      effects := effects + LogPost(options, g, Muted);
      outcome := MuteDone(role);
    }

    /**
     * `unmute`. Reports a guild or member without a record; otherwise pops
     * the record, writes the mutes document, and only then hands the saved
     * ids to `member.edit`.
     */
    method Unmute(g: Key, m: Key, editSucceeds: bool) returns (outcome: UnmuteOutcome)
      modifies this
      ensures g !in old(mutes) ==> outcome == NoOneMuted
      ensures g in old(mutes) && m !in old(mutes)[g] ==> outcome == NotMuted
      ensures IsMuted(old(mutes), g, m) ==>
                outcome == (if editSucceeds then UnmuteDone(old(mutes)[g][m]) else UnmuteEditFailed(old(mutes)[g][m]))
      ensures mutes == if IsMuted(old(mutes), g, m) then WithoutMute(old(mutes), g, m) else old(mutes)
      ensures warns == old(warns) && options == old(options)
      ensures effects == old(effects) +
                (if !IsMuted(old(mutes), g, m) then []
                 else [WroteMutes] +
                      (if editSucceeds then [EditedRoles(m, old(mutes)[g][m])] + LogPost(options, g, Unmuted) else []))
    {
      if g !in mutes {
        outcome := NoOneMuted;
        return;
      }
      if m !in mutes[g] {
        outcome := NotMuted;
        return;
      }
      var roles := mutes[g][m];
      mutes := WithoutMute(mutes, g, m);
      effects := effects + [WroteMutes];
      if !editSucceeds {
        outcome := UnmuteEditFailed(roles);
        return;
      }
      effects := effects + [EditedRoles(m, roles)];
      effects := effects + LogPost(options, g, Unmuted);
      outcome := UnmuteDone(roles);
    }
  }

  /**
   * Mute, mute again, unmute on one cog. The second mute gets its own
   * `create_role` answer `created2`, yet reuses the role the first one cached
   * (its only effect is the options write, no `CreatedRole`) and is refused
   * without touching the record, although the member now holds only the
   * default role and the muted role; the unmute hands back exactly the roles the first
   * mute saved: the member's roles without the guild default role.
   */
  method MuteTwiceThenUnmute(cog: ModerationCog, g: Key, m: Key, guildRoles: set<RoleId>, defaultRole: RoleId,
                             memberRoles: seq<RoleId>, created: Option<RoleId>, created2: Option<RoleId>)
    returns (first: MuteOutcome, second: MuteOutcome, secondEffects: seq<Effect>, restored: UnmuteOutcome)
    requires defaultRole in memberRoles
    requires !IsMuted(cog.mutes, g, m)
    modifies cog
    ensures first.MuteDone? ==> second == AlreadyMuted(first.role)
    ensures first.MuteDone? ==> secondEffects == [WroteOptions]
    ensures first.MuteDone? ==> restored == UnmuteDone(RemoveFirst(memberRoles, defaultRole))
    ensures first.MuteDone? ==> !IsMuted(cog.mutes, g, m)
    ensures first.MuteDone? ==> cog.options == WithMutedRole(old(cog.options), g, first.role)
  {
    first := cog.Mute(g, m, guildRoles, defaultRole, memberRoles, created, true);
    var rolesNow := if first.RoleCreationFailed? then guildRoles else guildRoles + {first.role};
    if !first.RoleCreationFailed? {
      CachedMutedRoleIsReused(cog.options, g, first.role, rolesNow);
    }
    var before := cog.effects;
    var rolesHeld := if first.MuteDone? then [defaultRole, first.role] else memberRoles;
    second := cog.Mute(g, m, rolesNow, defaultRole, rolesHeld, created2, true);
    secondEffects := cog.effects[|before|..];
    restored := cog.Unmute(g, m, true);
  }
}
